# rescript-lang.org build scripts, edge functions and editor modes in Dafny

This project models the logic of the rescript-lang.org website that is
not page content:

- **Redirects.** The redirect table of `next.config.mjs`. The model covers
  how `redirects()` writes the `_redirects` rule file, the assertion on
  wildcard ("splat") rules and the production-only write.
  `scripts/sync-redirects.mjs` formats the same rules again.
- **Static rendering.** The static-site generation loop of
  `vite.config.mjs` and the RSC request handler of
  `src/framework/entry.rsc.jsx`.
- **Build scripts.**
  - `scripts/test-examples.mjs` rewrites documentation code fences into a
    compilable ReScript file.
  - `scripts/markdown.js` holds the two remark plugins that collect page
    headers and normalise signature code blocks.
  - `scripts/extract-indices.mjs` and `scripts/extract-syntax.mjs` build the
    API and syntax search indices.
  - `scripts/test-hrefs.mjs` counts link-check issues.
  - `generate-route-types.mjs` writes the `Path.t` route type.
- **Edge functions.** `resources.json.js` collects Open Graph tags.
  `packages_url_resources.json.js` lists npm packages.
- **Editor modes.** The ReScript and Reason CodeMirror 6 stream modes.

Modules follow the source files' roles. Most source files have one module each. The two editor modes share CmStream, for CodeMirror's `StringStream`, and CmRules, for their common regular expressions:

- Redirects, SyncRedirects
- StaticRender, RscEntry
- ExampleTests, Markdown
- ApiIndex, SyntaxIndex
- LinkCheck, RouteTypes
- OgResources, NpmPackages
- CmStream, CmRules, ReScriptMode, ReasonMode

Four helper modules model the JavaScript and Node library calls the
scripts rely on:

- Strings: split, join, includes and replace.
- Paths: `path.parse`, and `path.join` on an already normalised relative directory.
- Sorting: `Array.prototype.sort` with a comparator.
- Wrappers: `Option` and `Result`.

Code that updates state step by step is imperative Dafny, proved against
a specification function. This covers:

- the render loop (`StaticRender.OutDir`);
- the `shouldAllow` closure and its `unmaintained` array
  (`NpmPackages.Search`);
- the Open Graph collector (`OgResources.Collector`);
- the reduce of `createIndex`, the parse and driver loops of the example
  tester, the issue loop of the link checker;
- CodeMirror's `StringStream` and the tokenisers.

The regular expressions of the editor modes are written out as recogniser
functions. Each one returns the length of the match at the start of the
rest of the line, or 0.

Everything outside the process is a parameter:

- the server entry of the static renderer (a function from request to
  response);
- `fetch` and the HTML rewriter (for each URL a rejection, or a
  response with its `ok` flag and the meta tags of the page);
- the ReScript compiler (a predicate on the generated text);
- the link reporter (a function from file to report);
- `localeCompare` (any total preorder).

## Model

| member | source | states |
|---|---|---|
| Redirects.SimpleLine | next.config.mjs:163-165 | specification of a simple rule's line: source, two spaces, destination, two spaces, 308 for a permanent rule and 307 otherwise; `SimpleLineRoundTrip` states that it reads back |
| Redirects.SplatLine | next.config.mjs:169-174 | specification of a splat rule's line, or the failure of the assertion on its source or destination; `SplatLineRewrite` and `SplatLineOf` state what it writes |
| Redirects.RedirectsFile | next.config.mjs:161-175 | specification of the file text, or the first failed assertion; `RedirectsFileLines`, `FileIsJoin` and `RedirectsFileSucceeds` state its shape |
| Redirects.Redirects | next.config.mjs:157-180 | specification of `redirects()`: the file written in production and the rules returned; `RedirectsOutcome` states both |
| Redirects.SplatStart | next.config.mjs:170-172 | finds `:name*` at the end of a pattern exactly where `/:(\w+)\*$/` matches, and reports none when it does not |
| Redirects.SplatUnique | next.config.mjs:170 | the splat pattern matches a pattern at most at one place |
| Redirects.WordRunStart | next.config.mjs:170 | the start of the maximal run of `\w` characters before a position |
| Redirects.SplatLines | next.config.mjs:168-175 | all splat lines in order, or the failure of the first rule whose assertion fails, every earlier rule having passed |
| Redirects.SimpleLineRoundTrip | next.config.mjs:162-165 | a rule line with space-free patterns splits back into source, destination and status, with 308 exactly for permanent rules |
| Redirects.SplatLineRewrite | next.config.mjs:168-174 | a splat rule passes exactly when both patterns end in `:name*`; then only that ending is rewritten, to `*` in the source and to `:splat` in the destination, and the status is kept |
| Redirects.RewrittenPlain | next.config.mjs:173 | rewriting a splat rule adds no space and no line break |
| Redirects.ReadBack | next.config.mjs:160-177 | rules written one per line and joined with newlines read back, line by line, as those rules |
| Redirects.RedirectsFileLines | next.config.mjs:157-177 | the rule file is produced exactly when every splat rule passes; it then has one line per rule, the simple rules first and the rewritten splat rules after them, in declaration order |
| Redirects.RedirectsFileSucceeds | next.config.mjs:168-175 | the file text exists exactly when no splat assertion fails |
| Redirects.FileIsJoin | next.config.mjs:162-175 | when every splat rule passes, the file is the lines of the simple rules and the rewritten splat rules joined by single newlines |
| Redirects.SplatLinesRewritten | next.config.mjs:168-175 | when every splat rule passes, the splat lines are the lines of the rewritten rules |
| Redirects.WrittenPlain | next.config.mjs:162-175 | the rules written from plain tables are plain |
| Redirects.RedirectsOutcome | next.config.mjs:157-180 | the file is written only in a production build; there, a failing assertion aborts `redirects()`; the returned rules are the simple rules followed by the splat rules, not rewritten |
| Redirects.SplatSuffix | next.config.mjs:170-172 | a pattern ending in `:` and a word name and `*` matches the splat pattern at that colon |
| Redirects.SplatLineOf | next.config.mjs:170-174 | a rule whose two patterns end in `:name*` is written with `*` and `:splat` in their place and its status |
| Redirects.ManualLatestPasses | next.config.mjs:135-139 | the latest-manual splat rule passes the assertion whatever `VERSION_LATEST` holds |
| Redirects.ManualNextPasses | next.config.mjs:140-144 | the next-manual splat rule passes whatever `VERSION_NEXT` holds |
| Redirects.LlmsLatestPasses | next.config.mjs:145-149 | the latest LLM-text splat rule passes whatever `VERSION_LATEST` holds |
| Redirects.LlmsNextPasses | next.config.mjs:150-154 | the next LLM-text splat rule passes whatever `VERSION_NEXT` holds |
| Redirects.ShippedTablesWrite | next.config.mjs:134-178 | the shipped tables always produce the file, so a production build always writes it |
| Redirects.ProductionWrites | next.config.mjs:157-178 | a production build writes the file as soon as every splat rule passes |
| Redirects.LatestManualParts | next.config.mjs:135-139 | the line of the latest-manual splat rule, piece by piece |
| Redirects.LatestManualLine | next.config.mjs:136-137 | the latest-manual splat rule is written as `/docs/manual/latest/*  /docs/manual/<VERSION_LATEST>/:splat  307` |
| SyncRedirects.LineFormat | scripts/sync-redirects.mjs:16-18 | specification of `lineFormat`; `LineFormatAgrees` states that it is the simple-rule line |
| SyncRedirects.SyncRedirectsText | scripts/sync-redirects.mjs:6-20 | specification of the synced text; `SyncLines`, `SyncUsesReturnedRules` and `SyncDiffersOnSplat` state its lines |
| SyncRedirects.LineFormatAgrees | scripts/sync-redirects.mjs:16-18 | `lineFormat` writes a rule exactly as next.config.mjs writes a simple rule |
| SyncRedirects.SyncLines | scripts/sync-redirects.mjs:20 | the synced text has one line per rule, in order, each reading back as its rule, with no trailing newline |
| SyncRedirects.SyncUsesReturnedRules | scripts/sync-redirects.mjs:6-20 | the synced text holds the rules `redirects()` returns, splat rules unrewritten, in every environment |
| SyncRedirects.SyncDiffersOnSplat | scripts/sync-redirects.mjs:16-20 | for a splat rule the synced line differs from the line next.config.mjs writes |
| StaticRender.NormalizeHtmlFilePath | vite.config.mjs:88-93 | specification of `normalizeHtmlFilePath`; `HtmlFilePathShape` and `HtmlFileCollision` state its results |
| StaticRender.RscFilePath | vite.config.mjs:67 | specification of `rscPath`, the page path followed by the RSC suffix; `RscFileNotHtml` and `RenderRequests` state its properties |
| StaticRender.RenderPage | vite.config.mjs:66-84 | specification of one turn of the loop: requests issued, files written, failure; `PageWrites` and `PageFails` state each outcome |
| StaticRender.Render | vite.config.mjs:65-85 | specification of the loop over all pages; `RenderUnfold`, `RenderSucceeds`, `RenderFiles` and `RenderAborts` state its outcome |
| StaticRender.HtmlFilePathShape | vite.config.mjs:88-93 | the HTML file of a page is its path followed by `index.html` when the path ends in `/`, and by `.html` otherwise |
| StaticRender.HtmlFileCollision | vite.config.mjs:88-93 | two different page paths get the same normalised HTML name only when one is a directory path `p/` and the other is `p/index` |
| StaticRender.RscFileNotHtml | vite.config.mjs:72-83 | an RSC name never equals a normalised HTML name, so the two kinds of write never clash |
| StaticRender.RenderUnfold | vite.config.mjs:65-85 | a run is its first page followed, if that page did not fail, by the run over the other pages |
| StaticRender.Advance | vite.config.mjs:65-85 | one turn of the loop keeps the run of the pages so far a prefix of the whole run |
| StaticRender.RenderAppend | vite.config.mjs:65-85 | running over `a + b` is running over `a` and then, unless that failed, over `b` |
| StaticRender.RenderStep | vite.config.mjs:65-85 | the run goes on past the first page exactly when that page's two requests succeed |
| StaticRender.PageWrites | vite.config.mjs:67-84 | a page whose two requests succeed issues the HTML request then the RSC request, and writes the HTML file then the RSC file |
| StaticRender.PageFails | vite.config.mjs:68-80 | a page whose requests do not both return 200 stops at the first failing request and writes only what came before it |
| StaticRender.RenderSucceeds | vite.config.mjs:65-85 | the build succeeds exactly when every page's two requests return 200 |
| StaticRender.RenderFiles | vite.config.mjs:65-85 | when every page succeeds, the files written are, page by page in order, the HTML file then the RSC file |
| StaticRender.RenderAborts | vite.config.mjs:65-85 | on the first failing page the build stops; the files of earlier pages are written, and the failure names that page's failing request |
| StaticRender.PrefixSucceeds | vite.config.mjs:65-85 | the pages before the first failing page run without failure |
| StaticRender.AbortSplit | vite.config.mjs:65-85 | a run that gets through `a` and fails on the first page of `b` ends with that page |
| StaticRender.RenderRequests | vite.config.mjs:67-79 | every request goes to the fixed origin, and every RSC request is the HTML request's path with the suffix, which the handler maps back to that path |
| StaticRender.OutDir.RenderStatic | vite.config.mjs:51-86 | the loop's requests, files and failure are those of the specification run over the static paths |
| StaticRender.OutDir.RenderOne | vite.config.mjs:66-84 | one turn of the loop appends exactly what one page of the specification run issues and writes |
| RscEntry.Classify | src/framework/entry.rsc.jsx:8-13 | a request is for the RSC payload exactly when its pathname ends with the suffix, and then exactly one copy of the suffix is removed |
| RscEntry.Handler | src/framework/entry.rsc.jsx:7-36 | status 200 and `vary: accept`; the RSC content type and the RSC stream for an RSC request; the HTML content type and the rendered HTML otherwise |
| RscEntry.SuffixRoundTrip | src/framework/entry.rsc.jsx:10-13 | the RSC request the static renderer builds for a page is rendered for that page itself |
| RscEntry.StripsOnce | src/framework/entry.rsc.jsx:10-13 | a doubled suffix loses only one copy |
| RscEntry.ClassifyInjectiveOnRsc | src/framework/entry.rsc.jsx:10-13 | different pages' RSC requests never map to the same page |
| RouteTypes.PathText | generate-route-types.mjs:16 | a route's path shows as itself in the template literal, and an index route, which has no path, shows as `undefined` |
| RouteTypes.Alternative | generate-route-types.mjs:16 | the alternative of a route is `#"/`, the text of its path (`undefined` for an index route) and `"` |
| RouteTypes.IndexRouteAlternative | app/routes.mjs:9 | an index route gives the alternative `#"/undefined"` |
| RouteTypes.IndexLooksUndefined | app/routes.mjs:9 | an index route and a route with the path `undefined` give the same alternative |
| RouteTypes.FileText | generate-route-types.mjs:18-24 | specification of the text written to `src/Path.res`; `FileLines` states its lines |
| RouteTypes.JoinSuffixed | generate-route-types.mjs:16 | joining with ` \|` and a newline is joining the suffixed alternatives with newlines |
| RouteTypes.JoinFrame | generate-route-types.mjs:18-24 | the file frame: the opening line, the alternative block, the closing line and the final newline |
| RouteTypes.FileLines | generate-route-types.mjs:16-24 | the file's lines are `type t = [`, one line per route in route order ending in ` \|` except the last (a single empty line when there is no route), `]`, and the empty rest after the final newline |
| RouteTypes.IndexRouteFirstLine | generate-route-types.mjs:16-24 | a route table that starts with an index route and has another route writes `#"/undefined" \|` as its first alternative line |
| RouteTypes.ShippedFirstLine | app/routes.mjs:8-22 | the shipped table (the home page's index route, then the index route that `prefix("community", …)` gives the path `community`) writes `#"/undefined" \|` as its first alternative line |
| RouteTypes.AlternativeInjective | generate-route-types.mjs:16 | two routes give the same alternative exactly when their paths show alike |
| ExampleTests.OutLine | scripts/test-examples.mjs:24-45 | specification of the callback's output line; `OutLineCases` and `LineRule` state it case by case |
| ExampleTests.NextState | scripts/test-examples.mjs:26-42 | specification of the callback's update of `moduleId` and the open-block flag; `IdsCount` and `OpenIff` state what the state holds |
| ExampleTests.Parsed | scripts/test-examples.mjs:14-47 | specification of `parseFile`; `ParseFile` states it |
| ExampleTests.Wrapped | scripts/test-examples.mjs:22-46 | the mapped text has one output line per input line |
| ExampleTests.WrappedSnoc | scripts/test-examples.mjs:22-46 | mapping a page with one more line adds that line's output at the end |
| ExampleTests.WrappedAt | scripts/test-examples.mjs:22-46 | output line `k` is the callback applied to line `k` in the state left by the lines before it |
| ExampleTests.LineRule | scripts/test-examples.mjs:24-45 | an example or sig fence becomes a numbered module header, a prelude fence becomes `include {`, a closing fence inside a block becomes the module end, other lines inside a block are copied, and lines outside blocks become empty |
| ExampleTests.OutLineCases | scripts/test-examples.mjs:25-44 | the callback's output for each kind of line, in the order of its tests |
| ExampleTests.IdsCount | scripts/test-examples.mjs:20-34 | the id counter equals the number of example and sig fences seen so far |
| ExampleTests.OpenIff | scripts/test-examples.mjs:19-42 | a block is open exactly when some opening fence has not been closed since |
| ExampleTests.LineCount | scripts/test-examples.mjs:22-46 | the generated file has exactly as many lines as the page |
| ExampleTests.NoNewlineOut | scripts/test-examples.mjs:25-44 | the callback never produces a line break from a line without one |
| ExampleTests.DistinctIds | scripts/test-examples.mjs:28-34 | two id-taking fences on different lines get different module numbers |
| ExampleTests.ExampleOpenInjective | scripts/test-examples.mjs:28 | different ids give different example module headers |
| ExampleTests.ParseFile | scripts/test-examples.mjs:14-47 | `parseFile` gives nothing for a page without a fence and otherwise the mapped text |
| ExampleTests.RunExamples | scripts/test-examples.mjs:98-120 | the exit code is 0 exactly when every page with fences compiles, and 1 otherwise |
| Markdown.Headers | scripts/markdown.js:16-22 | specification of the collected headers, or the missing-`data` error; `HeadersAreSections`, `HeadersAppend` and `HeadersSnoc` state it |
| Markdown.MainHeader | scripts/markdown.js:11-15 | specification of the main header; `MainHeaderIsLast` states it |
| Markdown.Signatures | scripts/markdown.js:41-51 | specification of the stored signatures; `SignaturesEmpty`, `SignaturesNormalised` and `SignaturesSnoc` state them |
| Markdown.HeadersAreSections | scripts/markdown.js:16-22 | headers are collected exactly when every level-2 heading with children has `data`; they are then those headings in order, each with its text and its id (or the empty href) |
| Markdown.MainHeaderIsLast | scripts/markdown.js:9-15 | the main header is the text of the last non-empty level-1 heading, and undefined when there is none |
| Markdown.Sections | scripts/markdown.js:16-17 | only non-empty level-2 headings are collected |
| Markdown.ReplaceNewlines | scripts/markdown.js:35 | every newline becomes a space and nothing else changes |
| Markdown.CollapseSpace | scripts/markdown.js:36 | runs of white space become one space: no two spaces are adjacent, every white-space character left is a plain space, and the visible characters are kept in order |
| Markdown.CollapseSpaceIsEdit | scripts/markdown.js:36 | the result is exactly the input with the first character of each white-space run replaced by a space, the rest of the run dropped and every other character kept (`CollapseRule` applied at each character, given its neighbours) |
| Markdown.TrimAfterOpen | scripts/markdown.js:37 | no space is left after `(`, no double space appears, and the visible characters are kept |
| Markdown.TrimAfterOpenIsEdit | scripts/markdown.js:37 | on text without double spaces, the result is exactly the input with every white-space character that follows `(` dropped and every other character kept (`AfterOpenRule`) |
| Markdown.TrimBeforeClose | scripts/markdown.js:38 | no space is left before `)`; the earlier guarantees and the visible characters are kept |
| Markdown.TrimBeforeCloseIsEdit | scripts/markdown.js:38 | on text without double spaces or a space after `(`, the result is exactly the input with every white-space character that precedes `)` dropped and every other character kept (`BeforeCloseRule`) |
| Markdown.Formatter | scripts/markdown.js:32-39 | a formatted signature is one line with single plain spaces, none after `(` and none before `)`, and has the same visible characters as the input |
| Markdown.FormatterIsEdit | scripts/markdown.js:32-39 | the formatted signature is exactly the three local rules applied in turn to the input with its newlines replaced by spaces |
| Markdown.FormatterIdempotent | scripts/markdown.js:32-39 | formatting an already formatted signature changes nothing |
| Markdown.Codeblocks | scripts/markdown.js:41-51 | the dictionary has only the `re` key, and has it exactly when some code node is a non-empty `re` block with meta `sig` |
| Markdown.SignaturesEmpty | scripts/markdown.js:41-51 | no signature is stored exactly when no node qualifies |
| Markdown.SignaturesNormalised | scripts/markdown.js:48 | every stored signature is a formatted one |
| Markdown.SignaturesSnoc | scripts/markdown.js:41-51 | one more node adds its formatted value at the end exactly when it qualifies |
| Markdown.HeadersAppend | scripts/markdown.js:10-23 | collecting over `a + b` is collecting over `a` then `b`, stopping at the first error |
| Markdown.HeadersSnoc | scripts/markdown.js:10-23 | one more node extends the headers, or the main header, as that node's kind says |
| Markdown.CollectHeaders | scripts/markdown.js:10-23 | the loop fails exactly when the specification does, and otherwise yields the headers and the main header |
| Markdown.RemarkHeaders | scripts/markdown.js:7-26 | on success `file.data` keeps every other key and gains the headers and the main header; on the error it is unchanged |
| Markdown.CollectCodeblocks | scripts/markdown.js:41-51 | the loop builds the specified dictionary |
| Markdown.RemarkCodeblocks | scripts/markdown.js:28-54 | `file.data` keeps every other key and gains the codeblocks dictionary |
| ApiIndex.Href | scripts/extract-indices.mjs:30 | specification of the href, `path.join(dir, name)`; `HrefDropsExtension` states what it drops |
| ApiIndex.HrefDropsExtension | scripts/extract-indices.mjs:30 | a relative path is its href followed by the extension `path.parse` finds; that extension ends the base name and is empty, or runs from the base name's last dot, which is not its first character; it is empty only when the base name is `..` or has no dot after its first character |
| ApiIndex.HeaderLe | scripts/extract-indices.mjs:44-52 | specification of the header comparator; `HeaderLePreorder` and `SortHeaders` state its order |
| ApiIndex.Index | scripts/extract-indices.mjs:36-61 | specification of the reduce's result; `IndexKeys` and `IndexLastWins` state it |
| ApiIndex.ProcessFile | scripts/extract-indices.mjs:19-34 | a dataset holds the page's headers, main header and href, and its signatures exactly when the `re` codeblocks exist |
| ApiIndex.HeaderLePreorder | scripts/extract-indices.mjs:44-52 | the header comparator is a total preorder whenever the locale comparison is |
| ApiIndex.SortHeaders | scripts/extract-indices.mjs:44-52 | the sorted headers are a permutation with every `t` header first and the others in locale order; headers the comparator ties keep their input order |
| ApiIndex.IndexKeys | scripts/extract-indices.mjs:36-61 | the index has a key exactly for each dataset's router path |
| ApiIndex.IndexLastWins | scripts/extract-indices.mjs:54-57 | each key holds the entry of the last dataset with that path, with its headers sorted |
| ApiIndex.CreateIndex | scripts/extract-indices.mjs:36-61 | the reduce builds the specified index |
| ApiIndex.VersionLabel | scripts/extract-indices.mjs:64 | the label has no dot and is no longer than the version |
| ApiIndex.VersionLabelAppend | scripts/extract-indices.mjs:64 | the label of a concatenation is the concatenation of the labels |
| ApiIndex.VersionLabelKeeps | scripts/extract-indices.mjs:64 | a version without dots is its own label |
| ApiIndex.VersionLabelDot | scripts/extract-indices.mjs:64 | a leading dot is dropped |
| ApiIndex.VersionLabelParts | scripts/extract-indices.mjs:64 | `a.b` becomes `ab` |
| Sorting.Insert | scripts/extract-syntax.mjs:53 | inserting into a sorted list keeps it sorted and adds exactly that element |
| Sorting.InsertTies | scripts/extract-syntax.mjs:50-53 | inserting an element puts it ahead of the elements that rank equal to it and leaves their order alone |
| Sorting.SortBy | scripts/extract-syntax.mjs:50-53 | the sorted copy is a permutation of the input, sorted by the comparator, and stable: elements the comparator ties keep their input order |
| Paths.Parse | scripts/extract-indices.mjs:27-30 | `dir`, `name` and `ext` rejoin to the path and `name` + `ext` is the base name after the last slash; the extension is empty or starts at the base name's last dot, which is not its first character; it is empty exactly when the base name is `..`, or has no dot after its first character |
| Paths.CutLast | scripts/extract-syntax.mjs:20 | cutting at the last separator loses nothing, and the part after it has no separator |
| SyntaxIndex.Truthy | scripts/extract-syntax.mjs:22-28 | specification of JavaScript truthiness on front-matter values; `ProcessFile` states its use |
| SyntaxIndex.NameLe | scripts/extract-syntax.mjs:53 | specification of the name comparator; `NameLePreorder` and `ExtractSyntax` state its order |
| SyntaxIndex.ProcessFile | scripts/extract-syntax.mjs:12-41 | an entry exactly when id, keywords, name, summary and category are all truthy; it carries the file's base name and those five values |
| SyntaxIndex.Produced | scripts/extract-syntax.mjs:50-52 | no more entries than pages |
| SyntaxIndex.ProducedFrom | scripts/extract-syntax.mjs:50-52 | an entry is produced exactly when some page yields it |
| SyntaxIndex.NameLePreorder | scripts/extract-syntax.mjs:53 | the name comparator is a total preorder whenever the locale comparison is |
| SyntaxIndex.ExtractSyntax | scripts/extract-syntax.mjs:43-55 | the index is a permutation of the produced entries, sorted by name; entries with equal names keep their page order |
| SyntaxIndex.IndexEntries | scripts/extract-syntax.mjs:50-53 | an entry is in the index exactly when it comes from a page with complete metadata |
| LinkCheck.IsPage | scripts/test-hrefs.mjs:20 | specification of the page test; `IssuesSkipNonPages` states its use |
| LinkCheck.WarningMessage | scripts/test-hrefs.mjs:27 | specification of the report with the first occurrence of the file name removed |
| LinkCheck.IsIssue | scripts/test-hrefs.mjs:29-37 | specification of the issue condition, test by test |
| LinkCheck.Issues | scripts/test-hrefs.mjs:19-42 | specification of the issue count; `IssuesBound` and `CountIssues` state it |
| LinkCheck.ExitCode | scripts/test-hrefs.mjs:48-52 | specification of the exit code; `RunLinkCheck` states it |
| LinkCheck.IssuesBound | scripts/test-hrefs.mjs:19-42 | no more issues than files, and none exactly when no file counts |
| LinkCheck.IssuesSkipNonPages | scripts/test-hrefs.mjs:20 | a file without `.mdx` in its name never counts |
| LinkCheck.CountIssues | scripts/test-hrefs.mjs:19-42 | the loop counts the files that count |
| LinkCheck.RunLinkCheck | scripts/test-hrefs.mjs:17-52 | the exit code is 1 exactly on CI with some issue, and 0 otherwise |
| OgResources.Step | public/functions/api/resources.json.js:57-73 | specification of the `element` handler's update; `StepFields` and `StepIgnores` state it |
| OgResources.Collect | public/functions/api/resources.json.js:54-75 | specification of the state after all tags; `CollectLastWins` states it |
| OgResources.LastContent | public/functions/api/resources.json.js:54-75 | the content of the last selected tag, and none exactly when no tag is selected |
| OgResources.CollectLastWins | public/functions/api/resources.json.js:54-75 | each field holds the content of the last tag that sets it, and stays null when none does |
| OgResources.StepFields | public/functions/api/resources.json.js:57-73 | one tag sets the field its namespace names and no other; an image tag only without a key or with key `url` |
| OgResources.StepIgnores | public/functions/api/resources.json.js:57-73 | a tag of another namespace, or an image tag with another key, changes nothing |
| OgResources.Collector.Element | public/functions/api/resources.json.js:54-75 | the handler moves the state as one specification step |
| OgResources.FetchUrlResource | public/functions/api/resources.json.js:79-96 | a rejected fetch rejects; a response that is not ok gives null; otherwise the state collected from the page's tags |
| OgResources.Resources | public/functions/api/resources.json.js:30-41 | the answer rejects exactly when some fetch rejects; otherwise it holds no more records than URLs |
| OgResources.ResourcesAppend | public/functions/api/resources.json.js:33-38 | the answer for a list of URLs is the answers for its parts, one after the other, and rejects when either part does |
| OgResources.ResourcesAllOk | public/functions/api/resources.json.js:33-38 | when every response is ok there is one record per URL, in URL order |
| OgResources.ResourcesSkipsNotOk | public/functions/api/resources.json.js:33-38 | a response that is not ok contributes nothing |
| OgResources.ResourcesRejected | public/functions/api/resources.json.js:33-35 | a rejected fetch anywhere in the list rejects the whole answer |
| OgResources.OnRequestGet | public/functions/api/resources.json.js:30-41 | the loop answers the specified records, and rejects at the first rejected fetch |
| NpmPackages.Generic | public/functions/api/packages_url_resources.json.js:92-99 | specification of the generic-keyword test; `FilterKeywords` and `FilterKeywordsOne` state its use |
| NpmPackages.Allowed | public/functions/api/packages_url_resources.json.js:43-61 | specification of `shouldAllow`'s answer; `Partition` and `Search.ShouldAllow` state it |
| NpmPackages.Accepted | public/functions/api/packages_url_resources.json.js:63-66 | specification of the packages pushed; `Members` and `AcceptedAppend` state them |
| NpmPackages.Stale | public/functions/api/packages_url_resources.json.js:55-56 | specification of the packages recorded as unmaintained; `Members` and `Partition` state them |
| NpmPackages.Lower | public/functions/api/packages_url_resources.json.js:92 | lower-casing keeps the length and maps each character |
| NpmPackages.FilterKeywords | public/functions/api/packages_url_resources.json.js:90-101 | a keyword is kept exactly when it is not generic in any letter case |
| NpmPackages.FilterKeywordsAppend | public/functions/api/packages_url_resources.json.js:90-101 | filtering keeps the order: filtering `a + b` is filtering `a` then `b` |
| NpmPackages.FilterKeywordsOne | public/functions/api/packages_url_resources.json.js:90-101 | one keyword is dropped exactly when it is generic |
| NpmPackages.UniqueKeywords | public/functions/api/packages_url_resources.json.js:103-105 | each keyword once, in the order of first occurrence |
| NpmPackages.ParsePkg | public/functions/api/packages_url_resources.json.js:74-88 | a hit without keywords, then one without links, throws; a hit with both parses, into a package with the hit's name, version, search score and maintenance score, the filtered unique keywords, the empty description for a missing one and the two links |
| NpmPackages.ParsePkgs | public/functions/api/packages_url_resources.json.js:74-88 | every hit parsed in order, exactly when none throws |
| NpmPackages.Members | public/functions/api/packages_url_resources.json.js:43-66 | the listed packages are the allowed ones, and the unmaintained ones are those recorded |
| NpmPackages.Partition | public/functions/api/packages_url_resources.json.js:43-61 | no package is both listed and unmaintained; a `reason` package is neither; any other package is exactly one of them |
| NpmPackages.AcceptedAppend | public/functions/api/packages_url_resources.json.js:64-66 | both lists of `a + b` are those of `a` followed by those of `b` |
| NpmPackages.Search.ShouldAllow | public/functions/api/packages_url_resources.json.js:43-61 | the answer is the allow rule, and only an unmaintained package is pushed to `unmaintained` |
| NpmPackages.Search.AddAll | public/functions/api/packages_url_resources.json.js:64 | one loop appends the accepted and the unmaintained packages of its page |
| NpmPackages.FetchNpmPackages | public/functions/api/packages_url_resources.json.js:26-72 | the listed packages are those of the first page, then the second, then the third, and likewise the unmaintained ones |
| NpmPackages.ThreePages | public/functions/api/packages_url_resources.json.js:64-66 | three pages in a row give the lists of their concatenation, which share no package |
| NpmPackages.FetchNpmPackagesAsWritten | public/functions/api/packages_url_resources.json.js:29-39 | as written, the function never answers: `Promise.all3` throws |
| NpmPackages.AsWrittenNeverLists | public/functions/api/packages_url_resources.json.js:29-39 | whatever the pages hold, the function as written gives no listing |
| CmRules.Run | plugins/cm6-rescript-mode.js:53 | the longest run of characters that satisfy the test: every character in it does, and the next one does not |
| CmRules.Exponent | plugins/cm6-rescript-mode.js:53 | an exponent starts with `E` or `e` and ends in a digit or `_`; `e` or `E` followed by a digit or `_` always gives one |
| CmRules.FloatLiteral | plugins/cm6-rescript-mode.js:53 | a float literal starts with a digit and stays within the text |
| CmRules.IntLiteral | plugins/cm6-rescript-mode.js:53 | an integer literal starts with a digit and stays within the text |
| CmRules.Alternation | plugins/cm6-rescript-mode.js:66-72 | a keyword alternation matches only a listed word followed by a word boundary |
| CmRules.AlternationFinds | plugins/cm6-rescript-mode.js:66-72 | a listed word followed by a boundary makes the alternation match |
| CmRules.Opener | plugins/cm6-rescript-mode.js:25 | `^b?"` matches one or two characters ending in the quote |
| CmRules.CharLiteral | plugins/cm6-rescript-mode.js:37-41 | a character literal starts with an apostrophe |
| CmRules.ByteLiteral | plugins/cm6-rescript-mode.js:46 | a byte literal starts with `b` |
| CmRules.Number | plugins/cm6-rescript-mode.js:51-55 | a number starts with a digit |
| CmRules.Suffix | plugins/cm6-rescript-mode.js:53 | a type suffix matched is the first listed suffix the rest starts with, and nothing is matched when none does |
| CmRules.LetType | plugins/cm6-rescript-mode.js:60 | a definition starts with `let` or `type` |
| CmRules.Identifier | plugins/cm6-rescript-mode.js:115 | an identifier starts with a letter or `_` |
| CmRules.ModuleRef | plugins/cm6-rescript-mode.js:90 | a module reference starts with a capital letter and ends with its dot |
| CmRules.Constructor | plugins/cm6-rescript-mode.js:95 | a constructor starts with a capital letter |
| CmRules.Operator | plugins/cm6-rescript-mode.js:110 | an operator starts with one of the operator characters |
| CmStream.StringStream.Next | plugins/cm6-rescript-mode.js:120 | returns the next character and advances by one, or returns null at the end of the line and stays; the token start is kept |
| CmStream.StringStream.EatSpace | plugins/cm6-rescript-mode.js:12 | advances over the run of white space at the position, and answers whether it ate any |
| CmStream.StringStream.MatchString | plugins/cm6-rescript-mode.js:15-19 | advances over the pattern exactly when the rest starts with it, and answers whether it did |
| CmStream.StringStream.SkipToEnd | plugins/cm6-rescript-mode.js:16 | moves to the end of the line |
| CmStream.StringScan | plugins/cm6-rescript-mode.js:140-151 | the string scan stays within the rest; a closed string ends on its quote; an open one takes the rest of the line |
| CmStream.CommentScan | plugins/cm6-rescript-mode.js:163-172 | the comment scan stays within the rest, and an open comment takes the rest of the line |
| CmStream.BlockComment | plugins/cm6-rescript-mode.js:19-22 | a block comment token holds at least the opener, stays within the line and has the comment style |
| CmStream.StringScanFirstQuote | plugins/cm6-rescript-mode.js:140-151 | `tokenString` stops right after the first unescaped quote, and otherwise takes the rest of the line |
| CmStream.CommentScanFirstClose | plugins/cm6-rescript-mode.js:163-172 | `tokenComment` stops as soon as the token text contains `*/`, and otherwise takes the rest of the line |
| CmStream.TemplateScan | plugins/cm6-rescript-mode.js:153-161 | `tokenTemplateString` stops right after the first backtick, and otherwise takes the rest of the line |
| CmStream.TokenString | plugins/cm6-rescript-mode.js:140-151 | the loop consumes what the specification scan says, resets `state.tokenize` exactly on a close, and returns `string` |
| CmStream.TokenComment | plugins/cm6-rescript-mode.js:163-172 | the loop consumes what the specification scan says and resets `state.tokenize` exactly on a close |
| CmStream.CommentChar | plugins/cm6-rescript-mode.js:165-170 | one turn of the comment loop: one character, stopping exactly when the token text now contains `*/` |
| CmStream.TokenTemplateString | plugins/cm6-rescript-mode.js:153-161 | the loop consumes what the specification scan says and resets `state.tokenize` exactly on a close |
| CmStream.BlockCommentEnds | plugins/cm6-rescript-mode.js:19-22 | a block comment ends right after the first `*/` of the token text, counting the opener; otherwise it runs to the end of the line and stays open |
| CmStream.OpenerSlashCloses | plugins/cm6-rescript-mode.js:163-172 | as written, a line starting with the opener and a slash is a closed three-character comment |
| CmStream.BlockCommentIntended | plugins/cm6-rescript-mode.js:163-172 | the intended block comment: the closing pair is searched for after the opener only |
| CmStream.BlockCommentIntendedEnds | plugins/cm6-rescript-mode.js:163-172 | the intended comment ends right after the first `*/` that follows the opener, and otherwise stays open |
| CmStream.OpenerSlashStaysOpen | plugins/cm6-rescript-mode.js:163-172 | on the line made of the opener and a slash, the intended comment stays open |
| CmStream.StringEnds | plugins/cm6-rescript-mode.js:25-28 | a string closes after the first unescaped quote and otherwise stays open |
| CmStream.EscapedBackslash | plugins/cm6-rescript-mode.js:140-151 | an escaped backslash does not escape the quote after it |
| CmStream.TokenOpen | plugins/cm6-rescript-mode.js:20-33 | hands the line to the tokeniser recorded in `state.tokenize` |
| CmStream.CommentContinues | plugins/cm6-rescript-mode.js:163-172 | a comment left open goes on until the first `*/` of the new line |
| ReScriptMode.Lex | plugins/cm6-rescript-mode.js:10-122 | every token on a non-empty rest consumes at least one character and stays within the line |
| ReScriptMode.LexQuoted | plugins/cm6-rescript-mode.js:24-34 | the string and template rules: on a non-empty rest the token consumes at least one character, within the line |
| ReScriptMode.LexWord | plugins/cm6-rescript-mode.js:36-57 | the literal rules leave no tokeniser open and, on a non-empty rest, consume at least one character, within the line |
| ReScriptMode.LexKeyword | plugins/cm6-rescript-mode.js:59-87 | the same for the definition, keyword, atom and boolean rules |
| ReScriptMode.LexName | plugins/cm6-rescript-mode.js:89-121 | the same for the name, operator and fallback rules |
| ReScriptMode.Token | plugins/cm6-rescript-mode.js:10-122 | `token` consumes the specified token, returns its style and sets `state.tokenize` as the token says |
| ReScriptMode.TokenQuoted | plugins/cm6-rescript-mode.js:24-34 | the string and template rules agree with the specification |
| ReScriptMode.TokenWord | plugins/cm6-rescript-mode.js:36-57 | the literal rules agree with the specification |
| ReScriptMode.TokenKeyword | plugins/cm6-rescript-mode.js:59-87 | the definition, keyword, atom and boolean rules agree with the specification |
| ReScriptMode.TokenName | plugins/cm6-rescript-mode.js:89-121 | the name, operator and fallback rules agree with the specification |
| ReScriptMode.Delimited | plugins/cm6-rescript-mode.js:14-34 | comments and strings come first: a line comment takes the rest of the line, and the other openers start their tokenisers |
| ReScriptMode.PlainStart | plugins/cm6-rescript-mode.js:11-57 | a token that starts with none of the opening characters comes from the rules from `let`/`type` on |
| ReScriptMode.KeywordInitials | plugins/cm6-rescript-mode.js:68 | every keyword starts with a lower-case letter other than `b` and `x` |
| ReScriptMode.NoWordRule | plugins/cm6-rescript-mode.js:59-87 | no word rule applies to a text that does not start with a lower-case letter |
| ReScriptMode.Definition | plugins/cm6-rescript-mode.js:59-63 | a definition and the name after it form one keyword token, ahead of the keyword rule |
| ReScriptMode.KeywordWins | plugins/cm6-rescript-mode.js:65-72 | a listed keyword followed by a boundary is a keyword token |
| ReScriptMode.NeverBuiltin | plugins/cm6-rescript-mode.js:84-87 | `true` and `false` are keywords too, so the builtin style never occurs |
| ReScriptMode.KeywordNotBuiltin | plugins/cm6-rescript-mode.js:65-87 | the boolean rule is passed over because the keyword rule already matches |
| ReScriptMode.BooleanIsKeyword | plugins/cm6-rescript-mode.js:68 | `true` and `false` are in the keyword list |
| ReScriptMode.Polyvar | plugins/cm6-rescript-mode.js:100 | a polymorphic variant starts with `#` |
| ReScriptMode.Decorator | plugins/cm6-rescript-mode.js:105 | a decorator starts with `@` |
| ReScriptMode.CapitalisedName | plugins/cm6-rescript-mode.js:89-97 | a capitalised name is a namespace when a dot follows it and a constructor otherwise |
| ReScriptMode.Fallback | plugins/cm6-rescript-mode.js:119-121 | a character that starts no rule is consumed alone, without a style |
| ReScriptMode.LexIn | plugins/cm6-rescript-mode.js:10-34 | the token that `token` would give with the dispatch on `state.tokenize`: on a non-empty rest it consumes at least one character and stays within the line |
| ReScriptMode.TokenContinuing | plugins/cm6-rescript-mode.js:10-34 | `token` with the dispatch on `state.tokenize` consumes and styles the intended token |
| ReScriptMode.OpenCommentIgnored | plugins/cm6-rescript-mode.js:10-22 | as written, the line after an open comment starting with `x` begins with a variable name, where the intended token is a comment taking the line |
| ReScriptMode.NoKeywordStartsX | plugins/cm6-rescript-mode.js:59-87 | no word rule applies to a text starting with `x` |
| ReasonMode.Fun | plugins/cm6-reason-mode.js:72 | `^fun\s+` matches `fun` and some white space |
| ReasonMode.FunName | plugins/cm6-reason-mode.js:73 | the name after `fun` starts with a letter, `_` or `\|` |
| ReasonMode.Lex | plugins/cm6-reason-mode.js:10-100 | every token on a non-empty rest consumes at least one character and stays within the line |
| ReasonMode.LexWord | plugins/cm6-reason-mode.js:30-43 | the literal rules leave no tokeniser open and, on a non-empty rest, consume at least one character, within the line |
| ReasonMode.LexKeyword | plugins/cm6-reason-mode.js:45-69 | the same for the definition, keyword, atom and boolean rules |
| ReasonMode.LexName | plugins/cm6-reason-mode.js:71-99 | the same for the `fun`, name, operator and fallback rules |
| ReasonMode.Token | plugins/cm6-reason-mode.js:10-100 | `token` consumes the specified token, returns its style and sets `state.tokenize` as the token says |
| ReasonMode.TokenWord | plugins/cm6-reason-mode.js:30-43 | the literal rules agree with the specification |
| ReasonMode.TokenKeyword | plugins/cm6-reason-mode.js:45-69 | the definition, keyword, atom and boolean rules agree with the specification |
| ReasonMode.TokenName | plugins/cm6-reason-mode.js:71-99 | the `fun`, name, operator and fallback rules agree with the specification |
| ReasonMode.Delimited | plugins/cm6-reason-mode.js:14-28 | comments and strings come first |
| ReasonMode.PlainStart | plugins/cm6-reason-mode.js:11-43 | a token that starts with none of the opening characters comes from the rules from `let`/`type` on |
| ReasonMode.NoWordRule | plugins/cm6-reason-mode.js:45-75 | no word rule and no `fun` definition applies to a text that does not start with a lower-case letter |
| ReasonMode.Definition | plugins/cm6-reason-mode.js:45-49 | a definition and the name after it form one keyword token |
| ReasonMode.KeywordWins | plugins/cm6-reason-mode.js:51-54 | a listed keyword followed by a boundary is a keyword token |
| ReasonMode.BooleanBuiltin | plugins/cm6-reason-mode.js:66-69 | `true` and `false`, not keywords here, are builtin tokens of their own length |
| ReasonMode.BooleanStart | plugins/cm6-reason-mode.js:67 | the boolean rule matches `true` or `false` with its own length |
| ReasonMode.KeywordsMissTF | plugins/cm6-reason-mode.js:52 | no keyword matches a text starting with `t` but not `ty`, or with `f` but not `fo`, which covers `true`, `false` and `fun` |
| ReasonMode.NoDefinitionTF | plugins/cm6-reason-mode.js:45-63 | on such a text neither `let`/`type`, nor `rec`, nor an atom matches |
| ReasonMode.WordsMissTF | plugins/cm6-reason-mode.js:56-63 | `rec` and the atoms match no text starting with `t` or `f` |
| ReasonMode.FunDefinition | plugins/cm6-reason-mode.js:71-75 | `fun`, white space and the name after it form one keyword token |
| ReasonMode.CapitalisedName | plugins/cm6-reason-mode.js:77-85 | a capitalised name is a namespace when a dot follows it and a constructor otherwise |
| ReasonMode.Fallback | plugins/cm6-reason-mode.js:97-99 | a character that starts no rule is consumed alone, without a style |
| ReasonMode.LexIn | plugins/cm6-reason-mode.js:10-28 | the token that `token` would give with the dispatch on `state.tokenize`: on a non-empty rest it consumes at least one character and stays within the line |
| ReasonMode.TokenContinuing | plugins/cm6-reason-mode.js:10-28 | `token` with the dispatch on `state.tokenize` consumes and styles the intended token |
| ReasonMode.OpenCommentIgnored | plugins/cm6-reason-mode.js:10-22 | as written, the line after an open comment starting with `x` begins with a variable name, where the intended token is a comment taking the line |
| ReasonMode.NoKeywordStartsX | plugins/cm6-reason-mode.js:45-75 | no word rule applies to a text starting with `x` |

## Left out

- **I/O.** No I/O is modelled. This covers file reads and writes, `mkdir`, `glob`, `readdir`, `fetch`, the HTML rewriter's streaming, `child_process`, `console` output and `process.exit`. Each becomes a parameter or a result value.
- **Configuration.** The webpack, MDX and Vite plugin configuration of `next.config.mjs` and `vite.config.mjs` is declarative configuration of third-party tools. It holds no logic of the site.
- **Redirects.** The location `out/_redirects` of the rule file is not modelled; the model returns the text written.
- **SyncRedirects.** scripts/sync-redirects.mjs computes the path of `public/_redirects` but does not write it; the model stops at the text.
- **StaticRender.** `new URL(path, origin)` is kept as its two parts. URL parsing, percent-encoding and dot-segment resolution are not modelled. Response bodies are opaque text.
- **StaticRender.HtmlFileCollision.** The source writes to `path.join(baseDir, normalizeHtmlFilePath(htmlPath))` and `path.join(baseDir, rscPath)` (vite.config.mjs:73, 82). `path.join` collapses `//` and resolves `.` and `..` segments, so `/a//b` and `/a/b` also write the same `a/b.html`. The lemma speaks of the names before the join, and `Written.file` holds that name; the output directory and the join's normalisation are not modelled.
- **RscEntry.** src/framework/shared.mjs is not part of this model. The suffix is fixed to `_.rsc`. The proofs use only that it is non-empty and does not end in `.html`.
- **RscEntry.Handler.** React rendering and SSR are abstract functions.
- **Paths.Parse.** Models `path.parse` only on relative POSIX paths without a trailing slash.
- **Paths.Join.** Concatenates `dir`, `/` and the name without normalising. It agrees with `path.join` only when `dir` is a normalised relative path, which is what `path.relative` returns at scripts/extract-indices.mjs:27-30. `path.resolve` and `path.relative` are not modelled; the relative path is an input.
- **ApiIndex.** The driver `extractApiIndex` is not modelled beyond its version label. It globs three directories and writes three JSON files, which is I/O.
- **ApiIndex.HeaderLe.** The source comparator answers -1 for two headers both named `t`, which is not a consistent order. The model treats them as equal.
- **ApiIndex.HeaderLe, SyntaxIndex.NameLe.** `localeCompare` is any total preorder on names.
- **SyntaxIndex.NameLe.** A non-string `name` in front matter would make `localeCompare` throw. The model compares any value with the given order.
- **NpmPackages.Lower.** Models `toLowerCase` on ASCII letters only.
- **NpmPackages.Search.ShouldAllow.** `maintenanceScore` is an exact real, not a double.
- **NpmPackages onRequestGET.** The merge of the two lists with the fixed `urlResources` table is not modelled. As written, the function throws before reaching it (see Findings).
- **Redirects.RedirectsFileLines.** Requires both tables to be non-empty. With an empty table, `join` gives an empty string, so the file starts or ends with a blank line, and the lemma does not cover that case. The shipped tables are non-empty.
- **Redirects.FileIsJoin.** Requires both tables to be non-empty, for the same reason.
- **NpmPackages.Item.** The hit's `score.detail.maintenance` is a required field. A hit without `score` or `detail` makes the source throw a TypeError, which the model does not represent.
- **SyntaxIndex.Value.** Front-matter numbers are exact reals, so `NaN`, which is falsy, is not represented.
- **CmRules.FloatLiteral.** The contract states only that a float starts with a digit and stays in the line. The exact length matched is the definition, read against the regular expression at plugins/cm6-rescript-mode.js:53.
- **CmRules.IntLiteral.** Likewise: only that an integer starts with a digit and stays in the line.
- **ReScriptMode.LexQuoted.** The contract states progress and bounds only; `TokenQuoted`, `Delimited` and the CmStream scans state what is consumed.
- **ReScriptMode.LexWord.** Progress and bounds only; which literal rule wins is its definition, read against plugins/cm6-rescript-mode.js:36-57.
- **ReScriptMode.LexKeyword.** Progress and bounds only; `Definition`, `KeywordWins` and `NeverBuiltin` state which rule wins.
- **ReScriptMode.LexName.** Progress and bounds only; `CapitalisedName`, `Polyvar`, `Decorator` and `Fallback` state which rule wins.
- **ReasonMode.LexWord.** Progress and bounds only, as in the ReScript mode.
- **ReasonMode.LexKeyword.** Progress and bounds only; `Definition`, `KeywordWins` and `BooleanBuiltin` state which rule wins.
- **ReasonMode.LexName.** Progress and bounds only; `FunDefinition`, `CapitalisedName` and `Fallback` state which rule wins.
- **Integers.** JavaScript numbers used as counters (`moduleId`, `issues`) are unbounded integers.
- **CmStream.** A line is a sequence of Unicode characters, while CodeMirror's positions count UTF-16 code units. A character outside the Basic Multilingual Plane, as in the line `'😀'`, is one position in the model and two in the source.
- **CmRules.CharLiteral.** Matches one Unicode character between the apostrophes. The source's expression has no `u` flag, so `[^'\\]` takes one UTF-16 code unit: the line `'😀'` is a character literal under the model but not under the source.
- **CmStream.** Models only the part of CodeMirror's `StringStream` the modes use, on one line. `StreamLanguage`, the token table and the unused `context` field of the state are not modelled. A regular-expression `match` is given the length its expression matches at the start of the rest.
- **Comment closing.** A comment that opens with the opener and a slash is closed at once (`CmStream.OpenerSlashCloses`); see Findings.

## Findings

| source | as written | input that shows it | evidently intended | confidence | as-written member | corrected member |
|---|---|---|---|---|---|---|
| public/functions/api/packages_url_resources.json.js:29-39 | the three pages are awaited with `Promise.all3`, which the JavaScript `Promise` object does not have, so the call throws a TypeError before any page is read | any request | `Promise.all` over the three fetches, then the three filtering loops | high, not executed | NpmPackages.AsWrittenNeverLists | NpmPackages.FetchNpmPackages |
| plugins/cm6-rescript-mode.js:10-22 | `token` records the open tokeniser in `state.tokenize` but never reads it, so a block comment, string or template left open at the end of a line is not continued on the next line | the line `/* open`, then the line `x` | dispatch to `state.tokenize` first when it is set | medium, not executed | ReScriptMode.OpenCommentIgnored | ReScriptMode.TokenContinuing |
| plugins/cm6-reason-mode.js:10-22 | the same in the Reason mode | the line `/* open`, then the line `x` | dispatch to `state.tokenize` first when it is set | medium, not executed | ReasonMode.OpenCommentIgnored | ReasonMode.TokenContinuing |
| plugins/cm6-rescript-mode.js:163-172 | `tokenComment` looks for `*/` in `stream.current()`, which already holds the opener, so the slash right after the opener closes the comment; the flag `maybeEnd` that would track a star read inside the comment is declared and never used | the line made of the opener followed by a slash | look for `*/` only in what follows the opener | medium, not executed | CmStream.OpenerSlashCloses | CmStream.BlockCommentIntendedEnds |
