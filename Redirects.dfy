/** `redirects()` of next.config.mjs: the redirect table, its serialisation
    into the `_redirects` rule file of the hosting edge network, the
    assertion on wildcard ("splat") rules and the env-gated write. */
module Redirects {
  import opened Wrappers
  import opened Strings

  datatype Rule = Rule(source: string, destination: string, permanent: bool)

  /** The environment variables `redirects()` reads; an unset one is None. */
  datatype Env = Env(nodeEnv: Option<string>, versionLatest: Option<string>, versionNext: Option<string>)

  /** `assert.match` throwing on a splat pattern that lacks `:name*`. */
  datatype RedirectError = SplatAssertion(pattern: string)

  /** What `redirects()` does: the text it writes (if any) and the rules it
      returns. */
  datatype Outcome = Outcome(written: Option<string>, rules: seq<Rule>)

  function StatusCode(permanent: bool): string {
    if permanent then "308" else "307"
  }

  /** The line written for a simple rule: three columns, two spaces apart. */
  function SimpleLine(r: Rule): string {
    r.source + "  " + r.destination + "  " + StatusCode(r.permanent)
  }

  /** `\w` of a JavaScript regular expression. */
  predicate IsWordChar(c: char) {
    'a' <= c <= 'z' || 'A' <= c <= 'Z' || '0' <= c <= '9' || c == '_'
  }

  /** `/:(\w+)\*$/` matches `s` with its `:` at index `k`. */
  ghost predicate SplatAt(s: string, k: int) {
    0 <= k && k + 2 < |s| && s[k] == ':' && s[|s| - 1] == '*' &&
    forall i :: k < i < |s| - 1 ==> IsWordChar(s[i])
  }

  /** Start of the maximal run of word characters ending just before `end`. */
  function WordRunStart(s: string, end: nat): (j: nat)
    requires end <= |s|
    ensures j <= end
    ensures forall i :: j <= i < end ==> IsWordChar(s[i])
    ensures j > 0 ==> !IsWordChar(s[j - 1])
    decreases end
  {
    if end > 0 && IsWordChar(s[end - 1]) then WordRunStart(s, end - 1) else end
  }

  /** The splat pattern matches at most one place. */
  lemma SplatUnique(s: string, k1: int, k2: int)
    requires SplatAt(s, k1) && SplatAt(s, k2)
    ensures k1 == k2
  {
  }

  /** Where the splat pattern matches `s`, if it does. */
  function SplatStart(s: string): (r: Option<nat>)
    ensures r.Some? ==> SplatAt(s, r.value)
    ensures r.None? ==> forall k :: !SplatAt(s, k)
  {
    if |s| < 3 || s[|s| - 1] != '*' then None
    else
      var j := WordRunStart(s, |s| - 1);
      if j == |s| - 1 || j == 0 || s[j - 1] != ':' then None
      else Some(j - 1)
  }

  /** A splat rule after its rewrite: `:name*` becomes `*` in the source and
      `:splat` in the destination. */
  function Rewritten(r: Rule): Rule
    requires SplatStart(r.source).Some? && SplatStart(r.destination).Some?
  {
    Rule(r.source[..SplatStart(r.source).value] + "*",
         r.destination[..SplatStart(r.destination).value] + ":splat",
         r.permanent)
  }

  /** The line written for a splat rule, or the assertion that fails first
      (the source is checked before the destination). */
  function SplatLine(r: Rule): Result<string, RedirectError> {
    if SplatStart(r.source).None? then Failure(SplatAssertion(r.source))
    else if SplatStart(r.destination).None? then Failure(SplatAssertion(r.destination))
    else Success(SimpleLine(Rewritten(r)))
  }

  /** `splatRedirects.map(...)`: every line, or the first assertion failure. */
  function SplatLines(rules: seq<Rule>): (r: Result<seq<string>, RedirectError>)
    ensures r.Success? ==>
      |r.value| == |rules| &&
      forall i :: 0 <= i < |rules| ==> SplatLine(rules[i]) == Success(r.value[i])
    ensures r.Failure? ==>
      exists i :: 0 <= i < |rules| && SplatLine(rules[i]) == Failure(r.error) &&
        forall j :: 0 <= j < i ==> SplatLine(rules[j]).Success?
  {
    if |rules| == 0 then Success([])
    else
      match SplatLine(rules[0])
      case Failure(e) => Failure(e)
      case Success(line) =>
        match SplatLines(rules[1..])
        case Failure(e) =>
          assert forall i :: 1 <= i < |rules| ==> rules[i] == rules[1..][i - 1];
          Failure(e)
        case Success(lines) => Success([line] + lines)
  }

  /** The `_redirects` text: simple lines, one newline, splat lines. */
  function RedirectsFile(simple: seq<Rule>, splat: seq<Rule>): Result<string, RedirectError> {
    var splatLines :- SplatLines(splat);
    Success(Join(Map(SimpleLine, simple), "\n") + "\n" + Join(splatLines, "\n"))
  }

  /** `redirects()` over given tables: the file is produced only in a
      production build, and the returned rules are the tables themselves. */
  function Redirects(production: bool, simple: seq<Rule>, splat: seq<Rule>): Result<Outcome, RedirectError> {
    if production then
      var content :- RedirectsFile(simple, splat);
      Success(Outcome(Some(content), simple + splat))
    else
      Success(Outcome(None, simple + splat))
  }

  /** A template literal shows an unset variable as "undefined". */
  function EnvText(v: Option<string>): string {
    v.GetOr("undefined")
  }

  const SimpleRedirects: seq<Rule> := [
    Rule("/community", "/community/overview", true),
    Rule("/bucklescript-rebranding", "/blog/bucklescript-is-rebranding", true),
    Rule("/docs/manual/latest/migrate-from-bucklescript-reason", "/docs/manual/v10.0.0/migrate-from-bucklescript-reason", true),
    Rule("/docs/manual/latest/unboxed", "/docs/manual/v10.0.0/unboxed", true),
    Rule("/docs/gentype/latest/introduction", "/docs/manual/latest/typescript-integration", true),
    Rule("/docs/gentype/latest/getting-started", "/docs/manual/latest/typescript-integration", true),
    Rule("/docs/gentype/latest/usage", "/docs/manual/latest/typescript-integration", true),
    Rule("/docs/gentype/latest/supported-types", "/docs/manual/latest/typescript-integration", true)
  ]

  function SplatRedirects(env: Env): seq<Rule> {
    [
      Rule("/docs/manual/latest/:slug*", "/docs/manual/" + EnvText(env.versionLatest) + "/:slug*", false),
      Rule("/docs/manual/next/:slug*", "/docs/manual/" + EnvText(env.versionNext) + "/:slug*", false),
      Rule("/llms/manual/latest/:file*", "/llms/manual/" + EnvText(env.versionLatest) + "/:file*", false),
      Rule("/llms/manual/next/:file*", "/llms/manual/" + EnvText(env.versionNext) + "/:file*", false)
    ]
  }

  function RedirectsConfig(env: Env): Result<Outcome, RedirectError> {
    Redirects(env.nodeEnv == Some("production"), SimpleRedirects, SplatRedirects(env))
  }

  // ---------------------------------------------------------------------
  // Reading a rule file back: the hosting network splits a line on spaces.

  function ParseLine(line: string): Option<Rule> {
    var cols := Split(line, ' ');
    if |cols| == 5 && cols[1] == "" && cols[3] == "" && (cols[4] == "308" || cols[4] == "307")
    then Some(Rule(cols[0], cols[2], cols[4] == "308"))
    else None
  }

  function ParseLines(lines: seq<string>): seq<Option<Rule>> {
    Map(ParseLine, lines)
  }

  /** Space-free patterns and no line breaks: what a rule line can carry. */
  predicate Plain(r: Rule) {
    ' ' !in r.source && ' ' !in r.destination && '\n' !in r.source && '\n' !in r.destination
  }

  /** A simple rule's line reads back as the rule: status 308 exactly when
      the rule is permanent. */
  lemma SimpleLineRoundTrip(r: Rule)
    requires ' ' !in r.source && ' ' !in r.destination
    ensures ParseLine(SimpleLine(r)) == Some(r)
  {
    var code := StatusCode(r.permanent);
    var cols := [r.source, "", r.destination, "", code];
    assert Join(cols, " ") == SimpleLine(r) by {
      JoinCons("", [code], " ");
      JoinCons(r.destination, ["", code], " ");
      JoinCons("", [r.destination, "", code], " ");
      JoinCons(r.source, ["", r.destination, "", code], " ");
      assert cols == [r.source] + ["", r.destination, "", code];
    }
    assert ' ' !in code;
    forall k | 0 <= k < |cols| ensures ' ' !in cols[k] { }
    SplitJoin(cols, ' ');
  }

  /** The assertion on a splat rule passes exactly when both patterns end in
      `:name*`; then only that ending is rewritten, to `*` in the source and
      to `:splat` in the destination, and the status is kept. */
  lemma SplatLineRewrite(r: Rule)
    ensures SplatLine(r).Success? <==>
      (exists k :: SplatAt(r.source, k)) && (exists k :: SplatAt(r.destination, k))
    ensures forall k1, k2 :: SplatAt(r.source, k1) && SplatAt(r.destination, k2) ==>
      SplatLine(r) == Success(r.source[..k1] + "*" + "  " + r.destination[..k2] + ":splat" + "  " +
                              (if r.permanent then "308" else "307"))
  {
    forall k1, k2 | SplatAt(r.source, k1) && SplatAt(r.destination, k2)
      ensures SplatLine(r) == Success(r.source[..k1] + "*" + "  " + r.destination[..k2] + ":splat" + "  " +
                                      (if r.permanent then "308" else "307"))
    {
      SplatUnique(r.source, k1, SplatStart(r.source).value);
      SplatUnique(r.destination, k2, SplatStart(r.destination).value);
      var w := Rewritten(r);
      assert w.source == r.source[..k1] + "*";
      assert w.destination == r.destination[..k2] + ":splat";
      assert StatusCode(r.permanent) == (if r.permanent then "308" else "307");
      assert SplatLine(r) == Success(SimpleLine(w));
      assert SimpleLine(w) == w.source + "  " + w.destination + "  " + StatusCode(r.permanent);
      assert SimpleLine(w) == r.source[..k1] + "*" + "  " + r.destination[..k2] + ":splat" + "  " + StatusCode(r.permanent);
    }
  }

  lemma PrefixFree(s: string, k: nat, c: char)
    requires k <= |s| && c !in s
    ensures c !in s[..k]
  {
    forall d | d in s[..k] ensures d != c { assert d in s; }
  }

  /** A rewritten splat rule stays plain. */
  lemma RewrittenPlain(r: Rule)
    requires Plain(r) && SplatLine(r).Success?
    ensures Plain(Rewritten(r))
  {
    var k1, k2 := SplatStart(r.source).value, SplatStart(r.destination).value;
    PrefixFree(r.source, k1, ' ');
    PrefixFree(r.source, k1, '\n');
    PrefixFree(r.destination, k2, ' ');
    PrefixFree(r.destination, k2, '\n');
  }

  lemma PlainLine(r: Rule)
    requires Plain(r)
    ensures '\n' !in SimpleLine(r)
  {
  }

  /** The splat rules after their rewrite, in order. */
  function RewrittenAll(splat: seq<Rule>): (r: seq<Rule>)
    requires forall i :: 0 <= i < |splat| ==>
      SplatStart(splat[i].source).Some? && SplatStart(splat[i].destination).Some?
    ensures |r| == |splat| && forall i :: 0 <= i < |splat| ==> r[i] == Rewritten(splat[i])
  {
    seq(|splat|, i requires 0 <= i < |splat| => Rewritten(splat[i]))
  }

  /** The rules that `RedirectsFile` writes, in order. */
  function WrittenRules(simple: seq<Rule>, splat: seq<Rule>): seq<Rule>
    requires forall i :: 0 <= i < |splat| ==>
      SplatStart(splat[i].source).Some? && SplatStart(splat[i].destination).Some?
  {
    simple + RewrittenAll(splat)
  }

  /** Plain rules written one per line read back as those rules. */
  lemma ReadBack(rules: seq<Rule>)
    requires |rules| >= 1 && forall i :: 0 <= i < |rules| ==> Plain(rules[i])
    ensures var lines := Split(Join(Map(SimpleLine, rules), "\n"), '\n');
      |lines| == |rules| && forall i :: 0 <= i < |rules| ==> ParseLine(lines[i]) == Some(rules[i])
  {
    var ls := Map(SimpleLine, rules);
    forall k | 0 <= k < |ls| ensures '\n' !in ls[k] {
      PlainLine(rules[k]);
    }
    SplitJoin(ls, '\n');
    forall i | 0 <= i < |rules| ensures ParseLine(ls[i]) == Some(rules[i]) {
      SimpleLineRoundTrip(rules[i]);
    }
  }

  /** The rule file is produced exactly when every splat rule passes the
      assertion; it then holds one line per rule, the simple rules first and
      the rewritten splat rules after them, each in declaration order. */
  lemma RedirectsFileLines(simple: seq<Rule>, splat: seq<Rule>)
    requires |simple| >= 1 && |splat| >= 1
    requires forall i :: 0 <= i < |simple| ==> Plain(simple[i])
    requires forall i :: 0 <= i < |splat| ==> Plain(splat[i])
    ensures RedirectsFile(simple, splat).Success? <==>
      forall i :: 0 <= i < |splat| ==> SplatLine(splat[i]).Success?
    ensures (forall i :: 0 <= i < |splat| ==> SplatLine(splat[i]).Success?) ==>
      RedirectsFile(simple, splat).Success? &&
      var lines := Split(RedirectsFile(simple, splat).value, '\n');
      var rules := WrittenRules(simple, splat);
      |lines| == |simple| + |splat| &&
      forall i :: 0 <= i < |lines| ==> ParseLine(lines[i]) == Some(rules[i])
  {
    RedirectsFileSucceeds(simple, splat);
    if forall i :: 0 <= i < |splat| ==> SplatLine(splat[i]).Success? {
      FileIsJoin(simple, splat);
      forall i | 0 <= i < |splat|
        ensures SplatStart(splat[i].source).Some? && SplatStart(splat[i].destination).Some?
      {
        assert SplatLine(splat[i]).Success?;
      }
      WrittenPlain(simple, splat);
      ReadBack(WrittenRules(simple, splat));
    }
  }

  /** The file is produced exactly when every splat rule passes. */
  lemma RedirectsFileSucceeds(simple: seq<Rule>, splat: seq<Rule>)
    ensures RedirectsFile(simple, splat).Success? <==>
      forall i :: 0 <= i < |splat| ==> SplatLine(splat[i]).Success?
  {
    if SplatLines(splat).Failure? {
      var i :| 0 <= i < |splat| && SplatLine(splat[i]) == Failure(SplatLines(splat).error);
    }
  }

  /** When every splat rule passes, the file is the written rules' lines
      joined by newlines. */
  lemma FileIsJoin(simple: seq<Rule>, splat: seq<Rule>)
    requires |simple| >= 1 && |splat| >= 1
    requires forall i :: 0 <= i < |splat| ==> SplatLine(splat[i]).Success?
    ensures RedirectsFile(simple, splat).Success?
    ensures RedirectsFile(simple, splat).value == Join(Map(SimpleLine, WrittenRules(simple, splat)), "\n")
  {
    RedirectsFileSucceeds(simple, splat);
    SplatLinesRewritten(splat);
    MapAppend(SimpleLine, simple, RewrittenAll(splat));
    JoinAppend(Map(SimpleLine, simple), Map(SimpleLine, RewrittenAll(splat)), "\n");
  }

  /** When every splat rule passes, its lines are those of the rewritten
      rules. */
  lemma SplatLinesRewritten(splat: seq<Rule>)
    requires forall i :: 0 <= i < |splat| ==> SplatLine(splat[i]).Success?
    ensures SplatLines(splat).Success?
    ensures SplatLines(splat).value == Map(SimpleLine, RewrittenAll(splat))
  {
    if SplatLines(splat).Failure? {
      assert false;
    }
    var v, m := SplatLines(splat).value, Map(SimpleLine, RewrittenAll(splat));
    forall i | 0 <= i < |splat| ensures v[i] == m[i] {
      assert SplatLine(splat[i]) == Success(v[i]);
    }
  }

  /** The written rules of plain tables are plain. */
  lemma WrittenPlain(simple: seq<Rule>, splat: seq<Rule>)
    requires forall i :: 0 <= i < |simple| ==> Plain(simple[i])
    requires forall i :: 0 <= i < |splat| ==> Plain(splat[i])
    requires forall i :: 0 <= i < |splat| ==>
      SplatStart(splat[i].source).Some? && SplatStart(splat[i].destination).Some?
    ensures var rules := WrittenRules(simple, splat);
      forall i :: 0 <= i < |rules| ==> Plain(rules[i])
  {
    var rules := WrittenRules(simple, splat);
    forall i | 0 <= i < |rules| ensures Plain(rules[i]) {
      if i >= |simple| {
        RewrittenPlain(splat[i - |simple|]);
      }
    }
  }

  /** The file is written only in a production build, an assertion failure
      aborts `redirects()` altogether, and the returned rules are the simple
      rules followed by the splat rules, not rewritten. */
  lemma RedirectsOutcome(production: bool, simple: seq<Rule>, splat: seq<Rule>)
    ensures var o := Redirects(production, simple, splat);
      (o.Failure? <==> production && RedirectsFile(simple, splat).Failure?) &&
      (o.Success? ==> o.value.rules == simple + splat &&
                      (o.value.written.Some? <==> production) &&
                      (production ==> o.value.written == Some(RedirectsFile(simple, splat).value)))
  {
  }

  lemma SplatSuffix(prefix: string, name: string)
    requires |name| >= 1 && forall i :: 0 <= i < |name| ==> IsWordChar(name[i])
    ensures SplatStart(prefix + ":" + name + "*") == Some(|prefix|)
  {
    var s := prefix + ":" + name + "*";
    forall i | |prefix| < i < |s| - 1 ensures IsWordChar(s[i]) {
      assert s[i] == name[i - |prefix| - 1];
    }
    assert SplatAt(s, |prefix|);
    SplatUnique(s, |prefix|, SplatStart(s).value);
  }

  /** The latest-manual splat rule passes the assertion. */
  lemma ManualLatestPasses(env: Env)
    ensures SplatLine(SplatRedirects(env)[0]).Success?
  {
    LatestManualParts(env);
  }

  /** The next-manual splat rule passes the assertion. */
  lemma ManualNextPasses(env: Env)
    ensures SplatLine(SplatRedirects(env)[1]).Success?
  {
    var v := EnvText(env.versionNext);
    var r := SplatRedirects(env)[1];
    assert forall i :: 0 <= i < 4 ==> IsWordChar("slug"[i]);
    assert r == Rule("/docs/manual/next/" + ":" + "slug" + "*", ("/docs/manual/" + v + "/") + ":" + "slug" + "*", false);
    SplatLineOf("/docs/manual/next/", "/docs/manual/" + v + "/", "slug", false);
  }

  /** The latest LLM-text splat rule passes the assertion. */
  lemma LlmsLatestPasses(env: Env)
    ensures SplatLine(SplatRedirects(env)[2]).Success?
  {
    var v := EnvText(env.versionLatest);
    var r := SplatRedirects(env)[2];
    assert forall i :: 0 <= i < 4 ==> IsWordChar("file"[i]);
    assert r == Rule("/llms/manual/latest/" + ":" + "file" + "*", ("/llms/manual/" + v + "/") + ":" + "file" + "*", false);
    SplatLineOf("/llms/manual/latest/", "/llms/manual/" + v + "/", "file", false);
  }

  /** The next LLM-text splat rule passes the assertion. */
  lemma LlmsNextPasses(env: Env)
    ensures SplatLine(SplatRedirects(env)[3]).Success?
  {
    var v := EnvText(env.versionNext);
    var r := SplatRedirects(env)[3];
    assert forall i :: 0 <= i < 4 ==> IsWordChar("file"[i]);
    assert r == Rule("/llms/manual/next/" + ":" + "file" + "*", ("/llms/manual/" + v + "/") + ":" + "file" + "*", false);
    SplatLineOf("/llms/manual/next/", "/llms/manual/" + v + "/", "file", false);
  }

  /** The shipped splat rules pass the assertion whatever the version
      variables hold, so a production build always writes the file. */
  lemma ShippedTablesWrite(env: Env)
    ensures RedirectsFile(SimpleRedirects, SplatRedirects(env)).Success?
    ensures env.nodeEnv == Some("production") ==>
      RedirectsConfig(env).Success? && RedirectsConfig(env).value.written.Some?
  {
    ManualLatestPasses(env);
    ManualNextPasses(env);
    LlmsLatestPasses(env);
    LlmsNextPasses(env);
    var splat := SplatRedirects(env);
    FourPass(splat);
    ProductionWrites(SimpleRedirects, splat);
  }

  /** Four passing rules are all the rules of a four-rule table. */
  lemma FourPass(splat: seq<Rule>)
    requires |splat| == 4
    requires SplatLine(splat[0]).Success? && SplatLine(splat[1]).Success?
    requires SplatLine(splat[2]).Success? && SplatLine(splat[3]).Success?
    ensures forall i :: 0 <= i < |splat| ==> SplatLine(splat[i]).Success?
  {
    forall i | 0 <= i < |splat| ensures SplatLine(splat[i]).Success? {
      assert i == 0 || i == 1 || i == 2 || i == 3;
    }
  }

  /** A production build writes the file as soon as every splat rule
      passes, whatever the simple rules are. */
  lemma ProductionWrites(simple: seq<Rule>, splat: seq<Rule>)
    requires forall i :: 0 <= i < |splat| ==> SplatLine(splat[i]).Success?
    ensures RedirectsFile(simple, splat).Success?
    ensures Redirects(true, simple, splat).Success? && Redirects(true, simple, splat).value.written.Some?
  {
    RedirectsFileSucceeds(simple, splat);
  }

  /** The latest-manual splat rule's line, in pieces. */
  lemma LatestManualParts(env: Env)
    ensures var v := EnvText(env.versionLatest);
      SplatLine(SplatRedirects(env)[0])
        == Success("/docs/manual/latest/" + "*" + "  " + ("/docs/manual/" + v + "/") + ":splat" + "  " + "307")
  {
    var v := EnvText(env.versionLatest);
    var r := SplatRedirects(env)[0];
    assert forall i :: 0 <= i < 4 ==> IsWordChar("slug"[i]);
    assert r == Rule("/docs/manual/latest/" + ":" + "slug" + "*", ("/docs/manual/" + v + "/") + ":" + "slug" + "*", false);
    SplatLineOf("/docs/manual/latest/", "/docs/manual/" + v + "/", "slug", false);
  }

  /** A splat rule whose two patterns end in the same `:name*` is written
      with `*` and `:splat` in their place. */
  lemma SplatLineOf(sp: string, dp: string, name: string, permanent: bool)
    requires |name| >= 1 && forall i :: 0 <= i < |name| ==> IsWordChar(name[i])
    ensures SplatLine(Rule(sp + ":" + name + "*", dp + ":" + name + "*", permanent))
      == Success(sp + "*" + "  " + dp + ":splat" + "  " + StatusCode(permanent))
  {
    var s, d := sp + ":" + name + "*", dp + ":" + name + "*";
    SplatSuffix(sp, name);
    SplatSuffix(dp, name);
    assert s[..|sp|] == sp;
    assert d[..|dp|] == dp;
    var w := Rewritten(Rule(s, d, permanent));
    assert w == Rule(sp + "*", dp + ":splat", permanent);
    assert SplatLine(Rule(s, d, permanent)) == Success(SimpleLine(w));
    var x := sp + "*" + "  ";
    assert x + (dp + ":splat") == x + dp + ":splat";
  }

  lemma LatestManualText(v: string)
    ensures "/docs/manual/latest/" + "*" + "  " + ("/docs/manual/" + v + "/") + ":splat" + "  " + "307"
      == "/docs/manual/latest/*  /docs/manual/" + v + "/:splat  307"
  {
    assert "/docs/manual/latest/*  /docs/manual/" == "/docs/manual/latest/" + "*" + "  " + "/docs/manual/";
    assert "/:splat  307" == "/" + ":splat" + "  " + "307";
  }

  // The latest-manual splat rule; with VERSION_LATEST=v11.0.0 its line is
  // "/docs/manual/latest/*  /docs/manual/v11.0.0/:splat  307".
  lemma LatestManualLine(env: Env)
    ensures SplatLine(SplatRedirects(env)[0])
      == Success("/docs/manual/latest/*  /docs/manual/" + EnvText(env.versionLatest) + "/:splat  307")
  {
    LatestManualParts(env);
    LatestManualText(EnvText(env.versionLatest));
  }
}
