/** The API search index of `scripts/extract-indices.mjs`: one dataset per
    API page, keyed by the page's router path, holding its module name and
    its headers sorted with the type `t` first. */
module ApiIndex {
  import opened Wrappers
  import opened Sorting
  import opened Markdown
  import Paths
  import Strings

  /** What `processFile` gathers from one processed page. */
  datatype Dataset = Dataset(
    headers: seq<Header>,
    signatures: Option<seq<string>>,
    href: string,
    moduleName: Option<string>)

  /** What the index keeps of a dataset. */
  datatype IndexEntry = IndexEntry(moduleName: Option<string>, headers: seq<Header>)

  // ----- href -----

  /** The page's path relative to the pages directory, without its
      extension: `path.join(dir, name)` of the parsed relative path. */
  function Href(relFilepath: string): string {
    var parsed := Paths.Parse(relFilepath);
    Paths.Join(parsed.dir, parsed.name)
  }

  /** A relative path is its href followed by the extension `path.parse`
      finds: the base name from its last dot on, unless that dot starts the
      base name, the base name is `..`, or there is none, when nothing is
      dropped. */
  lemma HrefDropsExtension(relFilepath: string)
    requires relFilepath == "" || relFilepath[0] != '/'
    ensures var ext := Paths.Parse(relFilepath).ext;
      relFilepath == Href(relFilepath) + ext
    ensures var base := Paths.Base(relFilepath);
      var ext := Paths.Parse(relFilepath).ext;
      && Strings.EndsWith(base, ext)
      && (ext != "" ==> ext[0] == '.' && '.' !in ext[1..] && |ext| < |base|)
      && (ext == "" ==> base == ".." || forall i :: 1 <= i < |base| ==> base[i] != '.')
  {
    var parsed := Paths.Parse(relFilepath);
    var base := Paths.Base(relFilepath);
    assert base[|base| - |parsed.ext|..] == parsed.ext;
    if parsed.dir == "" && relFilepath == parsed.name + parsed.ext {
    } else {
      assert relFilepath == parsed.dir + "/" + parsed.name + parsed.ext;
      assert relFilepath == Href(relFilepath) + parsed.ext;
    }
  }

  /** `processFile`: the page's headers, its ReScript signatures if it has
      any, its href, and its main header. */
  function ProcessFile(relFilepath: string, headers: seq<Header>,
                       codeblocks: map<string, seq<string>>,
                       mainHeader: Option<string>): (d: Dataset)
    ensures d.headers == headers && d.moduleName == mainHeader
    ensures d.href == Href(relFilepath)
    ensures d.signatures.Some? <==> "re" in codeblocks
    ensures d.signatures.Some? ==> d.signatures.value == codeblocks["re"]
  {
    Dataset(headers,
            if "re" in codeblocks then Some(codeblocks["re"]) else None,
            Href(relFilepath),
            mainHeader)
  }

  // ----- the header order -----

  /** The comparator of `createIndex` as an order: a header named `t`
      goes before any other, and `le` (the locale comparison of names)
      orders the rest. Two headers named `t` are taken as equal. */
  function HeaderLe(le: (string, string) -> bool): (Header, Header) -> bool {
    (a: Header, b: Header) => a.name == "t" || (b.name != "t" && le(a.name, b.name))
  }

  lemma HeaderLePreorder(le: (string, string) -> bool)
    requires TotalPreorder(le)
    ensures TotalPreorder(HeaderLe(le))
  {
    var hle := HeaderLe(le);
    forall a: Header, b: Header ensures hle(a, b) || hle(b, a) {
      if a.name != "t" && b.name != "t" {
        assert le(a.name, b.name) || le(b.name, a.name);
      }
    }
    forall a: Header, b: Header, c: Header | hle(a, b) && hle(b, c) ensures hle(a, c) {
      if a.name != "t" {
        assert le(a.name, b.name) && le(b.name, c.name);
      }
    }
  }

  /** The sorted copy of a page's headers. */
  function SortHeaders(headers: seq<Header>, le: (string, string) -> bool): (r: seq<Header>)
    requires TotalPreorder(le)
    ensures multiset(r) == multiset(headers)
    ensures forall i, j :: 0 <= i < j < |r| && r[j].name == "t" ==> r[i].name == "t"
    ensures forall i, j :: 0 <= i < j < |r| && r[i].name != "t" && r[j].name != "t" ==>
      le(r[i].name, r[j].name)
    ensures forall e :: Ties(r, e, HeaderLe(le)) == Ties(headers, e, HeaderLe(le))
  {
    HeaderLePreorder(le);
    var r := SortBy(headers, HeaderLe(le));
    assert forall i, j :: 0 <= i < j < |r| ==> HeaderLe(le)(r[i], r[j]);
    r
  }

  // ----- the index -----

  /** The key a dataset is stored under: its router path. */
  function Key(d: Dataset): string {
    "/" + d.href
  }

  function Entry(d: Dataset, le: (string, string) -> bool): IndexEntry
    requires TotalPreorder(le)
  {
    IndexEntry(d.moduleName, SortHeaders(d.headers, le))
  }

  /** The accumulator after the datasets, one after another, have been
      written into it. */
  function Index(results: seq<Dataset>, le: (string, string) -> bool): map<string, IndexEntry>
    requires TotalPreorder(le)
  {
    if |results| == 0 then map[]
    else
      var last := results[|results| - 1];
      Index(results[..|results| - 1], le)[Key(last) := Entry(last, le)]
  }

  /** The index has one key per distinct router path. */
  lemma {:induction false} IndexKeys(results: seq<Dataset>, le: (string, string) -> bool)
    requires TotalPreorder(le)
    ensures forall k :: k in Index(results, le) <==> exists i :: 0 <= i < |results| && Key(results[i]) == k
  {
    if |results| > 0 {
      var front := results[..|results| - 1];
      IndexKeys(front, le);
      forall k | k in Index(results, le)
        ensures exists i :: 0 <= i < |results| && Key(results[i]) == k
      {
        if k != Key(results[|results| - 1]) {
          assert k in Index(front, le);
          var i :| 0 <= i < |front| && Key(front[i]) == k;
          assert results[i] == front[i];
        }
      }
      forall k | exists i :: 0 <= i < |results| && Key(results[i]) == k
        ensures k in Index(results, le)
      {
        var i :| 0 <= i < |results| && Key(results[i]) == k;
        if i < |front| {
          assert front[i] == results[i];
        }
      }
    }
  }

  /** Each key holds the entry of the last dataset with that key: a later
      page with the same router path overwrites an earlier one. */
  lemma {:induction false} IndexLastWins(results: seq<Dataset>, i: nat, le: (string, string) -> bool)
    requires TotalPreorder(le)
    requires i < |results|
    requires forall j :: i < j < |results| ==> Key(results[j]) != Key(results[i])
    ensures Key(results[i]) in Index(results, le)
    ensures Index(results, le)[Key(results[i])] == IndexEntry(results[i].moduleName, SortHeaders(results[i].headers, le))
  {
    if i < |results| - 1 {
      var front := results[..|results| - 1];
      assert front[i] == results[i];
      forall j | i < j < |front| ensures Key(front[j]) != Key(front[i]) {
        assert front[j] == results[j];
      }
      IndexLastWins(front, i, le);
    }
  }

  /** `createIndex`: the reduce that writes each dataset's entry into the
      accumulator under its key. */
  method CreateIndex(results: seq<Dataset>, le: (string, string) -> bool)
    returns (acc: map<string, IndexEntry>)
    requires TotalPreorder(le)
    ensures acc == Index(results, le)
  {
    acc := map[];
    var i := 0;
    while i < |results|
      invariant 0 <= i <= |results|
      invariant acc == Index(results[..i], le)
    {
      var data := results[i];
      var headersSorted := SortHeaders(data.headers, le);
      acc := acc["/" + data.href := IndexEntry(data.moduleName, headersSorted)];
      assert results[..i + 1][..i] == results[..i];
      i := i + 1;
    }
    assert results[..i] == results;
  }

  // ----- the version label -----

  /** `version.replace(/\./g, "")`. */
  function VersionLabel(version: string): (r: string)
    ensures '.' !in r
    ensures |r| <= |version|
  {
    if |version| == 0 then ""
    else (if version[0] == '.' then "" else [version[0]]) + VersionLabel(version[1..])
  }

  /** The label is taken piece by piece: every character but the dot is
      kept, in order. */
  lemma {:induction false} VersionLabelAppend(a: string, b: string)
    ensures VersionLabel(a + b) == VersionLabel(a) + VersionLabel(b)
  {
    if |a| > 0 {
      assert (a + b)[1..] == a[1..] + b;
      VersionLabelAppend(a[1..], b);
    } else {
      assert a + b == b;
    }
  }

  /** A version without dots is its own label. */
  lemma {:induction false} VersionLabelKeeps(version: string)
    requires '.' !in version
    ensures VersionLabel(version) == version
  {
    if |version| > 0 {
      assert version[0] != '.';
      assert version == [version[0]] + version[1..];
      VersionLabelKeeps(version[1..]);
    }
  }

  /** A leading dot is dropped. */
  lemma VersionLabelDot(b: string)
    ensures VersionLabel("." + b) == VersionLabel(b)
  {
    assert ("." + b)[1..] == b;
  }

  /** A version's label is its dot-separated parts, concatenated. */
  lemma VersionLabelParts(a: string, b: string)
    requires '.' !in a && '.' !in b
    ensures VersionLabel(a + "." + b) == a + b
  {
    assert a + "." + b == a + ("." + b);
    VersionLabelAppend(a, "." + b);
    VersionLabelDot(b);
    VersionLabelKeeps(a);
    VersionLabelKeeps(b);
  }
}
