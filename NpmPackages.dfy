/** The npm package listing of
    `public/functions/api/packages_url_resources.json.js`: three pages of
    registry search results are parsed, their keywords cleaned, and each
    package is either listed, dropped as a Reason package, or set aside as
    unmaintained. */
module NpmPackages {
  import opened Wrappers
  import opened Strings

  // ----- keywords -----

  /** `toLowerCase` on the ASCII letters. */
  function LowerChar(c: char): char {
    if 'A' <= c <= 'Z' then (c as int + 32) as char else c
  }

  function Lower(s: string): (r: string)
    ensures |r| == |s|
    ensures forall i :: 0 <= i < |s| ==> r[i] == LowerChar(s[i])
  {
    seq(|s|, i requires 0 <= i < |s| => LowerChar(s[i]))
  }

  /** The keywords every package of the ecosystem carries, compared in
      lower case. */
  predicate Generic(kw: string) {
    var k := Lower(kw);
    k == "reasonml" || k == "reason" || k == "ocaml" || k == "bucklescript" || k == "rescript"
  }

  /** `filterKeywords`: drops the generic keywords, keeps the others in
      order. */
  function FilterKeywords(keywords: seq<string>): (r: seq<string>)
    ensures forall k :: k in r <==> k in keywords && !Generic(k)
    ensures |r| <= |keywords|
  {
    if |keywords| == 0 then []
    else
      var rest := FilterKeywords(keywords[..|keywords| - 1]);
      var kw := keywords[|keywords| - 1];
      if Generic(kw) then rest else rest + [kw]
  }

  /** Filtering a list is filtering its parts: the kept keywords stay in
      their order. */
  lemma {:induction false} FilterKeywordsAppend(a: seq<string>, b: seq<string>)
    ensures FilterKeywords(a + b) == FilterKeywords(a) + FilterKeywords(b)
  {
    if |b| == 0 {
      assert a + b == a;
    } else {
      assert (a + b)[..|a + b| - 1] == a + b[..|b| - 1];
      FilterKeywordsAppend(a, b[..|b| - 1]);
    }
  }

  /** A keyword is dropped exactly when it is generic, in any letter case. */
  lemma FilterKeywordsOne(kw: string)
    ensures FilterKeywords([kw]) == if Generic(kw) then [] else [kw]
  {
    assert [kw][..0] == [];
  }

  /** The index of the first `x` in `s`. */
  function FirstIndex(s: seq<string>, x: string): (i: nat)
    requires x in s
    ensures i < |s| && s[i] == x && x !in s[..i]
  {
    if s[0] == x then 0
    else
      var i := FirstIndex(s[1..], x);
      assert s[..i + 1] == [s[0]] + s[1..][..i];
      i + 1
  }

  /** Where an element of a prefix first occurs does not depend on what
      follows the prefix. */
  lemma FirstIndexPrefix(s: seq<string>, n: nat, x: string)
    requires n <= |s| && x in s[..n]
    ensures FirstIndex(s, x) == FirstIndex(s[..n], x)
  {
    var i := FirstIndex(s[..n], x);
    var j := FirstIndex(s, x);
    assert s[..n][..i] == s[..i];
  }

  /** `[...new Set(keywords)]`: each keyword once, at its first
      occurrence; the comparison is case-sensitive. */
  function UniqueKeywords(keywords: seq<string>): (r: seq<string>)
    ensures forall k :: k in r <==> k in keywords
    ensures forall i, j :: 0 <= i < j < |r| ==> r[i] != r[j]
    ensures forall i, j :: 0 <= i < j < |r| ==> FirstIndex(keywords, r[i]) < FirstIndex(keywords, r[j])
  {
    if |keywords| == 0 then []
    else
      var n := |keywords| - 1;
      var front := keywords[..n];
      var u := UniqueKeywords(front);
      assert keywords == front + [keywords[n]];
      forall k | k in u ensures FirstIndex(keywords, k) == FirstIndex(front, k) {
        FirstIndexPrefix(keywords, n, k);
      }
      if keywords[n] in u then u
      else
        var r := u + [keywords[n]];
        assert FirstIndex(keywords, keywords[n]) == n;
        assert forall i :: 0 <= i < |u| ==> FirstIndex(keywords, r[i]) < n by {
          forall i | 0 <= i < |u| ensures FirstIndex(keywords, r[i]) < n {
            assert r[i] == u[i] && u[i] in u;
          }
        }
        r
  }

  // ----- parsing -----

  /** A search hit as the registry sends it; a field that may be missing
      is an `Option`. */
  datatype Links = Links(repository: Option<string>, npm: Option<string>)

  datatype Item = Item(
    name: string,
    version: string,
    keywords: Option<seq<string>>,
    description: Option<string>,
    links: Option<Links>,
    searchScore: real,
    maintenance: real)

  /** A listed package; `npmHref` is `undefined` when the link is missing. */
  datatype Package = Package(
    name: string,
    version: string,
    keywords: seq<string>,
    description: string,
    repositoryHref: Option<string>,
    npmHref: Option<string>,
    searchScore: real,
    maintenanceScore: real)

  /** `keywords.filter` on a missing list, and `links["npm"]` on missing
      links, throw: the optional chaining before `repository` does not
      protect the `npm` lookup after it. */
  datatype ParseError = MissingKeywords(pkg: string) | MissingLinks(pkg: string)

  function ParsePkg(item: Item): (r: Result<Package, ParseError>)
    ensures item.keywords.None? ==> r == Failure(MissingKeywords(item.name))
    ensures item.keywords.Some? && item.links.None? ==> r == Failure(MissingLinks(item.name))
    ensures item.keywords.Some? && item.links.Some? ==> r.Success?
    ensures r.Success? ==>
      && r.value.name == item.name
      && r.value.version == item.version
      && r.value.searchScore == item.searchScore
      && r.value.keywords == UniqueKeywords(FilterKeywords(item.keywords.value))
      && r.value.description == item.description.GetOr("")
      && r.value.repositoryHref == item.links.value.repository
      && r.value.npmHref == item.links.value.npm
      && r.value.maintenanceScore == item.maintenance
  {
    if item.keywords.None? then Failure(MissingKeywords(item.name))
    else if item.links.None? then Failure(MissingLinks(item.name))
    else
      Success(Package(
        item.name,
        item.version,
        UniqueKeywords(FilterKeywords(item.keywords.value)),
        item.description.GetOr(""),
        item.links.value.repository,
        item.links.value.npm,
        item.searchScore,
        item.maintenance))
  }

  /** `parsePkgs`: every hit parsed, or the first hit's error. */
  function ParsePkgs(items: seq<Item>): (r: Result<seq<Package>, ParseError>)
    ensures r.Success? ==> |r.value| == |items|
    ensures r.Success? ==> forall i :: 0 <= i < |items| ==> ParsePkg(items[i]) == Success(r.value[i])
    ensures r.Success? <==> forall i :: 0 <= i < |items| ==> ParsePkg(items[i]).Success?
  {
    if |items| == 0 then Success([])
    else
      match ParsePkg(items[0])
      case Failure(e) => Failure(e)
      case Success(p) =>
        match ParsePkgs(items[1..])
        case Failure(e) =>
          Failure(e)
        case Success(ps) =>
          assert forall i :: 1 <= i < |items| ==> items[i] == items[1..][i - 1];
          Success([p] + ps)
  }

  // ----- the partition -----

  /** The allow list is empty, so no package is let through by it. */
  const AllowList: seq<Package> := []

  predicate IsReason(pkg: Package) {
    Contains(pkg.name, "reason")
  }

  predicate Unmaintained(pkg: Package) {
    pkg.maintenanceScore < 0.3
  }

  /** What `shouldAllow` answers. */
  predicate Allowed(pkg: Package) {
    pkg in AllowList || (!IsReason(pkg) && !Unmaintained(pkg))
  }

  /** What `shouldAllow` records as unmaintained. */
  predicate Recorded(pkg: Package) {
    pkg !in AllowList && !IsReason(pkg) && Unmaintained(pkg)
  }

  /** The packages `shouldAllow` lets through, in order. */
  function Accepted(data: seq<Package>): seq<Package> {
    if |data| == 0 then []
    else
      var front := Accepted(data[..|data| - 1]);
      var last := data[|data| - 1];
      if Allowed(last) then front + [last] else front
  }

  /** The packages `shouldAllow` records as unmaintained, in order. */
  function Stale(data: seq<Package>): seq<Package> {
    if |data| == 0 then []
    else
      var front := Stale(data[..|data| - 1]);
      var last := data[|data| - 1];
      if Recorded(last) then front + [last] else front
  }

  /** The listed packages are the allowed ones, the unmaintained ones those
      recorded by `shouldAllow`. */
  lemma {:induction false} Members(data: seq<Package>)
    ensures forall p :: p in Accepted(data) <==> p in data && Allowed(p)
    ensures forall p :: p in Stale(data) <==> p in data && Recorded(p)
  {
    if |data| > 0 {
      var front := data[..|data| - 1];
      Members(front);
      assert data == front + [data[|data| - 1]];
    }
  }

  /** A package is never both listed and set aside as unmaintained, and a
      Reason package is neither; every other package is one of the two. */
  lemma Partition(data: seq<Package>)
    ensures forall p :: p in Accepted(data) ==> p !in Stale(data)
    ensures forall p :: p in data && IsReason(p) ==> p !in Accepted(data) && p !in Stale(data)
    ensures forall p :: p in data && !IsReason(p) ==> (p in Accepted(data) <==> p !in Stale(data))
  {
    Members(data);
  }

  lemma {:induction false} AcceptedAppend(a: seq<Package>, b: seq<Package>)
    ensures Accepted(a + b) == Accepted(a) + Accepted(b)
    ensures Stale(a + b) == Stale(a) + Stale(b)
  {
    if |b| == 0 {
      assert a + b == a;
    } else {
      assert (a + b)[..|a + b| - 1] == a + b[..|b| - 1];
      AcceptedAppend(a, b[..|b| - 1]);
    }
  }

  /** The two lists `fetchNpmPackages` builds: `unmaintained` is the
      array `shouldAllow` pushes into. */
  class Search {
    var packages: seq<Package>
    var unmaintained: seq<Package>

    constructor()
      ensures packages == [] && unmaintained == []
    {
      packages, unmaintained := [], [];
    }

    /** `shouldAllow`, with its push into `unmaintained`. */
    method ShouldAllow(pkg: Package) returns (allow: bool)
      modifies this
      ensures allow == Allowed(pkg)
      ensures unmaintained == old(unmaintained) + (if Recorded(pkg) then [pkg] else [])
      ensures packages == old(packages)
    {
      if pkg in AllowList {
        return true;
      }
      if Contains(pkg.name, "reason") {
        return false;
      }
      if pkg.maintenanceScore < 0.3 {
        unmaintained := unmaintained + [pkg];
        return false;
      }
      return true;
    }

    /** One `for (let pkg of data) if (shouldAllow(pkg)) packages.push(pkg)`
      loop. */
    method AddAll(data: seq<Package>)
      modifies this
      ensures packages == old(packages) + Accepted(data)
      ensures unmaintained == old(unmaintained) + Stale(data)
    {
      var i := 0;
      while i < |data|
        invariant 0 <= i <= |data|
        invariant packages == old(packages) + Accepted(data[..i])
        invariant unmaintained == old(unmaintained) + Stale(data[..i])
      {
        var allow := ShouldAllow(data[i]);
        if allow {
          packages := packages + [data[i]];
        }
        assert data[..i + 1][..i] == data[..i];
        i := i + 1;
      }
      assert data[..i] == data;
    }
  }

  /** `fetchNpmPackages` once the three result pages are in: the listed
      packages of the first page, then the second, then the third, and
      the unmaintained ones in the same order. */
  method FetchNpmPackages(data1: seq<Package>, data2: seq<Package>, data3: seq<Package>)
    returns (packages: seq<Package>, unmaintained: seq<Package>)
    ensures packages == Accepted(data1) + Accepted(data2) + Accepted(data3)
    ensures unmaintained == Stale(data1) + Stale(data2) + Stale(data3)
  {
    var search := new Search();
    search.AddAll(data1);
    search.AddAll(data2);
    search.AddAll(data3);
    packages, unmaintained := search.packages, search.unmaintained;
    ThreePages(data1, data2, data3);
  }

  /** The lists of three pages taken one after another are the lists of
      their concatenation, and they share no package. */
  lemma ThreePages(data1: seq<Package>, data2: seq<Package>, data3: seq<Package>)
    ensures Accepted(data1) + Accepted(data2) + Accepted(data3) == Accepted(data1 + data2 + data3)
    ensures Stale(data1) + Stale(data2) + Stale(data3) == Stale(data1 + data2 + data3)
    ensures forall p :: p in Accepted(data1 + data2 + data3) ==> p !in Stale(data1 + data2 + data3)
  {
    AcceptedAppend(data1, data2);
    AcceptedAppend(data1 + data2, data3);
    Partition(data1 + data2 + data3);
  }

  /** The three pages are awaited with `Promise.all3`, which is not a
      function of the JavaScript `Promise` object: the call throws before
      any page is used, so the function as written never answers. */
  datatype Outcome = Answer(packages: seq<Package>, unmaintained: seq<Package>) | TypeError(message: string)

  function FetchNpmPackagesAsWritten(data1: seq<Package>, data2: seq<Package>, data3: seq<Package>): (r: Outcome)
    ensures r.TypeError?
  {
    TypeError("Promise.all3 is not a function")
  }

  /** Whatever the three pages hold, the function as written answers with
      no listing at all, where the intended function lists the accepted
      packages of the three pages. */
  lemma AsWrittenNeverLists(data1: seq<Package>, data2: seq<Package>, data3: seq<Package>)
    ensures FetchNpmPackagesAsWritten(data1, data2, data3) !=
      Answer(Accepted(data1 + data2 + data3), Stale(data1 + data2 + data3))
  {
  }
}
