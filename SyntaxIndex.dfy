/** The syntax-lookup index of `scripts/extract-syntax.mjs`: one entry per
    syntax page whose front matter is complete, sorted by name. */
module SyntaxIndex {
  import opened Wrappers
  import opened Sorting
  import Paths

  /** A front-matter value, as the YAML parser produces it; a number is
      an exact real. */
  datatype Value =
    | Str(s: string)
    | Num(n: real)
    | Bool(b: bool)
    | List(items: seq<Value>)
    | Mapping(entries: map<string, Value>)
    | Null

  /** A page's front matter; a missing key reads as `undefined`. */
  type Matter = map<string, Value>

  /** JavaScript truthiness: the empty string, zero, `false` and `null`
      are falsy; every array and every object is truthy. */
  predicate Truthy(v: Value) {
    match v
    case Str(s) => s != ""
    case Num(n) => n != 0.0
    case Bool(b) => b
    case List(_) => true
    case Mapping(_) => true
    case Null => false
  }

  /** `matter[key]` is present and truthy. */
  predicate Has(matter: Matter, key: string) {
    key in matter && Truthy(matter[key])
  }

  /** An index entry: the page's base name and its five metadata fields. */
  datatype Entry = Entry(
    file: string,
    id: Value,
    keywords: Value,
    name: Value,
    summary: Value,
    category: Value)

  /** `processFile`: an entry when every required field is truthy, and
      nothing (the script's `null`, after reporting the page) otherwise. */
  function ProcessFile(relFilePath: string, matter: Matter): (r: Option<Entry>)
    ensures r.Some? <==>
      Has(matter, "id") && Has(matter, "keywords") && Has(matter, "name") &&
      Has(matter, "summary") && Has(matter, "category")
    ensures r.Some? ==> r.value.file == Paths.Parse(relFilePath).name
    ensures r.Some? ==>
      && r.value.id == matter["id"]
      && r.value.keywords == matter["keywords"]
      && r.value.name == matter["name"]
      && r.value.summary == matter["summary"]
      && r.value.category == matter["category"]
  {
    if Has(matter, "id") && Has(matter, "keywords") && Has(matter, "name") &&
       Has(matter, "summary") && Has(matter, "category")
    then
      Some(Entry(Paths.Parse(relFilePath).name, matter["id"], matter["keywords"],
                 matter["name"], matter["summary"], matter["category"]))
    else
      None
  }

  /** A syntax page: its path relative to the syntax directory and its
      front matter. */
  datatype Page = Page(relFilePath: string, matter: Matter)

  /** `.map(processFile).filter(Boolean)`: the entries of the complete
      pages, in page order. */
  function Produced(pages: seq<Page>): (r: seq<Entry>)
    ensures |r| <= |pages|
  {
    if |pages| == 0 then []
    else
      match ProcessFile(pages[0].relFilePath, pages[0].matter)
      case Some(e) => [e] + Produced(pages[1..])
      case None => Produced(pages[1..])
  }

  /** An entry is produced exactly when some page yields it. */
  lemma {:induction false} ProducedFrom(pages: seq<Page>, e: Entry)
    ensures e in Produced(pages) <==>
      exists i :: 0 <= i < |pages| && ProcessFile(pages[i].relFilePath, pages[i].matter) == Some(e)
  {
    if |pages| > 0 {
      ProducedFrom(pages[1..], e);
      if e in Produced(pages) {
        if ProcessFile(pages[0].relFilePath, pages[0].matter) != Some(e) {
          var i :| 0 <= i < |pages[1..]| &&
            ProcessFile(pages[1..][i].relFilePath, pages[1..][i].matter) == Some(e);
          assert pages[i + 1] == pages[1..][i];
        }
      }
      if exists i :: 0 <= i < |pages| && ProcessFile(pages[i].relFilePath, pages[i].matter) == Some(e) {
        var i :| 0 <= i < |pages| && ProcessFile(pages[i].relFilePath, pages[i].matter) == Some(e);
        if i > 0 {
          assert pages[1..][i - 1] == pages[i];
        }
      }
    }
  }

  /** `a.name.localeCompare(b.name) <= 0`, with `le` the abstract locale
      order on names. */
  function NameLe(le: (Value, Value) -> bool): (Entry, Entry) -> bool {
    (a: Entry, b: Entry) => le(a.name, b.name)
  }

  lemma NameLePreorder(le: (Value, Value) -> bool)
    requires TotalPreorder(le)
    ensures TotalPreorder(NameLe(le))
  {
    var nle := NameLe(le);
    forall a: Entry, b: Entry ensures nle(a, b) || nle(b, a) {
      assert le(a.name, b.name) || le(b.name, a.name);
    }
    forall a: Entry, b: Entry, c: Entry | nle(a, b) && nle(b, c) ensures nle(a, c) {
      assert le(a.name, b.name) && le(b.name, c.name);
    }
  }

  /** `extractSyntax`: the produced entries sorted by name; entries whose
      names compare equal keep the order of their pages. */
  function ExtractSyntax(pages: seq<Page>, le: (Value, Value) -> bool): (r: seq<Entry>)
    requires TotalPreorder(le)
    ensures |r| <= |pages|
    ensures multiset(r) == multiset(Produced(pages))
    ensures forall i, j :: 0 <= i < j < |r| ==> le(r[i].name, r[j].name)
    ensures forall e :: Ties(r, e, NameLe(le)) == Ties(Produced(pages), e, NameLe(le))
  {
    NameLePreorder(le);
    var r := SortBy(Produced(pages), NameLe(le));
    assert forall i, j :: 0 <= i < j < |r| ==> NameLe(le)(r[i], r[j]);
    r
  }

  /** Every entry of the index comes from a complete page, copies that
      page's fields and is named after its file. */
  lemma IndexEntries(pages: seq<Page>, le: (Value, Value) -> bool, e: Entry)
    requires TotalPreorder(le)
    ensures e in ExtractSyntax(pages, le) <==>
      exists i :: 0 <= i < |pages| && ProcessFile(pages[i].relFilePath, pages[i].matter) == Some(e)
  {
    var r := ExtractSyntax(pages, le);
    assert e in r <==> e in multiset(r);
    assert e in Produced(pages) <==> e in multiset(Produced(pages));
    ProducedFrom(pages, e);
  }
}
