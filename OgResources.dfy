/** The community-resources edge function of
    `public/functions/api/resources.json.js`: for each listed URL it
    collects the page's OpenGraph `url`, `title`, `description` and `image`
    from its `<meta property="og…" content="…">` tags, and answers with the
    collected records of the pages that could be fetched, in list order. */
module OgResources {
  import opened Wrappers
  import opened Strings

  /** A collector's state; `None` is the script's `null`. */
  datatype OgState = OgState(
    url: Option<string>,
    title: Option<string>,
    description: Option<string>,
    image: Option<string>)

  const Empty := OgState(None, None, None, None)

  /** A matched meta tag: its `property` and `content` attributes. */
  datatype Meta = Meta(property: string, content: string)

  /** The second and third `:`-separated segments of a property, when they
      exist (`[_og, namespace, key] = property.split(':')`). */
  function Namespace(property: string): Option<string> {
    var parts := Split(property, ':');
    if |parts| > 1 then Some(parts[1]) else None
  }

  function Key(property: string): Option<string> {
    var parts := Split(property, ':');
    if |parts| > 2 then Some(parts[2]) else None
  }

  /** `!key || key === 'url'`: no key, an empty key or `url`. */
  predicate ImageKey(key: Option<string>) {
    key.None? || key.value == "" || key.value == "url"
  }

  /** What one `element` call does to the state. */
  function Step(s: OgState, m: Meta): OgState {
    match Namespace(m.property)
    case Some("url") => s.(url := Some(m.content))
    case Some("title") => s.(title := Some(m.content))
    case Some("description") => s.(description := Some(m.content))
    case Some("image") => if ImageKey(Key(m.property)) then s.(image := Some(m.content)) else s
    case _ => s
  }

  /** The state after the tags, in document order. */
  function Collect(metas: seq<Meta>): OgState {
    if |metas| == 0 then Empty
    else Step(Collect(metas[..|metas| - 1]), metas[|metas| - 1])
  }

  /** The content of the last tag that `selects` picks, if any. */
  function LastContent(metas: seq<Meta>, selects: Meta -> bool): (r: Option<string>)
    ensures r.Some? <==> exists i :: 0 <= i < |metas| && selects(metas[i])
    ensures r.Some? ==> exists i ::
      && 0 <= i < |metas|
      && selects(metas[i])
      && metas[i].content == r.value
      && (forall j :: i < j < |metas| ==> !selects(metas[j]))
  {
    if |metas| == 0 then None
    else if selects(metas[|metas| - 1]) then Some(metas[|metas| - 1].content)
    else
      var r := LastContent(metas[..|metas| - 1], selects);
      assert forall i :: 0 <= i < |metas| - 1 ==> metas[..|metas| - 1][i] == metas[i];
      r
  }

  predicate SetsUrl(m: Meta) { Namespace(m.property) == Some("url") }
  predicate SetsTitle(m: Meta) { Namespace(m.property) == Some("title") }
  predicate SetsDescription(m: Meta) { Namespace(m.property) == Some("description") }
  predicate SetsImage(m: Meta) { Namespace(m.property) == Some("image") && ImageKey(Key(m.property)) }

  /** Each field holds the content of the last tag that sets it, and stays
      `null` when no tag does: later tags overwrite earlier ones, and tags
      of any other namespace or image key change nothing. */
  lemma {:induction false} CollectLastWins(metas: seq<Meta>)
    ensures Collect(metas).url == LastContent(metas, SetsUrl)
    ensures Collect(metas).title == LastContent(metas, SetsTitle)
    ensures Collect(metas).description == LastContent(metas, SetsDescription)
    ensures Collect(metas).image == LastContent(metas, SetsImage)
  {
    if |metas| > 0 {
      CollectLastWins(metas[..|metas| - 1]);
      StepFields(Collect(metas[..|metas| - 1]), metas[|metas| - 1]);
    }
  }

  /** One tag sets the field its property selects and no other. */
  lemma StepFields(s: OgState, m: Meta)
    ensures Step(s, m).url == if SetsUrl(m) then Some(m.content) else s.url
    ensures Step(s, m).title == if SetsTitle(m) then Some(m.content) else s.title
    ensures Step(s, m).description == if SetsDescription(m) then Some(m.content) else s.description
    ensures Step(s, m).image == if SetsImage(m) then Some(m.content) else s.image
  {
  }

  /** A tag of another namespace, or an image tag with another key such as
      `og:image:width`, leaves the state as it was. */
  lemma StepIgnores(s: OgState, m: Meta)
    requires !SetsUrl(m) && !SetsTitle(m) && !SetsDescription(m) && !SetsImage(m)
    ensures Step(s, m) == s
  {
  }

  /** `makeCollector`: a state and its `element` handler. */
  class Collector {
    var url: Option<string>
    var title: Option<string>
    var description: Option<string>
    var image: Option<string>

    /** The `state` getter: a copy of the fields. */
    function State(): OgState
      reads this
    {
      OgState(url, title, description, image)
    }

    constructor()
      ensures State() == Empty
    {
      url, title, description, image := None, None, None, None;
    }

    /** `element`: overwrites the field the tag's namespace names. */
    method Element(m: Meta)
      modifies this
      ensures State() == Step(old(State()), m)
    {
      var parts := Split(m.property, ':');
      var namespace := if |parts| > 1 then Some(parts[1]) else None;
      var key := if |parts| > 2 then Some(parts[2]) else None;
      match namespace {
        case Some("url") => url := Some(m.content);
        case Some("title") => title := Some(m.content);
        case Some("description") => description := Some(m.content);
        case Some("image") =>
          if key.None? || key.value == "" || key.value == "url" {
            image := Some(m.content);
          }
        case _ =>
      }
    }
  }

  /** What `await fetch(url)` gives: a rejection (a network error), or a
      response with its `ok` flag and the page's matched meta tags. */
  datatype Fetched = Rejected | Response(ok: bool, metas: seq<Meta>)

  /** The reason a rejected fetch passes on. */
  datatype FetchError = NetworkError

  /** `fetchUrlResource`: rejects when the fetch rejects, gives `null` for
      a response that is not ok, and otherwise the state after every
      matched tag of the page has been handed to a fresh collector. */
  method FetchUrlResource(response: Fetched) returns (r: Result<Option<OgState>, FetchError>)
    ensures response.Rejected? ==> r == Failure(NetworkError)
    ensures response.Response? && !response.ok ==> r == Success(None)
    ensures response.Response? && response.ok ==> r == Success(Some(Collect(response.metas)))
  {
    if response.Rejected? {
      return Failure(NetworkError);
    }
    if !response.ok {
      return Success(None);
    }
    var metas := response.metas;
    var collector := new Collector();
    var i := 0;
    while i < |metas|
      invariant 0 <= i <= |metas|
      invariant collector.State() == Collect(metas[..i])
    {
      collector.Element(metas[i]);
      assert metas[..i + 1][..i] == metas[..i];
      i := i + 1;
    }
    assert metas[..i] == metas;
    return Success(Some(collector.State()));
  }

  /** The answer of `onRequestGET`: a rejection as soon as one fetch
      rejects, since nothing catches it; otherwise the records of the URLs
      whose response was ok, in URL order. */
  function Resources(urls: seq<string>, fetch: string -> Fetched): (r: Result<seq<OgState>, FetchError>)
    ensures r.Failure? <==> exists i :: 0 <= i < |urls| && fetch(urls[i]).Rejected?
    ensures r.Success? ==> |r.value| <= |urls|
  {
    if |urls| == 0 then Success([])
    else
      var front := urls[..|urls| - 1];
      var last := urls[|urls| - 1];
      assert forall i :: 0 <= i < |front| ==> front[i] == urls[i];
      var earlier := Resources(front, fetch);
      if earlier.Failure? || fetch(last).Rejected? then Failure(NetworkError)
      else Success(earlier.value + (if fetch(last).ok then [Collect(fetch(last).metas)] else []))
  }

  /** The answer for a list of URLs is the answers for its parts, one
      after the other: records keep the order of their URLs, and a
      rejection in either part rejects the whole. */
  lemma {:induction false} ResourcesAppend(a: seq<string>, b: seq<string>, fetch: string -> Fetched)
    ensures Resources(a + b, fetch) ==
      if Resources(a, fetch).Success? && Resources(b, fetch).Success?
      then Success(Resources(a, fetch).value + Resources(b, fetch).value)
      else Failure(NetworkError)
  {
    if |b| == 0 {
      assert a + b == a;
      if Resources(a, fetch).Success? {
        assert Resources(a, fetch).value + [] == Resources(a, fetch).value;
      }
    } else {
      var front := b[..|b| - 1];
      var last := b[|b| - 1];
      assert (a + b)[..|a + b| - 1] == a + front;
      assert (a + b)[|a + b| - 1] == last;
      ResourcesAppend(a, front, fetch);
      if Resources(a, fetch).Success? && Resources(front, fetch).Success? && !fetch(last).Rejected? {
        var tail := if fetch(last).ok then [Collect(fetch(last).metas)] else [];
        assert Resources(a + front, fetch).value + tail
          == Resources(a, fetch).value + (Resources(front, fetch).value + tail);
      }
    }
  }

  /** When every response is ok the answer holds one record per URL, at
      the URL's position. */
  lemma {:induction false} ResourcesAllOk(urls: seq<string>, fetch: string -> Fetched)
    requires forall i :: 0 <= i < |urls| ==> fetch(urls[i]).Response? && fetch(urls[i]).ok
    ensures Resources(urls, fetch).Success?
    ensures |Resources(urls, fetch).value| == |urls|
    ensures forall i :: 0 <= i < |urls| ==> Resources(urls, fetch).value[i] == Collect(fetch(urls[i]).metas)
  {
    if |urls| > 0 {
      ResourcesAllOk(urls[..|urls| - 1], fetch);
    }
  }

  /** A URL whose response is not ok contributes nothing. */
  lemma ResourcesSkipsNotOk(a: seq<string>, url: string, b: seq<string>, fetch: string -> Fetched)
    requires fetch(url).Response? && !fetch(url).ok
    ensures Resources(a + [url] + b, fetch) == Resources(a + b, fetch)
  {
    assert [url][..0] == [];
    assert Resources([url], fetch) == Success([]);
    ResourcesAppend(a, [url], fetch);
    if Resources(a, fetch).Success? {
      assert Resources(a, fetch).value + [] == Resources(a, fetch).value;
    }
    ResourcesAppend(a + [url], b, fetch);
    ResourcesAppend(a, b, fetch);
  }

  /** A rejected fetch anywhere in the list rejects the whole answer, so
      no record is returned. */
  lemma ResourcesRejected(a: seq<string>, url: string, b: seq<string>, fetch: string -> Fetched)
    requires fetch(url).Rejected?
    ensures Resources(a + [url] + b, fetch) == Failure(NetworkError)
  {
    assert (a + [url] + b)[|a|] == url;
  }

  /** `onRequestGET`: fetches each URL in turn and keeps the records of
      the ones whose response was ok; a rejected fetch escapes the loop. */
  method OnRequestGet(urls: seq<string>, fetch: string -> Fetched) returns (r: Result<seq<OgState>, FetchError>)
    ensures r == Resources(urls, fetch)
  {
    var resources := [];
    var i := 0;
    while i < |urls|
      invariant 0 <= i <= |urls|
      invariant Resources(urls[..i], fetch) == Success(resources)
    {
      var resource := FetchUrlResource(fetch(urls[i]));
      assert urls[..i + 1][..i] == urls[..i];
      assert urls[..i + 1][i] == urls[i];
      if resource.Failure? {
        assert fetch(urls[i]).Rejected?;
        return Failure(NetworkError);
      }
      var response := fetch(urls[i]);
      assert response.Response?;
      if resource.value.Some? {
        assert response.ok && resource.value.value == Collect(response.metas);
        resources := resources + [resource.value.value];
      } else {
        assert !response.ok;
        assert resources + [] == resources;
      }
      assert Resources(urls[..i + 1], fetch) == Success(resources);
      i := i + 1;
    }
    assert urls[..i] == urls;
    return Success(resources);
  }
}
