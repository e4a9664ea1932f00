/** vite.config.mjs: the static-site generation step. For every static path
    it asks the server entry for the HTML page and then for the RSC payload,
    and writes each to a file; any non-200 status aborts the build. The
    server entry is an abstract function from request to response. */
module StaticRender {
  import opened Wrappers
  import opened Strings
  import opened RscEntry

  /** The base every synthetic request is built against. */
  const Origin: string := "http://ssg.local"

  /** `new Request(new URL(path, Origin))`, kept as its two parts. */
  datatype Request = Request(origin: string, path: string)

  /** One file written under the client output directory, named as the
      loop names it, before `path.join` with that directory normalises
      the name. */
  datatype Written = Written(file: string, body: string)

  /** The request whose status was not 200, and that status. */
  datatype Failed = Failed(request: Request, status: int)

  /** What a run of the loop produced: the requests issued, the files
      written (both in order) and the failure that stopped it, if any. */
  datatype Run = Run(requests: seq<Request>, written: seq<Written>, failure: Option<Failed>)

  /** `normalizeHtmlFilePath(p)`: a directory path gets `index.html`, any
      other path gets the `.html` extension. */
  function NormalizeHtmlFilePath(p: string): string {
    if EndsWith(p, "/") then p + "index.html" else p + ".html"
  }

  /** The HTML file of a page is its path followed by `index.html` for a
      directory path and by `.html` otherwise, so it always ends in `.html`. */
  lemma HtmlFilePathShape(p: string)
    ensures var r := NormalizeHtmlFilePath(p);
      StartsWith(r, p) && EndsWith(r, ".html") &&
      (EndsWith(p, "/") ==> r[|p|..] == "index.html") &&
      (!EndsWith(p, "/") ==> r[|p|..] == ".html")
  {
  }

  /** The RSC file of a page: its path with the suffix, not normalised. */
  function RscFilePath(htmlPath: string): string {
    htmlPath + RSC_POSTFIX
  }

  /** One page: HTML request, HTML file, RSC request, RSC file, stopping
      at the first status that is not 200. */
  function RenderPage(htmlPath: string, entry: Request -> Response): Run {
    var htmlRequest := Request(Origin, htmlPath);
    var htmlResponse := entry(htmlRequest);
    if htmlResponse.status != 200 then
      Run([htmlRequest], [], Some(Failed(htmlRequest, htmlResponse.status)))
    else
      var htmlFile := Written(NormalizeHtmlFilePath(htmlPath), htmlResponse.body);
      var rscRequest := Request(Origin, RscFilePath(htmlPath));
      var rscResponse := entry(rscRequest);
      if rscResponse.status != 200 then
        Run([htmlRequest, rscRequest], [htmlFile], Some(Failed(rscRequest, rscResponse.status)))
      else
        Run([htmlRequest, rscRequest], [htmlFile, Written(RscFilePath(htmlPath), rscResponse.body)], None)
  }

  /** A run that did not fail followed by another run. */
  function Then(first: Run, next: Run): Run {
    Run(first.requests + next.requests, first.written + next.written, next.failure)
  }

  lemma ThenAssoc(p: Run, x: Run, y: Run)
    ensures Then(p, Then(x, y)) == Then(Then(p, x), y)
  {
    assert p.requests + (x.requests + y.requests) == (p.requests + x.requests) + y.requests;
    assert p.written + (x.written + y.written) == (p.written + x.written) + y.written;
  }

  lemma AppendAssoc<T>(a: seq<T>, b: seq<T>, c: seq<T>)
    ensures (a + b) + c == a + (b + c)
  {
  }

  lemma ThenNone(r: Run)
    ensures Then(Run([], [], None), r) == r
  {
    assert [] + r.requests == r.requests && [] + r.written == r.written;
  }

  /** Unfolding one page of a run. */
  lemma RenderUnfold(paths: seq<string>, entry: Request -> Response)
    requires |paths| > 0
    ensures RenderPage(paths[0], entry).failure.Some? ==> Render(paths, entry) == RenderPage(paths[0], entry)
    ensures RenderPage(paths[0], entry).failure.None? ==>
      Render(paths, entry) == Then(RenderPage(paths[0], entry), Render(paths[1..], entry))
  {
  }

  /** One step of the loop in `renderStatic`: with the pages before `i`
      done, page `i` either stops the run or hands over to the next one. */
  lemma Advance(paths: seq<string>, i: nat, entry: Request -> Response, doneRequests: seq<Request>, doneFiles: seq<Written>)
    requires i < |paths|
    requires Render(paths, entry) == Then(Run(doneRequests, doneFiles, None), Render(paths[i..], entry))
    ensures var page := RenderPage(paths[i], entry);
      (page.failure.Some? ==>
        Render(paths, entry) == Run(doneRequests + page.requests, doneFiles + page.written, page.failure)) &&
      (page.failure.None? ==>
        Render(paths, entry) == Then(Run(doneRequests + page.requests, doneFiles + page.written, None), Render(paths[i + 1..], entry)))
  {
    var page := RenderPage(paths[i], entry);
    var rest := Render(paths[i + 1..], entry);
    RenderUnfold(paths[i..], entry);
    assert paths[i..][1..] == paths[i + 1..];
    if page.failure.None? {
      ThenAssoc(Run(doneRequests, doneFiles, None), page, rest);
    }
  }

  /** The specification of the loop in `renderStatic`: the pages in order,
      the first failure stopping everything. */
  function Render(paths: seq<string>, entry: Request -> Response): Run
    decreases |paths|
  {
    if |paths| == 0 then Run([], [], None)
    else
      var page := RenderPage(paths[0], entry);
      if page.failure.Some? then page else Then(page, Render(paths[1..], entry))
  }

  /** Both requests for `path` come back with status 200. */
  predicate PageOk(path: string, entry: Request -> Response) {
    entry(Request(Origin, path)).status == 200 &&
    entry(Request(Origin, RscFilePath(path))).status == 200
  }

  /** Running over `a + b` is running over `a` and, if that did not fail,
      continuing with `b`; after a failure nothing more happens. */
  lemma {:induction false} RenderAppend(a: seq<string>, b: seq<string>, entry: Request -> Response)
    ensures Render(a, entry).failure.Some? ==> Render(a + b, entry) == Render(a, entry)
    ensures Render(a, entry).failure.None? ==>
      Render(a + b, entry) == Then(Render(a, entry), Render(b, entry))
    decreases |a|
  {
    if |a| == 0 {
      assert a + b == b;
    } else {
      var page := RenderPage(a[0], entry);
      assert (a + b)[0] == a[0];
      assert (a + b)[1..] == a[1..] + b;
      RenderAppend(a[1..], b, entry);
      if page.failure.None? {
        var x, y := Render(a[1..], entry), Render(b, entry);
        if x.failure.None? {
          ThenAssoc(page, x, y);
        }
      }
    }
  }

  /** The first page decides whether the run goes on to the others. */
  lemma RenderStep(paths: seq<string>, entry: Request -> Response)
    requires |paths| > 0
    ensures Render(paths, entry).failure.None? <==>
      PageOk(paths[0], entry) && Render(paths[1..], entry).failure.None?
  {
  }

  /** A page whose two requests succeed issues them in order and writes
      its HTML file and then its RSC file. */
  lemma PageWrites(p: string, entry: Request -> Response)
    requires PageOk(p, entry)
    ensures RenderPage(p, entry) ==
      Run([Request(Origin, p), Request(Origin, RscFilePath(p))],
          [Written(NormalizeHtmlFilePath(p), entry(Request(Origin, p)).body),
           Written(RscFilePath(p), entry(Request(Origin, RscFilePath(p))).body)],
          None)
  {
  }

  /** The build succeeds exactly when every page's two requests return
      200. */
  lemma {:induction false} RenderSucceeds(paths: seq<string>, entry: Request -> Response)
    ensures Render(paths, entry).failure.None? <==> forall i :: 0 <= i < |paths| ==> PageOk(paths[i], entry)
    decreases |paths|
  {
    if |paths| > 0 {
      var tail := paths[1..];
      RenderSucceeds(tail, entry);
      RenderStep(paths, entry);
      if Render(paths, entry).failure.None? {
        forall i | 0 <= i < |paths|
          ensures PageOk(paths[i], entry)
        {
          if i > 0 { assert paths[i] == tail[i - 1]; }
        }
      } else if PageOk(paths[0], entry) {
        var j :| 0 <= j < |tail| && !PageOk(tail[j], entry);
        assert tail[j] == paths[j + 1];
      }
    }
  }

  /** When every page succeeds, the files are, page by page in order, the
      normalised HTML file followed by the RSC file, each holding the body
      of its response. */
  lemma {:induction false} RenderFiles(paths: seq<string>, entry: Request -> Response)
    requires forall i :: 0 <= i < |paths| ==> PageOk(paths[i], entry)
    ensures var w := Render(paths, entry).written;
      |w| == 2 * |paths| &&
      forall i :: 0 <= i < |paths| ==>
        w[2 * i] == Written(NormalizeHtmlFilePath(paths[i]), entry(Request(Origin, paths[i])).body) &&
        w[2 * i + 1] == Written(RscFilePath(paths[i]), entry(Request(Origin, RscFilePath(paths[i]))).body)
    decreases |paths|
  {
    if |paths| > 0 {
      var tail := paths[1..];
      RenderFiles(tail, entry);
      PageWrites(paths[0], entry);
      assert Render(paths, entry) == Then(RenderPage(paths[0], entry), Render(tail, entry));
      var w := Render(paths, entry).written;
      var tw := Render(tail, entry).written;
      assert w == RenderPage(paths[0], entry).written + tw;
      forall i | 1 <= i < |paths|
        ensures w[2 * i] == tw[2 * (i - 1)] && w[2 * i + 1] == tw[2 * (i - 1) + 1]
        ensures paths[i] == tail[i - 1]
      {
      }
    }
  }

  /** On an abort at page `k` (the first page whose requests do not both
      return 200), the files written are those of the pages before `k`,
      plus the HTML file of page `k` when only its RSC request failed; no
      file of a later page is written. */
  lemma RenderAborts(paths: seq<string>, k: nat, entry: Request -> Response)
    requires k < |paths| && !PageOk(paths[k], entry)
    requires forall i :: 0 <= i < k ==> PageOk(paths[i], entry)
    ensures Render(paths, entry).failure.Some?
    ensures Render(paths, entry).written ==
      Render(paths[..k], entry).written +
      (if entry(Request(Origin, paths[k])).status == 200
       then [Written(NormalizeHtmlFilePath(paths[k]), entry(Request(Origin, paths[k])).body)]
       else [])
    ensures Render(paths, entry).failure.value.request ==
      (if entry(Request(Origin, paths[k])).status == 200
       then Request(Origin, RscFilePath(paths[k])) else Request(Origin, paths[k]))
  {
    var done, rest := paths[..k], paths[k..];
    PrefixSucceeds(paths, k, entry);
    PageFails(paths[k], entry);
    assert rest[0] == paths[k];
    AbortSplit(done, rest, entry);
    assert paths == done + rest;
  }

  /** The pages before the first failing one all succeed. */
  lemma PrefixSucceeds(paths: seq<string>, k: nat, entry: Request -> Response)
    requires k <= |paths|
    requires forall i :: 0 <= i < k ==> PageOk(paths[i], entry)
    ensures Render(paths[..k], entry).failure.None?
  {
    var done := paths[..k];
    assert forall i :: 0 <= i < |done| ==> done[i] == paths[i];
    RenderSucceeds(done, entry);
  }

  /** A run that goes through `a` and then fails on the first page of `b`
      is the run of `a` followed by that page's own run. */
  lemma AbortSplit(a: seq<string>, b: seq<string>, entry: Request -> Response)
    requires Render(a, entry).failure.None?
    requires |b| > 0 && !PageOk(b[0], entry)
    ensures Render(a + b, entry) == Then(Render(a, entry), RenderPage(b[0], entry))
  {
    PageFails(b[0], entry);
    RenderUnfold(b, entry);
    RenderAppend(a, b, entry);
  }

  /** A page whose requests do not both return 200 fails at its first
      failing request and writes its HTML file only if that request was
      the RSC one. */
  lemma PageFails(p: string, entry: Request -> Response)
    requires !PageOk(p, entry)
    ensures var page := RenderPage(p, entry);
      page.failure.Some? &&
      page.written ==
        (if entry(Request(Origin, p)).status == 200
         then [Written(NormalizeHtmlFilePath(p), entry(Request(Origin, p)).body)]
         else []) &&
      page.failure.value.request ==
        (if entry(Request(Origin, p)).status == 200
         then Request(Origin, RscFilePath(p)) else Request(Origin, p))
  {
  }

  /** Requests all go to the fixed origin, and each odd-numbered one asks
      for the RSC payload of the page the one before it asked for. */
  predicate SsgRequests(rq: seq<Request>) {
    (forall j :: 0 <= j < |rq| ==> rq[j].origin == Origin) &&
    forall j :: 0 < j < |rq| && j % 2 == 1 ==>
      Classify(rq[j].path) == Classified(rq[j - 1].path, true)
  }

  /** Every request goes to the fixed origin, and the odd-numbered ones (the
      RSC requests) are recognised by the server entry as RSC requests for
      the page just rendered as HTML. */
  lemma {:induction false} RenderRequests(paths: seq<string>, entry: Request -> Response)
    ensures SsgRequests(Render(paths, entry).requests)
    decreases |paths|
  {
    if |paths| > 0 {
      var tail := paths[1..];
      RenderRequests(tail, entry);
      var page := RenderPage(paths[0], entry);
      SuffixRoundTrip(paths[0]);
      assert SsgRequests(page.requests);
      if page.failure.None? {
        assert |page.requests| == 2;
        SsgRequestsAppend(page.requests, Render(tail, entry).requests);
      }
    }
  }

  lemma SsgRequestsAppend(a: seq<Request>, b: seq<Request>)
    requires SsgRequests(a) && SsgRequests(b) && |a| % 2 == 0
    ensures SsgRequests(a + b)
  {
    var ab := a + b;
    forall j | 0 <= j < |ab|
      ensures ab[j].origin == Origin
    {
      if j >= |a| { assert ab[j] == b[j - |a|]; }
    }
    forall j | 0 < j < |ab| && j % 2 == 1
      ensures Classify(ab[j].path) == Classified(ab[j - 1].path, true)
    {
      if j > |a| {
        assert ab[j] == b[j - |a|] && ab[j - 1] == b[j - 1 - |a|];
        assert (j - |a|) % 2 == 1;
      }
    }
  }

  /** Two different page paths get the same normalised HTML name only
      when one is a directory path and the other is that directory
      followed by `index`. */
  lemma HtmlFileCollision(p: string, q: string)
    requires p != q && NormalizeHtmlFilePath(p) == NormalizeHtmlFilePath(q)
    ensures (EndsWith(p, "/") && q == p + "index") || (EndsWith(q, "/") && p == q + "index")
  {
    var r := NormalizeHtmlFilePath(p);
    HtmlFilePathShape(p);
    HtmlFilePathShape(q);
    if EndsWith(p, "/") == EndsWith(q, "/") {
      assert false;
    } else if EndsWith(p, "/") {
      assert r == p + "index.html" == q + ".html";
      assert q == r[..|r| - 5];
      assert q == p + "index";
    } else {
      assert r == q + "index.html" == p + ".html";
      assert p == r[..|r| - 5];
      assert p == q + "index";
    }
  }

  /** An RSC file never has the name of an HTML file, so the two writes of
      a run never clash across kinds. */
  lemma RscFileNotHtml(p: string, q: string)
    ensures RscFilePath(p) != NormalizeHtmlFilePath(q)
  {
    var a := RscFilePath(p);
    var b := NormalizeHtmlFilePath(q);
    HtmlFilePathShape(q);
    assert a[|a| - 1] == 'c';
    assert b[|b| - 1] == 'l';
  }

  /** The client output directory, as far as the build writes to it. */
  class OutDir {
    var files: seq<Written>
    var requests: seq<Request>

    constructor ()
      ensures files == [] && requests == []
    {
      files := [];
      requests := [];
    }

    /** `renderStatic`'s loop over `getStaticPaths()`. `failure` is the
        failed assertion, if one fired; files already written stay. */
    method RenderStatic(staticPaths: seq<string>, entry: Request -> Response)
      returns (failure: Option<Failed>)
      modifies this
      ensures var run := Render(staticPaths, entry);
        failure == run.failure &&
        files == old(files) + run.written &&
        requests == old(requests) + run.requests
    {
      ghost var target := Render(staticPaths, entry);
      ghost var doneRequests: seq<Request> := [];
      ghost var doneFiles: seq<Written> := [];
      var i := 0;
      assert staticPaths[i..] == staticPaths;
      ThenNone(target);
      while i < |staticPaths|
        invariant 0 <= i <= |staticPaths|
        invariant files == old(files) + doneFiles && requests == old(requests) + doneRequests
        invariant target == Then(Run(doneRequests, doneFiles, None), Render(staticPaths[i..], entry))
      {
        Advance(staticPaths, i, entry, doneRequests, doneFiles);
        ghost var page := RenderPage(staticPaths[i], entry);
        failure := RenderOne(staticPaths[i], entry);
        AppendAssoc(old(files), doneFiles, page.written);
        AppendAssoc(old(requests), doneRequests, page.requests);
        doneRequests := doneRequests + page.requests;
        doneFiles := doneFiles + page.written;
        if failure.Some? {
          return;
        }
        i := i + 1;
      }
      assert staticPaths[i..] == [];
      assert doneRequests + [] == doneRequests && doneFiles + [] == doneFiles;
      failure := None;
    }

    /** The body of the loop for one static path: request the HTML, assert
        200, write it; request the RSC payload, assert 200, write it. */
    method RenderOne(htmlPath: string, entry: Request -> Response) returns (failure: Option<Failed>)
      modifies this
      ensures var page := RenderPage(htmlPath, entry);
        failure == page.failure &&
        files == old(files) + page.written &&
        requests == old(requests) + page.requests
    {
      ghost var files0, requests0 := files, requests;
      var rscPath := RscFilePath(htmlPath);
      var htmlRequest := Request(Origin, htmlPath);
      requests := requests + [htmlRequest];
      var htmlResponse := entry(htmlRequest);
      if htmlResponse.status != 200 {
        failure := Some(Failed(htmlRequest, htmlResponse.status));
        assert RenderPage(htmlPath, entry) == Run([htmlRequest], [], failure);
        return;
      }
      var htmlFile := Written(NormalizeHtmlFilePath(htmlPath), htmlResponse.body);
      files := files + [htmlFile];
      var rscRequest := Request(Origin, rscPath);
      requests := requests + [rscRequest];
      assert requests == requests0 + [htmlRequest, rscRequest];
      var rscResponse := entry(rscRequest);
      if rscResponse.status != 200 {
        failure := Some(Failed(rscRequest, rscResponse.status));
        assert RenderPage(htmlPath, entry) == Run([htmlRequest, rscRequest], [htmlFile], failure);
        return;
      }
      var rscFile := Written(rscPath, rscResponse.body);
      files := files + [rscFile];
      assert files == files0 + [htmlFile, rscFile];
      failure := None;
    }
  }
}
