/** src/framework/entry.rsc.jsx: the request handler of the RSC
    environment. It decides from the pathname whether the request asks for
    the RSC payload or for HTML, strips the RSC suffix, and picks the
    response headers. Rendering itself is a pair of abstract functions. */
module RscEntry {
  import opened Strings

  /** The suffix that marks an RSC request. src/framework/shared.mjs is not
      part of this model; the value below is the one the plugin's own
      examples use, and the proofs only rely on it being non-empty (and, in
      StaticRender, on it not ending in ".html"). */
  const RSC_POSTFIX: string := "_.rsc"

  const RscContentType: string := "text/x-component;charset=utf-8"
  const HtmlContentType: string := "text/html;charset=utf-8"

  /** What the handler makes of a pathname: the pathname the page is rendered
      for, and whether the payload (rather than HTML) was asked for. */
  datatype Classified = Classified(pathname: string, isRsc: bool)

  /** A response: status, body and the two headers the handler sets. */
  datatype Response = Response(status: int, body: string, contentType: string, vary: string)

  /** The classification the handler performs: RSC exactly when the pathname
      ends with the suffix, and then exactly one copy of it is removed. */
  function Classify(pathname: string): (c: Classified)
    ensures c.isRsc <==> EndsWith(pathname, RSC_POSTFIX)
    ensures c.isRsc ==> c.pathname + RSC_POSTFIX == pathname
    ensures !c.isRsc ==> c.pathname == pathname
  {
    if EndsWith(pathname, RSC_POSTFIX) then
      Classified(pathname[..|pathname| - |RSC_POSTFIX|], true)
    else
      Classified(pathname, false)
  }

  /** `handler(request)`. `render` stands for rendering `<Root url={url} />`
      to an RSC stream and `renderHtml` for the SSR environment turning that
      stream into HTML. The pathname is updated in place as in the source. */
  method Handler(requestPathname: string, render: string -> string, renderHtml: string -> string)
    returns (response: Response)
    ensures var c := Classify(requestPathname);
      response.status == 200 &&
      response.vary == "accept" &&
      (c.isRsc ==> response.contentType == RscContentType && response.body == render(c.pathname)) &&
      (!c.isRsc ==> response.contentType == HtmlContentType && response.body == renderHtml(render(c.pathname)))
  {
    var pathname := requestPathname;
    var isRscRequest := false;
    if EndsWith(pathname, RSC_POSTFIX) {
      isRscRequest := true;
      pathname := pathname[..|pathname| - |RSC_POSTFIX|];
    }
    var rscStream := render(pathname);
    if isRscRequest {
      return Response(200, rscStream, RscContentType, "accept");
    }
    var htmlStream := renderHtml(rscStream);
    response := Response(200, htmlStream, HtmlContentType, "accept");
  }

  /** Round trip with the static renderer: the RSC request it builds for a
      page path `p` (`p + RSC_POSTFIX`) is recognised as RSC and rendered for
      `p` itself. */
  lemma SuffixRoundTrip(p: string)
    ensures Classify(p + RSC_POSTFIX) == Classified(p, true)
  {
    var q := p + RSC_POSTFIX;
    assert q[|q| - |RSC_POSTFIX|..] == RSC_POSTFIX;
    assert q[..|q| - |RSC_POSTFIX|] == p;
  }

  /** Only one suffix is removed: a doubled suffix leaves one in place, so
      that request is rendered for a pathname that still ends in it. */
  lemma StripsOnce(p: string)
    ensures Classify(p + RSC_POSTFIX + RSC_POSTFIX) == Classified(p + RSC_POSTFIX, true)
  {
    SuffixRoundTrip(p + RSC_POSTFIX);
  }

  /** Classification is a function of the pathname only, and different
      page pathnames asked for as RSC never collide. */
  lemma ClassifyInjectiveOnRsc(p: string, q: string)
    requires Classify(p + RSC_POSTFIX) == Classify(q + RSC_POSTFIX)
    ensures p == q
  {
    SuffixRoundTrip(p);
    SuffixRoundTrip(q);
  }
}
