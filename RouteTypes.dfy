/** The route-type generator of `generate-route-types.mjs`: the site's route
    paths become one ReScript polymorphic-variant type, `Path.t`, with one
    string-literal alternative per route. */
module RouteTypes {
  import opened Wrappers
  import opened Strings

  /** How a route's `path` shows in a template literal: an index route has
      no path, which the literal writes as "undefined". */
  function PathText(path: Option<string>): (r: string)
    ensures path.Some? ==> r == path.value
    ensures path.None? ==> r == "undefined"
  {
    path.GetOr("undefined")
  }

  /** The alternative for one route: `#"/` + path + `"`. */
  function Alternative(path: Option<string>): (r: string)
    ensures |r| == |PathText(path)| + 4
    ensures r[..3] == "#\"/" && r[3..|r| - 1] == PathText(path) && r[|r| - 1] == '"'
  {
    "#\"/" + PathText(path) + "\""
  }

  /** An index route, which has no path, gives the alternative
      `#"/undefined"`. */
  lemma IndexRouteAlternative()
    ensures Alternative(None) == "#\"/undefined\""
  {
    assert PathText(None) == "undefined";
  }

  /** The alternatives, in route order, separated by ` |` and a newline. */
  function Alternatives(paths: seq<Option<string>>): string {
    Join(Map(Alternative, paths), " |\n")
  }

  /** The text written to `src/Path.res`. */
  function FileText(paths: seq<Option<string>>): string {
    "type t = [\n" + Alternatives(paths) + "\n]\n"
  }

  /** The paths of the route table: the home page's index route has no
      path, and `prefix("community", …)` gives its index route the path
      `community`. */
  const ShippedPaths: seq<Option<string>> := [None, Some("community")]

  /** The parts, each but the last followed by `t`. */
  function Suffixed(parts: seq<string>, t: string): (r: seq<string>)
    ensures |r| == |parts|
    ensures forall i :: 0 <= i < |parts| ==> r[i] == parts[i] + (if i < |parts| - 1 then t else "")
  {
    seq(|parts|, i requires 0 <= i < |parts| => parts[i] + (if i < |parts| - 1 then t else ""))
  }

  /** Joining with `t + sep` is joining the `t`-suffixed parts with `sep`. */
  lemma {:induction false} JoinSuffixed(parts: seq<string>, t: string, sep: string)
    requires |parts| >= 1
    ensures Join(parts, t + sep) == Join(Suffixed(parts, t), sep)
    decreases |parts|
  {
    if |parts| > 1 {
      var rest := parts[1..];
      JoinSuffixed(rest, t, sep);
      assert parts == [parts[0]] + rest;
      JoinCons(parts[0], rest, t + sep);
      var s := Suffixed(parts, t);
      assert s == [parts[0] + t] + Suffixed(rest, t) by {
        forall i | 1 <= i < |parts| ensures s[i] == Suffixed(rest, t)[i - 1] {
          assert parts[i] == rest[i - 1];
        }
      }
      JoinCons(parts[0] + t, Suffixed(rest, t), sep);
    } else {
      assert parts[0] + "" == parts[0];
      assert Suffixed(parts, t) == [parts[0]];
    }
  }

  /** A block of lines between an opening and a closing line, ending in a
      separator. */
  lemma JoinFrame(open: string, lines: seq<string>, close: string, sep: string)
    requires |lines| >= 1
    ensures Join([open] + lines + [close, ""], sep) == open + sep + Join(lines, sep) + sep + close + sep
  {
    var tail := lines + [close, ""];
    assert [open] + lines + [close, ""] == [open] + tail;
    JoinCons(open, tail, sep);
    JoinAppend(lines, [close, ""], sep);
    assert [close, ""] == [close] + [""];
    JoinCons(close, [""], sep);
    var body := Join(lines, sep);
    assert Join(tail, sep) == body + sep + (close + sep + "");
    assert close + sep + "" == close + sep;
    calc {
      open + sep + (body + sep + (close + sep));
      { AssocConcat(open + sep, body + sep, close + sep); }
      (open + sep + (body + sep)) + (close + sep);
      { AssocConcat(open + sep, body, sep); }
      open + sep + body + sep + close + sep;
    }
  }

  lemma AssocConcat(a: string, b: string, c: string)
    ensures a + (b + c) == a + b + c
  {
  }

  /** The alternative lines of the file: one per route, in route order,
      all but the last ending with ` |`. */
  function AltLines(paths: seq<Option<string>>): (r: seq<string>)
    ensures |r| == |paths|
  {
    Suffixed(Map(Alternative, paths), " |")
  }

  /** The file's lines: the opening `type t = [`, one line per route in
      route order (a single empty line when there is no route), the
      closing `]`, and the empty rest after the final newline; this holds
      for routes whose paths have no newline. */
  lemma FileLines(paths: seq<Option<string>>)
    requires forall i :: 0 <= i < |paths| ==> '\n' !in PathText(paths[i])
    ensures Split(FileText(paths), '\n') ==
      ["type t = ["] + (if |paths| == 0 then [""] else AltLines(paths)) + ["]", ""]
    ensures forall i :: 0 <= i < |paths| ==>
      AltLines(paths)[i] == Alternative(paths[i]) + (if i < |paths| - 1 then " |" else "")
  {
    if |paths| == 0 {
      NoRouteLines();
    } else {
      RouteLines(paths);
    }
  }

  /** With no route the alternatives are one empty line. */
  lemma NoRouteLines()
    ensures Split(FileText([]), '\n') == ["type t = [", "", "]", ""]
  {
    var lines := ["type t = [", "", "]", ""];
    JoinFrame("type t = [", [""], "]", "\n");
    assert ["type t = ["] + [""] + ["]", ""] == lines;
    assert FileText([]) == Join(lines, "\n");
    SplitJoin(lines, '\n');
  }

  lemma RouteLines(paths: seq<Option<string>>)
    requires |paths| >= 1
    requires forall i :: 0 <= i < |paths| ==> '\n' !in PathText(paths[i])
    ensures Split(FileText(paths), '\n') == ["type t = ["] + AltLines(paths) + ["]", ""]
  {
    var alts := AltLines(paths);
    var lines := ["type t = ["] + alts + ["]", ""];
    assert " |\n" == " |" + "\n";
    JoinSuffixed(Map(Alternative, paths), " |", "\n");
    JoinFrame("type t = [", alts, "]", "\n");
    assert FileText(paths) == Join(lines, "\n") by {
      assert "type t = [\n" == "type t = [" + "\n";
      assert "\n]\n" == "\n" + "]" + "\n";
    }
    forall k | 0 <= k < |lines| ensures '\n' !in lines[k] {
      if 1 <= k <= |paths| {
        assert lines[k] == alts[k - 1];
        AltLineOneLine(paths, k - 1);
      }
    }
    SplitJoin(lines, '\n');
  }

  /** An alternative line holds no newline when its path has none. */
  lemma AltLineOneLine(paths: seq<Option<string>>, i: nat)
    requires i < |paths| && '\n' !in PathText(paths[i])
    ensures '\n' !in AltLines(paths)[i]
  {
    var a := Alternative(paths[i]);
    assert a == "#\"/" + PathText(paths[i]) + "\"";
    assert AltLines(paths)[i] == a + (if i < |paths| - 1 then " |" else "");
  }

  /** A route table that starts with an index route, followed by another
      route, gives `#"/undefined" |` as the first line of alternatives. */
  lemma IndexRouteFirstLine(paths: seq<Option<string>>)
    requires |paths| >= 2 && paths[0].None?
    requires forall i :: 0 <= i < |paths| ==> '\n' !in PathText(paths[i])
    ensures |Split(FileText(paths), '\n')| >= 2
    ensures Split(FileText(paths), '\n')[1] == "#\"/undefined\" |"
  {
    FileLines(paths);
    IndexRouteAlternative();
    assert AltLines(paths)[0] == Alternative(None) + " |";
    assert Alternative(None) + " |" == "#\"/undefined\" |";
  }

  /** The generated `Path.t` of the route table starts with `#"/undefined"`. */
  lemma ShippedFirstLine()
    ensures |Split(FileText(ShippedPaths), '\n')| >= 2
    ensures Split(FileText(ShippedPaths), '\n')[1] == "#\"/undefined\" |"
  {
    assert PathText(ShippedPaths[1]) == "community";
    IndexRouteFirstLine(ShippedPaths);
  }

  /** Routes whose paths show alike give the same alternative, and only
      they: the text of the path can be read back from the alternative. */
  lemma AlternativeInjective(p: Option<string>, q: Option<string>)
    ensures Alternative(p) == Alternative(q) <==> PathText(p) == PathText(q)
  {
    if Alternative(p) == Alternative(q) {
      CancelAround("#\"/", PathText(p), PathText(q), "\"");
    }
  }

  /** An index route and a route with the path `undefined` cannot be told
      apart in the generated type. */
  lemma IndexLooksUndefined()
    ensures Alternative(None) == Alternative(Some("undefined"))
  {
  }
}
