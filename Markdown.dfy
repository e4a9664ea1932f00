/** scripts/markdown.js: two remark plugins that read the top-level nodes
    of a parsed markdown document and add entries to the file's data
    dictionary: the page headers and the `re` signature code blocks, the
    latter passed through a whitespace normaliser. */
module Markdown {
  import opened Wrappers
  import opened Strings

  /** A phrasing child of a heading; `value` is undefined for nodes that
      are not text. */
  datatype Inline = Inline(value: Option<string>)

  /** The `data` object rehype-slug attaches to a heading. */
  datatype HeadingData = HeadingData(id: Option<string>)

  /** Top-level mdast nodes, as far as the plugins look at them. */
  datatype Node =
    | Heading(depth: int, children: seq<Inline>, data: Option<HeadingData>)
    | Code(value: Option<string>, lang: Option<string>, meta: Option<string>)
    | OtherNode

  datatype Header = Header(name: string, href: string)

  /** The values the plugins store in `file.data`; other plugins' entries
      are kept as opaque text. */
  datatype Datum =
    | HeadersDatum(headers: seq<Header>)
    | MainHeaderDatum(mainHeader: Option<string>)
    | CodeblocksDatum(codeblocks: map<string, seq<string>>)
    | OtherDatum(raw: string)

  /** Reading `child.data.id` on a heading without `data` throws. */
  datatype PluginError = MissingHeadingData(name: string)

  /** `children.map(element => element.value).join("")`: an undefined
      value joins as the empty string. */
  function HeadingText(children: seq<Inline>): string
    decreases |children|
  {
    if |children| == 0 then "" else children[0].value.GetOr("") + HeadingText(children[1..])
  }

  predicate IsTitle(n: Node) {
    n.Heading? && n.depth == 1 && |n.children| > 0
  }

  predicate IsSection(n: Node) {
    n.Heading? && n.depth == 2 && |n.children| > 0
  }

  /** `child.data.id || ""`: a missing or empty id gives the empty href. */
  function HrefOf(d: HeadingData): string {
    match d.id
    case Some(id) => id
    case None => ""
  }

  /** The header entry of a section heading, or the error of reading `id`
      through missing `data`. */
  function HeaderOf(n: Node): Result<Header, PluginError>
    requires IsSection(n)
  {
    match n.data
    case None => Failure(MissingHeadingData(HeadingText(n.children)))
    case Some(d) => Success(Header(HeadingText(n.children), HrefOf(d)))
  }

  /** The headers the `forEach` pushes, in document order; the first
      section heading without `data` throws. */
  function Headers(nodes: seq<Node>): Result<seq<Header>, PluginError>
    decreases |nodes|
  {
    if |nodes| == 0 then Success([])
    else if IsSection(nodes[0]) then
      var h :- HeaderOf(nodes[0]);
      var rest :- Headers(nodes[1..]);
      Success([h] + rest)
    else Headers(nodes[1..])
  }

  /** The text of the last title heading, if any. */
  function MainHeader(nodes: seq<Node>): Option<string>
    decreases |nodes|
  {
    if |nodes| == 0 then None
    else
      var n := |nodes| - 1;
      if IsTitle(nodes[n]) then Some(HeadingText(nodes[n].children)) else MainHeader(nodes[..n])
  }

  /** The section headings in document order. */
  function Sections(nodes: seq<Node>): (r: seq<Node>)
    ensures forall i :: 0 <= i < |r| ==> IsSection(r[i])
    decreases |nodes|
  {
    if |nodes| == 0 then []
    else if IsSection(nodes[0]) then [nodes[0]] + Sections(nodes[1..])
    else Sections(nodes[1..])
  }

  /** Headers are collected exactly when every section heading has `data`;
      they are then the section headings, in order, each with its text
      and its id. */
  lemma {:induction false} HeadersAreSections(nodes: seq<Node>)
    ensures Headers(nodes).Success? <==> forall i :: 0 <= i < |nodes| && IsSection(nodes[i]) ==> nodes[i].data.Some?
    ensures Headers(nodes).Success? ==>
      var hs := Headers(nodes).value;
      var ss := Sections(nodes);
      |hs| == |ss| &&
      forall i :: 0 <= i < |hs| ==>
        ss[i].data.Some? && hs[i] == Header(HeadingText(ss[i].children), HrefOf(ss[i].data.value))
    decreases |nodes|
  {
    if |nodes| > 0 {
      HeadersAreSections(nodes[1..]);
      forall i | 0 < i < |nodes|
        ensures nodes[i] == nodes[1..][i - 1]
      {
      }
    }
  }

  /** The main header is the text of the last title heading: some title
      heading has that text and no title heading comes after it; there is
      none exactly when the page has no title heading. */
  lemma {:induction false} MainHeaderIsLast(nodes: seq<Node>)
    ensures MainHeader(nodes).None? <==> forall i :: 0 <= i < |nodes| ==> !IsTitle(nodes[i])
    ensures MainHeader(nodes).Some? ==>
      exists i :: 0 <= i < |nodes| && IsTitle(nodes[i]) &&
        MainHeader(nodes).value == HeadingText(nodes[i].children) &&
        forall j :: i < j < |nodes| ==> !IsTitle(nodes[j])
    decreases |nodes|
  {
    if |nodes| > 0 {
      var n := |nodes| - 1;
      MainHeaderIsLast(nodes[..n]);
      if !IsTitle(nodes[n]) {
        if MainHeader(nodes[..n]).Some? {
          var i :| 0 <= i < n && IsTitle(nodes[..n][i]) &&
            MainHeader(nodes[..n]).value == HeadingText(nodes[..n][i].children) &&
            forall j :: i < j < n ==> !IsTitle(nodes[..n][j]);
          assert forall j :: i < j < |nodes| ==> !IsTitle(nodes[j]) by {
            forall j | i < j < |nodes| ensures !IsTitle(nodes[j]) {
              if j < n { assert nodes[j] == nodes[..n][j]; }
            }
          }
        } else {
          forall i | 0 <= i < |nodes| ensures !IsTitle(nodes[i]) {
            if i < n { assert nodes[i] == nodes[..n][i]; }
          }
        }
      }
    }
  }

  // ---------------------------------------------------------------------
  // The signature formatter: four global regular-expression replacements.

  /** The characters of `s` that are not white space, in order. */
  function Visible(s: string): string
    decreases |s|
  {
    if |s| == 0 then "" else (if IsSpace(s[0]) then "" else [s[0]]) + Visible(s[1..])
  }

  predicate NoDoubleSpace(s: string) {
    forall i :: 0 <= i < |s| - 1 ==> !(IsSpace(s[i]) && IsSpace(s[i + 1]))
  }

  predicate NoSpaceAfterOpen(s: string) {
    forall i :: 0 <= i < |s| - 1 ==> s[i] == '(' ==> !IsSpace(s[i + 1])
  }

  predicate NoSpaceBeforeClose(s: string) {
    forall i :: 0 <= i < |s| - 1 ==> s[i + 1] == ')' ==> !IsSpace(s[i])
  }

  lemma {:induction false} VisibleSkipsRun(s: string, k: nat)
    requires k <= |s| && forall i :: 0 <= i < k ==> IsSpace(s[i])
    ensures Visible(s) == Visible(s[k..])
    decreases k
  {
    if k > 0 {
      VisibleSkipsRun(s[1..], k - 1);
      assert s[1..][k - 1..] == s[k..];
    }
  }

  // Each replacement is also a local edit: the result is the text with
  // every character replaced by what a rule makes of it, given its two
  // neighbours in the input.

  /** What a character becomes, given the characters before and after it
      (none at the ends of the text). */
  type LocalRule = (Option<char>, char, Option<char>) -> string

  function Before(s: string, i: nat): Option<char>
    requires i < |s|
  {
    if i == 0 then None else Some(s[i - 1])
  }

  function After(s: string, i: nat): Option<char>
    requires i < |s|
  {
    if i + 1 < |s| then Some(s[i + 1]) else None
  }

  /** The edited text from position `i` on. */
  function EditFrom(s: string, rule: LocalRule, i: nat): string
    decreases |s| - i
  {
    if i >= |s| then "" else rule(Before(s, i), s[i], After(s, i)) + EditFrom(s, rule, i + 1)
  }

  function Edit(s: string, rule: LocalRule): string {
    EditFrom(s, rule, 0)
  }

  /** The first white-space character of a run becomes a space; the
      others go. */
  function CollapseRule(before: Option<char>, c: char, after: Option<char>): string {
    if !IsSpace(c) then [c] else if before.Some? && IsSpace(before.value) then "" else " "
  }

  /** A white-space character right after `(` goes. */
  function AfterOpenRule(before: Option<char>, c: char, after: Option<char>): string {
    if IsSpace(c) && before == Some('(') then "" else [c]
  }

  /** A white-space character right before `)` goes. */
  function BeforeCloseRule(before: Option<char>, c: char, after: Option<char>): string {
    if IsSpace(c) && after == Some(')') then "" else [c]
  }

  /** Editing a suffix is editing the whole text from where the suffix
      starts, provided the rule does not care that the suffix's first
      character has lost its left neighbour. */
  lemma {:induction false} EditShift(s: string, rule: LocalRule, j: nat, m: nat)
    requires j <= m <= |s|
    requires m == j && j < |s| ==> rule(Before(s, j), s[j], After(s, j)) == rule(None, s[j], After(s, j))
    ensures EditFrom(s, rule, m) == EditFrom(s[j..], rule, m - j)
    decreases |s| - m
  {
    if m < |s| {
      EditShift(s, rule, j, m + 1);
      var t := s[j..];
      assert t[m - j] == s[m];
      assert After(t, m - j) == After(s, m);
      if m > j {
        assert Before(t, m - j) == Before(s, m);
      }
    }
  }

  /** A rule that keeps every character from `i` on leaves that part of
      the text as it is. */
  lemma {:induction false} EditKeeps(s: string, rule: LocalRule, i: nat)
    requires i <= |s|
    requires forall m :: i <= m < |s| ==> rule(Before(s, m), s[m], After(s, m)) == [s[m]]
    ensures EditFrom(s, rule, i) == s[i..]
    decreases |s| - i
  {
    if i < |s| {
      EditKeeps(s, rule, i + 1);
      assert s[i..] == [s[i]] + s[i + 1..];
    }
  }

  /** The white space after the first character of a run is dropped. */
  lemma {:induction false} CollapseSkips(s: string, i: nat, k: nat)
    requires 0 < i <= k <= |s| && forall m :: i - 1 <= m < k ==> IsSpace(s[m])
    ensures EditFrom(s, CollapseRule, i) == EditFrom(s, CollapseRule, k)
    decreases k - i
  {
    if i < k {
      CollapseSkips(s, i + 1, k);
    }
  }

  /** Without two white-space characters in a row, no run of white space
      is longer than one character. */
  lemma ShortRun(s: string, j: nat)
    requires j <= |s| && NoDoubleSpace(s)
    ensures SpaceRun(s[j..]) <= 1
  {
    var t := s[j..];
    if |t| >= 2 && IsSpace(t[0]) {
      assert t[0] == s[j] && t[1] == s[j + 1];
      assert !IsSpace(t[1]);
      assert t[1..][0] == t[1];
    }
  }

  /** The first step of collapsing: a run of white space gives one space,
      any other character itself. */
  lemma CollapseStep(s: string)
    requires |s| > 0
    ensures IsSpace(s[0]) ==> Edit(s, CollapseRule) == " " + Edit(s[SpaceRun(s)..], CollapseRule)
    ensures !IsSpace(s[0]) ==> Edit(s, CollapseRule) == [s[0]] + Edit(s[1..], CollapseRule)
  {
    if IsSpace(s[0]) {
      var k := SpaceRun(s);
      EditShift(s, CollapseRule, k, k);
      CollapseSkips(s, 1, k);
    } else {
      EditShift(s, CollapseRule, 1, 1);
    }
  }

  /** The first step of trimming after `(`: an opening parenthesis drops
      the single white-space character after it. */
  lemma AfterOpenStep(s: string)
    requires |s| > 0 && NoDoubleSpace(s)
    ensures SpaceRun(s[1..]) <= 1
    ensures s[0] == '(' ==> Edit(s, AfterOpenRule) == "(" + Edit(s[1 + SpaceRun(s[1..])..], AfterOpenRule)
    ensures s[0] != '(' ==> Edit(s, AfterOpenRule) == [s[0]] + Edit(s[1..], AfterOpenRule)
  {
    var k := SpaceRun(s[1..]);
    ShortRun(s, 1);
    if s[0] == '(' {
      assert s[1..][k..] == s[1 + k..];
      EditShift(s, AfterOpenRule, 1 + k, 1 + k);
      if k == 1 {
        assert EditFrom(s, AfterOpenRule, 1) == "" + EditFrom(s, AfterOpenRule, 2);
      }
    } else {
      EditShift(s, AfterOpenRule, 1, 1);
    }
  }

  /** The first step of trimming before `)`: a white-space character
      followed by `)` goes, any other character stays. */
  lemma BeforeCloseStep(s: string)
    requires |s| > 0 && NoDoubleSpace(s)
    ensures var k := SpaceRun(s);
      k > 0 && k < |s| && s[k] == ')' ==>
        k == 1 && Edit(s, BeforeCloseRule) == ")" + Edit(s[2..], BeforeCloseRule)
    ensures var k := SpaceRun(s);
      !(k > 0 && k < |s| && s[k] == ')') ==>
        Edit(s, BeforeCloseRule) == [s[0]] + Edit(s[1..], BeforeCloseRule)
  {
    var k := SpaceRun(s);
    ShortRun(s, 0);
    assert s[0..] == s;
    if k > 0 && k < |s| && s[k] == ')' {
      assert k == 1 && After(s, 0) == Some(')');
      assert EditFrom(s, BeforeCloseRule, 0) == "" + EditFrom(s, BeforeCloseRule, 1);
      assert EditFrom(s, BeforeCloseRule, 1) == ")" + EditFrom(s, BeforeCloseRule, 2);
      EditShift(s, BeforeCloseRule, 2, 2);
    } else {
      assert BeforeCloseRule(None, s[0], After(s, 0)) == [s[0]] by {
        if IsSpace(s[0]) {
          assert k >= 1;
        }
      }
      assert EditFrom(s, BeforeCloseRule, 0) == [s[0]] + EditFrom(s, BeforeCloseRule, 1);
      EditShift(s, BeforeCloseRule, 1, 1);
    }
  }

  /** A newline is white space, so replacing newlines by spaces keeps the
      visible characters. */
  lemma {:induction false} VisibleReplaceNewlines(s: string)
    ensures Visible(ReplaceNewlines(s)) == Visible(s)
    decreases |s|
  {
    if |s| > 0 {
      VisibleReplaceNewlines(s[1..]);
      assert ReplaceNewlines(s)[1..] == ReplaceNewlines(s[1..]);
    }
  }

  /** `.replace(/\n/g, " ")`. */
  function ReplaceNewlines(s: string): (r: string)
    ensures |r| == |s| && '\n' !in r
    ensures forall i :: 0 <= i < |s| ==> r[i] == (if s[i] == '\n' then ' ' else s[i])
  {
    seq(|s|, i requires 0 <= i < |s| => if s[i] == '\n' then ' ' else s[i])
  }

  /** `.replace(/\s+/g, " ")`: every maximal run of white space becomes one
      space. */
  function CollapseSpace(s: string): (r: string)
    ensures NoDoubleSpace(r)
    ensures forall i :: 0 <= i < |r| ==> IsSpace(r[i]) ==> r[i] == ' '
    ensures Visible(r) == Visible(s)
    ensures |r| == 0 <==> |s| == 0
    ensures |r| > 0 ==> (IsSpace(r[0]) <==> IsSpace(s[0]))
    decreases |s|
  {
    if |s| == 0 then ""
    else if IsSpace(s[0]) then
      var k := SpaceRun(s);
      VisibleSkipsRun(s, k);
      " " + CollapseSpace(s[k..])
    else
      [s[0]] + CollapseSpace(s[1..])
  }

  /** Collapsing is the local rule `CollapseRule` applied at every
      character. */
  lemma {:induction false} CollapseSpaceIsEdit(s: string)
    ensures CollapseSpace(s) == Edit(s, CollapseRule)
    decreases |s|
  {
    if |s| > 0 {
      CollapseStep(s);
      if IsSpace(s[0]) {
        CollapseSpaceIsEdit(s[SpaceRun(s)..]);
      } else {
        CollapseSpaceIsEdit(s[1..]);
      }
    }
  }

  /** `.replace(/\(\s+/g, "(")`: the white space after each `(` goes. */
  function TrimAfterOpen(s: string): (r: string)
    requires NoDoubleSpace(s)
    ensures NoDoubleSpace(r) && NoSpaceAfterOpen(r)
    ensures Visible(r) == Visible(s)
    ensures |r| == 0 <==> |s| == 0
    ensures |r| > 0 ==> r[0] == s[0]
    ensures forall c :: c in r ==> c in s
    decreases |s|
  {
    if |s| == 0 then ""
    else if s[0] == '(' then
      var k := SpaceRun(s[1..]);
      VisibleSkipsRun(s[1..], k);
      assert s[1..][k..] == s[1 + k..];
      "(" + TrimAfterOpen(s[1 + k..])
    else
      [s[0]] + TrimAfterOpen(s[1..])
  }

  /** On text without double spaces, trimming after `(` is the local rule
      `AfterOpenRule` applied at every character. */
  lemma {:induction false} TrimAfterOpenIsEdit(s: string)
    requires NoDoubleSpace(s)
    ensures TrimAfterOpen(s) == Edit(s, AfterOpenRule)
    decreases |s|
  {
    if |s| > 0 {
      AfterOpenStep(s);
      if s[0] == '(' {
        var k := SpaceRun(s[1..]);
        assert s[1..][k..] == s[1 + k..];
        TrimAfterOpenIsEdit(s[1 + k..]);
      } else {
        TrimAfterOpenIsEdit(s[1..]);
      }
    }
  }

  /** `.replace(/\s+\)/g, ")")`: a run of white space right before `)`
      goes. */
  function TrimBeforeClose(s: string): (r: string)
    requires NoDoubleSpace(s) && NoSpaceAfterOpen(s)
    ensures NoDoubleSpace(r) && NoSpaceAfterOpen(r) && NoSpaceBeforeClose(r)
    ensures Visible(r) == Visible(s)
    ensures |r| == 0 <==> |s| == 0
    ensures |r| > 0 ==> r[0] == s[0] || (IsSpace(s[0]) && r[0] == ')')
    ensures forall c :: c in r ==> c in s
    decreases |s|
  {
    if |s| == 0 then ""
    else
      var k := SpaceRun(s);
      if k > 0 && k < |s| && s[k] == ')' then
        VisibleSkipsRun(s, k);
        SuffixClean(s, k + 1);
        var rest := TrimBeforeClose(s[k + 1..]);
        CloseConsClean(rest);
        assert Visible(s[k..]) == ")" + Visible(s[k + 1..]);
        ")" + rest
      else
        SuffixClean(s, 1);
        var rest := TrimBeforeClose(s[1..]);
        KeepConsClean(s, rest);
        [s[0]] + rest
  }

  /** On text without double spaces or a space after `(`, trimming before
      `)` is the local rule `BeforeCloseRule` applied at every character. */
  lemma {:induction false} TrimBeforeCloseIsEdit(s: string)
    requires NoDoubleSpace(s) && NoSpaceAfterOpen(s)
    ensures TrimBeforeClose(s) == Edit(s, BeforeCloseRule)
    decreases |s|
  {
    if |s| > 0 {
      var k := SpaceRun(s);
      BeforeCloseStep(s);
      if k > 0 && k < |s| && s[k] == ')' {
        SuffixClean(s, k + 1);
        TrimBeforeCloseIsEdit(s[k + 1..]);
      } else {
        SuffixClean(s, 1);
        TrimBeforeCloseIsEdit(s[1..]);
      }
    }
  }

  /** What holds of a text holds of each of its suffixes. */
  lemma SuffixClean(s: string, j: nat)
    requires j <= |s| && NoDoubleSpace(s) && NoSpaceAfterOpen(s)
    ensures NoDoubleSpace(s[j..]) && NoSpaceAfterOpen(s[j..])
  {
    var t := s[j..];
    forall i | 0 <= i < |t| ensures t[i] == s[j + i] { }
  }

  /** A closing parenthesis in front keeps all three properties. */
  lemma CloseConsClean(rest: string)
    requires NoDoubleSpace(rest) && NoSpaceAfterOpen(rest) && NoSpaceBeforeClose(rest)
    ensures var r := ")" + rest;
      NoDoubleSpace(r) && NoSpaceAfterOpen(r) && NoSpaceBeforeClose(r)
  {
    var r := ")" + rest;
    forall i | 1 <= i < |r| ensures r[i] == rest[i - 1] { }
  }

  /** Keeping the first character of a text that does not start with white
      space before `)` keeps all three properties. */
  lemma KeepConsClean(s: string, rest: string)
    requires |s| > 0 && NoDoubleSpace(s) && NoSpaceAfterOpen(s)
    requires !(SpaceRun(s) > 0 && SpaceRun(s) < |s| && s[SpaceRun(s)] == ')')
    requires NoDoubleSpace(rest) && NoSpaceAfterOpen(rest) && NoSpaceBeforeClose(rest)
    requires |rest| == 0 <==> |s| == 1
    requires |rest| > 0 ==> rest[0] == s[1] || (IsSpace(s[1]) && rest[0] == ')')
    ensures var r := [s[0]] + rest;
      NoDoubleSpace(r) && NoSpaceAfterOpen(r) && NoSpaceBeforeClose(r)
  {
    var r := [s[0]] + rest;
    forall i | 1 <= i < |r| ensures r[i] == rest[i - 1] { }
    if |rest| > 0 {
      assert !(IsSpace(s[0]) && IsSpace(s[1]));
      assert s[0] == '(' ==> !IsSpace(s[1]);
      if IsSpace(s[0]) {
        assert SpaceRun(s) == 1;
      }
    }
  }

  /** `formatter(value)`. */
  function Formatter(value: string): (r: string)
    ensures '\n' !in r
    ensures forall i :: 0 <= i < |r| && IsSpace(r[i]) ==> r[i] == ' '
    ensures NoDoubleSpace(r) && NoSpaceAfterOpen(r) && NoSpaceBeforeClose(r)
    ensures Visible(r) == Visible(value)
  {
    VisibleReplaceNewlines(value);
    var collapsed := CollapseSpace(ReplaceNewlines(value));
    var trimmed := TrimAfterOpen(collapsed);
    assert forall c :: c in trimmed && IsSpace(c) ==> c == ' ';
    TrimBeforeClose(trimmed)
  }

  /** The formatted signature is the three local rules applied in turn to
      the text with its newlines replaced. */
  lemma FormatterIsEdit(value: string)
    ensures Formatter(value) == Edit(Edit(Edit(ReplaceNewlines(value), CollapseRule), AfterOpenRule), BeforeCloseRule)
  {
    var collapsed := CollapseSpace(ReplaceNewlines(value));
    CollapseSpaceIsEdit(ReplaceNewlines(value));
    TrimAfterOpenIsEdit(collapsed);
    TrimBeforeCloseIsEdit(TrimAfterOpen(collapsed));
  }

  /** Text with only single plain spaces is kept by `CollapseRule`. */
  lemma CollapseKeeps(r: string)
    requires NoDoubleSpace(r) && forall i :: 0 <= i < |r| && IsSpace(r[i]) ==> r[i] == ' '
    ensures Edit(r, CollapseRule) == r
  {
    forall m | 0 <= m < |r|
      ensures CollapseRule(Before(r, m), r[m], After(r, m)) == [r[m]]
    {
    }
    EditKeeps(r, CollapseRule, 0);
  }

  /** Text without a space after `(` is kept by `AfterOpenRule`. */
  lemma AfterOpenKeeps(r: string)
    requires NoSpaceAfterOpen(r)
    ensures Edit(r, AfterOpenRule) == r
  {
    forall m | 0 <= m < |r|
      ensures AfterOpenRule(Before(r, m), r[m], After(r, m)) == [r[m]]
    {
      if m > 0 && r[m - 1] == '(' {
        assert !IsSpace(r[m - 1 + 1]);
      }
    }
    EditKeeps(r, AfterOpenRule, 0);
  }

  /** Text without a space before `)` is kept by `BeforeCloseRule`. */
  lemma BeforeCloseKeeps(r: string)
    requires NoSpaceBeforeClose(r)
    ensures Edit(r, BeforeCloseRule) == r
  {
    forall m | 0 <= m < |r|
      ensures BeforeCloseRule(Before(r, m), r[m], After(r, m)) == [r[m]]
    {
      if m + 1 < |r| && r[m + 1] == ')' {
        assert !IsSpace(r[m]);
      }
    }
    EditKeeps(r, BeforeCloseRule, 0);
  }

  /** Formatting a formatted signature changes nothing. */
  lemma FormatterIdempotent(value: string)
    ensures Formatter(Formatter(value)) == Formatter(value)
  {
    var r := Formatter(value);
    FormatterIsEdit(r);
    assert ReplaceNewlines(r) == r;
    CollapseKeeps(r);
    AfterOpenKeeps(r);
    BeforeCloseKeeps(r);
  }

  /** A code node the codeblocks plugin keeps: non-empty value, language
      `re`, meta `sig`. */
  predicate IsSignature(n: Node) {
    n.Code? && n.value.Some? && n.value.value != "" && n.meta == Some("sig") && n.lang == Some("re")
  }

  /** The formatted signatures in document order. */
  function Signatures(nodes: seq<Node>): seq<string>
    decreases |nodes|
  {
    if |nodes| == 0 then []
    else (if IsSignature(nodes[0]) then [Formatter(nodes[0].value.value)] else []) + Signatures(nodes[1..])
  }

  /** The dictionary the plugin builds: the `re` entry exists only once a
      signature was found. */
  function Codeblocks(nodes: seq<Node>): (r: map<string, seq<string>>)
    ensures r.Keys <= {"re"}
    ensures "re" in r <==> exists i :: 0 <= i < |nodes| && IsSignature(nodes[i])
  {
    SignaturesEmpty(nodes);
    if |Signatures(nodes)| == 0 then map[] else map["re" := Signatures(nodes)]
  }

  lemma {:induction false} SignaturesEmpty(nodes: seq<Node>)
    ensures |Signatures(nodes)| == 0 <==> forall i :: 0 <= i < |nodes| ==> !IsSignature(nodes[i])
    decreases |nodes|
  {
    if |nodes| > 0 {
      SignaturesEmpty(nodes[1..]);
      forall i | 0 < i < |nodes|
        ensures nodes[i] == nodes[1..][i - 1]
      {
      }
    }
  }

  /** Every stored signature is a formatted one: single-line and with
      normalised spacing. */
  lemma {:induction false} SignaturesNormalised(nodes: seq<Node>)
    ensures forall i :: 0 <= i < |Signatures(nodes)| ==>
      '\n' !in Signatures(nodes)[i] && NoDoubleSpace(Signatures(nodes)[i])
    decreases |nodes|
  {
    if |nodes| > 0 {
      SignaturesNormalised(nodes[1..]);
    }
  }

  const HeadersKey: string := "headers"
  const MainHeaderKey: string := "mainHeader"
  const CodeblocksKey: string := "codeblocks"

  /** A processed file; plugins replace `data` by an extended copy. */
  class VFile {
    var data: map<string, Datum>

    constructor (data: map<string, Datum>)
      ensures this.data == data
    {
      this.data := data;
    }
  }

  /** The `forEach` of `remarkHeaders`: pushes a header for each section
      heading and overwrites `mainHeader` for each title heading. */
  method CollectHeaders(children: seq<Node>) returns (r: Result<(seq<Header>, Option<string>), PluginError>)
    ensures r.Success? <==> Headers(children).Success?
    ensures r.Success? ==> r.value == (Headers(children).value, MainHeader(children))
  {
    var headers: seq<Header> := [];
    var mainHeader: Option<string> := None;
    var i := 0;
    while i < |children|
      invariant 0 <= i <= |children|
      invariant Headers(children[..i]).Success? && Headers(children[..i]).value == headers
      invariant mainHeader == MainHeader(children[..i])
    {
      var child := children[i];
      HeadersSnoc(children[..i], child);
      assert children[..i + 1] == children[..i] + [child];
      assert (children[..i] + [child])[..i] == children[..i];
      if child.Heading? && child.depth == 1 {
        if |child.children| > 0 {
          mainHeader := Some(HeadingText(child.children));
        }
      }
      if child.Heading? && child.depth == 2 {
        if |child.children| > 0 {
          if child.data.None? {
            HeadersAppend(children[..i + 1], children[i + 1..]);
            assert children[..i + 1] + children[i + 1..] == children;
            return Failure(MissingHeadingData(HeadingText(child.children)));
          }
          var id := HrefOf(child.data.value);
          var name := HeadingText(child.children);
          headers := headers + [Header(name, id)];
        }
      }
      i := i + 1;
    }
    assert children[..i] == children;
    r := Success((headers, mainHeader));
  }

  lemma {:induction false} HeadersAppend(a: seq<Node>, b: seq<Node>)
    ensures Headers(a).Failure? ==> Headers(a + b) == Headers(a)
    ensures Headers(a).Success? && Headers(b).Success? ==>
      Headers(a + b) == Success(Headers(a).value + Headers(b).value)
    ensures Headers(a).Success? && Headers(b).Failure? ==> Headers(a + b) == Headers(b)
    decreases |a|
  {
    if |a| == 0 {
      assert a + b == b;
      if Headers(b).Success? {
        assert Headers(a).value + Headers(b).value == Headers(b).value;
      }
    } else {
      assert (a + b)[1..] == a[1..] + b;
      assert (a + b)[0] == a[0];
      HeadersAppend(a[1..], b);
      if IsSection(a[0]) && Headers(a).Success? && Headers(b).Success? {
        var h := HeaderOf(a[0]).value;
        assert Headers(a).value == [h] + Headers(a[1..]).value;
        assert [h] + (Headers(a[1..]).value + Headers(b).value) == [h] + Headers(a[1..]).value + Headers(b).value;
      }
    }
  }

  lemma HeadersSnoc(a: seq<Node>, n: Node)
    ensures Headers(a).Success? ==>
      Headers(a + [n]) ==
        if !IsSection(n) then Headers(a)
        else if n.data.None? then Failure(MissingHeadingData(HeadingText(n.children)))
        else Success(Headers(a).value + [Header(HeadingText(n.children), HrefOf(n.data.value))])
    ensures MainHeader(a + [n]) == if IsTitle(n) then Some(HeadingText(n.children)) else MainHeader(a)
  {
    HeadersAppend(a, [n]);
    assert [n][1..] == [];
    assert Headers([n][1..]) == Success([]);
    if IsSection(n) && n.data.Some? {
      assert Headers([n]) == Success([Header(HeadingText(n.children), HrefOf(n.data.value))] + []);
      assert [Header(HeadingText(n.children), HrefOf(n.data.value))] + [] == [Header(HeadingText(n.children), HrefOf(n.data.value))];
    }
    if Headers(a).Success? && !IsSection(n) {
      assert Headers([n]) == Success([]);
      assert Headers(a).value + [] == Headers(a).value;
    }
    if Headers(a).Success? && IsSection(n) && n.data.None? {
      assert Headers([n]).Failure?;
      assert Headers(a + [n]).Failure?;
      assert Headers(a + [n]) == Failure(MissingHeadingData(HeadingText(n.children)));
    }
    assert (a + [n])[..|a|] == a;
  }

  /** `remarkHeaders`: on success `file.data` keeps every other key and
      gains `headers` and `mainHeader`; when reading an id throws, it is
      left as it was. */
  method RemarkHeaders(children: seq<Node>, file: VFile) returns (error: Option<PluginError>)
    modifies file
    ensures error.None? <==> Headers(children).Success?
    ensures error.None? ==>
      (file.data ==
        old(file.data)[HeadersKey := HeadersDatum(Headers(children).value)][MainHeaderKey := MainHeaderDatum(MainHeader(children))])
    ensures error.Some? ==> file.data == old(file.data)
  {
    var collected := CollectHeaders(children);
    if collected.Failure? {
      return Some(collected.error);
    }
    var (headers, mainHeader) := collected.value;
    file.data := file.data[HeadersKey := HeadersDatum(headers)][MainHeaderKey := MainHeaderDatum(mainHeader)];
    error := None;
  }

  /** The `forEach` of `remarkCodeblocks`: the `re` list is created on the
      first signature and appended to after that. */
  method CollectCodeblocks(children: seq<Node>) returns (codeblocks: map<string, seq<string>>)
    ensures codeblocks == Codeblocks(children)
  {
    codeblocks := map[];
    var i := 0;
    while i < |children|
      invariant 0 <= i <= |children|
      invariant codeblocks == (if |Signatures(children[..i])| == 0 then map[] else map["re" := Signatures(children[..i])])
    {
      var child := children[i];
      SignaturesSnoc(children[..i], child);
      assert children[..i + 1] == children[..i] + [child];
      assert Signatures(children[..i]) + [] == Signatures(children[..i]);
      if child.Code? && child.value.Some? && child.value.value != "" {
        if child.meta == Some("sig") && child.lang == Some("re") {
          var lang := child.lang.value;
          if lang !in codeblocks {
            codeblocks := codeblocks[lang := []];
          }
          codeblocks := codeblocks[lang := codeblocks[lang] + [Formatter(child.value.value)]];
          assert codeblocks == map["re" := Signatures(children[..i + 1])];
        }
      }
      i := i + 1;
    }
    assert children[..i] == children;
  }

  lemma {:induction false} SignaturesSnoc(a: seq<Node>, n: Node)
    ensures Signatures(a + [n]) == Signatures(a) + (if IsSignature(n) then [Formatter(n.value.value)] else [])
    decreases |a|
  {
    if |a| == 0 {
      assert a + [n] == [n];
    } else {
      var tail := a[1..];
      assert (a + [n])[0] == a[0];
      assert (a + [n])[1..] == tail + [n];
      SignaturesSnoc(tail, n);
      var head := if IsSignature(a[0]) then [Formatter(a[0].value.value)] else [];
      var last := if IsSignature(n) then [Formatter(n.value.value)] else [];
      assert Signatures(a + [n]) == head + (Signatures(tail) + last);
      assert Signatures(a) == head + Signatures(tail);
      assert head + (Signatures(tail) + last) == head + Signatures(tail) + last;
    }
  }

  /** `remarkCodeblocks`: `file.data` keeps every other key and gains
      `codeblocks`. */
  method RemarkCodeblocks(children: seq<Node>, file: VFile)
    modifies file
    ensures file.data == old(file.data)[CodeblocksKey := CodeblocksDatum(Codeblocks(children))]
  {
    var codeblocks := CollectCodeblocks(children);
    file.data := file.data[CodeblocksKey := CodeblocksDatum(codeblocks)];
  }
}
