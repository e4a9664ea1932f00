/** The part of CodeMirror's stream-language protocol the ReScript and
    Reason modes of `plugins/` rely on: a stream over one line with a
    token start and a position, the mode's state with its `tokenize`
    field, and the three continuation tokenisers both modes share
    (`tokenString`, `tokenComment` and the ReScript `tokenTemplateString`). */
module CmStream {
  import opened Wrappers
  import opened Strings

  /** The style names a token function returns; `null` is `None`. */
  datatype Style =
    | Comment | Str | Str2 | Num | Keyword | Atom | Builtin
    | Namespace | TypeName | Meta | Operator | VariableName

  /** `state.tokenize`: `null` (here `Base`) or the tokeniser of a string,
      template string or block comment that has not closed yet. */
  datatype Tokenizer = Base | InString | InTemplate | InComment

  /** The mode state of `startState`. */
  class ModeState {
    var tokenize: Tokenizer

    constructor()
      ensures tokenize == Base
    {
      tokenize := Base;
    }
  }

  /** CodeMirror's `StringStream` over one line: `match` tries its pattern
      at `pos` only and moves past a match, `next` returns the next
      character or nothing at the end of the line, and `current` is the
      text from `start` to `pos`. */
  class StringStream {
    const line: string
    var start: nat
    var pos: nat

    ghost predicate Valid()
      reads this
    {
      start <= pos <= |line|
    }

    constructor(line: string)
      ensures this.line == line && start == 0 && pos == 0 && Valid()
    {
      this.line := line;
      start, pos := 0, 0;
    }

    /** What is left of the line. */
    function Rest(): string
      reads this
      requires Valid()
    {
      line[pos..]
    }

    /** `current()`. */
    function Current(): string
      reads this
      requires Valid()
    {
      line[start..pos]
    }

    /** `next()`. */
    method Next() returns (c: Option<char>)
      requires Valid()
      modifies this
      ensures Valid() && start == old(start)
      ensures old(pos) < |line| ==> c == Some(line[old(pos)]) && pos == old(pos) + 1
      ensures old(pos) == |line| ==> c == None && pos == old(pos)
    {
      if pos < |line| {
        c := Some(line[pos]);
        pos := pos + 1;
      } else {
        c := None;
      }
    }

    /** `eatSpace()`: skips white space and tells whether there was any. */
    method EatSpace() returns (ate: bool)
      requires Valid()
      modifies this
      ensures Valid() && start == old(start)
      ensures pos == old(pos) + SpaceRun(old(Rest()))
      ensures ate <==> SpaceRun(old(Rest())) > 0
    {
      var k := SpaceRun(line[pos..]);
      pos := pos + k;
      ate := k > 0;
    }

    /** `match(pattern)` with a string pattern. */
    method MatchString(pattern: string) returns (matched: bool)
      requires Valid()
      modifies this
      ensures Valid() && start == old(start)
      ensures matched <==> StartsWith(old(Rest()), pattern)
      ensures pos == old(pos) + (if matched then |pattern| else 0)
    {
      matched := StartsWith(line[pos..], pattern);
      if matched {
        pos := pos + |pattern|;
      }
    }

    /** `match(regex)`, given the length `k` of the expression's match at
        `pos` (0 for no match). */
    method MatchLength(k: nat) returns (matched: bool)
      requires Valid() && k <= |line| - pos
      modifies this
      ensures Valid() && start == old(start)
      ensures matched <==> k > 0
      ensures pos == old(pos) + k
    {
      pos := pos + k;
      matched := k > 0;
    }

    /** `skipToEnd()`. */
    method SkipToEnd()
      requires Valid()
      modifies this
      ensures Valid() && start == old(start) && pos == |line|
    {
      pos := |line|;
    }
  }

  /** A token as a mode's `token` function reads it: how many characters
      it consumes, its style, and what it leaves in `state.tokenize`
      (`None` when it leaves the field alone). */
  datatype Tok = Tok(len: nat, style: Option<Style>, after: Option<Tokenizer>)

  // ----- how the continuation tokenisers end -----

  /** How many characters a tokeniser consumes, and whether it closed its
      token (so that it set `state.tokenize` back to `null`). */
  datatype Scan = Scan(len: nat, closed: bool)

  function Plus(n: nat, s: Scan): Scan {
    Scan(n + s.len, s.closed)
  }

  /** `tokenString` from a rest of the line, with `escaped` the flag as the
      loop holds it. */
  function StringScan(rest: string, escaped: bool): (r: Scan)
    ensures r.len <= |rest|
    ensures r.closed ==> r.len > 0 && rest[r.len - 1] == '"'
    ensures !r.closed ==> r.len == |rest|
    decreases |rest|
  {
    if |rest| == 0 then Scan(0, false)
    else if rest[0] == '"' && !escaped then Scan(1, true)
    else Plus(1, StringScan(rest[1..], !escaped && rest[0] == '\\'))
  }

  /** Whether the character at `i` is escaped: each backslash that is not
      itself escaped escapes the next character. */
  function EscapedAt(rest: string, escaped: bool, i: nat): bool
    requires i <= |rest|
  {
    if i == 0 then escaped else !EscapedAt(rest, escaped, i - 1) && rest[i - 1] == '\\'
  }

  /** A quote that is not escaped. */
  predicate ClosesAt(rest: string, escaped: bool, i: nat)
    requires i < |rest|
  {
    rest[i] == '"' && !EscapedAt(rest, escaped, i)
  }

  /** `tokenString` stops right after the first quote that is not escaped,
      and takes the whole line when there is none. */
  lemma {:induction false} StringScanFirstQuote(rest: string, escaped: bool)
    ensures var r := StringScan(rest, escaped);
      && (r.closed ==> ClosesAt(rest, escaped, r.len - 1))
      && (forall i :: 0 <= i < r.len - 1 ==> !ClosesAt(rest, escaped, i))
      && (!r.closed ==> forall i :: 0 <= i < |rest| ==> !ClosesAt(rest, escaped, i))
    decreases |rest|
  {
    if |rest| > 0 && !(rest[0] == '"' && !escaped) {
      var tail := rest[1..];
      var e := !escaped && rest[0] == '\\';
      StringScanFirstQuote(tail, e);
      assert !ClosesAt(rest, escaped, 0);
      forall i | 0 <= i < |tail| ensures ClosesAt(rest, escaped, i + 1) == ClosesAt(tail, e, i) {
        EscapedShift(rest, escaped, i);
        assert rest[i + 1] == tail[i];
      }
      forall i | 1 <= i < |rest| ensures ClosesAt(rest, escaped, i) == ClosesAt(tail, e, i - 1) {
        assert ClosesAt(rest, escaped, (i - 1) + 1) == ClosesAt(tail, e, i - 1);
      }
    }
  }

  lemma {:induction false} EscapedShift(rest: string, escaped: bool, i: nat)
    requires |rest| > 0 && i < |rest|
    ensures EscapedAt(rest, escaped, i + 1) == EscapedAt(rest[1..], !escaped && rest[0] == '\\', i)
  {
    if i > 0 {
      EscapedShift(rest, escaped, i - 1);
    }
  }

  /** `tokenComment` from a rest of the line, with `cur` the token text
      so far: it stops as soon as the token text contains `*\/`. */
  function CommentScan(cur: string, rest: string): (r: Scan)
    ensures r.len <= |rest|
    ensures !r.closed ==> r.len == |rest|
    decreases |rest|
  {
    if |rest| == 0 then Scan(0, false)
    else if Contains(cur + [rest[0]], "*/") then Scan(1, true)
    else Plus(1, CommentScan(cur + [rest[0]], rest[1..]))
  }

  /** The comment stops at the first point where the token text contains
      the closing pair, and takes the whole line when it never does. */
  lemma {:induction false} CommentScanFirstClose(cur: string, rest: string)
    requires !Contains(cur, "*/")
    ensures var r := CommentScan(cur, rest);
      && (r.closed ==> Contains(cur + rest[..r.len], "*/") && !Contains(cur + rest[..r.len - 1], "*/"))
      && (!r.closed ==> !Contains(cur + rest, "*/"))
    decreases |rest|
  {
    if |rest| > 0 {
      var next := cur + [rest[0]];
      assert cur + rest[..1] == next;
      assert cur + rest[..0] == cur;
      if !Contains(next, "*/") {
        CommentScanFirstClose(next, rest[1..]);
        var r := CommentScan(next, rest[1..]);
        assert cur + rest[..r.len + 1] == next + rest[1..][..r.len];
        if r.len > 0 {
          assert cur + rest[..r.len] == next + rest[1..][..r.len - 1];
        }
        assert cur + rest == next + rest[1..];
      }
    } else {
      assert cur + rest == cur;
    }
  }

  /** `tokenTemplateString` from a rest of the line: it stops right after
      the first backtick. */
  function TemplateScan(rest: string): (r: Scan)
    ensures r.len <= |rest|
    ensures r.closed ==> r.len > 0 && rest[r.len - 1] == '`' && '`' !in rest[..r.len - 1]
    ensures !r.closed ==> r.len == |rest| && '`' !in rest
    decreases |rest|
  {
    if |rest| == 0 then Scan(0, false)
    else if rest[0] == '`' then Scan(1, true)
    else
      var r := TemplateScan(rest[1..]);
      assert rest == [rest[0]] + rest[1..];
      assert r.closed ==> rest[..r.len] == [rest[0]] + rest[1..][..r.len - 1];
      Plus(1, r)
  }

  // ----- the continuation tokenisers -----

  /** `tokenString`: consumes up to and including the first quote that is
      not escaped; a closed string resets `state.tokenize`. */
  method TokenString(stream: StringStream, state: ModeState) returns (style: Style)
    requires stream.Valid()
    modifies stream, state
    ensures stream.Valid() && stream.start == old(stream.start)
    ensures stream.pos == old(stream.pos) + StringScan(old(stream.Rest()), false).len
    ensures state.tokenize == if StringScan(old(stream.Rest()), false).closed then Base else old(state.tokenize)
    ensures style == Str
  {
    ghost var p0 := stream.pos;
    ghost var target := StringScan(stream.line[p0..], false);
    var escaped := false;
    while true
      invariant stream.Valid() && stream.start == old(stream.start) && p0 <= stream.pos
      invariant state.tokenize == old(state.tokenize)
      invariant target == Plus(stream.pos - p0, StringScan(stream.line[stream.pos..], escaped))
      decreases |stream.line| - stream.pos
    {
      var next := stream.Next();
      if next.None? {
        break;
      }
      assert stream.line[stream.pos - 1..] == [next.value] + stream.line[stream.pos..];
      if next.value == '"' && !escaped {
        state.tokenize := Base;
        break;
      }
      escaped := !escaped && next.value == '\\';
    }
    style := Str;
  }

  /** `tokenComment`: consumes characters until the token text contains
      `*\/`; a closed comment resets `state.tokenize`. */
  method TokenComment(stream: StringStream, state: ModeState) returns (style: Style)
    requires stream.Valid()
    modifies stream, state
    ensures stream.Valid() && stream.start == old(stream.start)
    ensures stream.pos == old(stream.pos) + CommentScan(old(stream.Current()), old(stream.Rest())).len
    ensures state.tokenize ==
      if CommentScan(old(stream.Current()), old(stream.Rest())).closed then Base else old(state.tokenize)
    ensures style == Comment
  {
    ghost var p0 := stream.pos;
    ghost var target := CommentScan(stream.Current(), stream.Rest());
    while true
      invariant stream.Valid() && stream.start == old(stream.start) && p0 <= stream.pos
      invariant state.tokenize == old(state.tokenize)
      invariant target == Plus(stream.pos - p0, CommentScan(stream.Current(), stream.Rest()))
      decreases |stream.line| - stream.pos
    {
      var done := CommentChar(stream, state);
      if done {
        break;
      }
    }
    style := Comment;
  }

  /** One turn of `tokenComment`'s loop: `done` when the line is used up
      or the token text now contains the closing pair, which also resets
      `state.tokenize`. */
  method CommentChar(stream: StringStream, state: ModeState) returns (done: bool)
    requires stream.Valid()
    modifies stream, state
    ensures stream.Valid() && stream.start == old(stream.start) && old(stream.pos) <= stream.pos
    ensures var scan := CommentScan(old(stream.Current()), old(stream.Rest()));
      if done then
        stream.pos == old(stream.pos) + scan.len &&
        state.tokenize == (if scan.closed then Base else old(state.tokenize))
      else
        stream.pos == old(stream.pos) + 1 && state.tokenize == old(state.tokenize) &&
        scan == Plus(1, CommentScan(stream.Current(), stream.Rest()))
  {
    ghost var before, rest := stream.Current(), stream.Rest();
    var next := stream.Next();
    if next.None? {
      return true;
    }
    CommentStep(before, rest);
    assert rest[0] == next.value && rest[1..] == stream.Rest();
    SliceExtend(stream.line, stream.start, stream.pos - 1);
    if Contains(stream.Current(), "*/") {
      state.tokenize := Base;
      return true;
    }
    return false;
  }

  /** `tokenTemplateString`: consumes characters until the token text ends
      with a backtick; a closed template resets `state.tokenize`. */
  method TokenTemplateString(stream: StringStream, state: ModeState) returns (style: Style)
    requires stream.Valid()
    modifies stream, state
    ensures stream.Valid() && stream.start == old(stream.start)
    ensures stream.pos == old(stream.pos) + TemplateScan(old(stream.Rest())).len
    ensures state.tokenize == if TemplateScan(old(stream.Rest())).closed then Base else old(state.tokenize)
    ensures style == Str
  {
    ghost var p0 := stream.pos;
    ghost var target := TemplateScan(stream.Rest());
    while true
      invariant stream.Valid() && stream.start == old(stream.start) && p0 <= stream.pos
      invariant state.tokenize == old(state.tokenize)
      invariant target == Plus(stream.pos - p0, TemplateScan(stream.Rest()))
      decreases |stream.line| - stream.pos
    {
      ghost var rest := stream.Rest();
      var next := stream.Next();
      if next.None? {
        break;
      }
      TemplateStep(rest);
      assert rest[1..] == stream.Rest();
      LastCharIs(stream.Current(), next.value, '`');
      if EndsWith(stream.Current(), "`") {
        state.tokenize := Base;
        break;
      }
    }
    style := Str;
  }

  lemma SliceExtend(s: string, i: nat, j: nat)
    requires i <= j < |s|
    ensures s[i..j + 1] == s[i..j] + [s[j]]
  {
  }

  /** One character of a comment. */
  lemma CommentStep(cur: string, rest: string)
    requires |rest| > 0
    ensures CommentScan(cur, rest) ==
      if Contains(cur + [rest[0]], "*/") then Scan(1, true) else Plus(1, CommentScan(cur + [rest[0]], rest[1..]))
  {
  }

  /** One character of a template string. */
  lemma TemplateStep(rest: string)
    requires |rest| > 0
    ensures TemplateScan(rest) == if rest[0] == '`' then Scan(1, true) else Plus(1, TemplateScan(rest[1..]))
  {
  }

  /** A text ends with a one-character suffix exactly when its last
      character is that one. */
  lemma LastCharIs(s: string, last: char, c: char)
    requires |s| > 0 && s[|s| - 1] == last
    ensures EndsWith(s, [c]) <==> last == c
  {
    if last == c {
      assert s[|s| - 1..] == [c];
    }
  }

  // ----- tokens opened on this line -----

  /** A block comment opened at the start of `s`: `tokenComment` runs with
      the opener already in the token text. */
  function BlockComment(s: string): (t: Tok)
    requires StartsWith(s, "/*")
    ensures 2 <= t.len <= |s| && t.style == Some(Comment)
  {
    var c := CommentScan("/*", s[2..]);
    Tok(2 + c.len, Some(Comment), Some(if c.closed then Base else InComment))
  }

  /** A string opened by the `k` characters of `^b?"`. */
  function StringToken(s: string, k: nat): (t: Tok)
    requires 0 < k <= |s|
    ensures k <= t.len <= |s| && t.style == Some(Str)
  {
    var c := StringScan(s[k..], false);
    Tok(k + c.len, Some(Str), Some(if c.closed then Base else InString))
  }

  /** A template string opened by the `k` characters of `^b?` and a
      backtick. */
  function TemplateToken(s: string, k: nat): (t: Tok)
    requires 0 < k <= |s|
    ensures k <= t.len <= |s| && t.style == Some(Str)
  {
    var c := TemplateScan(s[k..]);
    Tok(k + c.len, Some(Str), Some(if c.closed then Base else InTemplate))
  }

  /** A block comment opened on this line ends right after the first `*\/`
      of the token text, which counts the opener too, and otherwise runs
      to the end of the line and leaves `state.tokenize` set. */
  lemma BlockCommentEnds(s: string)
    requires StartsWith(s, "/*")
    ensures var t := BlockComment(s);
      && t.style == Some(Comment)
      && (t.after == Some(Base) ==> Contains(s[..t.len], "*/") && !Contains(s[..t.len - 1], "*/"))
      && (t.after == Some(InComment) ==> t.len == |s| && !Contains(s, "*/"))
      && (t.after == Some(Base) || t.after == Some(InComment))
  {
    assert !Contains("/*", "*/") by {
      assert "/*"[0..2][0] == '/' && "*/"[0] == '*';
      assert IndexOfFrom("/*", "*/", 1) == None;
    }
    CommentScanFirstClose("/*", s[2..]);
    var c := CommentScan("/*", s[2..]);
    assert s == "/*" + s[2..];
    assert s[..2 + c.len] == "/*" + s[2..][..c.len];
    if c.len > 0 {
      assert s[..2 + c.len - 1] == "/*" + s[2..][..c.len - 1];
    }
  }

  /** So an opener directly followed by a slash is a whole comment of
      three characters. */
  lemma OpenerSlashCloses(x: string)
    ensures BlockComment("/*/" + x) == Tok(3, Some(Comment), Some(Base))
  {
    var s := "/*/" + x;
    assert StartsWith(s, "/*");
    assert s[2..] == "/" + x;
    assert "/*" + [s[2..][0]] == "/*/";
    assert Contains("/*/", "*/") by {
      assert OccursAt("/*/", "*/", 1);
      ContainsIff("/*/", "*/");
    }
  }

  /** The block comment as the unused `maybeEnd` flag of `tokenComment`
      intends it: the closing pair is looked for in the text after the
      opener only. */
  function BlockCommentIntended(s: string): (t: Tok)
    requires StartsWith(s, "/*")
    ensures 2 <= t.len <= |s| && t.style == Some(Comment)
  {
    var c := CommentScan("", s[2..]);
    Tok(2 + c.len, Some(Comment), Some(if c.closed then Base else InComment))
  }

  /** The intended comment ends right after the first `*\/` that follows
      the opener, and otherwise runs to the end of the line and stays
      open. */
  lemma BlockCommentIntendedEnds(s: string)
    requires StartsWith(s, "/*")
    ensures var t := BlockCommentIntended(s);
      && (t.after == Some(Base) ==> Contains(s[2..t.len], "*/") && !Contains(s[2..t.len - 1], "*/"))
      && (t.after == Some(InComment) ==> t.len == |s| && !Contains(s[2..], "*/"))
      && (t.after == Some(Base) || t.after == Some(InComment))
  {
    assert !Contains("", "*/") by {
      assert IndexOfFrom("", "*/", 0) == None;
    }
    var rest := s[2..];
    CommentScanFirstClose("", rest);
    var c := CommentScan("", rest);
    assert "" + rest == rest;
    assert "" + rest[..c.len] == rest[..c.len] == s[2..2 + c.len];
    if c.len > 0 {
      assert "" + rest[..c.len - 1] == rest[..c.len - 1] == s[2..2 + c.len - 1];
    }
  }

  /** On a line that is the opener followed by a slash, the intended
      comment stays open. */
  lemma OpenerSlashStaysOpen()
    ensures BlockCommentIntended("/*/") == Tok(3, Some(Comment), Some(InComment))
  {
    assert StartsWith("/*/", "/*");
    assert "/*/"[2..] == "/";
    assert !Contains("/", "*/") by {
      assert IndexOfFrom("/", "*/", 0) == None;
    }
  }

  /** A string opened by its first `k` characters closes after the
      first quote that is not escaped and otherwise runs to the end of the
      line, leaving `state.tokenize` set. */
  lemma StringEnds(s: string, k: nat)
    requires 0 < k <= |s|
    ensures var t := StringToken(s, k);
      && t.style == Some(Str)
      && (t.after == Some(Base) ==>
            && ClosesAt(s[k..], false, t.len - k - 1)
            && forall i :: 0 <= i < t.len - k - 1 ==> !ClosesAt(s[k..], false, i))
      && (t.after == Some(InString) ==>
            && t.len == |s|
            && forall i :: 0 <= i < |s| - k ==> !ClosesAt(s[k..], false, i))
      && (t.after == Some(Base) || t.after == Some(InString))
  {
    StringScanFirstQuote(s[k..], false);
  }

  /** A backslash escapes the next character, so an escaped backslash
      before a quote leaves the quote closing the string. */
  lemma EscapedBackslash()
    ensures StringToken("\"\\\\\" x", 1) == Tok(4, Some(Str), Some(Base))
  {
  }

  // ----- a token left open by an earlier line -----

  /** The token the tokeniser in `state.tokenize` reads from the start of
      a line, its token text starting empty. */
  function Continued(tz: Tokenizer, s: string): (t: Tok)
    requires tz != Base
    ensures t.len <= |s| && t.after.Some?
    ensures |s| > 0 ==> t.len > 0
  {
    match tz
    case InComment =>
      var c := CommentScan("", s);
      Tok(c.len, Some(Comment), Some(if c.closed then Base else InComment))
    case InString =>
      var c := StringScan(s, false);
      Tok(c.len, Some(Str), Some(if c.closed then Base else InString))
    case InTemplate =>
      var c := TemplateScan(s);
      Tok(c.len, Some(Str), Some(if c.closed then Base else InTemplate))
  }

  /** Hands the stream to the tokeniser in `state.tokenize`. */
  method TokenOpen(stream: StringStream, state: ModeState) returns (style: Option<Style>)
    requires stream.Valid() && stream.start == stream.pos && state.tokenize != Base
    modifies stream, state
    ensures stream.Valid() && stream.start == old(stream.start)
    ensures var t := Continued(old(state.tokenize), old(stream.Rest()));
      && stream.pos == old(stream.pos) + t.len
      && style == t.style
      && Some(state.tokenize) == t.after
  {
    assert stream.Current() == "";
    var st;
    if state.tokenize == InComment {
      st := TokenComment(stream, state);
    } else if state.tokenize == InString {
      st := TokenString(stream, state);
    } else {
      st := TokenTemplateString(stream, state);
    }
    style := Some(st);
  }

  /** A comment left open goes on until the first `*\/` of the new line,
      and covers the whole line, staying open, when there is none. */
  lemma CommentContinues(s: string)
    ensures var t := Continued(InComment, s);
      && t.style == Some(Comment)
      && (!Contains(s, "*/") ==> t == Tok(|s|, Some(Comment), Some(InComment)))
      && (Contains(s, "*/") ==>
            && t.after == Some(Base)
            && Contains(s[..t.len], "*/")
            && !Contains(s[..t.len - 1], "*/"))
  {
    assert !Contains("", "*/");
    CommentScanFirstClose("", s);
    var c := CommentScan("", s);
    assert "" + s == s;
    assert "" + s[..c.len] == s[..c.len];
    if c.closed {
      assert "" + s[..c.len - 1] == s[..c.len - 1];
      ContainsPrefix(s, "*/", c.len);
    }
  }
}
