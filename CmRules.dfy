/** The regular expressions the CodeMirror modes of `plugins/` try at the
    stream position. Each recogniser takes the rest of the line and answers
    the length of the match at its start, 0 when there is none (none of
    these expressions matches the empty string). An expression without `^`
    counts only when it matches at the start too, which is the same thing:
    a left-most match that starts later is rejected by `match`. */
module CmRules {
  import opened Strings

  // ----- character classes -----

  predicate IsDigit(c: char) { '0' <= c <= '9' }
  predicate IsUpper(c: char) { 'A' <= c <= 'Z' }
  predicate IsLower(c: char) { 'a' <= c <= 'z' }
  predicate IsAlpha(c: char) { IsUpper(c) || IsLower(c) }
  predicate IsHex(c: char) { IsDigit(c) || 'a' <= c <= 'f' || 'A' <= c <= 'F' }

  /** `\w`, and the class `[a-zA-Z0-9_]`. */
  predicate IsWordChar(c: char) { IsAlpha(c) || IsDigit(c) || c == '_' }

  /** The longest run at the start of `s` of characters `p` accepts. */
  function Run(s: string, p: char -> bool): (k: nat)
    ensures k <= |s|
    ensures forall i :: 0 <= i < k ==> p(s[i])
    ensures k < |s| ==> !p(s[k])
    decreases |s|
  {
    if |s| > 0 && p(s[0]) then 1 + Run(s[1..], p) else 0
  }

  function WordRun(s: string): nat {
    Run(s, IsWordChar)
  }

  /** `\b` after the first `k` characters of `s`: exactly one side is a
      word character. */
  predicate BoundaryAt(s: string, k: nat)
    requires 1 <= k <= |s|
  {
    IsWordChar(s[k - 1]) != (k < |s| && IsWordChar(s[k]))
  }

  /** `^(?:w1|w2|…)\b`: the first alternative, in order, that starts `s`
      and is followed by a word boundary. */
  function Alternation(words: seq<string>, s: string): (k: nat)
    ensures k <= |s|
    ensures k > 0 ==> exists i :: 0 <= i < |words| && |words[i]| == k && StartsWith(s, words[i])
    ensures k > 0 ==> BoundaryAt(s, k)
  {
    if |words| == 0 then 0
    else if |words[0]| > 0 && StartsWith(s, words[0]) && BoundaryAt(s, |words[0]|) then |words[0]|
    else
      var k := Alternation(words[1..], s);
      assert k > 0 ==> exists i :: 0 <= i < |words[1..]| && |words[1..][i]| == k && StartsWith(s, words[1..][i]);
      assert forall i :: 0 <= i < |words[1..]| ==> words[1..][i] == words[i + 1];
      k
  }

  /** An alternative that starts `s` and is followed by a boundary makes
      the alternation match. */
  lemma {:induction false} AlternationFinds(words: seq<string>, s: string, i: nat)
    requires i < |words| && |words[i]| > 0 && StartsWith(s, words[i]) && BoundaryAt(s, |words[i]|)
    ensures Alternation(words, s) > 0
  {
    if i > 0 && !(|words[0]| > 0 && StartsWith(s, words[0]) && BoundaryAt(s, |words[0]|)) {
      AlternationFinds(words[1..], s, i - 1);
    }
  }

  /** The first alternative wins when it starts `s` before a boundary. */
  lemma AlternationHead(words: seq<string>, s: string)
    requires |words| > 0 && |words[0]| > 0 && StartsWith(s, words[0]) && BoundaryAt(s, |words[0]|)
    ensures Alternation(words, s) == |words[0]|
  {
  }

  /** An alternative that does not start `s` is passed over. */
  lemma AlternationSkip(words: seq<string>, s: string)
    requires |words| > 0 && !StartsWith(s, words[0])
    ensures Alternation(words, s) == Alternation(words[1..], s)
  {
  }

  /** An alternation does not match where no word starts with the
      first character of `s`. */
  lemma NoWordStarts(words: seq<string>, s: string)
    requires |s| > 0 && forall i :: 0 <= i < |words| ==> |words[i]| > 0 && words[i][0] != s[0]
    ensures Alternation(words, s) == 0
  {
  }

  /** Nor where no word starts with the first two characters of `s`. */
  lemma NoWordStarts2(words: seq<string>, s: string)
    requires |s| >= 2
    requires forall i :: 0 <= i < |words| ==> |words[i]| >= 2 && (words[i][0] != s[0] || words[i][1] != s[1])
    ensures Alternation(words, s) == 0
  {
  }

  // ----- openers -----

  /** `^b?` followed by the delimiter `q`. */
  function Opener(s: string, q: char): (k: nat)
    ensures k <= 2
    ensures k > 0 ==> k <= |s| && s[k - 1] == q
  {
    if |s| >= 1 && s[0] == q then 1
    else if |s| >= 2 && s[0] == 'b' && s[1] == q then 2
    else 0
  }

  // ----- literals -----

  /** `'(?:[^'\\]|\\(?:[nrt0'"]|x[\da-fA-F]{2}|u\{[\da-fA-F]{6}\}))'`. */
  function CharLiteral(s: string): (k: nat)
    ensures k <= |s|
    ensures k > 0 ==> s[0] == '\''
  {
    if |s| < 3 || s[0] != '\'' then 0
    else if s[1] != '\'' && s[1] != '\\' then (if s[2] == '\'' then 3 else 0)
    else if s[1] == '\\' then
      if |s| >= 4 && s[2] in "nrt0'\"" && s[3] == '\'' then 4
      else if |s| >= 6 && s[2] == 'x' && IsHex(s[3]) && IsHex(s[4]) && s[5] == '\'' then 6
      else if |s| >= 12 && s[2] == 'u' && s[3] == '{' && (forall i :: 4 <= i < 10 ==> IsHex(s[i])) &&
              s[10] == '}' && s[11] == '\'' then 12
      else 0
    else 0
  }

  /** `b'(?:[^']|\\(?:['\\nrt0]|x[\da-fA-F]{2}))'`: the first alternative
      is tried first, so `b'\'` is a complete literal. */
  function ByteLiteral(s: string): (k: nat)
    ensures k <= |s|
    ensures k > 0 ==> s[0] == 'b'
  {
    if |s| < 4 || s[0] != 'b' || s[1] != '\'' then 0
    else if s[2] != '\'' && s[3] == '\'' then 4
    else if s[2] == '\\' then
      if |s| >= 5 && s[3] in "'\\nrt0" && s[4] == '\'' then 5
      else if |s| >= 7 && s[3] == 'x' && IsHex(s[4]) && IsHex(s[5]) && s[6] == '\'' then 7
      else 0
    else 0
  }

  /** `[0-9_]+` at the start of `s`. */
  function DigitRun(s: string): nat {
    Run(s, c => IsDigit(c) || c == '_')
  }

  /** `[Ee][+-]?[0-9_]+`. */
  function Exponent(s: string): (k: nat)
    ensures k <= |s|
    ensures k > 0 ==> (s[0] == 'E' || s[0] == 'e') && k >= 2 && (IsDigit(s[k - 1]) || s[k - 1] == '_')
    ensures |s| >= 2 && (s[0] == 'E' || s[0] == 'e') && (IsDigit(s[1]) || s[1] == '_') ==> k > 0
  {
    if |s| == 0 || (s[0] != 'E' && s[0] != 'e') then 0
    else
      var sign := if |s| > 1 && (s[1] == '+' || s[1] == '-') then 1 else 0;
      var d := DigitRun(s[1 + sign..]);
      if d > 0 then 1 + sign + d else 0
  }

  /** The length of the first of the suffixes that starts `s`, or 0 when
      none does. */
  function Suffix(suffixes: seq<string>, s: string): (k: nat)
    ensures k <= |s|
    ensures k > 0 ==> exists i :: 0 <= i < |suffixes| && |suffixes[i]| == k && StartsWith(s, suffixes[i])
                        && forall j :: 0 <= j < i ==> !StartsWith(s, suffixes[j])
    ensures (forall i :: 0 <= i < |suffixes| ==> !StartsWith(s, suffixes[i])) ==> k == 0
  {
    if |suffixes| == 0 then 0
    else if StartsWith(s, suffixes[0]) then |suffixes[0]|
    else
      var k := Suffix(suffixes[1..], s);
      assert k > 0 ==> exists i :: 1 <= i < |suffixes| && |suffixes[i]| == k && StartsWith(s, suffixes[i])
                         && forall j :: 0 <= j < i ==> !StartsWith(s, suffixes[j]) by {
        if k > 0 {
          var i :| 0 <= i < |suffixes[1..]| && |suffixes[1..][i]| == k && StartsWith(s, suffixes[1..][i])
                   && forall j :: 0 <= j < i ==> !StartsWith(s, suffixes[1..][j]);
          assert forall j :: 1 <= j < i + 1 ==> suffixes[j] == suffixes[1..][j - 1];
        }
      }
      k
  }

  const FloatSuffixes: seq<string> := ["f32", "f64"]
  const IntSuffixes: seq<string> := ["u8", "u16", "u32", "u64", "i8", "i16", "i32", "i64", "isize", "usize"]

  /** The float alternative: digits, then an exponent or a fraction with
      an optional exponent, then an optional `f32`/`f64`. */
  function FloatLiteral(s: string): (k: nat)
    ensures k <= |s|
    ensures k > 0 ==> IsDigit(s[0])
  {
    if |s| == 0 || !IsDigit(s[0]) then 0
    else
      var whole := 1 + DigitRun(s[1..]);
      var rest := s[whole..];
      var e := Exponent(rest);
      var body :=
        if e > 0 then whole + e
        else if |rest| > 0 && rest[0] == '.' && DigitRun(rest[1..]) > 0 then
          var f := 1 + DigitRun(rest[1..]);
          whole + f + Exponent(rest[f..])
        else 0;
      if body == 0 then 0 else body + Suffix(FloatSuffixes, s[body..])
  }

  /** The integer alternative: a binary, octal or hexadecimal literal, or
      plain digits, then an optional width suffix. */
  function IntLiteral(s: string): (k: nat)
    ensures k <= |s|
    ensures k > 0 ==> IsDigit(s[0])
  {
    if |s| == 0 || !IsDigit(s[0]) then 0
    else
      var radix :=
        if s[0] == '0' && |s| > 1 && s[1] == 'b' then Run(s[2..], c => c == '0' || c == '1' || c == '_')
        else if s[0] == '0' && |s| > 1 && s[1] == 'o' then Run(s[2..], c => '0' <= c <= '7' || c == '_')
        else if s[0] == '0' && |s| > 1 && s[1] == 'x' then Run(s[2..], c => IsHex(c) || c == '_')
        else 0;
      var body := if radix > 0 then 2 + radix else 1 + DigitRun(s[1..]);
      body + Suffix(IntSuffixes, s[body..])
  }

  /** The number expression: the float alternative first, then the
      integer one. */
  function Number(s: string): (k: nat)
    ensures k <= |s|
    ensures k > 0 ==> IsDigit(s[0])
  {
    if FloatLiteral(s) > 0 then FloatLiteral(s) else IntLiteral(s)
  }

  // ----- definitions -----

  /** `^(let|type)(\s+rec)?(\s+)`, with the backtracking the optional
      group allows: `let record` matches only `let `. */
  function LetType(s: string): (k: nat)
    ensures k <= |s|
    ensures k > 0 ==> StartsWith(s, "let") || StartsWith(s, "type")
  {
    var kw := if StartsWith(s, "let") then 3 else if StartsWith(s, "type") then 4 else 0;
    if kw == 0 then 0
    else
      var rest := s[kw..];
      var sp := SpaceRun(rest);
      if sp == 0 then 0
      else if StartsWith(rest[sp..], "rec") && SpaceRun(rest[sp + 3..]) > 0 then
        kw + sp + 3 + SpaceRun(rest[sp + 3..])
      else kw + sp
  }

  /** No definition starts other than with `l` or with `ty`. */
  lemma NoLetType(s: string)
    requires |s| > 0 && s[0] != 'l' && (s[0] != 't' || (|s| >= 2 && s[1] != 'y'))
    ensures LetType(s) == 0
  {
    assert !StartsWith(s, "let") by { assert |s| >= 3 ==> s[..3][0] == s[0]; }
    assert !StartsWith(s, "type") by { assert |s| >= 4 ==> s[..4][0] == s[0] && s[..4][1] == s[1]; }
  }

  /** `[a-zA-Z_][a-zA-Z0-9_]*`. */
  function Identifier(s: string): (k: nat)
    ensures k <= |s|
    ensures k > 0 ==> IsAlpha(s[0]) || s[0] == '_'
  {
    if |s| > 0 && (IsAlpha(s[0]) || s[0] == '_') then 1 + WordRun(s[1..]) else 0
  }

  // ----- names and symbols -----

  /** `^[A-Z][a-zA-Z0-9_]*\.`. */
  function ModuleRef(s: string): (k: nat)
    ensures k <= |s|
    ensures k > 0 ==> IsUpper(s[0]) && s[k - 1] == '.'
  {
    if |s| > 0 && IsUpper(s[0]) then
      var w := WordRun(s[1..]);
      if 1 + w < |s| && s[1 + w] == '.' then w + 2 else 0
    else 0
  }

  /** `^[A-Z][a-zA-Z0-9_]*`. */
  function Constructor(s: string): (k: nat)
    ensures k <= |s|
    ensures k > 0 ==> IsUpper(s[0])
  {
    if |s| > 0 && IsUpper(s[0]) then 1 + WordRun(s[1..]) else 0
  }

  /** A run of the operator characters `-`, `+`, `/`, `*`, `=`, `<`, `>`,
      `!` and `|`. */
  function Operator(s: string): (k: nat)
    ensures k <= |s|
    ensures k > 0 ==> s[0] in "-+/*=<>!|"
  {
    Run(s, c => c in "-+/*=<>!|")
  }
}
