/** The ReScript mode of `plugins/cm6-rescript-mode.js`: its `token`
    function tries an ordered list of rules at the stream position and
    returns the style of the first that matches, starting a string,
    template string or block comment through the continuation tokenisers
    and recording that one in `state.tokenize`.

    `Lex` is the specification: the token `token` reads from the rest of
    the line (its length, its style, and what it leaves in
    `state.tokenize`, `None` for unchanged). `Token` is the function
    itself, step by step on the stream, proved to agree with `Lex`. */
module ReScriptMode {
  import opened Wrappers
  import opened Strings
  import opened CmStream
  import R = CmRules

  const Keywords: seq<string> := [
    "and", "as", "assert", "catch", "async", "await", "constraint", "downto", "else",
    "exception", "export", "external", "false", "for", "if", "import", "in", "include",
    "lazy", "let", "module", "mutable", "of", "open", "private", "switch", "to", "true",
    "try", "type", "when", "while", "with!"]
  const RecList: seq<string> := ["rec", "list"]
  const Atoms: seq<string> := ["char", "bool", "option", "int", "string"]
  const Booleans: seq<string> := ["true", "false"]

  /** `^#[a-zA-Z0-9_"]*`. */
  function Polyvar(s: string): (k: nat)
    ensures k <= |s|
    ensures k > 0 ==> s[0] == '#'
  {
    if |s| > 0 && s[0] == '#' then 1 + R.Run(s[1..], c => R.IsWordChar(c) || c == '"') else 0
  }

  /** `^@[.\w\(\)]*`. */
  function Decorator(s: string): (k: nat)
    ensures k <= |s|
    ensures k > 0 ==> s[0] == '@'
  {
    if |s| > 0 && s[0] == '@' then 1 + R.Run(s[1..], c => c == '.' || R.IsWordChar(c) || c == '(' || c == ')') else 0
  }

  /** The rules from character literals on, none of which touches
      `state.tokenize`. */
  function LexWord(s: string): (t: Tok)
    ensures t.after == None && t.len <= |s|
    ensures |s| > 0 ==> t.len > 0
  {
    if R.CharLiteral(s) > 0 then Tok(R.CharLiteral(s), Some(Str2), None)
    else if R.ByteLiteral(s) > 0 then Tok(R.ByteLiteral(s), Some(Str2), None)
    else if R.Number(s) > 0 then Tok(R.Number(s), Some(Num), None)
    else LexKeyword(s)
  }

  /** The rules from `let`/`type` definitions to the booleans. */
  function LexKeyword(s: string): (t: Tok)
    ensures t.after == None && t.len <= |s|
    ensures |s| > 0 ==> t.len > 0
  {
    if R.LetType(s) > 0 then
      var k := R.LetType(s);
      Tok(k + R.Identifier(s[k..]), Some(Keyword), None)
    else if R.Alternation(Keywords, s) > 0 then Tok(R.Alternation(Keywords, s), Some(Keyword), None)
    else if R.Alternation(RecList, s) > 0 then Tok(R.Alternation(RecList, s), Some(Keyword), None)
    else if R.Alternation(Atoms, s) > 0 then Tok(R.Alternation(Atoms, s), Some(Atom), None)
    else if R.Alternation(Booleans, s) > 0 then Tok(R.Alternation(Booleans, s), Some(Builtin), None)
    else LexName(s)
  }

  /** The rules from module references on. */
  function LexName(s: string): (t: Tok)
    ensures t.after == None && t.len <= |s|
    ensures |s| > 0 ==> t.len > 0
  {
    if R.ModuleRef(s) > 0 then Tok(R.ModuleRef(s), Some(Namespace), None)
    else if R.Constructor(s) > 0 then Tok(R.Constructor(s), Some(TypeName), None)
    else if Polyvar(s) > 0 then Tok(Polyvar(s), Some(TypeName), None)
    else if Decorator(s) > 0 then Tok(Decorator(s), Some(Meta), None)
    else if R.Operator(s) > 0 then Tok(R.Operator(s), Some(Operator), None)
    else if R.Identifier(s) > 0 then Tok(R.Identifier(s), Some(VariableName), None)
    else Tok(if |s| > 0 then 1 else 0, None, None)
  }

  /** The token `token` reads from the rest `s` of the line. Every call on
      a non-empty rest consumes at least one character and stays within
      the line. */
  function Lex(s: string): (t: Tok)
    ensures t.len <= |s|
    ensures |s| > 0 ==> t.len > 0
  {
    if SpaceRun(s) > 0 then Tok(SpaceRun(s), None, None)
    else if StartsWith(s, "//") then Tok(|s|, Some(Comment), None)
    else if StartsWith(s, "/*") then BlockComment(s)
    else LexQuoted(s)
  }

  /** The rules from strings on. */
  function LexQuoted(s: string): (t: Tok)
    ensures t.len <= |s|
    ensures |s| > 0 ==> t.len > 0
  {
    if R.Opener(s, '"') > 0 then StringToken(s, R.Opener(s, '"'))
    else if R.Opener(s, '`') > 0 then TemplateToken(s, R.Opener(s, '`'))
    else LexWord(s)
  }

  /** `token(stream, state)`. CodeMirror calls it with the token start at
      the stream position. */
  method Token(stream: StringStream, state: ModeState) returns (style: Option<Style>)
    requires stream.Valid() && stream.start == stream.pos
    modifies stream, state
    ensures stream.Valid() && stream.start == old(stream.start)
    ensures stream.pos == old(stream.pos) + Lex(old(stream.Rest())).len
    ensures style == Lex(old(stream.Rest())).style
    ensures state.tokenize ==
      match Lex(old(stream.Rest())).after
      case Some(z) => z
      case None => old(state.tokenize)
  {
    var s := stream.Rest();
    var ate := stream.EatSpace();
    if ate {
      return None;
    }
    assert stream.Rest() == s;
    var m;
    if StartsWith(s, "//") {
      m := stream.MatchString("//");
      stream.SkipToEnd();
      style := Some(Comment);
    } else if StartsWith(s, "/*") {
      m := stream.MatchString("/*");
      state.tokenize := InComment;
      assert stream.Current() == "/*" && stream.Rest() == s[2..];
      var st := TokenComment(stream, state);
      style := Some(st);
    } else {
      style := TokenQuoted(stream, state);
    }
  }

  /** The string and template-string rules of `token`. */
  method TokenQuoted(stream: StringStream, state: ModeState) returns (style: Option<Style>)
    requires stream.Valid()
    modifies stream, state
    ensures stream.Valid() && stream.start == old(stream.start)
    ensures var t := LexQuoted(old(stream.Rest()));
      && stream.pos == old(stream.pos) + t.len
      && style == t.style
      && state.tokenize == match t.after case Some(z) => z case None => old(state.tokenize)
  {
    var s := stream.Rest();
    var k := R.Opener(s, '"');
    var m;
    if k > 0 {
      m := stream.MatchLength(k);
      state.tokenize := InString;
      assert stream.Rest() == s[k..];
      var st := TokenString(stream, state);
      style := Some(st);
    } else if R.Opener(s, '`') > 0 {
      k := R.Opener(s, '`');
      m := stream.MatchLength(k);
      state.tokenize := InTemplate;
      assert stream.Rest() == s[k..];
      var st := TokenTemplateString(stream, state);
      style := Some(st);
    } else {
      style := TokenWord(stream);
    }
  }

  /** The rules of `token` from character literals on. A `match` that
      fails leaves the stream where it is, so only the rule that matches
      moves it. */
  method TokenWord(stream: StringStream) returns (style: Option<Style>)
    requires stream.Valid()
    modifies stream
    ensures stream.Valid() && stream.start == old(stream.start)
    ensures stream.pos == old(stream.pos) + LexWord(old(stream.Rest())).len
    ensures style == LexWord(old(stream.Rest())).style
  {
    var s := stream.Rest();
    var m;
    if R.CharLiteral(s) > 0 {
      m := stream.MatchLength(R.CharLiteral(s));
      style := Some(Str2);
    } else if R.ByteLiteral(s) > 0 {
      m := stream.MatchLength(R.ByteLiteral(s));
      style := Some(Str2);
    } else if R.Number(s) > 0 {
      m := stream.MatchLength(R.Number(s));
      style := Some(Num);
    } else {
      style := TokenKeyword(stream);
    }
  }

  /** The rules of `token` from `let`/`type` definitions to the booleans. */
  method TokenKeyword(stream: StringStream) returns (style: Option<Style>)
    requires stream.Valid()
    modifies stream
    ensures stream.Valid() && stream.start == old(stream.start)
    ensures stream.pos == old(stream.pos) + LexKeyword(old(stream.Rest())).len
    ensures style == LexKeyword(old(stream.Rest())).style
  {
    var s := stream.Rest();
    var m;
    if R.LetType(s) > 0 {
      var k := R.LetType(s);
      m := stream.MatchLength(k);
      assert stream.Rest() == s[k..];
      m := stream.MatchLength(R.Identifier(stream.Rest()));
      style := Some(Keyword);
    } else if R.Alternation(Keywords, s) > 0 {
      m := stream.MatchLength(R.Alternation(Keywords, s));
      style := Some(Keyword);
    } else if R.Alternation(RecList, s) > 0 {
      m := stream.MatchLength(R.Alternation(RecList, s));
      style := Some(Keyword);
    } else if R.Alternation(Atoms, s) > 0 {
      m := stream.MatchLength(R.Alternation(Atoms, s));
      style := Some(Atom);
    } else if R.Alternation(Booleans, s) > 0 {
      m := stream.MatchLength(R.Alternation(Booleans, s));
      style := Some(Builtin);
    } else {
      style := TokenName(stream);
    }
  }

  /** The rules of `token` from module references on. */
  method TokenName(stream: StringStream) returns (style: Option<Style>)
    requires stream.Valid()
    modifies stream
    ensures stream.Valid() && stream.start == old(stream.start)
    ensures stream.pos == old(stream.pos) + LexName(old(stream.Rest())).len
    ensures style == LexName(old(stream.Rest())).style
  {
    var s := stream.Rest();
    var m;
    if R.ModuleRef(s) > 0 {
      m := stream.MatchLength(R.ModuleRef(s));
      style := Some(Namespace);
    } else if R.Constructor(s) > 0 {
      m := stream.MatchLength(R.Constructor(s));
      style := Some(TypeName);
    } else if Polyvar(s) > 0 {
      m := stream.MatchLength(Polyvar(s));
      style := Some(TypeName);
    } else if Decorator(s) > 0 {
      m := stream.MatchLength(Decorator(s));
      style := Some(Meta);
    } else if R.Operator(s) > 0 {
      m := stream.MatchLength(R.Operator(s));
      style := Some(Operator);
    } else if R.Identifier(s) > 0 {
      m := stream.MatchLength(R.Identifier(s));
      style := Some(VariableName);
    } else {
      var c := stream.Next();
      style := None;
    }
  }

  // ----- what `token` does -----

  /** The comment and string rules come first, in this order: a line
      comment takes the rest of the line, then the block-comment opener,
      `^b?"` and `^b?` with a backtick start a block comment, a string and
      a template string. */
  lemma Delimited(s: string)
    ensures StartsWith(s, "//") ==> Lex(s) == Tok(|s|, Some(Comment), None)
    ensures StartsWith(s, "/*") ==> Lex(s) == BlockComment(s)
    ensures R.Opener(s, '"') > 0 ==> Lex(s) == StringToken(s, R.Opener(s, '"'))
    ensures R.Opener(s, '`') > 0 ==> Lex(s) == TemplateToken(s, R.Opener(s, '`'))
  {
    if |s| > 0 {
      assert s[0] in "/\"`b" ==> SpaceRun(s) == 0;
    }
  }

  /** A token that starts with neither white space, a slash, a quote, a
      backtick, an apostrophe, a digit nor `b` comes from the rules from
      `let`/`type` on. */
  lemma PlainStart(s: string)
    requires |s| > 0 && !IsSpace(s[0]) && s[0] !in "/\"`'b" && !R.IsDigit(s[0])
    ensures Lex(s) == LexKeyword(s)
  {
    assert SpaceRun(s) == 0 && !StartsWith(s, "//") && !StartsWith(s, "/*");
    LexIsQuoted(s);
    assert R.Opener(s, '"') == 0 && R.Opener(s, '`') == 0;
    QuotedIsWord(s);
    assert R.CharLiteral(s) == 0 && R.ByteLiteral(s) == 0 && R.Number(s) == 0;
    WordIsKeyword(s);
  }

  /** Outside white space and comments the string rules come next. */
  lemma LexIsQuoted(s: string)
    requires SpaceRun(s) == 0 && !StartsWith(s, "//") && !StartsWith(s, "/*")
    ensures Lex(s) == LexQuoted(s)
  {
  }

  /** Without a string opener the literal rules come next. */
  lemma QuotedIsWord(s: string)
    requires R.Opener(s, '"') == 0 && R.Opener(s, '`') == 0
    ensures LexQuoted(s) == LexWord(s)
  {
  }

  /** Without a literal the word rules come next. */
  lemma WordIsKeyword(s: string)
    requires R.CharLiteral(s) == 0 && R.ByteLiteral(s) == 0 && R.Number(s) == 0
    ensures LexWord(s) == LexKeyword(s)
  {
  }

  /** Every keyword starts with a lower-case letter other than `b` and `x`. */
  lemma KeywordInitials()
    ensures forall i :: 0 <= i < |Keywords| ==>
      |Keywords[i]| > 0 && R.IsLower(Keywords[i][0]) && Keywords[i][0] != 'b' && Keywords[i][0] != 'x'
  {
  }

  /** Where `s` does not start with a lower-case letter, none of the word
      rules applies. */
  lemma NoWordRule(s: string)
    requires |s| > 0 && !R.IsLower(s[0])
    ensures LexKeyword(s) == LexName(s)
  {
    KeywordInitials();
    R.NoWordStarts(Keywords, s);
    R.NoWordStarts(RecList, s);
    R.NoWordStarts(Atoms, s);
    R.NoWordStarts(Booleans, s);
    R.NoLetType(s);
  }

  /** `let` or `type`, white space, an optional `rec` with white space,
      and the name after them form one keyword token, ahead of the keyword
      rule. */
  lemma Definition(s: string)
    requires R.LetType(s) > 0
    ensures var k := R.LetType(s);
      Lex(s) == Tok(k + R.Identifier(s[k..]), Some(Keyword), None)
  {
    assert s[0] == 'l' || s[0] == 't';
    PlainStart(s);
  }

  /** A listed keyword followed by a word boundary is a keyword token. */
  lemma KeywordWins(s: string, i: nat)
    requires i < |Keywords| && StartsWith(s, Keywords[i]) && R.BoundaryAt(s, |Keywords[i]|)
    ensures Lex(s).style == Some(Keyword)
  {
    KeywordInitials();
    var w := Keywords[i];
    assert s[0] == w[0];
    PlainStart(s);
    R.AlternationFinds(Keywords, s, i);
  }

  /** `true` and `false` are keywords too, so the builtin rule never fires. */
  lemma NeverBuiltin(s: string)
    ensures Lex(s).style != Some(Builtin)
  {
    KeywordNotBuiltin(s);
    assert LexWord(s).style != Some(Builtin);
  }

  /** The booleans rule is passed over because the keyword rule before it
      matches `true` and `false` already. */
  lemma KeywordNotBuiltin(s: string)
    ensures LexKeyword(s).style != Some(Builtin)
  {
    NameNotBuiltin(s);
    if R.Alternation(Booleans, s) > 0 {
      var k := R.Alternation(Booleans, s);
      var i :| 0 <= i < |Booleans| && |Booleans[i]| == k && StartsWith(s, Booleans[i]);
      BooleanIsKeyword(s, i, Keywords);
    }
  }

  /** No rule after the booleans yields a builtin. */
  lemma NameNotBuiltin(s: string)
    ensures LexName(s).style != Some(Builtin)
  {
  }

  /** `true` and `false` are entries 27 and 12 of the keyword list. The list
      is a parameter equal to `Keywords` so that the solver does not unfold
      the alternation over the literal list. */
  lemma BooleanIsKeyword(s: string, i: nat, keywords: seq<string>)
    requires keywords == Keywords
    requires i < |Booleans| && StartsWith(s, Booleans[i]) && R.BoundaryAt(s, |Booleans[i]|)
    ensures R.Alternation(keywords, s) > 0
  {
    var j := if i == 0 then 27 else 12;
    assert keywords[j] == Booleans[i];
    R.AlternationFinds(keywords, s, j);
  }

  /** A capitalised name is a namespace when a dot follows it and a
      constructor otherwise. */
  lemma CapitalisedName(s: string)
    requires |s| > 0 && R.IsUpper(s[0])
    ensures var c := R.Constructor(s);
      && (c < |s| && s[c] == '.' ==> Lex(s) == Tok(c + 1, Some(Namespace), None))
      && (!(c < |s| && s[c] == '.') ==> Lex(s) == Tok(c, Some(TypeName), None))
  {
    PlainStart(s);
    NoWordRule(s);
  }

  /** A character that starts no rule (not white space, not a word
      character, and none of the slash, quote, backtick, apostrophe, `#`,
      `@` and operator characters) is consumed on its own, without a
      style. */
  lemma Fallback(s: string)
    requires |s| > 0 && !IsSpace(s[0]) && !R.IsWordChar(s[0])
    requires s[0] !in "/\"`'#@" && s[0] !in "-+/*=<>!|"
    ensures Lex(s) == Tok(1, None, None)
  {
    PlainStart(s);
    NoWordRule(s);
    assert R.ModuleRef(s) == 0 && R.Constructor(s) == 0;
    assert Polyvar(s) == 0 && Decorator(s) == 0;
    assert R.Operator(s) == 0 && R.Identifier(s) == 0;
  }

  // ----- continuing a token from an earlier line -----

  /** The token read when `state.tokenize` is consulted first, as its
      name promises: a token left open by an earlier line goes on with its
      own tokeniser; otherwise the rules of `token` apply. */
  function LexIn(tz: Tokenizer, s: string): (t: Tok)
    ensures t.len <= |s|
    ensures |s| > 0 ==> t.len > 0
  {
    if tz == Base then Lex(s) else Continued(tz, s)
  }

  /** `token` with the dispatch on `state.tokenize` it leaves out. */
  method TokenContinuing(stream: StringStream, state: ModeState) returns (style: Option<Style>)
    requires stream.Valid() && stream.start == stream.pos
    modifies stream, state
    ensures stream.Valid() && stream.start == old(stream.start)
    ensures var t := LexIn(old(state.tokenize), old(stream.Rest()));
      && stream.pos == old(stream.pos) + t.len
      && style == t.style
      && state.tokenize == match t.after case Some(z) => z case None => old(state.tokenize)
  {
    if state.tokenize == Base {
      style := Token(stream, state);
    } else {
      style := TokenOpen(stream, state);
    }
  }

  /** As written, `token` never reads `state.tokenize`: on the line after
      an unterminated block comment, a line such as `x` that starts with
      `x` (no keyword does) begins with a variable name, where continuing
      the comment styles the whole line as comment and keeps it open. */
  lemma OpenCommentIgnored(s: string)
    requires |s| > 0 && s[0] == 'x' && !Contains(s, "*/")
    ensures Lex(s).style == Some(VariableName)
    ensures LexIn(InComment, s) == Tok(|s|, Some(Comment), Some(InComment))
  {
    PlainStart(s);
    NoKeywordStartsX(s);
    CommentContinues(s);
  }

  /** No keyword, atom or boolean starts with `x`. */
  lemma NoKeywordStartsX(s: string)
    requires |s| > 0 && s[0] == 'x'
    ensures LexKeyword(s) == LexName(s)
  {
    KeywordInitials();
    R.NoWordStarts(Keywords, s);
    R.NoWordStarts(RecList, s);
    R.NoWordStarts(Atoms, s);
    R.NoWordStarts(Booleans, s);
    R.NoLetType(s);
  }
}
