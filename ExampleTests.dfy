/** scripts/test-examples.mjs: every documentation page with ReScript
    example fences is turned into one ReScript file whose modules wrap the
    examples, and the script fails when any such file does not compile. */
module ExampleTests {
  import opened Wrappers
  import opened Strings

  /** The three opening fences, which the callback checks in this order. */
  datatype Fence = Example | Prelude | Sig

  const ExampleFence: string := "```res example"
  const PreludeFence: string := "```res prelude"
  const SigFence: string := "```res sig"
  const ModuleEnd: string := "} // _MODULE_END"
  const PreludeOpen: string := "/* _MODULE_PRELUDE_START */ include {"

  /** The regular expression test on the whole page: one of the three
      fences occurs somewhere (not necessarily at the start of a line). */
  predicate HasFence(content: string) {
    Contains(content, ExampleFence) || Contains(content, PreludeFence) || Contains(content, SigFence)
  }

  /** Which opening fence a line starts with, tried in source order. */
  function FenceOf(line: string): Option<Fence> {
    if StartsWith(line, ExampleFence) then Some(Example)
    else if StartsWith(line, PreludeFence) then Some(Prelude)
    else if StartsWith(line, SigFence) then Some(Sig)
    else None
  }

  function ExampleOpen(id: nat): string {
    "/* _MODULE_EXAMPLE_START */ module M_" + NatToString(id) + " = {"
  }

  function SigOpen(id: nat): string {
    "/* _MODULE_SIG_START */ module type M_" + NatToString(id) + " = {"
  }

  /** The two variables the `map` callback captures and updates. */
  datatype Wrapper = Wrapper(inCodeBlock: bool, moduleId: nat)

  const Start: Wrapper := Wrapper(false, 0)

  /** The line the callback returns for `line` in state `st`. */
  function OutLine(st: Wrapper, line: string): string {
    match FenceOf(line)
    case Some(Example) => ExampleOpen(st.moduleId)
    case Some(Prelude) => PreludeOpen
    case Some(Sig) => SigOpen(st.moduleId)
    case None =>
      if !st.inCodeBlock then ""
      else if StartsWith(line, "```") then ModuleEnd
      else line
  }

  /** The state after the callback has seen `line`. */
  function NextState(st: Wrapper, line: string): Wrapper {
    match FenceOf(line)
    case Some(Example) => Wrapper(true, st.moduleId + 1)
    case Some(Prelude) => Wrapper(true, st.moduleId)
    case Some(Sig) => Wrapper(true, st.moduleId + 1)
    case None =>
      if st.inCodeBlock && StartsWith(line, "```") then Wrapper(false, st.moduleId) else st
  }

  /** The state after a run of lines. */
  function StateAfter(lines: seq<string>, st: Wrapper): Wrapper
    decreases |lines|
  {
    if |lines| == 0 then st else StateAfter(lines[1..], NextState(st, lines[0]))
  }

  /** The mapped lines, one per input line. */
  function Wrapped(lines: seq<string>, st: Wrapper): (r: seq<string>)
    ensures |r| == |lines|
    decreases |lines|
  {
    if |lines| == 0 then [] else [OutLine(st, lines[0])] + Wrapped(lines[1..], NextState(st, lines[0]))
  }

  /** `parseFile(content)`: nothing for a page without fences, otherwise
      the mapped lines joined by newlines. */
  function Parsed(content: string): Option<string> {
    if !HasFence(content) then None
    else Some(Join(Wrapped(Split(content, '\n'), Start), "\n"))
  }

  /** Lines opening a module that takes an id: example and sig fences. */
  function CountIds(lines: seq<string>): nat
    decreases |lines|
  {
    if |lines| == 0 then 0
    else (if FenceOf(lines[0]) in {Some(Example), Some(Sig)} then 1 else 0) + CountIds(lines[1..])
  }

  /** A line that closes an open block: not an opening fence, starts with
      three backticks. */
  predicate Closes(line: string) {
    FenceOf(line).None? && StartsWith(line, "```")
  }

  lemma {:induction false} WrappedSnoc(lines: seq<string>, line: string, st: Wrapper)
    ensures Wrapped(lines + [line], st) == Wrapped(lines, st) + [OutLine(StateAfter(lines, st), line)]
    ensures StateAfter(lines + [line], st) == NextState(StateAfter(lines, st), line)
    decreases |lines|
  {
    if |lines| > 0 {
      assert (lines + [line])[1..] == lines[1..] + [line];
      WrappedSnoc(lines[1..], line, NextState(st, lines[0]));
    }
  }

  /** Line `k` of the output is the callback applied to line `k` in the
      state left by the lines before it. */
  lemma {:induction false} WrappedAt(lines: seq<string>, st: Wrapper, k: nat)
    requires k < |lines|
    ensures Wrapped(lines, st)[k] == OutLine(StateAfter(lines[..k], st), lines[k])
    decreases k
  {
    if k > 0 {
      WrappedAt(lines[1..], NextState(st, lines[0]), k - 1);
      assert lines[1..][..k - 1] == lines[..k][1..];
      assert lines[1..][k - 1] == lines[k];
    }
  }

  /** What line `k` of a page becomes: an opening fence becomes a module
      header (example and sig headers numbered by the ids used so far), a
      closing line inside a block becomes the module end, any other line
      inside a block is copied and a line outside blocks becomes empty. */
  lemma LineRule(lines: seq<string>, k: nat)
    requires k < |lines|
    ensures var st := StateAfter(lines[..k], Start);
      var out := Wrapped(lines, Start)[k];
      (FenceOf(lines[k]) == Some(Example) ==> out == ExampleOpen(CountIds(lines[..k]))) &&
      (FenceOf(lines[k]) == Some(Prelude) ==> out == PreludeOpen) &&
      (FenceOf(lines[k]) == Some(Sig) ==> out == SigOpen(CountIds(lines[..k]))) &&
      (FenceOf(lines[k]).None? && !st.inCodeBlock ==> out == "") &&
      (FenceOf(lines[k]).None? && st.inCodeBlock ==>
         out == (if StartsWith(lines[k], "```") then ModuleEnd else lines[k]))
  {
    var st := StateAfter(lines[..k], Start);
    var out := Wrapped(lines, Start)[k];
    WrappedAt(lines, Start, k);
    assert out == OutLine(st, lines[k]);
    IdsCount(lines[..k], Start);
    assert st.moduleId == CountIds(lines[..k]);
    OutLineCases(st, lines[k]);
  }

  /** The callback's answer for each kind of line. */
  lemma OutLineCases(st: Wrapper, line: string)
    ensures var out := OutLine(st, line);
      (FenceOf(line) == Some(Example) ==> out == ExampleOpen(st.moduleId)) &&
      (FenceOf(line) == Some(Prelude) ==> out == PreludeOpen) &&
      (FenceOf(line) == Some(Sig) ==> out == SigOpen(st.moduleId)) &&
      (FenceOf(line).None? && !st.inCodeBlock ==> out == "") &&
      (FenceOf(line).None? && st.inCodeBlock ==>
         out == (if StartsWith(line, "```") then ModuleEnd else line))
  {
  }

  /** The id counter always equals the number of example and sig fences
      seen: prelude fences do not use one. */
  lemma {:induction false} IdsCount(lines: seq<string>, st: Wrapper)
    ensures StateAfter(lines, st).moduleId == st.moduleId + CountIds(lines)
    decreases |lines|
  {
    if |lines| > 0 {
      IdsCount(lines[1..], NextState(st, lines[0]));
    }
  }

  /** Line `j` opened a block and no later line of the run closed it. */
  predicate OpenedAt(lines: seq<string>, j: int) {
    0 <= j < |lines| && FenceOf(lines[j]).Some? && forall m :: j < m < |lines| ==> !Closes(lines[m])
  }

  /** No line of the run opens or closes a block. */
  predicate Untouched(lines: seq<string>) {
    forall m :: 0 <= m < |lines| ==> !Closes(lines[m]) && FenceOf(lines[m]).None?
  }

  /** A block is open after a run of lines exactly when some opening fence
      was not closed afterwards, or the run started inside a block and
      neither opened nor closed one. */
  lemma {:induction false} OpenIff(lines: seq<string>, st: Wrapper)
    ensures StateAfter(lines, st).inCodeBlock <==>
      (exists j :: OpenedAt(lines, j)) || (st.inCodeBlock && Untouched(lines))
    decreases |lines|
  {
    if |lines| > 0 {
      var n := |lines| - 1;
      var p := lines[..n];
      var l := lines[n];
      assert lines == p + [l];
      OpenIff(p, st);
      WrappedSnoc(p, l, st);
      var before := StateAfter(p, st);
      if FenceOf(l).Some? {
        assert OpenedAt(lines, n);
      } else if Closes(l) {
        forall j | 0 <= j < |lines|
          ensures !OpenedAt(lines, j)
        {
          if j < n { assert Closes(lines[n]); }
        }
        assert !Untouched(lines) by { assert Closes(lines[n]); }
      } else {
        assert StateAfter(lines, st) == before;
        if exists j :: OpenedAt(p, j) {
          var j :| OpenedAt(p, j);
          assert OpenedAt(lines, j);
        }
        if exists j :: OpenedAt(lines, j) {
          var j :| OpenedAt(lines, j);
          assert j < n;
          assert OpenedAt(p, j);
        }
        assert Untouched(lines) <==> Untouched(p) by {
          if Untouched(p) {
            forall m | 0 <= m < |lines| ensures !Closes(lines[m]) && FenceOf(lines[m]).None? {
              if m < n { assert lines[m] == p[m]; }
            }
          }
          if Untouched(lines) {
            forall m | 0 <= m < |p| ensures !Closes(p[m]) && FenceOf(p[m]).None? {
              assert lines[m] == p[m];
            }
          }
        }
      }
    }
  }

  /** Every output line is free of newlines when the input lines are, so
      the output has exactly as many lines as the page. */
  lemma LineCount(content: string)
    requires Parsed(content).Some?
    ensures |Split(Parsed(content).value, '\n')| == |Split(content, '\n')|
  {
    var lines := Split(content, '\n');
    var out := Wrapped(lines, Start);
    SplitPiecesFree(content, '\n');
    forall k | 0 <= k < |out|
      ensures '\n' !in out[k]
    {
      WrappedAt(lines, Start, k);
      NoNewlineOut(StateAfter(lines[..k], Start), lines[k]);
    }
    SplitJoin(out, '\n');
  }

  lemma NoNewlineOut(st: Wrapper, line: string)
    requires '\n' !in line
    ensures '\n' !in OutLine(st, line)
  {
    LiteralsNoNewline();
    match FenceOf(line)
    case Some(Example) => HeaderNoNewline("/* _MODULE_EXAMPLE_START */ module M_", st.moduleId);
    case Some(Prelude) =>
    case Some(Sig) => HeaderNoNewline("/* _MODULE_SIG_START */ module type M_", st.moduleId);
    case None =>
  }

  lemma LiteralsNoNewline()
    ensures '\n' !in "/* _MODULE_EXAMPLE_START */ module M_"
    ensures '\n' !in "/* _MODULE_SIG_START */ module type M_"
    ensures '\n' !in PreludeOpen && '\n' !in ModuleEnd
  {
    ExampleHeadNoNewline();
    SigHeadNoNewline();
    PreludeNoNewline();
    EndNoNewline();
  }

  lemma ExampleHeadNoNewline() ensures '\n' !in "/* _MODULE_EXAMPLE_START */ module M_" {}
  lemma SigHeadNoNewline() ensures '\n' !in "/* _MODULE_SIG_START */ module type M_" {}
  lemma PreludeNoNewline() ensures '\n' !in PreludeOpen {}
  lemma EndNoNewline() ensures '\n' !in ModuleEnd {}

  /** A module header built from a single-line prefix and an id is a
      single line. */
  lemma HeaderNoNewline(prefix: string, id: nat)
    requires '\n' !in prefix
    ensures '\n' !in prefix + NatToString(id) + " = {"
  {
    var name := NatToString(id);
    forall k | 0 <= k < |name| ensures name[k] != '\n' {
      assert IsDigitChar(name[k]);
    }
  }

  /** Two id-taking fences at different lines get different module names:
      the later one's id is strictly larger. */
  lemma DistinctIds(lines: seq<string>, j: nat, k: nat)
    requires j < k < |lines|
    requires FenceOf(lines[j]) in {Some(Example), Some(Sig)}
    ensures StateAfter(lines[..j], Start).moduleId < StateAfter(lines[..k], Start).moduleId
  {
    IdsCount(lines[..j], Start);
    IdsCount(lines[..k], Start);
    assert lines[..k] == lines[..j] + lines[j..k];
    CountAppend(lines[..j], lines[j..k]);
    assert lines[j..k][0] == lines[j];
  }

  lemma {:induction false} CountAppend(a: seq<string>, b: seq<string>)
    ensures CountIds(a + b) == CountIds(a) + CountIds(b)
    decreases |a|
  {
    if |a| > 0 {
      assert (a + b)[1..] == a[1..] + b;
      CountAppend(a[1..], b);
    } else {
      assert a + b == b;
    }
  }

  /** Different ids give different example module headers. */
  lemma ExampleOpenInjective(a: nat, b: nat)
    requires ExampleOpen(a) == ExampleOpen(b)
    ensures a == b
  {
    CancelAround("/* _MODULE_EXAMPLE_START */ module M_", NatToString(a), NatToString(b), " = {");
    NatToStringInjective(a, b);
  }

  /** `parseFile`: the callback's two captured variables become locals of
      the loop over the page's lines. */
  method ParseFile(content: string) returns (r: Option<string>)
    ensures r == Parsed(content)
  {
    if !HasFence(content) {
      return None;
    }
    var lines := Split(content, '\n');
    var inCodeBlock := false;
    var moduleId: nat := 0;
    var out: seq<string> := [];
    var i := 0;
    while i < |lines|
      invariant 0 <= i <= |lines|
      invariant out == Wrapped(lines[..i], Start)
      invariant Wrapper(inCodeBlock, moduleId) == StateAfter(lines[..i], Start)
    {
      var line := lines[i];
      var modifiedLine := "";
      if StartsWith(line, ExampleFence) {
        inCodeBlock := true;
        modifiedLine := ExampleOpen(moduleId);
        moduleId := moduleId + 1;
      } else if StartsWith(line, PreludeFence) {
        inCodeBlock := true;
        modifiedLine := PreludeOpen;
      } else if StartsWith(line, SigFence) {
        inCodeBlock := true;
        modifiedLine := SigOpen(moduleId);
        moduleId := moduleId + 1;
      } else if inCodeBlock {
        if StartsWith(line, "```") {
          inCodeBlock := false;
          modifiedLine := ModuleEnd;
        } else {
          modifiedLine := line;
        }
      }
      WrappedSnoc(lines[..i], line, Start);
      assert lines[..i + 1] == lines[..i] + [line];
      out := out + [modifiedLine];
      i := i + 1;
    }
    assert lines[..i] == lines;
    r := Some(Join(out, "\n"));
  }

  /** The driver loop: `success` starts true and becomes false when the
      compile of a page's generated file throws; pages without fences are
      skipped. `compiles` stands for the external ReScript build of the
      generated text. */
  method RunExamples(pages: seq<string>, compiles: string -> bool) returns (exitCode: int)
    ensures exitCode == 0 || exitCode == 1
    ensures exitCode == 0 <==>
      forall i :: 0 <= i < |pages| && Parsed(pages[i]).Some? ==> compiles(Parsed(pages[i]).value)
  {
    var success := true;
    var i := 0;
    while i < |pages|
      invariant 0 <= i <= |pages|
      invariant success <==>
        forall j :: 0 <= j < i && Parsed(pages[j]).Some? ==> compiles(Parsed(pages[j]).value)
    {
      var parsedResult := ParseFile(pages[i]);
      if parsedResult.Some? {
        if !compiles(parsedResult.value) {
          success := false;
        }
      }
      i := i + 1;
    }
    exitCode := if success then 0 else 1;
  }
}
