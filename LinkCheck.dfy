/** The link checker of `scripts/test-hrefs.mjs`: every MDX page under the
    markdown directory is run through the link validator, a page whose
    report mentions a broken link into one of the markdown folders counts
    as an issue, and on CI any issue fails the run. */
module LinkCheck {
  import opened Wrappers
  import opened Strings

  /** Only file names containing `.mdx` are checked. */
  predicate IsPage(file: string) {
    Contains(file, ".mdx")
  }

  /** The report with the page's own name taken out: only its first
      occurrence, as `String.prototype.replace` with a string pattern. */
  function WarningMessage(log: string, file: string): string {
    ReplaceFirst(log, file, "")
  }

  /** `markdownFolders.some(folder => warningMessage.includes(folder))`. */
  predicate MentionsFolder(message: string, folders: seq<string>) {
    exists k :: 0 <= k < |folders| && Contains(message, folders[k])
  }

  /** The page counts as an issue: the report is not empty, it does not
      point at `api/`, at the blog root or at a `.txt` file, and it names a
      markdown folder. */
  predicate IsIssue(file: string, log: string, folders: seq<string>) {
    var message := WarningMessage(log, file);
    && log != ""
    && !Contains(message, "api/")
    && !Contains(message, "`../../blog`")
    && MentionsFolder(message, folders)
    && !Contains(message, ".txt")
  }

  /** A checked file whose report, given by `report`, is an issue. */
  predicate Counts(file: string, report: string -> string, folders: seq<string>) {
    IsPage(file) && IsIssue(file, report(file), folders)
  }

  /** The number of files that count. */
  function Issues(files: seq<string>, report: string -> string, folders: seq<string>): nat {
    if |files| == 0 then 0
    else
      Issues(files[..|files| - 1], report, folders) +
        (if Counts(files[|files| - 1], report, folders) then 1 else 0)
  }

  /** There are no more issues than checked pages, and none exactly when
      no file counts. */
  lemma {:induction false} IssuesBound(files: seq<string>, report: string -> string, folders: seq<string>)
    ensures Issues(files, report, folders) <= |files|
    ensures Issues(files, report, folders) == 0 <==>
      forall i :: 0 <= i < |files| ==> !Counts(files[i], report, folders)
  {
    if |files| > 0 {
      var front := files[..|files| - 1];
      IssuesBound(front, report, folders);
      assert forall i :: 0 <= i < |front| ==> front[i] == files[i];
    }
  }

  /** A file without `.mdx` in its name is never an issue. */
  lemma IssuesSkipNonPages(a: seq<string>, file: string, report: string -> string, folders: seq<string>)
    requires !IsPage(file)
    ensures Issues(a + [file], report, folders) == Issues(a, report, folders)
  {
    assert (a + [file])[..|a|] == a;
  }

  /** The loop of the script: one more issue per file that counts. */
  method CountIssues(files: seq<string>, report: string -> string, folders: seq<string>)
    returns (issues: nat)
    ensures issues == Issues(files, report, folders)
  {
    issues := 0;
    var i := 0;
    while i < |files|
      invariant 0 <= i <= |files|
      invariant issues == Issues(files[..i], report, folders)
    {
      var file := files[i];
      if Contains(file, ".mdx") {
        var log := report(file);
        var warningMessage := ReplaceFirst(log, file, "");
        if log != "" && !Contains(warningMessage, "api/") &&
           !Contains(warningMessage, "`../../blog`") &&
           (exists k :: 0 <= k < |folders| && Contains(warningMessage, folders[k])) &&
           !Contains(warningMessage, ".txt")
        {
          issues := issues + 1;
        }
      }
      assert files[..i + 1][..i] == files[..i];
      i := i + 1;
    }
    assert files[..i] == files;
  }

  /** `process.env.CI` is set to a non-empty string. */
  predicate OnCi(ci: Option<string>) {
    ci.Some? && ci.value != ""
  }

  /** The exit code of the run. */
  function ExitCode(ci: Option<string>, issues: nat): int {
    if OnCi(ci) && issues > 0 then 1 else 0
  }

  /** The run fails, with 1, exactly on CI when some checked page has an
      issue; otherwise it exits with 0. */
  method RunLinkCheck(files: seq<string>, report: string -> string, folders: seq<string>, ci: Option<string>)
    returns (exitCode: int)
    ensures exitCode == 0 || exitCode == 1
    ensures exitCode == 1 <==> OnCi(ci) && exists i :: 0 <= i < |files| && Counts(files[i], report, folders)
  {
    var issues := CountIssues(files, report, folders);
    IssuesBound(files, report, folders);
    exitCode := ExitCode(ci, issues);
  }
}
