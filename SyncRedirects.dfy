/** scripts/sync-redirects.mjs: format every rule that `redirects()`
    returns as one `_redirects` line and join the lines. */
module SyncRedirects {
  import opened Wrappers
  import opened Strings
  import opened Redirects

  /** `lineFormat`: source, destination and status, two spaces apart. */
  function LineFormat(r: Rule): string {
    r.source + "  " + r.destination + "  " + (if r.permanent then "308" else "307")
  }

  /** `redirectsConfig.map(lineFormat).join("\n")`. */
  function SyncText(rules: seq<Rule>): string {
    Join(Map(LineFormat, rules), "\n")
  }

  /** The text built from what `redirects()` returns under `env`. */
  function SyncRedirectsText(env: Env): Result<string, RedirectError> {
    var outcome :- RedirectsConfig(env);
    Success(SyncText(outcome.rules))
  }

  /** `lineFormat` writes any rule exactly as next.config.mjs writes a simple
      rule. */
  lemma LineFormatAgrees(r: Rule)
    ensures LineFormat(r) == SimpleLine(r)
  {
  }

  /** One line per rule, in order, each reading back as its rule (status
      308 exactly for permanent rules), and no trailing newline. */
  lemma SyncLines(rules: seq<Rule>)
    requires |rules| >= 1 && forall i :: 0 <= i < |rules| ==> Plain(rules[i])
    ensures var lines := Split(SyncText(rules), '\n');
      |lines| == |rules| && forall i :: 0 <= i < |rules| ==> ParseLine(lines[i]) == Some(rules[i])
  {
    assert Map(LineFormat, rules) == Map(SimpleLine, rules);
    ReadBack(rules);
  }

  /** The synced file holds the shipped rules exactly as `redirects()`
      returns them, splat rules included with their `:slug*` / `:file*`
      endings, whatever the environment. */
  lemma SyncUsesReturnedRules(env: Env)
    ensures SyncRedirectsText(env) == Success(SyncText(SimpleRedirects + SplatRedirects(env)))
  {
    if env.nodeEnv == Some("production") {
      ShippedTablesWrite(env);
    }
  }

  /** For a splat rule the synced line is not the line next.config.mjs
      writes: it keeps the `:name*` ending that next.config.mjs rewrites. */
  lemma SyncDiffersOnSplat(r: Rule)
    requires Plain(r) && SplatLine(r).Success?
    ensures LineFormat(r) != SplatLine(r).value
  {
    RewrittenPlain(r);
    SimpleLineRoundTrip(r);
    SimpleLineRoundTrip(Rewritten(r));
    assert |Rewritten(r).source| < |r.source|;
  }
}
