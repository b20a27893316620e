/**
 A callback URL's state, moved on check by check or worked out afresh from its history
 (apps/admin-dashboard/src/lib/integration.ts, lines 57-99; callback-verify.ts, lines 139 and 148-154).
 */
module CallbackState {
  import opened Options

  const FAIL_AFTER: nat := 3

  datatype Status = Pending | Verified | Failed

  datatype Alert = NoAlert | Amber | Red

  datatype CheckState = CheckState(status: Status, failures: nat)

  datatype Checked = Checked(state: CheckState, alert: Alert)

  datatype Ping = Ping(ok: bool, url: string)

  const Unchecked: CheckState := CheckState(Pending, 0)

  function AfterCheck(prev: CheckState, ok: bool): Checked {
    if ok then Checked(CheckState(Verified, 0), NoAlert)
    else
      var n := prev.failures + 1;
      if n >= FAIL_AFTER then Checked(CheckState(Failed, n), Red) else Checked(CheckState(prev.status, n), Amber)
  }

  /** The outcomes of the checks of one URL, in the order of the pings; none for a missing URL. */
  function Mine(pings: seq<Ping>, url: Option<string>): seq<bool> {
    if pings == [] || url.None? || url.value == "" then []
    else (if pings[0].url == url.value then [pings[0].ok] else []) + Mine(pings[1..], url)
  }

  /** The state kept by moving on with every check, the newest being first in `m`. */
  function Folded(m: seq<bool>): CheckState {
    if m == [] then Unchecked else AfterCheck(Folded(m[1..]), m[0]).state
  }

  /** How many of the newest checks failed in a row. */
  function FailRun(m: seq<bool>): (n: nat)
    ensures n <= |m|
  {
    if m == [] || m[0] then 0 else 1 + FailRun(m[1..])
  }

  function StatusOf(run: nat, everPassed: bool): Status {
    if run >= FAIL_AFTER then Failed else if everPassed then Verified else Pending
  }

  /** Moving on check by check comes to the run of failures and whether any check ever passed. */
  lemma {:induction false} FoldedIsRun(m: seq<bool>)
    ensures Folded(m) == CheckState(StatusOf(FailRun(m), true in m), FailRun(m))
  {
    if m != [] {
      FoldedIsRun(m[1..]);
      assert true in m <==> m[0] || true in m[1..];
    }
  }

  lemma {:induction false} FailRunIs(m: seq<bool>, n: nat)
    requires n <= |m| && true !in m[..n] && (n < |m| ==> m[n])
    ensures FailRun(m) == n
  {
    if n > 0 {
      assert !m[0] by { assert m[..n][0] == m[0]; }
      assert m[1..][..n - 1] == m[..n][1..];
      FailRunIs(m[1..], n - 1);
    }
  }

  /** Some ping went to this URL. */
  predicate Checks(pings: seq<Ping>, url: Option<string>) {
    url.Some? && url.value != "" && exists i :: 0 <= i < |pings| && pings[i].url == url.value
  }

  lemma {:induction false} CheckedExactly(pings: seq<Ping>, url: Option<string>)
    ensures Mine(pings, url) != [] <==> Checks(pings, url)
  {
    if pings != [] {
      CheckedExactly(pings[1..], url);
      if Checks(pings, url) && pings[0].url != url.value {
        var i :| 0 <= i < |pings| && pings[i].url == url.value;
        assert pings[1..][i - 1].url == url.value;
      }
    }
  }

  lemma MineStep(done: seq<bool>, pings: seq<Ping>, k: nat, url: Option<string>)
    requires k < |pings| && url.Some? && url.value != ""
    ensures done + Mine(pings[k..], url)
            == (if pings[k].url == url.value then done + [pings[k].ok] else done) + Mine(pings[k + 1..], url)
  {
    assert pings[k..][1..] == pings[k + 1..];
  }

  /** The outcomes of this URL's checks, filtered from the pings. */
  method Select(pings: seq<Ping>, url: Option<string>) returns (mine: seq<bool>)
    ensures mine == Mine(pings, url)
  {
    mine := [];
    if url.Some? && url.value != "" {
      assert pings[0..] == pings;
      for k := 0 to |pings|
        invariant mine + Mine(pings[k..], url) == Mine(pings, url)
      {
        MineStep(mine, pings, k, url);
        if pings[k].url == url.value { mine := mine + [pings[k].ok]; }
      }
    }
  }

  /** How many of the newest checks failed in a row, counted up to the first pass. */
  method CountRun(mine: seq<bool>) returns (n: nat)
    ensures n == FailRun(mine)
  {
    n := 0;
    while n < |mine| && !mine[n]
      invariant n <= |mine| && true !in mine[..n]
    {
      assert mine[..n + 1] == mine[..n] + [mine[n]];
      n := n + 1;
    }
    FailRunIs(mine, n);
  }

  /** stateFromPings: the state worked out from the history is the state moving on with every check gives. */
  method StateFromPings(pings: seq<Ping>, url: Option<string>) returns (s: CheckState, isChecked: bool)
    ensures s == Folded(Mine(pings, url))
    ensures isChecked <==> Checks(pings, url)
  {
    var mine := Select(pings, url);
    CheckedExactly(pings, url);
    FoldedIsRun(mine);
    if mine == [] { return Unchecked, false; }
    var n := CountRun(mine);
    if n == 0 { return CheckState(Verified, 0), true; }
    s, isChecked := CheckState(StatusOf(n, true in mine), n), true;
  }

  // ── Windows on the history ──────────────────────────────────────────────────────────────────

  lemma {:induction false} RunInWindow(m: seq<bool>, k: nat)
    requires k <= |m|
    ensures FailRun(m[..k]) == if FailRun(m) < k then FailRun(m) else k
    ensures true in m[..k] <==> FailRun(m[..k]) < k
  {
    if k > 0 && !m[0] {
      assert m[..k][1..] == m[1..][..k - 1];
      RunInWindow(m[1..], k - 1);
    }
  }

  /** A window's count is the true count, capped at the window. */
  lemma WindowCapsCount(m: seq<bool>, k: nat)
    requires k <= |m|
    ensures Folded(m[..k]).failures == if Folded(m).failures < k then Folded(m).failures else k
  {
    FoldedIsRun(m);
    FoldedIsRun(m[..k]);
    RunInWindow(m, k);
  }

  /**
   The newest `k` checks give the true status exactly when they are three or more, or hold a pass, or all
   the checks there are came to fewer than three failures.
   */
  lemma WindowGivesStatusExactly(m: seq<bool>, k: nat)
    requires k <= |m|
    ensures Folded(m[..k]).status == Folded(m).status
            <==> (k >= FAIL_AFTER || true in m[..k] || (|m| < FAIL_AFTER && true !in m))
  {
    FoldedIsRun(m);
    FoldedIsRun(m[..k]);
    RunInWindow(m, k);
    RunInWindow(m, |m|);
    assert m[..|m|] == m;
    assert true in m[..k] ==> true in m;
  }

  /** The first `k` pings, whatever their URLs, hold the newest checks of each URL. */
  lemma {:induction false} PingWindow(pings: seq<Ping>, k: nat, url: Option<string>)
    requires k <= |pings|
    ensures Mine(pings, url) == Mine(pings[..k], url) + Mine(pings[k..], url)
  {
    if k > 0 {
      assert pings[..k][1..] == pings[1..][..k - 1];
      assert pings[1..][k - 1..] == pings[k..];
      PingWindow(pings[1..], k - 1, url);
    } else {
      assert pings[0..] == pings;
    }
  }

  /** The state read from the latest pings is the true one as soon as three of them checked this URL. */
  lemma LatestPingsSuffice(pings: seq<Ping>, k: nat, url: Option<string>)
    requires k <= |pings| && |Mine(pings[..k], url)| >= FAIL_AFTER
    ensures var window, whole := Folded(Mine(pings[..k], url)), Folded(Mine(pings, url));
            && window.status == whole.status
            && (window.failures == whole.failures || window.failures == |Mine(pings[..k], url)| < whole.failures)
  {
    PingWindow(pings, k, url);
    var m, j := Mine(pings, url), |Mine(pings[..k], url)|;
    assert m[..j] == Mine(pings[..k], url);
    WindowGivesStatusExactly(m, j);
    WindowCapsCount(m, j);
  }

  /** The alert turns red exactly with the third failure in a row and every one after it. */
  lemma RedExactlyFromThirdFailure(m: seq<bool>, ok: bool)
    ensures AfterCheck(Folded(m), ok).alert.Red? <==> !ok && |m| >= 2 && !m[0] && !m[1]
    ensures AfterCheck(Folded(m), ok).alert.Red? <==> Folded([ok] + m).status.Failed?
  {
    FoldedIsRun(m);
    assert ([ok] + m)[1..] == m;
    if m != [] && !m[0] {
      assert FailRun(m) == 1 + FailRun(m[1..]);
      assert |m| >= 2 ==> m[1..][0] == m[1];
    }
  }
}
