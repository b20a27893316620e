/**
 Which settlement batches wait for a second person, and what a batch call answers
 (apps/admin-dashboard/src/lib/fifo-settlement.ts, lines 44-85), in terms of the orders' own amounts.
 */
module FifoApprovals {
  import opened Options
  import opened Ledger
  import opened FifoSettlement

  /** The orders a batch call takes. */
  function Takes(s: State, m: string): seq<nat> { FirstOf(Unsettled(s.orders, s.completed, m)) }

  /** What is paid out of a gross: less MDR, reserve, the GST on the MDR and the hold, plus the adjustment. */
  function Pays(cfg: Config, gross: nat, hold: int, adj: int): int {
    var mdr, reserve := gross * 195 / 10000, gross * 500 / 10000;
    gross - mdr - reserve - mdr * cfg.gstBps / 10000 - hold + adj
  }

  lemma BatchPays(cfg: Config, s: State, m: string, hold: int, adj: int)
    ensures var b := BatchFor(cfg, s, m, hold, adj); var gross := Gross(s.orders, Takes(s, m));
            && b.net == Pays(cfg, gross, hold, adj) && b.ids == Takes(s, m)
            && b.merchant == m && b.hold == hold && b.adjustment == adj
            && b.gst == gross * 195 / 10000 * cfg.gstBps / 10000
  {
  }

  /** Whether a person other than its maker must release the batch. */
  predicate NeedsPerson(cfg: Config, net: int, adj: int) { adj != 0 || net >= cfg.approval }

  lemma TakesNothingExactly(s: State, m: string)
    ensures Takes(s, m) == [] <==> forall id :: id in s.completed ==> !MayTake(s.orders, id, m)
  {
    var all := Unsettled(s.orders, s.completed, m);
    forall id ensures id in all <==> id in s.completed && MayTake(s.orders, id, m) {
      UnsettledComplete(s.orders, s.completed, m, id);
    }
    if all != [] { assert all[0] in all; }
  }

  /**
   The answer of a creation: nothing to settle exactly when the merchant has no completed, untagged order; a refusal
   exactly when it would pay less than nothing; and of the rest, it waits for a person exactly when it is adjusted or
   pays from the limit up.
   */
  lemma CreateAnswersExactly(cfg: Config, s: State, b: nat, m: string, hold: int, adj: int)
    requires b !in s.batches
    ensures var a, net := CreateOf(cfg, s, b, m, hold, adj).1, Pays(cfg, Gross(s.orders, Takes(s, m)), hold, adj);
            var some := exists id :: id in s.completed && MayTake(s.orders, id, m);
            && (a == NothingToSettle <==> !some)
            && (a == WouldBeNegative <==> some && net < 0)
            && (a == AwaitsApproval <==> some && net >= 0 && (adj != 0 || net >= cfg.approval))
            && (a == ReportedSettled <==> some && 0 <= net < cfg.approval && adj == 0)
  {
    BatchPays(cfg, s, m, hold, adj);
    TakesNothingExactly(s, m);
  }

  /**
   A batch that waits moves no money and settles no order: its orders are tagged with it and all else is as it was.
   A refused creation changes nothing.
   */
  lemma WaitingMovesNothing(cfg: Config, s: State, b: nat, m: string, hold: int, adj: int)
    requires b !in s.batches
    ensures var (t, a) := CreateOf(cfg, s, b, m, hold, adj);
            && (a == NothingToSettle || a == WouldBeNegative ==> t == s)
            && (a == AwaitsApproval ==>
                  && t.book == s.book && t.completed == s.completed && t.orders.Keys == s.orders.Keys
                  && (forall id :: id in s.orders ==>
                        && t.orders[id].status == s.orders[id].status && t.orders[id].amount == s.orders[id].amount
                        && t.orders[id].merchant == s.orders[id].merchant
                        && t.orders[id].batch == if id in Takes(s, m) then Some(b) else s.orders[id].batch)
                  && t.batches.Keys == s.batches.Keys + {b} && t.batches[b].status.PendingApproval?
                  && (forall c :: c in s.batches ==> t.batches[c] == s.batches[c]))
  {
  }

  /**
   A finalisation posts a batch of positive order net exactly when it is not rejected, pays something and holds nothing
   negative; then its completed orders are settled. Otherwise it changes nothing.
   */
  lemma FinalizesExactly(s: State, b: nat)
    requires b in s.batches && s.batches[b].OrderNet() > 0
    ensures var t, batch := FinalizeOf(s, b), s.batches[b];
            if batch.status != Rejected && batch.net > 0 && batch.hold >= 0 then
              && t.completed == s.completed && t.batches == s.batches[b := batch.(status := Final)]
              && t.orders.Keys == s.orders.Keys
              && (forall id :: id in s.orders ==>
                    t.orders[id] == if s.orders[id].batch == Some(b) && s.orders[id].status == Completed
                                    then s.orders[id].(status := Settled) else s.orders[id])
              && t.book == if SettlementBatch(b) in s.book.keys then s.book
                           else Book(s.book.keys + {SettlementBatch(b)}, s.book.lines + BatchLines(batch))
            else t == s
  {
    BatchPostsExactly(s.batches[b]);
  }

  /** A rejection releases exactly the orders of its batch, which stays rejected; no money moves. */
  lemma RejectsExactly(s: State, b: nat)
    requires b in s.batches
    ensures var t := RejectOf(s, b);
            && t.book == s.book && t.completed == s.completed && t.orders.Keys == s.orders.Keys
            && t.batches == s.batches[b := s.batches[b].(status := Rejected)]
            && (forall id :: id in s.orders ==>
                  t.orders[id] == if s.orders[id].batch == Some(b) then s.orders[id].(batch := None) else s.orders[id])
  {
  }

  // ── Over runs ───────────────────────────────────────────────────────────────────────────────

  /** What a batch is stays as it was created; only its status moves. */
  lemma BatchStays(cfg: Config, s: State, step: Step, b: nat)
    requires b in s.batches
    ensures var t := Apply(cfg, s, step);
            b in t.batches && t.batches[b] == s.batches[b].(status := t.batches[b].status)
  {
  }

  /** A batch posts at its finalisation, or at a creation that needs nobody. */
  lemma PostsAt(cfg: Config, s: State, step: Step, b: nat)
    requires Posted(Apply(cfg, s, step), b) && !Posted(s, b)
    ensures step == Finalize(b) || (step.Create? && step.b == b)
    ensures step.Create? && b !in s.batches ==>
              var t := Apply(cfg, s, step);
              b in t.batches && !NeedsPerson(cfg, t.batches[b].net, t.batches[b].adjustment)
  {
  }

  lemma {:induction false} RunLast(cfg: Config, s: State, steps: seq<Step>)
    requires steps != []
    ensures Run(cfg, s, steps) == Apply(cfg, Run(cfg, s, steps[..|steps| - 1]), steps[|steps| - 1])
    decreases |steps|
  {
    var t := Apply(cfg, s, steps[0]);
    if |steps| == 1 {
      assert steps[..0] == [] && steps[1..] == [];
    } else {
      RunLast(cfg, t, steps[1..]);
      assert steps[1..][..|steps| - 2] == steps[..|steps| - 1][1..];
    }
  }

  /** A batch that needs a person is posted, waits, or was rejected. */
  predicate Waits(cfg: Config, s: State, b: nat) {
    b in s.batches && NeedsPerson(cfg, s.batches[b].net, s.batches[b].adjustment) ==>
      Posted(s, b) || s.batches[b].status.PendingApproval? || s.batches[b].status.Rejected?
  }

  lemma StepKeepsWaiting(cfg: Config, s: State, step: Step, b: nat)
    requires Waits(cfg, s, b)
    ensures Waits(cfg, Apply(cfg, s, step), b)
  {
  }

  lemma {:induction false} RunKeepsWaiting(cfg: Config, s: State, steps: seq<Step>, b: nat)
    requires Waits(cfg, s, b)
    ensures Waits(cfg, Run(cfg, s, steps), b)
    decreases |steps|
  {
    if steps != [] {
      StepKeepsWaiting(cfg, s, steps[0], b);
      RunKeepsWaiting(cfg, Apply(cfg, s, steps[0]), steps[1..], b);
    }
  }

  /** At step `k` a finalisation posted the batch, which was waiting. */
  ghost predicate ReleasedAt(cfg: Config, steps: seq<Step>, k: nat, b: nat) {
    && k < |steps| && steps[k] == Finalize(b)
    && var s := Run(cfg, Empty, steps[..k]);
       && b in s.batches && s.batches[b].status.PendingApproval? && !Posted(s, b)
       && Posted(Apply(cfg, s, steps[k]), b)
  }

  /**
   No money of an adjusted batch, or of one that pays from the limit up, ever moves on its creation: in every run its
   journal was posted by a finalisation of a batch that was waiting.
   */
  lemma {:induction false} AdjustedNeedsAPerson(cfg: Config, steps: seq<Step>, b: nat)
    requires var s := Run(cfg, Empty, steps);
             Posted(s, b) && b in s.batches && (s.batches[b].adjustment != 0 || s.batches[b].net >= cfg.approval)
    ensures exists k: nat :: ReleasedAt(cfg, steps, k, b)
    decreases |steps|
  {
    if steps != [] {
      var n := |steps| - 1;
      var init, step := steps[..n], steps[n];
      var s := Run(cfg, Empty, init);
      RunLast(cfg, Empty, steps);
      Reachable(cfg, init);
      assert BatchFits(s, b);
      if Posted(s, b) {
        BatchStays(cfg, s, step, b);
        AdjustedNeedsAPerson(cfg, init, b);
        var k: nat :| ReleasedAt(cfg, init, k, b);
        assert init[..k] == steps[..k] && ReleasedAt(cfg, steps, k, b);
      } else {
        PostsAt(cfg, s, step, b);
        RunKeepsWaiting(cfg, Empty, init, b);
        assert ReleasedAt(cfg, steps, n, b);
      }
    }
  }
}
