/**
 What each call on the chain answers and writes (apps/admin-dashboard/src/lib/chain.ts, lines 249-261 and 305-315,
 and chain-store.ts, lines 326-361 and 452-594), read from the tables alone; and where every banker's place, and
 every MID, of a run came from.
 */
module MidDecisions {
  import opened Options
  import opened MidChain

  ghost predicate Confirmed(s: State, p: Place) { p in s.links && s.links[p].ConfirmedLink? }

  ghost predicate BankActive(s: State, bank: nat) { bank in s.banks && s.banks[bank] }

  /** The TSP already has all the bankers it may have without this one. */
  ghost predicate FullOfOthers(s: State, tsp: nat, m: nat)
    requires tsp in s.tsps
  {
    var others := set x | x in s.bankers && x != m && s.bankers[x].Some? && s.bankers[x].value.tsp == tsp;
    s.tsps[tsp].maxBankers.Some? && |others| >= s.tsps[tsp].maxBankers.value
  }

  /** The banker has a pending or active MID of another TSP or bank. */
  ghost predicate HasMidElsewhere(s: State, m: nat, p: Place) {
    exists i :: && i in s.mids && s.mids[i].banker == m
                && (s.mids[i].status.PendingApproval? || s.mids[i].status.ActiveMid?)
                && (s.mids[i].place.tsp != p.tsp || s.mids[i].place.bank != p.bank)
  }

  predicate AlreadyOn(s: State, m: nat, tsp: nat) {
    m in s.bankers && s.bankers[m].Some? && s.bankers[m].value.tsp == tsp
  }

  /** A live TSP and an active bank that confirmed it. */
  ghost predicate Sound(s: State, p: Place) {
    p.tsp in s.tsps && s.tsps[p.tsp].stage.Live? && BankActive(s, p.bank) && Confirmed(s, p)
  }

  lemma OthersAre(s: State, m: nat, tsp: nat)
    ensures BankersOn(s.bankers, tsp) - {m}
            == set x | x in s.bankers && x != m && s.bankers[x].Some? && s.bankers[x].value.tsp == tsp
  {
  }

  lemma ElsewhereExactly(s: State, m: nat, p: Place)
    ensures |MidsElsewhere(s.mids, m, p)| > 0 <==> HasMidElsewhere(s, m, p)
  {
    var mids := MidsElsewhere(s.mids, m, p);
    if i :| i in mids {
      assert s.mids[i].place.tsp != p.tsp || s.mids[i].place.bank != p.bank;
    }
    if HasMidElsewhere(s, m, p) {
      var i :| i in s.mids && s.mids[i].banker == m && s.mids[i].Open() && s.mids[i].place != p;
      assert i in mids;
    }
  }

  /** The rules that refuse a placement, read from the tables. */
  lemma AcceptedExactly(s: State, m: nat, p: Place)
    ensures PlacementRefusal(s, m, p).None? <==>
              && m in s.bankers && p.tsp in s.tsps && s.tsps[p.tsp].stage.Live? && p.bank in s.banks && s.banks[p.bank]
              && p in s.links && s.links[p].ConfirmedLink?
              && if FullOfOthers(s, p.tsp, m) then AlreadyOn(s, m, p.tsp) else !HasMidElsewhere(s, m, p)
  {
    OthersAre(s, m, p.tsp);
    ElsewhereExactly(s, m, p);
  }

  /**
   A banker is put on a place exactly when the TSP is live, the bank active and the link confirmed, and either the TSP
   is full of others and the banker is on it already, or it has room and the banker has no open MID elsewhere.
   */
  lemma PlacedExactly(s: State, m: nat, p: Place)
    ensures var (t, no) := PlaceOf(s, m, p);
            && (no.None? <==>
                  && m in s.bankers && p.tsp in s.tsps && s.tsps[p.tsp].stage.Live?
                  && p.bank in s.banks && s.banks[p.bank]
                  && p in s.links && s.links[p].ConfirmedLink?
                  && if FullOfOthers(s, p.tsp, m) then AlreadyOn(s, m, p.tsp) else !HasMidElsewhere(s, m, p))
            && (no.None? ==> t == s.(bankers := t.bankers) && t.bankers.Keys == s.bankers.Keys
                             && t.bankers[m] == Some(p)
                             && forall x :: x in s.bankers && x != m ==> t.bankers[x] == s.bankers[x])
            && (no.Some? ==> t == s)
  {
    AcceptedExactly(s, m, p);
  }

  /** And the reason it gives is the first that stands. */
  lemma PlacementRefusedExactly(s: State, m: nat, p: Place)
    ensures var no := PlaceOf(s, m, p).1; var live := p.tsp in s.tsps && s.tsps[p.tsp].stage.Live?;
            && (no == Some(NotFound) <==> m !in s.bankers)
            && (no == Some(TspNotFound) <==> m in s.bankers && p.tsp !in s.tsps)
            && (no == Some(TspNotLive) <==> m in s.bankers && p.tsp in s.tsps && !live)
            && (no == Some(BankInactive) <==> m in s.bankers && live && !BankActive(s, p.bank))
            && (no == Some(BankNotOnTsp) <==> m in s.bankers && live && BankActive(s, p.bank) && !Confirmed(s, p))
            && (no == Some(TspBankerCap) <==>
                  m in s.bankers && Sound(s, p) && FullOfOthers(s, p.tsp, m) && !AlreadyOn(s, m, p.tsp))
            && (no == Some(MidsOnOtherTsp) <==>
                  m in s.bankers && Sound(s, p) && !FullOfOthers(s, p.tsp, m) && HasMidElsewhere(s, m, p))
  {
    OthersAre(s, m, p.tsp);
    ElsewhereExactly(s, m, p);
  }

  // ── MIDs ────────────────────────────────────────────────────────────────────────────────────

  /** The banker's active MIDs, and its pending ones where they count. */
  ghost function MidsOf(s: State, m: nat, pendingToo: bool): set<nat> {
    set i | && i in s.mids && s.mids[i].banker == m
            && (s.mids[i].status.ActiveMid? || (pendingToo && s.mids[i].status.PendingApproval?))
  }

  /** The banker already holds all the MIDs of these statuses its TSP allows. */
  ghost predicate QuotaUsed(s: State, m: nat, tsp: nat, pendingToo: bool)
    requires tsp in s.tsps
  {
    s.tsps[tsp].maxMids.Some? && |MidsOf(s, m, pendingToo)| >= s.tsps[tsp].maxMids.value
  }

  lemma QuotasAre(s: State, m: nat)
    ensures OpenMids(s.mids, m) == MidsOf(s, m, true)
    ensures ActiveMids(s.mids, m) == MidsOf(s, m, false)
  {
  }

  /** The TSP may issue the flow there: it is live, its bank has confirmed it, and the flow is one of its own. */
  ghost predicate IssuesFlow(s: State, p: Place, flow: Flow) {
    p.tsp in s.tsps && s.tsps[p.tsp].stage.Live? && Confirmed(s, p) && flow in s.tsps[p.tsp].flows
  }

  ghost predicate ValueHeld(s: State, tsp: nat, value: string) {
    exists i :: i in s.mids && (s.mids[i].status.PendingApproval? || s.mids[i].status.ActiveMid?)
                && s.mids[i].place.tsp == tsp && s.mids[i].value == value
  }

  /** A MID is recorded exactly for a banker on a place that issues the flow, within its quota, and of a free value. */
  lemma RecordedExactly(s: State, id: nat, m: nat, flow: Flow, value: string)
    requires id !in s.mids
    ensures var (t, no) := RequestOf(s, id, m, flow, value);
            var on := m in s.bankers && s.bankers[m].Some? && s.bankers[m].value.tsp in s.tsps;
            && (no == Some(NotFound) <==> m !in s.bankers)
            && (no == Some(NoTsp) <==> m in s.bankers && !on)
            && (no.None? <==> on && var p := s.bankers[m].value;
                              && IssuesFlow(s, p, flow) && !QuotaUsed(s, m, p.tsp, true) && !ValueHeld(s, p.tsp, value))
            && (no == Some(MidTaken) <==>
                  on && var p := s.bankers[m].value;
                  && IssuesFlow(s, p, flow) && !QuotaUsed(s, m, p.tsp, true) && ValueHeld(s, p.tsp, value))
            && (no.None? ==> t == s.(mids := t.mids) && t.mids.Keys == s.mids.Keys + {id}
                             && t.mids[id] == Mid(m, s.bankers[m].value, flow, value, PendingApproval)
                             && forall i :: i in s.mids ==> t.mids[i] == s.mids[i])
            && (no.Some? ==> t == s)
  {
    QuotasAre(s, m);
  }

  /** Its issue is checked again: the banker still on its place, which still issues the flow; active MIDs alone count. */
  lemma IssuedExactly(s: State, id: nat)
    ensures var (t, no) := IssueOf(s, id);
            && (no == Some(NotFound) <==> id !in s.mids)
            && (no == Some(NotPending) <==> id in s.mids && !s.mids[id].status.PendingApproval?)
            && (no.None? <==> id in s.mids && s.mids[id].status.PendingApproval? && var i := s.mids[id];
                              && i.banker in s.bankers && s.bankers[i.banker] == Some(i.place)
                              && IssuesFlow(s, i.place, i.flow) && !QuotaUsed(s, i.banker, i.place.tsp, false))
            && (no == Some(ChainChanged) <==>
                  id in s.mids && s.mids[id].status.PendingApproval? && var i := s.mids[id];
                  !(i.banker in s.bankers && s.bankers[i.banker] == Some(i.place) && i.place.tsp in s.tsps))
            && (no.None? ==> Turned(s, t, id, ActiveMid)) && (no.Some? ==> t == s)
  {
    if id in s.mids { QuotasAre(s, s.mids[id].banker); }
  }

  /** Why a place does not issue a flow, the first reason that stands. */
  lemma NotIssuedExactly(s: State, p: Place, mids: nat, flow: Flow)
    requires p.tsp in s.tsps
    ensures var no, tsp := MidIssueRefusal(s.tsps[p.tsp], Link(s, p), mids, flow), s.tsps[p.tsp];
            && (no == Some(TspNotLive) <==> !tsp.stage.Live?)
            && (no == Some(BankNotOnTsp) <==> tsp.stage.Live? && !Confirmed(s, p))
            && (no == Some(FlowNotAllowed) <==> tsp.stage.Live? && Confirmed(s, p) && flow !in tsp.flows)
            && (no == Some(MidQuotaReached) <==>
                  IssuesFlow(s, p, flow) && tsp.maxMids.Some? && mids >= tsp.maxMids.value)
            && (no.None? <==> IssuesFlow(s, p, flow) && (tsp.maxMids.None? || mids < tsp.maxMids.value))
  {
  }

  /** One MID takes the status; nothing else moves. */
  ghost predicate Turned(s: State, t: State, id: nat, status: MidStatus) {
    && t == s.(mids := t.mids) && t.mids.Keys == s.mids.Keys && id in s.mids
    && t.mids[id].status == status && t.mids[id].banker == s.mids[id].banker && t.mids[id].place == s.mids[id].place
    && t.mids[id].flow == s.mids[id].flow && t.mids[id].value == s.mids[id].value
    && forall i :: i in s.mids && i != id ==> t.mids[i] == s.mids[i]
  }

  /** A MID is rejected exactly while it is pending, and taken out of use exactly while it is active. */
  lemma ClosedExactly(s: State, id: nat)
    ensures var (t, no) := RejectOf(s, id);
            if id in s.mids && s.mids[id].status.PendingApproval? then no.None? && Turned(s, t, id, RejectedMid)
            else t == s && no == Some(if id in s.mids then NotPending else NotFound)
    ensures var (t, no) := DeactivateOf(s, id);
            if id in s.mids && s.mids[id].status.ActiveMid? then no.None? && Turned(s, t, id, InactiveMid)
            else t == s && no == Some(NotActive)
  {
  }

  // ── Links ───────────────────────────────────────────────────────────────────────────────────

  /** One link takes the status; nothing else moves. */
  ghost predicate LinkTurned(s: State, t: State, p: Place, status: LinkStatus) {
    && t == s.(links := t.links) && t.links.Keys == s.links.Keys + {p} && t.links[p] == status
    && forall q :: q in s.links && q != p ==> t.links[q] == s.links[q]
  }

  /** A link is opened for a known TSP and an active bank, where there is none or an ended one. */
  lemma LinkedExactly(s: State, p: Place)
    ensures var (t, no) := LinkOf(s, p); var known := p.tsp in s.tsps && p.bank in s.banks;
            var linked := p in s.links && !s.links[p].EndedLink?;
            && (no == Some(NotFound) <==> !known)
            && (no == Some(BankInactive) <==> known && !s.banks[p.bank])
            && (no == Some(AlreadyLinked) <==> known && s.banks[p.bank] && linked)
            && (no.None? <==> known && s.banks[p.bank] && !linked)
            && (no.None? ==> LinkTurned(s, t, p, PendingLink)) && (no.Some? ==> t == s)
  {
  }

  lemma ConfirmedExactly(s: State, p: Place)
    ensures var (t, no) := ConfirmOf(s, p);
            if p in s.links && s.links[p].PendingLink? then no.None? && LinkTurned(s, t, p, ConfirmedLink)
            else t == s && no == Some(NotPending)
  {
  }

  /** A link left alone is ended exactly when it has not ended and no banker is on its place. */
  lemma EndedExactly(s: State, p: Place)
    ensures var (t, no) := EndOf(s, p); var used := exists m :: m in s.bankers && s.bankers[m] == Some(p);
            var linked := p in s.links && !s.links[p].EndedLink?;
            && (no == Some(BankInUse) <==> used)
            && (no == Some(NoSuchLink) <==> !used && !linked)
            && (no.None? <==> !used && linked)
            && (no.None? ==> LinkTurned(s, t, p, EndedLink)) && (no.Some? ==> t == s)
  {
    if m :| m in s.bankers && s.bankers[m] == Some(p) {
      assert m in UsersOf(s, p);
    } else if m :| m in UsersOf(s, p) {
      assert false;
    }
  }

  /** A call goes past its check exactly when the bank is active, or nobody is on the place; one in flight goes on. */
  lemma ChecksExactly(s: State, c: nat, p: Place)
    ensures CheckBankOf(s, c, p) ==
              if c !in s.calls && p.tsp in s.tsps && p.bank in s.banks && s.banks[p.bank]
              then s.(calls := s.calls[c := Linking(p)]) else s
    ensures CountUsersOf(s, c, p) ==
              if c !in s.calls && forall m :: m in s.bankers ==> s.bankers[m] != Some(p)
              then s.(calls := s.calls[c := Ending(p)]) else s
  {
    if m :| m in s.bankers && s.bankers[m] == Some(p) {
      assert m in UsersOf(s, p);
    } else {
      assert UsersOf(s, p) == {};
    }
  }

  /** Its write opens a link that is not there or ended, or ends one that is; then the call is over. */
  lemma LinkWritesExactly(s: State, c: nat)
    requires c in s.calls
    ensures var p := s.calls[c].place; var linked := p in s.links && !s.links[p].EndedLink?;
            && (s.calls[c].Linking? ==>
                  var t := WriteLinkOf(s, c);
                  && t.calls == s.calls - {c}
                  && if linked then t.links == s.links else t.links == s.links[p := PendingLink])
            && (s.calls[c].Ending? ==>
                  var t := WriteEndOf(s, c);
                  && t.calls == s.calls - {c}
                  && if linked then t.links == s.links[p := EndedLink] else t.links == s.links)
  {
  }

  // ── Over runs ───────────────────────────────────────────────────────────────────────────────

  /** At step `k` the banker was put there, and might be: a live TSP, an active bank, a confirmed link. */
  ghost predicate PlacedAt(steps: seq<Step>, k: nat, m: nat, p: Place) {
    && k < |steps| && steps[k] == PutOn(m, p)
    && var s := Run(Empty, steps[..k]);
       && m in s.bankers && p.tsp in s.tsps && s.tsps[p.tsp].stage.Live? && p.bank in s.banks && s.banks[p.bank]
       && p in s.links && s.links[p].ConfirmedLink? && (FullOfOthers(s, p.tsp, m) ==> AlreadyOn(s, m, p.tsp))
  }

  /** Only an accepted placement gives a banker another place. */
  lemma PlacesAt(s: State, step: Step, m: nat, p: Place)
    requires m in Apply(s, step).bankers && Apply(s, step).bankers[m] == Some(p)
    requires !(m in s.bankers && s.bankers[m] == Some(p))
    ensures step == PutOn(m, p) && PlaceOf(s, m, p).1.None?
  {
    if !step.PutOn? && !step.AddBanker? { BankersKept(s, step); }
  }

  /** Every banker's place goes back to a step that put it there, under a live TSP with an active bank. */
  lemma {:induction false} PlaceWasAccepted(steps: seq<Step>, m: nat)
    requires m in Run(Empty, steps).bankers && Run(Empty, steps).bankers[m].Some?
    ensures exists k: nat :: PlacedAt(steps, k, m, Run(Empty, steps).bankers[m].value)
    decreases |steps|
  {
    if steps != [] {
      var n := |steps| - 1;
      var init := steps[..n];
      var s, p := Run(Empty, init), Run(Empty, steps).bankers[m].value;
      RunLast(Empty, steps);
      if m in s.bankers && s.bankers[m] == Some(p) {
        PlaceWasAccepted(init, m);
        var k: nat :| PlacedAt(init, k, m, p);
        assert init[..k] == steps[..k] && PlacedAt(steps, k, m, p);
      } else {
        PlacesAt(s, steps[n], m, p);
        PlacedExactly(s, m, p);
        assert PlacedAt(steps, n, m, p);
      }
    }
  }

  /** At step `k` the MID was recorded for the banker that was on its place, of a value free on its TSP. */
  ghost predicate RecordedAt(steps: seq<Step>, k: nat, id: nat, mid: Mid) {
    && k < |steps| && steps[k] == Request(id, mid.banker, mid.flow, mid.value)
    && var s := Run(Empty, steps[..k]);
       && mid.banker in s.bankers && s.bankers[mid.banker] == Some(mid.place)
       && IssuesFlow(s, mid.place, mid.flow) && !QuotaUsed(s, mid.banker, mid.place.tsp, true)
       && !ValueHeld(s, mid.place.tsp, mid.value)
  }

  lemma RecordsAt(s: State, step: Step, id: nat)
    requires id in Apply(s, step).mids && id !in s.mids
    ensures step.Request? && step.id == id && RequestOf(s, id, step.banker, step.flow, step.value).1.None?
  {
    if !OnMids(step) { OnlyMidStepsWriteMids(s, step); }
  }

  /** Every MID of every run, whatever became of it, goes back to a request its banker's chain allowed. */
  lemma {:induction false} MidWasAllowed(steps: seq<Step>, id: nat)
    requires id in Run(Empty, steps).mids
    ensures exists k: nat :: RecordedAt(steps, k, id, Run(Empty, steps).mids[id])
    decreases |steps|
  {
    if steps != [] {
      var n := |steps| - 1;
      var init, step := steps[..n], steps[n];
      var s, mid := Run(Empty, init), Run(Empty, steps).mids[id];
      RunLast(Empty, steps);
      if id in s.mids {
        MidLifeCycle(s, step, id);
        MidWasAllowed(init, id);
        var k: nat :| RecordedAt(init, k, id, s.mids[id]);
        assert init[..k] == steps[..k] && RecordedAt(steps, k, id, mid);
      } else {
        RecordsAt(s, step, id);
        RecordedExactly(s, id, step.banker, step.flow, step.value);
        assert RecordedAt(steps, n, id, mid);
      }
    }
  }
}
