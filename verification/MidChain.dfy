/**
 The Bank, TSP, banker and MID chain (apps/admin-dashboard/src/lib/chain-store.ts, lines 326-361 and
 452-594, and the refusal rules of chain.ts, lines 236-315). A transaction or a guarded statement is one
 step; linkTspBank and endTspBank check and write in separate statements, and any steps may come between.
 */
module MidChain {
  import opened Options

  datatype Stage = Onboarding | Live | Suspended | RejectedTsp
  datatype Flow = Intent | P2p | Payout
  datatype LinkStatus = PendingLink | ConfirmedLink | EndedLink
  datatype MidStatus = PendingApproval | ActiveMid | InactiveMid | RejectedMid

  /** An absent cap is no cap. */
  datatype Tsp = Tsp(stage: Stage, flows: set<Flow>, maxMids: Option<nat>, maxBankers: Option<nat>)

  /** Where a banker's MIDs come from: its TSP and issuing bank, set together. */
  datatype Place = Place(tsp: nat, bank: nat)

  datatype Mid = Mid(banker: nat, place: Place, flow: Flow, value: string, status: MidStatus)
  {
    predicate Open() { status.PendingApproval? || status.ActiveMid? }
  }

  /** A call past its check: it is about to write the link. */
  datatype Call = Linking(place: Place) | Ending(place: Place)

  datatype State = State(banks: map<nat, bool>, tsps: map<nat, Tsp>, links: map<Place, LinkStatus>,
                         bankers: map<nat, Option<Place>>, mids: map<nat, Mid>, calls: map<nat, Call>)

  const Empty: State := State(map[], map[], map[], map[], map[], map[])

  // ── What the refusal rules read ─────────────────────────────────────────────────────────────

  function Link(s: State, p: Place): Option<LinkStatus> { if p in s.links then Some(s.links[p]) else None }

  function BankersOn(bankers: map<nat, Option<Place>>, tsp: nat): set<nat> {
    set m | m in bankers && bankers[m].Some? && bankers[m].value.tsp == tsp
  }

  function OpenMids(mids: map<nat, Mid>, banker: nat): set<nat> {
    set i | i in mids && mids[i].banker == banker && mids[i].Open()
  }

  function ActiveMids(mids: map<nat, Mid>, banker: nat): set<nat> {
    set i | i in mids && mids[i].banker == banker && mids[i].status.ActiveMid?
  }

  /** The banker's open MIDs that are not of the place. */
  function MidsElsewhere(mids: map<nat, Mid>, banker: nat, p: Place): set<nat> {
    set i | i in mids && mids[i].banker == banker && mids[i].Open() && mids[i].place != p
  }

  predicate Reached(n: nat, cap: Option<nat>) { cap.Some? && n >= cap.value }

  datatype Refusal =
    | NotFound | TspNotFound | TspNotLive | BankInactive | BankNotOnTsp | TspBankerCap | MidsOnOtherTsp
    | NoTsp | FlowNotAllowed | MidQuotaReached | MidTaken | AlreadyLinked | NotPending | BankInUse | NoSuchLink | ChainChanged | NotActive

  /** chainRefusal: the first reason a banker may not be put on a place. */
  function ChainRefusal(tsp: Option<Tsp>, link: Option<LinkStatus>, bankActive: bool, otherBankers: nat,
      midsElsewhere: nat): Option<Refusal> {
    if tsp.None? then Some(TspNotFound)
    else if !tsp.value.stage.Live? then Some(TspNotLive)
    else if !bankActive then Some(BankInactive)
    else if link != Some(ConfirmedLink) then Some(BankNotOnTsp)
    else if Reached(otherBankers, tsp.value.maxBankers) then Some(TspBankerCap)
    else if midsElsewhere > 0 then Some(MidsOnOtherTsp)
    else None
  }

  /** midIssueRefusal, for a banker that is on a place. */
  function MidIssueRefusal(tsp: Tsp, link: Option<LinkStatus>, openMids: nat, flow: Flow): Option<Refusal> {
    if !tsp.stage.Live? then Some(TspNotLive)
    else if link != Some(ConfirmedLink) then Some(BankNotOnTsp)
    else if flow !in tsp.flows then Some(FlowNotAllowed)
    else if Reached(openMids, tsp.maxMids) then Some(MidQuotaReached)
    else None
  }

  // ── Steps ───────────────────────────────────────────────────────────────────────────────────

  /** linkTspBank's checks. */
  function LinkRefusal(s: State, p: Place): Option<Refusal> {
    if p.tsp !in s.tsps || p.bank !in s.banks then Some(NotFound)
    else if !s.banks[p.bank] then Some(BankInactive) else None
  }

  /** Its INSERT, which re-opens an ended link and leaves any other. */
  function RawLink(s: State, p: Place): State {
    if Link(s, p).Some? && !s.links[p].EndedLink? then s else s.(links := s.links[p := PendingLink])
  }

  /** linkTspBank, nobody interrupting. */
  function LinkOf(s: State, p: Place): (State, Option<Refusal>) {
    if LinkRefusal(s, p).Some? then (s, LinkRefusal(s, p))
    else if Link(s, p).Some? && !s.links[p].EndedLink? then (s, Some(AlreadyLinked))
    else (RawLink(s, p), None)
  }

  function CheckBankOf(s: State, c: nat, p: Place): State {
    if c in s.calls || LinkRefusal(s, p).Some? then s else s.(calls := s.calls[c := Linking(p)])
  }

  function WriteLinkOf(s: State, c: nat): State {
    if c !in s.calls || !s.calls[c].Linking? then s
    else RawLink(s, s.calls[c].place).(calls := s.calls - {c})
  }

  function ConfirmOf(s: State, p: Place): (State, Option<Refusal>) {
    if Link(s, p) != Some(PendingLink) then (s, Some(NotPending))
    else (s.(links := s.links[p := ConfirmedLink]), None)
  }

  /** The bankers that hold a link in use. */
  function UsersOf(s: State, p: Place): set<nat> {
    set m | m in s.bankers && s.bankers[m] == Some(p)
  }

  /** The UPDATE of endTspBank, without the count before it. */
  function RawEnd(s: State, p: Place): State {
    if p in s.links && !s.links[p].EndedLink? then s.(links := s.links[p := EndedLink]) else s
  }

  function CountUsersOf(s: State, c: nat, p: Place): State {
    if c in s.calls || |UsersOf(s, p)| > 0 then s else s.(calls := s.calls[c := Ending(p)])
  }

  function WriteEndOf(s: State, c: nat): State {
    if c !in s.calls || !s.calls[c].Ending? then s
    else RawEnd(s, s.calls[c].place).(calls := s.calls - {c})
  }

  /** endTspBank, nobody interrupting. */
  function EndOf(s: State, p: Place): (State, Option<Refusal>) {
    if |UsersOf(s, p)| > 0 then (s, Some(BankInUse))
    else if Link(s, p).None? || s.links[p].EndedLink? then (s, Some(NoSuchLink))
    else (RawEnd(s, p), None)
  }

  /** The refusal of setBankerChain; the cap does not refuse a banker already on the TSP. */
  function PlacementRefusal(s: State, m: nat, p: Place): Option<Refusal> {
    if m !in s.bankers then Some(NotFound)
    else
      var no := ChainRefusal(if p.tsp in s.tsps then Some(s.tsps[p.tsp]) else None, Link(s, p),
                             p.bank in s.banks && s.banks[p.bank],
                             |BankersOn(s.bankers, p.tsp) - {m}|, |MidsElsewhere(s.mids, m, p)|);
      if no == Some(TspBankerCap) && s.bankers[m].Some? && s.bankers[m].value.tsp == p.tsp then None else no
  }

  function PlaceOf(s: State, m: nat, p: Place): (State, Option<Refusal>) {
    var no := PlacementRefusal(s, m, p);
    if no.Some? then (s, no) else (s.(bankers := s.bankers[m := Some(p)]), None)
  }

  predicate Taken(mids: map<nat, Mid>, tsp: nat, value: string) {
    exists i :: i in mids && mids[i].Open() && mids[i].place.tsp == tsp && mids[i].value == value
  }

  function RequestOf(s: State, id: nat, m: nat, flow: Flow, value: string): (State, Option<Refusal>) {
    if m !in s.bankers || id in s.mids then (s, Some(NotFound))
    else if s.bankers[m].None? || s.bankers[m].value.tsp !in s.tsps then (s, Some(NoTsp))
    else
      var p := s.bankers[m].value;
      var no := MidIssueRefusal(s.tsps[p.tsp], Link(s, p), |OpenMids(s.mids, m)|, flow);
      if no.Some? then (s, no)
      else if Taken(s.mids, p.tsp, value) then (s, Some(MidTaken))
      else (s.(mids := s.mids[id := Mid(m, p, flow, value, PendingApproval)]), None)
  }

  function Decided(s: State, id: nat, status: MidStatus): State
    requires id in s.mids
  {
    s.(mids := s.mids[id := s.mids[id].(status := status)])
  }

  /** applyMidIssue: checked again, against the banker's place and its ACTIVE MIDs. */
  function IssueOf(s: State, id: nat): (State, Option<Refusal>) {
    if id !in s.mids then (s, Some(NotFound))
    else if !s.mids[id].status.PendingApproval? then (s, Some(NotPending))
    else
      var i := s.mids[id];
      if i.banker !in s.bankers || s.bankers[i.banker] != Some(i.place) || i.place.tsp !in s.tsps then
          (s, Some(ChainChanged))
      else
        var no := MidIssueRefusal(s.tsps[i.place.tsp], Link(s, i.place), |ActiveMids(s.mids, i.banker)|, i.flow);
        if no.Some? then (s, no) else (Decided(s, id, ActiveMid), None)
  }

  /** withdrawMid and rejectMidIssue. */
  function RejectOf(s: State, id: nat): (State, Option<Refusal>) {
    if id !in s.mids then (s, Some(NotFound))
    else if !s.mids[id].status.PendingApproval? then (s, Some(NotPending))
    else (Decided(s, id, RejectedMid), None)
  }

  function DeactivateOf(s: State, id: nat): (State, Option<Refusal>) {
    if id !in s.mids || !s.mids[id].status.ActiveMid? then (s, Some(NotActive)) else (Decided(s, id, InactiveMid), None)
  }

  datatype Step =
    | SetBank(bank: nat, active: bool)
    | SetTsp(tsp: nat, to: Tsp)
    | AddBanker(banker: nat)
    | CheckBank(c: nat, place: Place) | WriteLink(c: nat)
    | ConfirmBank(place: Place)
    | CountUsers(c: nat, place: Place) | WriteEnd(c: nat)
    | PutOn(banker: nat, place: Place)
    | Request(id: nat, banker: nat, flow: Flow, value: string)
    | Issue(id: nat) | Reject(id: nat) | Deactivate(id: nat)

  /** SetTsp is any onboarding, stage, flow or quota change; SetBank any change of a bank's status. */
  function Apply(s: State, step: Step): State {
    match step
    case SetBank(b, a) => s.(banks := s.banks[b := a])
    case SetTsp(t, to) => s.(tsps := s.tsps[t := to])
    case AddBanker(m) => if m in s.bankers then s else s.(bankers := s.bankers[m := None])
    case CheckBank(c, p) => CheckBankOf(s, c, p)
    case WriteLink(c) => WriteLinkOf(s, c)
    case ConfirmBank(p) => ConfirmOf(s, p).0
    case CountUsers(c, p) => CountUsersOf(s, c, p)
    case WriteEnd(c) => WriteEndOf(s, c)
    case PutOn(m, p) => PlaceOf(s, m, p).0
    case Request(id, m, f, v) => RequestOf(s, id, m, f, v).0
    case Issue(id) => IssueOf(s, id).0
    case Reject(id) => RejectOf(s, id).0
    case Deactivate(id) => DeactivateOf(s, id).0
  }

  function Run(s: State, steps: seq<Step>): State
    decreases |steps|
  {
    if steps == [] then s else Run(Apply(s, steps[0]), steps[1..])
  }

  predicate Lowers(from: Option<nat>, to: Option<nat>) { to.Some? && (from.None? || to.value < from.value) }

  /** No quota or cap is lowered on the way. */
  predicate NeverLowered(s: State, steps: seq<Step>)
    decreases |steps|
  {
    steps != [] ==>
      && (steps[0].SetTsp? && steps[0].tsp in s.tsps ==>
            !Lowers(s.tsps[steps[0].tsp].maxMids, steps[0].to.maxMids)
                && !Lowers(s.tsps[steps[0].tsp].maxBankers, steps[0].to.maxBankers))
      && NeverLowered(Apply(s, steps[0]), steps[1..])
  }

  // ── What every state keeps ──────────────────────────────────────────────────────────────────

  /** Every banker's TSP is there. */
  ghost predicate PlacesKnown(s: State) {
    forall m :: m in s.bankers && s.bankers[m].Some? ==> s.bankers[m].value.tsp in s.tsps
  }

  /** Every banker on a place has its link confirmed. */
  ghost predicate LinksConfirmed(s: State) {
    forall m :: m in s.bankers ==> OnConfirmed(s, m)
  }

  predicate OnConfirmed(s: State, m: nat)
    requires m in s.bankers
  {
    s.bankers[m].Some? ==> Link(s, s.bankers[m].value) == Some(ConfirmedLink)
  }

  /** Every open MID is of its banker's own TSP and bank. */
  ghost predicate MidsOnOwnPlace(s: State) {
    forall i :: i in s.mids ==>
          s.mids[i].banker in s.bankers && (s.mids[i].Open() ==> s.bankers[s.mids[i].banker] == Some(s.mids[i].place))
  }

  /** The banker's open MIDs are within its TSP's quota. */
  ghost predicate QuotaFits(s: State, m: nat)
    requires m in s.bankers
  {
    s.bankers[m].Some? && s.bankers[m].value.tsp in s.tsps ==>
          WithinCap(|OpenMids(s.mids, m)|, s.tsps[s.bankers[m].value.tsp].maxMids)
  }

  ghost predicate MidsWithinQuota(s: State) {
    forall m :: m in s.bankers ==> QuotaFits(s, m)
  }

  predicate WithinCap(n: nat, cap: Option<nat>) { cap.Some? ==> n <= cap.value }

  ghost predicate BankersWithinCap(s: State) {
    forall t :: t in s.tsps ==> WithinCap(|BankersOn(s.bankers, t)|, s.tsps[t].maxBankers)
  }

  ghost predicate ValuesUnique(s: State) {
    forall i, j | i in s.mids && j in s.mids && i != j && s.mids[i].Open() && s.mids[j].Open()
        && s.mids[i].place.tsp == s.mids[j].place.tsp ::
      s.mids[i].value != s.mids[j].value
  }

  ghost predicate Inv(s: State) {
    PlacesKnown(s) && MidsOnOwnPlace(s) && MidsWithinQuota(s) && BankersWithinCap(s) && ValuesUnique(s)
  }

  lemma SubsetCard(a: set<nat>, b: set<nat>)
    requires a <= b
    ensures |a| <= |b|
  {
    assert b == a + (b - a);
  }

  /** An accepted placement on a chain that keeps its caps: the cap exemption was not used. */
  lemma PlacementWithinCap(s: State, m: nat, p: Place)
    requires Inv(s) && PlacementRefusal(s, m, p).None?
    ensures p.tsp in s.tsps && Link(s, p) == Some(ConfirmedLink) && MidsElsewhere(s.mids, m, p) == {}
    ensures WithinCap(|BankersOn(s.bankers, p.tsp) + {m}|, s.tsps[p.tsp].maxBankers)
  {
    var on, cap := BankersOn(s.bankers, p.tsp), s.tsps[p.tsp].maxBankers;
    assert WithinCap(|on|, cap);
    if m in on {
      assert on + {m} == on && |on - {m}| == |on| - 1;
    } else {
      assert on - {m} == on && |on + {m}| == |on| + 1;
    }
  }

  lemma PlaceKeeps(s: State, m: nat, p: Place)
    requires Inv(s) && PlacementRefusal(s, m, p).None?
    ensures Inv(PlaceOf(s, m, p).0)
  {
    var t := PlaceOf(s, m, p).0;
    PlacementWithinCap(s, m, p);
    forall i | i in t.mids && t.mids[i].Open() ensures t.bankers[t.mids[i].banker] == Some(t.mids[i].place) {
      assert i in MidsElsewhere(s.mids, m, p) <==> s.mids[i].banker == m && s.mids[i].place != p;
    }
    PlaceKeepsQuota(s, m, p);
    forall x | x in t.tsps ensures WithinCap(|BankersOn(t.bankers, x)|, t.tsps[x].maxBankers) {
      SubsetCard(BankersOn(t.bankers, x), if x == p.tsp then BankersOn(s.bankers, x) + {m} else BankersOn(s.bankers, x));
    }
  }

  /** A banker that moves holds no open MID; one that stays keeps its own. */
  lemma PlaceKeepsQuota(s: State, m: nat, p: Place)
    requires MidsWithinQuota(s) && PlacementRefusal(s, m, p).None? && MidsElsewhere(s.mids, m, p) == {}
    requires forall i :: i in s.mids && s.mids[i].banker == m && s.mids[i].Open() ==>
               s.bankers[m] == Some(s.mids[i].place)
    ensures MidsWithinQuota(PlaceOf(s, m, p).0)
  {
    var t := PlaceOf(s, m, p).0;
    forall x | x in t.bankers ensures QuotaFits(t, x) {
      assert QuotaFits(s, x);
      if x == m && s.bankers[m] != Some(p) {
        forall i | i in OpenMids(s.mids, m) ensures i in MidsElsewhere(s.mids, m, p) { }
        assert OpenMids(s.mids, m) == {};
      }
    }
  }

  lemma OpenMidsWith(mids: map<nat, Mid>, id: nat, mid: Mid, x: nat)
    requires id !in mids && mid.Open()
    ensures OpenMids(mids[id := mid], x) == OpenMids(mids, x) + (if mid.banker == x then {id} else {})
    ensures id !in OpenMids(mids, x)
  {
  }

  lemma RequestKeepsQuota(s: State, id: nat, m: nat, flow: Flow, value: string)
    requires MidsWithinQuota(s) && RequestOf(s, id, m, flow, value).1.None?
    ensures MidsWithinQuota(RequestOf(s, id, m, flow, value).0)
  {
    var t := RequestOf(s, id, m, flow, value).0;
    forall x | x in t.bankers ensures QuotaFits(t, x) {
      assert QuotaFits(s, x);
      OpenMidsWith(s.mids, id, t.mids[id], x);
    }
  }

  lemma RequestKeepsMids(s: State, id: nat, m: nat, flow: Flow, value: string)
    requires MidsOnOwnPlace(s) && ValuesUnique(s) && RequestOf(s, id, m, flow, value).1.None?
    ensures MidsOnOwnPlace(RequestOf(s, id, m, flow, value).0) && ValuesUnique(RequestOf(s, id, m, flow, value).0)
  {
    var t := RequestOf(s, id, m, flow, value).0;
    forall i | i in s.mids && s.mids[i].Open() && s.mids[i].place.tsp == s.bankers[m].value.tsp
      ensures s.mids[i].value != value { }
  }

  lemma RequestKeeps(s: State, id: nat, m: nat, flow: Flow, value: string)
    requires Inv(s) && RequestOf(s, id, m, flow, value).1.None?
    ensures Inv(RequestOf(s, id, m, flow, value).0)
  {
    RequestKeepsQuota(s, id, m, flow, value);
    RequestKeepsMids(s, id, m, flow, value);
  }

  /** A MID that stays open or closes leaves every count and place within bounds. */
  lemma DecideKeeps(s: State, id: nat, status: MidStatus)
    requires Inv(s) && id in s.mids && s.mids[id].Open() && !status.PendingApproval?
    ensures Inv(Decided(s, id, status))
  {
    var t := Decided(s, id, status);
    forall x | x in s.bankers ensures QuotaFits(t, x) {
      assert QuotaFits(s, x);
      SubsetCard(OpenMids(t.mids, x), OpenMids(s.mids, x));
    }
  }

  /** Links and calls in flight bear on no count, place or value. */
  lemma LinkStepKeeps(s: State, t: State)
    requires Inv(s) && t == s.(links := t.links, calls := t.calls)
    ensures Inv(t)
  {
    assert MidsWithinQuota(t) by { forall m | m in t.bankers ensures QuotaFits(t, m) { assert QuotaFits(s, m); } }
  }

  lemma SetBankKeeps(s: State, bank: nat, active: bool)
    requires Inv(s)
    ensures Inv(Apply(s, SetBank(bank, active)))
  {
    var t := Apply(s, SetBank(bank, active));
    assert MidsWithinQuota(t) by { forall m | m in t.bankers ensures QuotaFits(t, m) { assert QuotaFits(s, m); } }
  }

  /** A TSP whose caps do not fall, or a new one, which no banker is on yet. */
  lemma SetTspKeeps(s: State, tsp: nat, to: Tsp)
    requires Inv(s) && NeverLowered(s, [SetTsp(tsp, to)])
    ensures Inv(Apply(s, SetTsp(tsp, to)))
  {
    var t := Apply(s, SetTsp(tsp, to));
    assert MidsWithinQuota(t) by { forall m | m in t.bankers ensures QuotaFits(t, m) { assert QuotaFits(s, m); } }
    if tsp !in s.tsps { assert BankersOn(s.bankers, tsp) == {}; }
    assert BankersWithinCap(t);
  }

  lemma AddBankerKeeps(s: State, banker: nat)
    requires Inv(s)
    ensures Inv(Apply(s, AddBanker(banker)))
  {
    var t := Apply(s, AddBanker(banker));
    if t != s {
      assert MidsWithinQuota(t) by { forall m | m in t.bankers ensures QuotaFits(t, m) { assert m in s.bankers ==> QuotaFits(s, m); } }
      forall x ensures BankersOn(t.bankers, x) == BankersOn(s.bankers, x) { }
      assert BankersWithinCap(t);
    }
  }

  predicate OnLinks(step: Step) {
    step.CheckBank? || step.WriteLink? || step.ConfirmBank? || step.CountUsers? || step.WriteEnd?
  }

  predicate OnMids(step: Step) { step.Request? || step.Issue? || step.Reject? || step.Deactivate? }

  lemma LinkStepsKeep(s: State, step: Step)
    requires Inv(s) && OnLinks(step)
    ensures Inv(Apply(s, step))
  {
    LinkStepKeeps(s, Apply(s, step));
  }

  lemma IssueKeeps(s: State, id: nat)
    requires Inv(s)
    ensures Inv(IssueOf(s, id).0)
  {
    if IssueOf(s, id).1.None? { DecideKeeps(s, id, ActiveMid); }
  }

  lemma RejectKeeps(s: State, id: nat)
    requires Inv(s)
    ensures Inv(RejectOf(s, id).0)
  {
    if RejectOf(s, id).1.None? { DecideKeeps(s, id, RejectedMid); }
  }

  lemma DeactivateKeeps(s: State, id: nat)
    requires Inv(s)
    ensures Inv(DeactivateOf(s, id).0)
  {
    if DeactivateOf(s, id).1.None? { DecideKeeps(s, id, InactiveMid); }
  }

  lemma MidStepsKeep(s: State, step: Step)
    requires Inv(s) && OnMids(step)
    ensures Inv(Apply(s, step))
  {
    match step
    case Request(id, m, f, v) => if RequestOf(s, id, m, f, v).1.None? { RequestKeeps(s, id, m, f, v); }
    case Issue(id) => IssueKeeps(s, id);
    case Reject(id) => RejectKeeps(s, id);
    case Deactivate(id) => DeactivateKeeps(s, id);
  }

  lemma StepKeeps(s: State, step: Step)
    requires Inv(s) && NeverLowered(s, [step])
    ensures Inv(Apply(s, step))
  {
    match step
    case SetBank(b, a) => SetBankKeeps(s, b, a);
    case SetTsp(t, to) => SetTspKeeps(s, t, to);
    case AddBanker(m) => AddBankerKeeps(s, m);
    case PutOn(m, p) => if PlacementRefusal(s, m, p).None? { PlaceKeeps(s, m, p); }
    case _ => if OnLinks(step) { LinkStepsKeep(s, step); } else { MidStepsKeep(s, step); }
  }

  /** While no quota or cap is lowered, every reachable chain keeps its counts, places and values. */
  lemma {:induction false} RunKeeps(s: State, steps: seq<Step>)
    requires Inv(s) && NeverLowered(s, steps)
    ensures Inv(Run(s, steps))
    decreases |steps|
  {
    if steps != [] {
      assert [steps[0]][1..] == [];
      StepKeeps(s, steps[0]);
      RunKeeps(Apply(s, steps[0]), steps[1..]);
    }
  }

  lemma ReachableChain(steps: seq<Step>)
    requires NeverLowered(Empty, steps)
    ensures Inv(Run(Empty, steps))
  {
    RunKeeps(Empty, steps);
  }

  // ── Links stay confirmed ────────────────────────────────────────────────────────────────────

  /** The UPDATE that ends a link finds nobody on its place. */
  predicate EndFits(s: State, step: Step) {
    step.WriteEnd? && step.c in s.calls && s.calls[step.c].Ending? ==> UsersOf(s, s.calls[step.c].place) == {}
  }

  predicate EndsFit(s: State, steps: seq<Step>)
    decreases |steps|
  {
    steps != [] ==> EndFits(s, steps[0]) && EndsFit(Apply(s, steps[0]), steps[1..])
  }

  /** Every banker's link is confirmed at every point of the run. */
  ghost predicate AlwaysConfirmed(s: State, steps: seq<Step>)
    decreases |steps|
  {
    LinksConfirmed(s) && (steps != [] ==> AlwaysConfirmed(Apply(s, steps[0]), steps[1..]))
  }

  /** Bankers stay where they are, or are nowhere yet, and no confirmed link is written but one without users. */
  lemma LinksKept(s: State, t: State)
    requires LinksConfirmed(s)
    requires forall m :: m in t.bankers ==> t.bankers[m].None? || (m in s.bankers && t.bankers[m] == s.bankers[m])
    requires forall p :: Link(s, p) == Some(ConfirmedLink) && UsersOf(s, p) != {} ==> Link(t, p) == Link(s, p)
    ensures LinksConfirmed(t)
  {
    forall m | m in t.bankers ensures OnConfirmed(t, m) {
      if t.bankers[m].Some? {
        assert OnConfirmed(s, m) && m in UsersOf(s, t.bankers[m].value);
      }
    }
  }

  lemma PlacementIsConfirmed(s: State, m: nat, p: Place)
    requires PlacementRefusal(s, m, p).None?
    ensures m in s.bankers && Link(s, p) == Some(ConfirmedLink)
  {
  }

  lemma PlaceKeepsLinks(s: State, m: nat, p: Place)
    requires LinksConfirmed(s) && PlacementRefusal(s, m, p).None?
    ensures LinksConfirmed(s.(bankers := s.bankers[m := Some(p)]))
  {
    PlacementIsConfirmed(s, m, p);
    var t := s.(bankers := s.bankers[m := Some(p)]);
    forall x | x in t.bankers ensures OnConfirmed(t, x) { assert x in s.bankers && OnConfirmed(s, x); }
  }

  /** Ending a link keeps every banker's link confirmed exactly when it finds nobody on it. */
  lemma EndKeepsLinksExactly(s: State, c: nat)
    requires LinksConfirmed(s)
    ensures LinksConfirmed(WriteEndOf(s, c)) <==> EndFits(s, WriteEnd(c))
  {
    var t := WriteEndOf(s, c);
    if c in s.calls && s.calls[c].Ending? {
      var p := s.calls[c].place;
      if m :| m in UsersOf(s, p) {
        assert OnConfirmed(s, m);
        assert !OnConfirmed(t, m);
      } else {
        LinksKept(s, t);
      }
    }
  }

  /** Only placing and adding write a banker. */
  lemma BankersKept(s: State, step: Step)
    requires !step.PutOn? && !step.AddBanker?
    ensures Apply(s, step).bankers == s.bankers
  {
  }

  /** No step but the end of a link writes one that is confirmed. */
  lemma ConfirmedLinksKept(s: State, step: Step, p: Place)
    requires !step.WriteEnd? && Link(s, p) == Some(ConfirmedLink)
    ensures Link(Apply(s, step), p) == Some(ConfirmedLink)
  {
  }

  lemma OtherStepKeepsLinks(s: State, step: Step)
    requires LinksConfirmed(s) && !step.WriteEnd? && !step.PutOn?
    ensures LinksConfirmed(Apply(s, step))
  {
    if !step.AddBanker? { BankersKept(s, step); }
    forall p | Link(s, p) == Some(ConfirmedLink) ensures Link(Apply(s, step), p) == Some(ConfirmedLink) {
      ConfirmedLinksKept(s, step, p);
    }
    LinksKept(s, Apply(s, step));
  }

  lemma StepKeepsLinksExactly(s: State, step: Step)
    requires LinksConfirmed(s)
    ensures LinksConfirmed(Apply(s, step)) <==> EndFits(s, step)
  {
    if step.WriteEnd? {
      EndKeepsLinksExactly(s, step.c);
    } else if step.PutOn? {
      if PlacementRefusal(s, step.banker, step.place).None? { PlaceKeepsLinks(s, step.banker, step.place); }
    } else {
      OtherStepKeepsLinks(s, step);
    }
  }

  lemma {:induction false} RunKeepsLinksExactly(s: State, steps: seq<Step>)
    requires LinksConfirmed(s)
    ensures AlwaysConfirmed(s, steps) <==> EndsFit(s, steps)
    ensures AlwaysConfirmed(s, steps) ==> LinksConfirmed(Run(s, steps))
    decreases |steps|
  {
    if steps != [] {
      StepKeepsLinksExactly(s, steps[0]);
      if EndFits(s, steps[0]) { RunKeepsLinksExactly(Apply(s, steps[0]), steps[1..]); }
    }
  }

  /**
   However calls interleave, every banker's link is confirmed at every point of a run exactly when every UPDATE
   that ends a link finds nobody on its place, whatever the count before it found.
   */
  lemma LinksConfirmedExactly(steps: seq<Step>)
    ensures AlwaysConfirmed(Empty, steps) <==> EndsFit(Empty, steps)
  {
    RunKeepsLinksExactly(Empty, steps);
  }

  /** A call that counted the users of a place and has yet to end it. */
  predicate BeingEnded(s: State, p: Place) { exists c :: c in s.calls && s.calls[c] == Ending(p) }

  /** No banker is put on a place between a count of its users and the UPDATE that ends it. */
  predicate Undisturbed(s: State, steps: seq<Step>)
    decreases |steps|
  {
    steps != [] ==>
      && (steps[0].PutOn? && PlacementRefusal(s, steps[0].banker, steps[0].place).None? ==> !BeingEnded(s, steps[0].place))
      && Undisturbed(Apply(s, steps[0]), steps[1..])
  }

  ghost predicate EndsFree(s: State) {
    forall c :: c in s.calls && s.calls[c].Ending? ==> UsersOf(s, s.calls[c].place) == {}
  }

  /** Only a placement accepted there gives a place another user. */
  lemma UsersKept(s: State, step: Step, p: Place)
    requires UsersOf(s, p) == {}
    requires step.PutOn? && step.place == p ==> PlacementRefusal(s, step.banker, p).Some?
    ensures UsersOf(Apply(s, step), p) == {}
  {
    assert forall m :: m in s.bankers ==> m in UsersOf(s, p) || s.bankers[m] != Some(p);
    if !step.PutOn? && !step.AddBanker? { BankersKept(s, step); }
  }

  /** A call in flight to end a link was in flight, or has just counted nobody. */
  lemma EndsStart(s: State, step: Step, c: nat)
    requires c in Apply(s, step).calls && Apply(s, step).calls[c].Ending?
    ensures var p := Apply(s, step).calls[c].place;
            (c in s.calls && s.calls[c] == Ending(p)) || (step == CountUsers(c, p) && UsersOf(s, p) == {})
  {
  }

  lemma StepKeepsEndsFree(s: State, step: Step)
    requires EndsFree(s)
    requires (step.PutOn? && PlacementRefusal(s, step.banker, step.place).None? ==> !BeingEnded(s, step.place))
    ensures EndsFree(Apply(s, step))
  {
    var t := Apply(s, step);
    forall c | c in t.calls && t.calls[c].Ending? ensures UsersOf(t, t.calls[c].place) == {} {
      EndsStart(s, step, c);
      UsersKept(s, step, t.calls[c].place);
    }
  }

  lemma {:induction false} UndisturbedEndsFit(s: State, steps: seq<Step>)
    requires EndsFree(s) && Undisturbed(s, steps)
    ensures EndsFit(s, steps)
    decreases |steps|
  {
    if steps != [] {
      StepKeepsEndsFree(s, steps[0]);
      UndisturbedEndsFit(Apply(s, steps[0]), steps[1..]);
    }
  }

  /** So while nobody is put on a place between a count and its UPDATE, every banker's link is confirmed. */
  lemma LinksStayConfirmed(steps: seq<Step>)
    requires Undisturbed(Empty, steps)
    ensures LinksConfirmed(Run(Empty, steps))
  {
    UndisturbedEndsFit(Empty, steps);
    RunKeepsLinksExactly(Empty, steps);
  }

  // ── The life of a MID and of a link ─────────────────────────────────────────────────────────

  predicate MidMoves(from: MidStatus, to: MidStatus) {
    from == to || (from.PendingApproval? && (to.ActiveMid? || to.RejectedMid?)) || (from.ActiveMid? && to.InactiveMid?)
  }

  lemma OnlyMidStepsWriteMids(s: State, step: Step)
    requires !OnMids(step)
    ensures Apply(s, step).mids == s.mids
  {
  }

  lemma RequestLeavesMids(s: State, step: Step, id: nat)
    requires step.Request? && id in s.mids
    ensures id in Apply(s, step).mids && Apply(s, step).mids[id] == s.mids[id]
  {
  }

  lemma DecisionLeavesOthers(s: State, step: Step, id: nat)
    requires (step.Issue? || step.Reject? || step.Deactivate?) && step.id != id && id in s.mids
    ensures id in Apply(s, step).mids && Apply(s, step).mids[id] == s.mids[id]
  {
  }

  /** A MID never changes hands or value; it moves from pending to active or rejected, and from active to inactive. */
  lemma MidLifeCycle(s: State, step: Step, id: nat)
    requires id in s.mids
    ensures id in Apply(s, step).mids
    ensures var t := Apply(s, step).mids[id];
            t == s.mids[id].(status := t.status) && MidMoves(s.mids[id].status, t.status)
  {
    if !OnMids(step) {
      OnlyMidStepsWriteMids(s, step);
    } else if step.Request? {
      RequestLeavesMids(s, step, id);
    } else if step.id != id {
      DecisionLeavesOthers(s, step, id);
    }
  }

  /** How far along a MID is. */
  function Rank(st: MidStatus): nat { if st.PendingApproval? then 0 else if st.ActiveMid? then 1 else 2 }

  /** Over any run a MID only moves on, and one taken out of use or rejected stays so. */
  lemma {:induction false} MidNeverReopens(s: State, steps: seq<Step>, id: nat)
    requires id in s.mids
    ensures id in Run(s, steps).mids
    ensures var t := Run(s, steps).mids[id];
            t == s.mids[id].(status := t.status)
                && (t.status == s.mids[id].status || Rank(t.status) > Rank(s.mids[id].status))
    decreases |steps|
  {
    if steps != [] {
      MidLifeCycle(s, steps[0], id);
      MidNeverReopens(Apply(s, steps[0]), steps[1..], id);
    }
  }

  /** Where the MID could be issued at the time: its banker there, the TSP live, the link confirmed, the quota free. */
  predicate MayIssue(s: State, m: Mid) {
    && m.banker in s.bankers && s.bankers[m.banker] == Some(m.place) && m.place.tsp in s.tsps
    && s.tsps[m.place.tsp].stage.Live? && m.flow in s.tsps[m.place.tsp].flows && Link(s, m.place) == Some(ConfirmedLink)
    && !Reached(|ActiveMids(s.mids, m.banker)|, s.tsps[m.place.tsp].maxMids)
  }

  /** A MID turns active only by its approval, on its banker's place, under a live TSP that may issue its flow there. */
  lemma ActivatedOnItsOwnChain(s: State, step: Step, id: nat)
    requires id in Apply(s, step).mids && Apply(s, step).mids[id].status.ActiveMid?
    requires !(id in s.mids && s.mids[id].status.ActiveMid?)
    ensures step == Issue(id) && id in s.mids && s.mids[id].status.PendingApproval? && MayIssue(s, s.mids[id])
    ensures Apply(s, step).mids[id] == s.mids[id].(status := ActiveMid)
  {
  }

  /** A link is confirmed only from pending, by its confirmation, and opened or ended only by a call past its check. */
  lemma LinkLifeCycle(s: State, step: Step, p: Place)
    requires Link(Apply(s, step), p) != Link(s, p)
    ensures var to := Link(Apply(s, step), p);
            var links := step.WriteLink? && step.c in s.calls && s.calls[step.c] == Linking(p);
            var ends := step.WriteEnd? && step.c in s.calls && s.calls[step.c] == Ending(p);
            match Link(s, p)
            case None => to == Some(PendingLink) && links
            case Some(PendingLink) => (to == Some(ConfirmedLink) && step == ConfirmBank(p)) || (to == Some(EndedLink) && ends)
            case Some(ConfirmedLink) => to == Some(EndedLink) && ends
            case Some(EndedLink) => to == Some(PendingLink) && links
  {
  }

  /** A call is in flight only once its check passed: an active bank to link, nobody on the place to end. */
  lemma CallsAreChecked(s: State, step: Step, c: nat)
    requires c in Apply(s, step).calls && !(c in s.calls && s.calls[c] == Apply(s, step).calls[c])
    ensures match Apply(s, step).calls[c]
            case Linking(p) => step == CheckBank(c, p) && p.tsp in s.tsps && p.bank in s.banks && s.banks[p.bank]
            case Ending(p) => step == CountUsers(c, p) && UsersOf(s, p) == {}
  {
  }

  lemma {:induction false} RunLast(s: State, steps: seq<Step>)
    requires steps != []
    ensures Run(s, steps) == Apply(Run(s, steps[..|steps| - 1]), steps[|steps| - 1])
    decreases |steps|
  {
    var t := Apply(s, steps[0]);
    if |steps| == 1 {
      assert steps[..0] == [] && steps[1..] == [];
    } else {
      RunLast(t, steps[1..]);
      assert steps[1..][..|steps| - 2] == steps[..|steps| - 1][1..];
    }
  }

  /** At step `k` the MID was approved, on a chain that could issue it. */
  ghost predicate ApprovedAt(steps: seq<Step>, k: nat, id: nat, m: Mid) {
    && k < |steps| && steps[k] == Issue(id) && id in Run(Empty, steps[..k]).mids
    && MayIssue(Run(Empty, steps[..k]), m) && Run(Empty, steps[..k]).mids[id] == m.(status := PendingApproval)
  }

  /** Every active MID of every run was approved at some step, on its banker's own live and confirmed chain. */
  lemma {:induction false} ActiveWasApproved(steps: seq<Step>, id: nat)
    requires id in Run(Empty, steps).mids && Run(Empty, steps).mids[id].status.ActiveMid?
    ensures exists k: nat :: ApprovedAt(steps, k, id, Run(Empty, steps).mids[id])
    decreases |steps|
  {
    if steps != [] {
      var n := |steps| - 1;
      var init := steps[..n];
      var s := Run(Empty, init);
      RunLast(Empty, steps);
      if id in s.mids && s.mids[id].status.ActiveMid? {
        ActiveWasApproved(init, id);
        var k: nat :| ApprovedAt(init, k, id, s.mids[id]);
        MidLifeCycle(s, steps[n], id);
        assert Run(Empty, steps).mids[id] == s.mids[id];
        assert init[..k] == steps[..k] && ApprovedAt(steps, k, id, s.mids[id]);
      } else {
        ActivatedOnItsOwnChain(s, steps[n], id);
        assert ApprovedAt(steps, n, id, Run(Empty, steps).mids[id]);
      }
    }
  }

  /** At step `k` a call found the TSP there and the bank active. */
  ghost predicate CheckedAt(steps: seq<Step>, k: nat, p: Place) {
    && k < |steps| && steps[k].CheckBank? && steps[k].place == p
    && var s := Run(Empty, steps[..k]); p.tsp in s.tsps && p.bank in s.banks && s.banks[p.bank]
  }

  ghost predicate WasChecked(steps: seq<Step>, p: Place) { exists k: nat :: CheckedAt(steps, k, p) }

  lemma CheckedStays(steps: seq<Step>, p: Place)
    requires steps != [] && WasChecked(steps[..|steps| - 1], p)
    ensures WasChecked(steps, p)
  {
    var init := steps[..|steps| - 1];
    var k: nat :| CheckedAt(init, k, p);
    assert init[..k] == steps[..k] && CheckedAt(steps, k, p);
  }

  predicate BeingLinked(s: State, p: Place) { exists c :: c in s.calls && s.calls[c] == Linking(p) }

  /** Every call about to open a link, and every link there is, goes back to a check that found its bank active. */
  lemma {:induction false} LinkWasChecked(steps: seq<Step>, p: Place)
    requires Link(Run(Empty, steps), p).Some? || BeingLinked(Run(Empty, steps), p)
    ensures WasChecked(steps, p)
    decreases |steps|
  {
    if steps != [] {
      var n := |steps| - 1;
      var s, t := Run(Empty, steps[..n]), Run(Empty, steps);
      RunLast(Empty, steps);
      if Link(s, p).Some? || BeingLinked(s, p) {
        LinkWasChecked(steps[..n], p);
        CheckedStays(steps, p);
      } else if Link(t, p).Some? {
        LinkLifeCycle(s, steps[n], p);
      } else {
        var c :| c in t.calls && t.calls[c] == Linking(p);
        CallsAreChecked(s, steps[n], c);
        assert CheckedAt(steps, n, p);
      }
    }
  }

  // ── Where the bounds stop ───────────────────────────────────────────────────────────────────

  /**
   The cap exemption skips the check for MIDs elsewhere: an accepted placement leaves every open MID
   on its banker's own place exactly when it is not a move within a full TSP with MIDs elsewhere.
   */
  lemma AcceptedMoveStrandsMidsExactly(s: State, m: nat, p: Place)
    requires MidsOnOwnPlace(s) && PlacementRefusal(s, m, p).None?
    ensures MidsOnOwnPlace(PlaceOf(s, m, p).0)
            <==> !(Reached(|BankersOn(s.bankers, p.tsp) - {m}|, s.tsps[p.tsp].maxBankers) && |MidsElsewhere(s.mids, m, p)| > 0)
  {
    var t := PlaceOf(s, m, p).0;
    var elsewhere := MidsElsewhere(s.mids, m, p);
    if elsewhere != {} {
      var i :| i in elsewhere;
      assert t.bankers[t.mids[i].banker] == Some(p) && t.mids[i].place != p;
    } else {
      assert forall i :: i in s.mids && s.mids[i].banker == m && s.mids[i].Open() ==>
          s.mids[i].place == p || i in elsewhere;
    }
  }

  lemma RunOne(s: State, step: Step, rest: seq<Step>)
    ensures Run(s, [step] + rest) == Run(Apply(s, step), rest)
  {
    assert ([step] + rest)[1..] == rest;
  }

  const A: Place := Place(0, 1)
  const B: Place := Place(0, 2)

  /** A live TSP of two bankers and two banks, not linked yet. */
  const Founded: State :=
    State(map[1 := true, 2 := true], map[0 := Tsp(Live, {Intent}, None, Some(2))], map[], map[1 := None, 2 := None], map[], map[])

  /** Both links confirmed. */
  const Linked: State := Founded.(links := map[A := ConfirmedLink, B := ConfirmedLink])

  lemma Founds(rest: seq<Step>) returns (steps: seq<Step>)
    ensures Run(Empty, steps) == Run(Founded, rest)
  {
    var tsp := SetTsp(0, Tsp(Live, {Intent}, None, Some(2)));
    var s1 := Apply(Empty, SetBank(1, true));
    var s2 := Apply(s1, SetBank(2, true));
    var s3 := Apply(s2, tsp);
    var s4 := Apply(s3, AddBanker(1));
    assert Apply(s4, AddBanker(2)) == Founded;
    RunOne(s4, AddBanker(2), rest);
    RunOne(s3, AddBanker(1), [AddBanker(2)] + rest);
    RunOne(s2, tsp, [AddBanker(1)] + ([AddBanker(2)] + rest));
    RunOne(s1, SetBank(2, true), [tsp] + ([AddBanker(1)] + ([AddBanker(2)] + rest)));
    RunOne(Empty, SetBank(1, true), [SetBank(2, true)] + ([tsp] + ([AddBanker(1)] + ([AddBanker(2)] + rest))));
    steps := [SetBank(1, true)] + ([SetBank(2, true)] + ([tsp] + ([AddBanker(1)] + ([AddBanker(2)] + rest))));
  }

  /** One link opened and confirmed. */
  lemma LinksOne(s: State, p: Place, rest: seq<Step>)
    requires s.calls == map[] && p !in s.links && LinkRefusal(s, p).None?
    ensures Run(s, [CheckBank(1, p)] + ([WriteLink(1)] + ([ConfirmBank(p)] + rest)))
            == Run(s.(links := s.links[p := ConfirmedLink]), rest)
  {
    var s1 := Apply(s, CheckBank(1, p));
    var s2 := Apply(s1, WriteLink(1));
    assert s2 == s.(links := s.links[p := PendingLink]);
    assert Apply(s2, ConfirmBank(p)) == s.(links := s.links[p := ConfirmedLink]);
    RunOne(s, CheckBank(1, p), [WriteLink(1)] + ([ConfirmBank(p)] + rest));
    RunOne(s1, WriteLink(1), [ConfirmBank(p)] + rest);
    RunOne(s2, ConfirmBank(p), rest);
  }

  /** Whatever runs from there runs from nothing. */
  lemma LinkedFromEmpty(rest: seq<Step>) returns (steps: seq<Step>)
    ensures Run(Empty, steps) == Run(Linked, rest)
  {
    var second := [CheckBank(1, B)] + ([WriteLink(1)] + ([ConfirmBank(B)] + rest));
    steps := Founds([CheckBank(1, A)] + ([WriteLink(1)] + ([ConfirmBank(A)] + second)));
    LinksOne(Founded, A, second);
    var one := Founded.(links := Founded.links[A := ConfirmedLink]);
    LinksOne(one, B, rest);
    assert one.(links := one.links[B := ConfirmedLink]) == Linked;
  }

  /**
   endTspBank counts the link's users and updates it in two statements: the update alone keeps every
   banker's link confirmed exactly when nobody uses the link at the moment it is made.
   */
  lemma EndNeedsItsCountAtTheWrite(s: State, p: Place)
    requires LinksConfirmed(s) && p in s.links
    ensures LinksConfirmed(RawEnd(s, p)) <==> UsersOf(s, p) == {}
  {
    if m :| m in UsersOf(s, p) {
      assert Link(RawEnd(s, p), p) == Some(EndedLink);
    } else {
      assert forall m :: m in s.bankers && s.bankers[m] == Some(p) ==> m in UsersOf(s, p);
    }
  }

  /** What it takes to be put on a place of a TSP with room. */
  lemma MayPutOn(s: State, m: nat, p: Place, on: set<nat>)
    requires m in s.bankers && p.tsp in s.tsps && s.tsps[p.tsp].stage.Live? && p.bank in s.banks && s.banks[p.bank]
    requires Link(s, p) == Some(ConfirmedLink) && MidsElsewhere(s.mids, m, p) == {}
    requires BankersOn(s.bankers, p.tsp) - {m} == on && !Reached(|on|, s.tsps[p.tsp].maxBankers)
    ensures Apply(s, PutOn(m, p)) == s.(bankers := s.bankers[m := Some(p)])
  {
  }

  /** A count, a placement, and then the UPDATE: a banker on an ended link. */
  lemma EndedUnderABanker() returns (steps: seq<Step>)
    ensures var s := Run(Empty, steps);
            1 in s.bankers && s.bankers[1] == Some(A) && Link(s, A) == Some(EndedLink) && !LinksConfirmed(s)
  {
    var race := [CountUsers(9, A)] + ([PutOn(1, A)] + ([WriteEnd(9)] + []));
    steps := LinkedFromEmpty(race);
    assert UsersOf(Linked, A) == {};
    var s1 := Linked.(calls := map[9 := Ending(A)]);
    MayPutOn(s1, 1, A, {});
    var s2 := s1.(bankers := map[1 := Some(A), 2 := None]);
    assert OnConfirmed(Apply(s2, WriteEnd(9)), 1) ==> Link(Apply(s2, WriteEnd(9)), A) == Some(ConfirmedLink);
    RunOne(Linked, CountUsers(9, A), [PutOn(1, A)] + ([WriteEnd(9)] + []));
    RunOne(s1, PutOn(1, A), [WriteEnd(9)] + []);
    RunOne(s2, WriteEnd(9), []);
  }

  /** Two bankers on the first bank, one of them with an active MID there. */
  const Filled: State := Linked.(bankers := map[1 := Some(A), 2 := Some(A)], mids := map[7 := Mid(1, A, Intent, "M", ActiveMid)])

  const Lowered: Step := SetTsp(0, Tsp(Live, {Intent}, None, Some(1)))

  const OnePutOn: State := Linked.(bankers := map[1 := Some(A), 2 := None])

  lemma FirstPutOn()
    ensures Apply(Linked, PutOn(1, A)) == OnePutOn
  {
    assert BankersOn(Linked.bankers, 0) - {1} == {} && MidsElsewhere(Linked.mids, 1, A) == {};
    MayPutOn(Linked, 1, A, {});
    assert map[1 := None, 2 := None][1 := Some(A)] == OnePutOn.bankers;
  }

  lemma SecondPutOn()
    ensures Apply(OnePutOn, PutOn(2, A)) == Linked.(bankers := Filled.bankers)
  {
    assert BankersOn(OnePutOn.bankers, 0) - {2} == {1} && MidsElsewhere(OnePutOn.mids, 2, A) == {};
    MayPutOn(OnePutOn, 2, A, {1});
    assert OnePutOn.bankers[2 := Some(A)] == Filled.bankers;
  }

  lemma MidIssued()
    ensures Apply(Apply(Linked.(bankers := Filled.bankers), Request(7, 1, Intent, "M")), Issue(7)) == Filled
  {
    assert OpenMids(map[], 1) == {};
    var s1 := Apply(Linked.(bankers := Filled.bankers), Request(7, 1, Intent, "M"));
    assert s1.mids == map[7 := Mid(1, A, Intent, "M", PendingApproval)];
    assert ActiveMids(s1.mids, 1) == {};
  }

  lemma FilledFromEmpty(rest: seq<Step>) returns (steps: seq<Step>)
    ensures Run(Empty, steps) == Run(Filled, rest)
  {
    var placed := Linked.(bankers := Filled.bankers);
    steps := LinkedFromEmpty([PutOn(1, A)] + ([PutOn(2, A)] + ([Request(7, 1, Intent, "M")] + ([Issue(7)] + rest))));
    FirstPutOn();
    SecondPutOn();
    MidIssued();
    RunOne(Linked, PutOn(1, A), [PutOn(2, A)] + ([Request(7, 1, Intent, "M")] + ([Issue(7)] + rest)));
    RunOne(OnePutOn, PutOn(2, A), [Request(7, 1, Intent, "M")] + ([Issue(7)] + rest));
    RunOne(placed, Request(7, 1, Intent, "M"), [Issue(7)] + rest);
    RunOne(Apply(placed, Request(7, 1, Intent, "M")), Issue(7), rest);
  }

  /** The TSP full, the cap does not refuse the banker that is there, and nothing looks for its MID. */
  lemma MovesWhenFull()
    ensures Apply(Apply(Filled, Lowered), PutOn(1, B))
            == Apply(Filled, Lowered).(bankers := map[1 := Some(B), 2 := Some(A)])
  {
    var u := Apply(Filled, Lowered);
    assert BankersOn(u.bankers, 0) - {1} == {2};
    assert PlacementRefusal(u, 1, B).None?;
    assert u.bankers[1 := Some(B)] == map[1 := Some(B), 2 := Some(A)];
  }

  /** A cap lowered under the bankers there lets one of them move away from its MID. */
  lemma LoweredCapStrandsAMid() returns (steps: seq<Step>)
    ensures Inv(Filled) && Run(Empty, steps) == Run(Filled, [Lowered] + ([PutOn(1, B)] + []))
    ensures !MidsOnOwnPlace(Run(Empty, steps))
  {
    steps := FilledFromEmpty([Lowered] + ([PutOn(1, B)] + []));
    FilledIsSound();
    MovesWhenFull();
    RunOne(Filled, Lowered, [PutOn(1, B)] + []);
    RunOne(Apply(Filled, Lowered), PutOn(1, B), []);
    var t := Apply(Filled, Lowered).(bankers := map[1 := Some(B), 2 := Some(A)]);
    assert t.mids[7].banker == 1 && t.bankers[1] != Some(t.mids[7].place);
  }

  lemma FilledIsSound()
    ensures Inv(Filled)
  {
    assert BankersOn(Filled.bankers, 0) == {1, 2};
    assert PlacesKnown(Filled);
    assert MidsOnOwnPlace(Filled);
    assert MidsWithinQuota(Filled);
    assert BankersWithinCap(Filled);
    assert ValuesUnique(Filled);
  }

  // ── The tables ──────────────────────────────────────────────────────────────────────────────

  class Registry {
    var banks: map<nat, bool>
    var tsps: map<nat, Tsp>
    var links: map<Place, LinkStatus>
    var bankers: map<nat, Option<Place>>
    var mids: map<nat, Mid>
    var calls: map<nat, Call>

    function View(): State
      reads this
    {
      State(banks, tsps, links, bankers, mids, calls)
    }

    constructor ()
      ensures View() == Empty
    {
      banks, tsps, links, bankers, mids, calls := map[], map[], map[], map[], map[], map[];
    }

    /** linkTspBank's reads. */
    method CheckBank(c: nat, p: Place) returns (no: Option<Refusal>)
      requires c !in calls
      modifies this`calls
      ensures View() == CheckBankOf(old(View()), c, p) && no == LinkRefusal(View(), p)
    {
      if p.tsp !in tsps || p.bank !in banks { return Some(NotFound); }
      if !banks[p.bank] { return Some(BankInactive); }
      calls := calls[c := Linking(p)];
      return None;
    }

    /** Its INSERT; whether it opened the link. */
    method WriteLink(c: nat) returns (made: bool)
      requires c in calls && calls[c].Linking?
      modifies this`links, this`calls
      ensures View() == WriteLinkOf(old(View()), c)
      ensures var p := old(calls)[c].place; made <==> !(p in old(links) && !old(links)[p].EndedLink?)
    {
      var p := calls[c].place;
      made := !(p in links && !links[p].EndedLink?);
      if made { links := links[p := PendingLink]; }
      calls := calls - {c};
    }

    /** linkTspBank, nobody interrupting. */
    method LinkTspBank(c: nat, p: Place) returns (no: Option<Refusal>)
      requires c !in calls
      modifies this
      ensures (View(), no) == LinkOf(old(View()), p)
    {
      ghost var before := calls;
      no := CheckBank(c, p);
      if no.Some? { return; }
      var written := WriteLink(c);
      assert calls == before;
      return if written then None else Some(AlreadyLinked);
    }

    method ConfirmTspBank(p: Place) returns (no: Option<Refusal>)
      modifies this
      ensures (View(), no) == ConfirmOf(old(View()), p)
    {
      if p !in links || !links[p].PendingLink? { return Some(NotPending); }
      links := links[p := ConfirmedLink];
      return None;
    }

    /** endTspBank's count. */
    method CountUsers(c: nat, p: Place) returns (used: nat)
      requires c !in calls
      modifies this`calls
      ensures View() == CountUsersOf(old(View()), c, p) && used == |UsersOf(View(), p)|
    {
      used := |UsersOf(View(), p)|;
      if used == 0 { calls := calls[c := Ending(p)]; }
    }

    /** Its UPDATE; whether there was a link to end. */
    method WriteEnd(c: nat) returns (ended: bool)
      requires c in calls && calls[c].Ending?
      modifies this`links, this`calls
      ensures View() == WriteEndOf(old(View()), c)
      ensures var p := old(calls)[c].place; ended <==> p in old(links) && !old(links)[p].EndedLink?
    {
      var p := calls[c].place;
      ended := p in links && !links[p].EndedLink?;
      if ended { links := links[p := EndedLink]; }
      calls := calls - {c};
    }

    /** endTspBank, nobody interrupting. */
    method EndTspBank(c: nat, p: Place) returns (no: Option<Refusal>)
      requires c !in calls
      modifies this
      ensures (View(), no) == EndOf(old(View()), p)
    {
      ghost var before := calls;
      var used := CountUsers(c, p);
      if used > 0 { return Some(BankInUse); }
      var ended := WriteEnd(c);
      assert calls == before;
      return if ended then None else Some(NoSuchLink);
    }

    method SetBankerChain(m: nat, p: Place) returns (no: Option<Refusal>)
      modifies this
      ensures (View(), no) == PlaceOf(old(View()), m, p)
    {
      if m !in bankers { return Some(NotFound); }
      var tsp := if p.tsp in tsps then Some(tsps[p.tsp]) else None;
      var others, elsewhere := |BankersOn(bankers, p.tsp) - {m}|, |MidsElsewhere(mids, m, p)|;
      no := ChainRefusal(tsp, Link(View(), p), p.bank in banks && banks[p.bank], others, elsewhere);
      if no.Some? && !(no.value.TspBankerCap? && bankers[m].Some? && bankers[m].value.tsp == p.tsp) { return; }
      bankers := bankers[m := Some(p)];
      return None;
    }

    method RequestMid(id: nat, m: nat, flow: Flow, value: string) returns (no: Option<Refusal>)
      modifies this
      ensures (View(), no) == RequestOf(old(View()), id, m, flow, value)
    {
      if m !in bankers || id in mids { return Some(NotFound); }
      if bankers[m].None? || bankers[m].value.tsp !in tsps { return Some(NoTsp); }
      var p := bankers[m].value;
      no := MidIssueRefusal(tsps[p.tsp], Link(View(), p), |OpenMids(mids, m)|, flow);
      if no.Some? { return; }
      if Taken(mids, p.tsp, value) { return Some(MidTaken); }
      mids := mids[id := Mid(m, p, flow, value, PendingApproval)];
      return None;
    }

    method ApplyMidIssue(id: nat) returns (no: Option<Refusal>)
      modifies this
      ensures (View(), no) == IssueOf(old(View()), id)
    {
      if id !in mids { return Some(NotFound); }
      var i := mids[id];
      if !i.status.PendingApproval? { return Some(NotPending); }
      if i.banker !in bankers || bankers[i.banker] != Some(i.place) || i.place.tsp !in tsps { return Some(ChainChanged); }
      no := MidIssueRefusal(tsps[i.place.tsp], Link(View(), i.place), |ActiveMids(mids, i.banker)|, i.flow);
      if no.Some? { return; }
      mids := mids[id := i.(status := ActiveMid)];
      return None;
    }

    method RejectMid(id: nat) returns (no: Option<Refusal>)
      modifies this
      ensures (View(), no) == RejectOf(old(View()), id)
    {
      if id !in mids { return Some(NotFound); }
      if !mids[id].status.PendingApproval? { return Some(NotPending); }
      mids := mids[id := mids[id].(status := RejectedMid)];
      return None;
    }

    method ApplyMidDeactivate(id: nat) returns (no: Option<Refusal>)
      modifies this
      ensures (View(), no) == DeactivateOf(old(View()), id)
    {
      if id !in mids || !mids[id].status.ActiveMid? { return Some(NotActive); }
      mids := mids[id := mids[id].(status := InactiveMid)];
      return None;
    }
  }
}
