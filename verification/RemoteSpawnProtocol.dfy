/** The life of a remote spawn, seen from outside: which launches are pending, which `placed`
  * replies are held, and everything announced, retired or answered so far. Timers are events
  * here; the class in RemoteSpawns.dfy keeps the timers themselves and refines these steps. */
module RemoteSpawnProtocol {
  import Counting
  import opened Options

  /** `keepsIdentity` is the presence of `onLost`: a lost resume is reported, not retired. */
  datatype Record = Record(agentId: string, name: string, host: string, keepsIdentity: bool)
  datatype Report = Report(ok: bool, reason: Option<string>)
  datatype Awaited = ReadyReport | PlacedReport

  /** The failure texts, by what they are built from. */
  datatype Reason =
    | NoReadyReport(host: string)
    | PlacementUnconfirmed(name: string, host: string)
    | RefusedOnHost(host: string, said: Option<string>)
    | NotPlaced(host: string, said: Option<string>)
    | NotWaiting(agentId: string, what: Awaited)

  datatype Reply = Granted | Denied(reason: Reason)
  datatype Verdict = VAttached | VPending | VFailed(reason: Reason)
  datatype Phase = Launching | Acked | Placed | Attached

  datatype Effect =
    | Announced(launch: nat)
    | Retired(launch: nat, reason: Reason)
    | ToldLost(launch: nat, reason: Reason)
    | ReadyGranted(launch: nat)
    | Settled(promise: nat, verdict: Verdict)

  /** `launch` is the serial number of the `open` call that made the entry. */
  datatype Slot = Slot(launch: nat, record: Record, phase: Phase, waiter: Option<nat>)

  /** `dropped`: launches still undecided when another `open` replaced them or `close` cleared them. */
  datatype State = State(pending: map<string, Slot>, launches: nat, promises: nat, waiting: set<nat>,
                         log: seq<Effect>, dropped: set<nat>)

  const Init := State(map[], 0, 0, {}, [], {})

  // ----- the steps -----

  /** What the running launch timer will say, fixed when the phase was entered. */
  function ExpiryReason(phase: Phase, record: Record): Option<Reason> {
    match phase
    case Launching => Some(NoReadyReport(record.host))
    case Acked | Placed => Some(PlacementUnconfirmed(record.name, record.host))
    case Attached => None
  }

  function LossOf(slot: Slot, reason: Reason): Effect {
    if slot.record.keepsIdentity then ToldLost(slot.launch, reason) else Retired(slot.launch, reason)
  }

  /** Answers the held `placed` reply of a slot, if there is one. */
  function Answer(s: State, waiter: Option<nat>, verdict: Verdict): State {
    if waiter.None? then s
    else s.(waiting := s.waiting - {waiter.value}, log := s.log + [Settled(waiter.value, verdict)])
  }

  function Lose(s: State, id: string, reason: Reason): State
    requires id in s.pending
  {
    var slot := s.pending[id];
    var t := Answer(s.(pending := s.pending - {id}), slot.waiter, VFailed(reason));
    t.(log := t.log + [LossOf(slot, reason)])
  }

  predicate Undecided(s: State, id: string) { id in s.pending && !s.pending[id].phase.Attached? }

  function Open(s: State, record: Record): State {
    var id := record.agentId;
    s.(pending := s.pending[id := Slot(s.launches, record, Launching, None)], launches := s.launches + 1,
       dropped := s.dropped + if Undecided(s, id) then {s.pending[id].launch} else {})
  }

  function Ready(s: State, id: string, report: Report): (State, Reply) {
    if id !in s.pending || !s.pending[id].phase.Launching? then (s, Denied(NotWaiting(id, ReadyReport)))
    else
      var slot := s.pending[id];
      if report.ok then
        (s.(pending := s.pending[id := slot.(phase := Acked)], log := s.log + [ReadyGranted(slot.launch)]), Granted)
      else
        var reason := RefusedOnHost(slot.record.host, report.reason);
        (Lose(s, id, reason), Denied(reason))
  }

  /** The promise handed back is number `s.promises`. */
  function PlacedReportStep(s: State, id: string, report: Report): State {
    var p := s.promises;
    var s1 := s.(promises := p + 1);
    if id in s.pending && s.pending[id].phase.Attached? then
      s1.(pending := s.pending - {id}, log := s.log + [Settled(p, VAttached)])
    else if id !in s.pending || !s.pending[id].phase.Acked? then
      s1.(log := s.log + [Settled(p, VFailed(NotWaiting(id, PlacedReport)))])
    else
      var slot := s.pending[id];
      if report.ok then
        s1.(pending := s.pending[id := slot.(phase := Placed, waiter := Some(p))], waiting := s.waiting + {p})
      else
        var reason := NotPlaced(slot.record.host, report.reason);
        var s2 := Lose(s1, id, reason);
        s2.(log := s2.log + [Settled(p, VFailed(reason))])
  }

  function AttachedStep(s: State, id: string): State {
    if !Undecided(s, id) then s
    else
      var slot := s.pending[id];
      var s1 := Answer(s.(log := s.log + [Announced(slot.launch)]), slot.waiter, VAttached);
      if slot.phase.Placed? then s1.(pending := s.pending - {id})
      else s1.(pending := s.pending[id := slot.(phase := Attached, waiter := None)])
  }

  /** The launch timer of the entry under `id` fires. */
  function ExpireStep(s: State, id: string): State {
    if id !in s.pending then s
    else
      var reason := ExpiryReason(s.pending[id].phase, s.pending[id].record);
      if reason.None? then s.(pending := s.pending - {id}) else Lose(s, id, reason.value)
  }

  function Unwaited(slot: Slot, p: nat): Slot {
    if slot.waiter == Some(p) then slot.(waiter := None) else slot
  }

  /** The `attachMs` timer behind promise `p` fires. */
  function WaitOverStep(s: State, p: nat): State {
    if p !in s.waiting then s
    else s.(pending := map id | id in s.pending :: Unwaited(s.pending[id], p),
            waiting := s.waiting - {p}, log := s.log + [Settled(p, VPending)])
  }

  function UndecidedLaunches(s: State): set<nat> {
    set id | id in s.pending && Undecided(s, id) :: s.pending[id].launch
  }

  function CloseStep(s: State): State {
    s.(pending := map[], dropped := s.dropped + UndecidedLaunches(s))
  }

  datatype Event =
    | EOpen(record: Record) | EReady(id: string, report: Report) | EPlaced(id: string, report: Report)
    | EAttached(id: string) | EExpire(id: string) | EWaitOver(promise: nat) | EClose

  /** A timer event that no armed timer stands behind changes nothing. */
  function Step(s: State, e: Event): State {
    match e
    case EOpen(record) => Open(s, record)
    case EReady(id, report) => Ready(s, id, report).0
    case EPlaced(id, report) => PlacedReportStep(s, id, report)
    case EAttached(id) => AttachedStep(s, id)
    case EExpire(id) => ExpireStep(s, id)
    case EWaitOver(p) => WaitOverStep(s, p)
    case EClose => CloseStep(s)
  }

  function Run(s: State, events: seq<Event>): State
    decreases |events|
  {
    if events == [] then s else Run(Step(s, events[0]), events[1..])
  }

  // ----- counting effects -----

  datatype Kind = KAnnounced(launch: nat) | KLost(launch: nat) | KGranted(launch: nat) | KSettled(promise: nat)

  function KindOf(e: Effect): Kind {
    match e
    case Announced(n) => KAnnounced(n)
    case Retired(n, _) => KLost(n)
    case ToldLost(n, _) => KLost(n)
    case ReadyGranted(n) => KGranted(n)
    case Settled(p, _) => KSettled(p)
  }

  function Count(log: seq<Effect>, k: Kind): nat {
    if log == [] then 0
    else Count(log[..|log| - 1], k) + (if KindOf(log[|log| - 1]) == k then 1 else 0)
  }

  lemma CountOne(log: seq<Effect>, e: Effect)
    ensures forall k :: Count(log + [e], k) == Count(log, k) + (if KindOf(e) == k then 1 else 0)
  {
    assert (log + [e])[..|log|] == log;
  }

  // ----- the invariant of every run -----

  ghost predicate SlotsOk(s: State) {
    && (forall id :: id in s.pending ==> s.pending[id].record.agentId == id && s.pending[id].launch < s.launches)
    && (forall a, b :: a in s.pending && b in s.pending && s.pending[a].launch == s.pending[b].launch ==> a == b)
    && (forall id :: id in s.pending && s.pending[id].waiter.Some? ==>
          s.pending[id].phase.Placed? && s.pending[id].waiter.value in s.waiting)
    && (forall a, b :: a in s.pending && b in s.pending && a != b && s.pending[a].waiter.Some? ==>
          s.pending[a].waiter != s.pending[b].waiter)
  }

  ghost predicate PromisesOk(s: State) {
    && (forall p :: p in s.waiting ==> p < s.promises)
    && (forall p: nat :: Count(s.log, KSettled(p)) == if p < s.promises && p !in s.waiting then 1 else 0)
  }

  predicate HoldsUndecided(s: State, id: string, n: nat) {
    Undecided(s, id) && s.pending[id].launch == n
  }

  ghost predicate IsUndecided(s: State, n: nat) { exists id :: HoldsUndecided(s, id, n) }

  /** In how many of the four ways launch `n` currently stands. */
  ghost function Fates(s: State, n: nat): nat {
    Count(s.log, KAnnounced(n)) + Count(s.log, KLost(n))
    + (if n in s.dropped then 1 else 0) + (if IsUndecided(s, n) then 1 else 0)
  }

  ghost predicate OneFateEach(s: State) {
    forall n: nat :: Fates(s, n) == if n < s.launches then 1 else 0
  }

  ghost predicate AttachedAnnounced(s: State) {
    forall id :: id in s.pending && s.pending[id].phase.Attached? ==>
      Count(s.log, KAnnounced(s.pending[id].launch)) == 1
  }

  ghost predicate GrantsOk(s: State) {
    && (forall n: nat :: Count(s.log, KGranted(n)) <= if n < s.launches then 1 else 0)
    && (forall id :: id in s.pending && s.pending[id].phase.Launching? ==>
          Count(s.log, KGranted(s.pending[id].launch)) == 0)
  }

  ghost predicate FatesOk(s: State) { OneFateEach(s) && AttachedAnnounced(s) && GrantsOk(s) }

  ghost predicate Inv(s: State) { SlotsOk(s) && PromisesOk(s) && FatesOk(s) }

  lemma InitOk()
    ensures Inv(Init)
  {
  }

  /** A step that touches one id decides at most the launch held there. */
  lemma OneIdTouched(s: State, t: State, id: string, n: nat)
    requires SlotsOk(s)
    requires forall k :: k != id ==> (Undecided(t, k) <==> Undecided(s, k))
    requires forall k :: k != id && k in s.pending && k in t.pending ==> t.pending[k].launch == s.pending[k].launch
    ensures IsUndecided(t, n) <==> HoldsUndecided(t, id, n) || (IsUndecided(s, n) && !HoldsUndecided(s, id, n))
  {
    if k :| HoldsUndecided(t, k, n) {
      assert k != id ==> HoldsUndecided(s, k, n);
    }
    if k :| HoldsUndecided(s, k, n) {
      assert k != id ==> HoldsUndecided(t, k, n);
    }
  }

  lemma OpenKeepsInv(s: State, record: Record)
    requires Inv(s)
    ensures Inv(Open(s, record))
  {
    var t := Open(s, record);
    forall n: nat ensures Fates(t, n) == if n < t.launches then 1 else 0 {
      assert Fates(s, n) == if n < s.launches then 1 else 0;
      OneIdTouched(s, t, record.agentId, n);
      assert HoldsUndecided(s, record.agentId, n) ==> IsUndecided(s, n);
    }
  }

  function One(b: bool): nat { if b then 1 else 0 }

  lemma AnswerCounts(s: State, waiter: Option<nat>, verdict: Verdict)
    ensures forall k :: Count(Answer(s, waiter, verdict).log, k)
                     == Count(s.log, k) + One(waiter.Some? && k == KSettled(waiter.value))
  {
    if waiter.Some? { CountOne(s.log, Settled(waiter.value, verdict)); }
  }

  lemma LoseCounts(s: State, id: string, reason: Reason)
    requires id in s.pending
    ensures forall k :: Count(Lose(s, id, reason).log, k)
                     == Count(s.log, k) + One(k == KLost(s.pending[id].launch))
                        + One(s.pending[id].waiter.Some? && k == KSettled(s.pending[id].waiter.value))
  {
    var slot := s.pending[id];
    AnswerCounts(s.(pending := s.pending - {id}), slot.waiter, VFailed(reason));
    CountOne(Answer(s.(pending := s.pending - {id}), slot.waiter, VFailed(reason)).log, LossOf(slot, reason));
  }

  lemma LoseKeepsFates(s: State, id: string, reason: Reason)
    requires SlotsOk(s) && FatesOk(s) && Undecided(s, id)
    ensures FatesOk(Lose(s, id, reason))
  {
    var t := Lose(s, id, reason);
    assert OneFateEach(t) by { LoseCounts(s, id, reason); OneLaunchDecided(s, t, id); }
    LoseKeepsGrants(s, id, reason);
  }

  lemma LoseKeepsGrants(s: State, id: string, reason: Reason)
    requires SlotsOk(s) && AttachedAnnounced(s) && GrantsOk(s) && id in s.pending
    ensures AttachedAnnounced(Lose(s, id, reason)) && GrantsOk(Lose(s, id, reason))
  {
    LoseCounts(s, id, reason);
  }

  lemma LoseKeepsInv(s: State, id: string, reason: Reason)
    requires Inv(s) && Undecided(s, id)
    ensures Inv(Lose(s, id, reason))
  {
    assert FatesOk(Lose(s, id, reason)) by { LoseKeepsFates(s, id, reason); }
    assert PromisesOk(Lose(s, id, reason)) by { LoseCounts(s, id, reason); }
  }

  /** A step that decides no launch. */
  lemma NothingDecided(s: State, t: State)
    requires OneFateEach(s) && AttachedAnnounced(s) && t.launches == s.launches && t.dropped == s.dropped
    requires t.pending.Keys == s.pending.Keys
    requires forall id :: id in s.pending ==>
               t.pending[id].launch == s.pending[id].launch
               && t.pending[id].phase.Attached? == s.pending[id].phase.Attached?
    requires forall k: Kind :: k.KAnnounced? || k.KLost? ==> Count(t.log, k) == Count(s.log, k)
    ensures OneFateEach(t) && AttachedAnnounced(t)
  {
    forall n: nat ensures Fates(t, n) == if n < t.launches then 1 else 0 {
      assert Fates(s, n) == if n < s.launches then 1 else 0;
      assert forall id :: HoldsUndecided(t, id, n) == HoldsUndecided(s, id, n);
    }
  }

  lemma GrantKeepsGrants(s: State, id: string)
    requires SlotsOk(s) && GrantsOk(s) && id in s.pending && s.pending[id].phase.Launching?
    ensures GrantsOk(Ready(s, id, Report(true, None)).0)
  {
    CountOne(s.log, ReadyGranted(s.pending[id].launch));
  }

  lemma GrantKeepsInv(s: State, id: string)
    requires Inv(s) && id in s.pending && s.pending[id].phase.Launching?
    ensures Inv(Ready(s, id, Report(true, None)).0)
  {
    var t := Ready(s, id, Report(true, None)).0;
    assert SlotsOk(t);
    assert GrantsOk(t) by { GrantKeepsGrants(s, id); }
    CountOne(s.log, ReadyGranted(s.pending[id].launch));
    assert OneFateEach(t) && AttachedAnnounced(t) by { NothingDecided(s, t); }
    assert PromisesOk(t);
  }

  lemma ReadyKeepsInv(s: State, id: string, report: Report)
    requires Inv(s)
    ensures Inv(Ready(s, id, report).0)
  {
    if id in s.pending && s.pending[id].phase.Launching? {
      if report.ok {
        GrantKeepsInv(s, id);
      } else {
        LoseKeepsInv(s, id, RefusedOnHost(s.pending[id].record.host, report.reason));
      }
    }
  }

  /** A reply given at once: the promise is made and settled in one step. */
  lemma SettledAtOnceKeepsInv(s: State, t: State, verdict: Verdict)
    requires Inv(s)
    requires t == s.(promises := s.promises + 1, log := s.log + [Settled(s.promises, verdict)])
    ensures Inv(t)
  {
    CountOne(s.log, Settled(s.promises, verdict));
    NothingDecided(s, t);
  }

  /** Letting go of an attached entry decides nothing. */
  lemma ForgetKeepsInv(s: State, id: string)
    requires Inv(s) && id in s.pending && s.pending[id].phase.Attached?
    ensures Inv(s.(pending := s.pending - {id}))
  {
    var t := s.(pending := s.pending - {id});
    forall n: nat ensures Fates(t, n) == if n < t.launches then 1 else 0 {
      assert Fates(s, n) == if n < s.launches then 1 else 0;
      OneIdTouched(s, t, id, n);
    }
  }

  lemma HoldKeepsSlots(s: State, id: string)
    requires SlotsOk(s) && PromisesOk(s) && id in s.pending && s.pending[id].phase.Acked?
    ensures SlotsOk(PlacedReportStep(s, id, Report(true, None)))
  {
  }

  lemma HoldKeepsInv(s: State, id: string)
    requires Inv(s) && id in s.pending && s.pending[id].phase.Acked?
    ensures Inv(PlacedReportStep(s, id, Report(true, None)))
  {
    var t := PlacedReportStep(s, id, Report(true, None));
    assert SlotsOk(t) by { HoldKeepsSlots(s, id); }
    assert OneFateEach(t) && AttachedAnnounced(t) by { NothingDecided(s, t); }
    assert PromisesOk(t);
    assert GrantsOk(t);
  }

  lemma PlacedKeepsInv(s: State, id: string, report: Report)
    requires Inv(s)
    ensures Inv(PlacedReportStep(s, id, report))
  {
    var t := PlacedReportStep(s, id, report);
    if id in s.pending && s.pending[id].phase.Attached? {
      ForgetKeepsInv(s, id);
      SettledAtOnceKeepsInv(s.(pending := s.pending - {id}), t, VAttached);
    } else if id !in s.pending || !s.pending[id].phase.Acked? {
      SettledAtOnceKeepsInv(s, t, VFailed(NotWaiting(id, PlacedReport)));
    } else if report.ok {
      HoldKeepsInv(s, id);
    } else {
      var reason := NotPlaced(s.pending[id].record.host, report.reason);
      LoseKeepsInv(s, id, reason);
      SettledAtOnceKeepsInv(Lose(s, id, reason), t, VFailed(reason));
    }
  }

  lemma AttachedCounts(s: State, id: string)
    requires Undecided(s, id)
    ensures forall k :: Count(AttachedStep(s, id).log, k)
                     == Count(s.log, k) + One(k == KAnnounced(s.pending[id].launch))
                        + One(s.pending[id].waiter.Some? && k == KSettled(s.pending[id].waiter.value))
  {
    var slot := s.pending[id];
    CountOne(s.log, Announced(slot.launch));
    AnswerCounts(s.(log := s.log + [Announced(slot.launch)]), slot.waiter, VAttached);
  }

  /** The launch held at `id` moves from undecided to one other fate; every other launch keeps its own. */
  lemma OneLaunchDecided(s: State, t: State, id: string)
    requires SlotsOk(s) && OneFateEach(s) && Undecided(s, id) && t.launches == s.launches && !Undecided(t, id)
    requires forall k :: k != id ==> (Undecided(t, k) <==> Undecided(s, k))
    requires forall k :: k != id && k in s.pending && k in t.pending ==> t.pending[k].launch == s.pending[k].launch
    requires t.dropped == s.dropped
    requires forall n: nat :: Count(t.log, KAnnounced(n)) + Count(t.log, KLost(n))
                         == Count(s.log, KAnnounced(n)) + Count(s.log, KLost(n)) + One(n == s.pending[id].launch)
    ensures OneFateEach(t)
  {
    forall n: nat ensures Fates(t, n) == if n < t.launches then 1 else 0 {
      assert Fates(s, n) == if n < s.launches then 1 else 0;
      OneIdTouched(s, t, id, n);
      assert HoldsUndecided(s, id, n) ==> IsUndecided(s, n);
    }
  }

  lemma AttachedAnnounces(s: State, id: string)
    requires SlotsOk(s) && OneFateEach(s) && Undecided(s, id)
    ensures Count(AttachedStep(s, id).log, KAnnounced(s.pending[id].launch)) == 1
  {
    AttachedCounts(s, id);
    assert HoldsUndecided(s, id, s.pending[id].launch);
    assert Fates(s, s.pending[id].launch) == 1;
  }

  lemma AttachedKeepsFates(s: State, id: string)
    requires SlotsOk(s) && FatesOk(s) && Undecided(s, id)
    ensures FatesOk(AttachedStep(s, id))
  {
    var t := AttachedStep(s, id);
    assert OneFateEach(t) by { AttachedCounts(s, id); OneLaunchDecided(s, t, id); }
    assert AttachedAnnounced(t) by { AttachedCounts(s, id); AttachedAnnounces(s, id); }
    assert GrantsOk(t) by { AttachedCounts(s, id); }
  }

  lemma AttachedKeepsSlots(s: State, id: string)
    requires SlotsOk(s) && Undecided(s, id)
    ensures SlotsOk(AttachedStep(s, id))
  {
  }

  lemma AttachedKeepsInv(s: State, id: string)
    requires Inv(s)
    ensures Inv(AttachedStep(s, id))
  {
    if Undecided(s, id) {
      assert FatesOk(AttachedStep(s, id)) by { AttachedKeepsFates(s, id); }
      assert SlotsOk(AttachedStep(s, id)) by { AttachedKeepsSlots(s, id); }
      assert PromisesOk(AttachedStep(s, id)) by { AttachedCounts(s, id); }
    }
  }

  lemma ExpireKeepsInv(s: State, id: string)
    requires Inv(s)
    ensures Inv(ExpireStep(s, id))
  {
    if id in s.pending {
      if s.pending[id].phase.Attached? {
        ForgetKeepsInv(s, id);
      } else {
        LoseKeepsInv(s, id, ExpiryReason(s.pending[id].phase, s.pending[id].record).value);
      }
    }
  }

  lemma WaitOverKeepsSlots(s: State, p: nat)
    requires SlotsOk(s)
    ensures SlotsOk(WaitOverStep(s, p))
  {
  }

  lemma WaitOverKeepsInv(s: State, p: nat)
    requires Inv(s)
    ensures Inv(WaitOverStep(s, p))
  {
    if p in s.waiting {
      var t := WaitOverStep(s, p);
      CountOne(s.log, Settled(p, VPending));
      assert SlotsOk(t) by { WaitOverKeepsSlots(s, p); }
      assert OneFateEach(t) && AttachedAnnounced(t) by { NothingDecided(s, t); }
      assert PromisesOk(t);
      assert GrantsOk(t);
    }
  }

  lemma CloseKeepsInv(s: State)
    requires Inv(s)
    ensures Inv(CloseStep(s))
  {
    var t := CloseStep(s);
    forall n: nat ensures Fates(t, n) == if n < t.launches then 1 else 0 {
      assert Fates(s, n) == if n < s.launches then 1 else 0;
      assert forall id :: !HoldsUndecided(t, id, n);
      if IsUndecided(s, n) {
        var id :| HoldsUndecided(s, id, n);
        assert n in UndecidedLaunches(s);
      } else if n in UndecidedLaunches(s) {
        var id :| id in s.pending && Undecided(s, id) && s.pending[id].launch == n;
        assert HoldsUndecided(s, id, n);
      }
    }
  }

  lemma StepKeepsInv(s: State, e: Event)
    requires Inv(s)
    ensures Inv(Step(s, e))
  {
    match e
    case EOpen(record) => OpenKeepsInv(s, record);
    case EReady(id, report) => ReadyKeepsInv(s, id, report);
    case EPlaced(id, report) => PlacedKeepsInv(s, id, report);
    case EAttached(id) => AttachedKeepsInv(s, id);
    case EExpire(id) => ExpireKeepsInv(s, id);
    case EWaitOver(p) => WaitOverKeepsInv(s, p);
    case EClose => CloseKeepsInv(s);
  }

  lemma {:induction false} RunKeepsInv(s: State, events: seq<Event>)
    requires Inv(s)
    ensures Inv(Run(s, events))
    decreases |events|
  {
    if events != [] {
      StepKeepsInv(s, events[0]);
      RunKeepsInv(Step(s, events[0]), events[1..]);
    }
  }

  // ----- what every run keeps -----

  /** Announced or lost, at most once and never both; at most one ok reply to a ready report. */
  lemma AnnouncedOrLostNeverBoth(events: seq<Event>, n: nat)
    ensures var s := Run(Init, events);
            && Count(s.log, KAnnounced(n)) + Count(s.log, KLost(n)) <= 1
            && Count(s.log, KGranted(n)) <= 1
  {
    InitOk();
    RunKeepsInv(Init, events);
    assert Fates(Run(Init, events), n) <= 1;
  }

  /** Conservation: each launch is in exactly one of four ways accounted for. */
  lemma EveryLaunchIsAccountedFor(events: seq<Event>, n: nat)
    requires n < Run(Init, events).launches
    ensures var s := Run(Init, events);
            Count(s.log, KAnnounced(n)) + Count(s.log, KLost(n))
            + One(n in s.dropped) + One(IsUndecided(s, n)) == 1
  {
    InitOk();
    RunKeepsInv(Init, events);
    assert Fates(Run(Init, events), n) == 1;
  }

  /** A `placed` reply is still held exactly as long as it has not been given, and is given once. */
  lemma RepliesAreGivenOnce(events: seq<Event>, p: nat)
    ensures var s := Run(Init, events);
            Count(s.log, KSettled(p)) == One(p < s.promises && p !in s.waiting)
  {
    InitOk();
    RunKeepsInv(Init, events);
  }

  lemma StepOnlyDropsMore(s: State, e: Event)
    ensures s.dropped <= Step(s, e).dropped && s.launches <= Step(s, e).launches
  {
  }

  lemma {:induction false} RunOnlyDropsMore(s: State, events: seq<Event>)
    ensures s.dropped <= Run(s, events).dropped && s.launches <= Run(s, events).launches
    decreases |events|
  {
    if events != [] {
      StepOnlyDropsMore(s, events[0]);
      RunOnlyDropsMore(Step(s, events[0]), events[1..]);
    }
  }

  /** A launch replaced or cleared while undecided is neither announced nor lost, then or later. */
  lemma ReplacedOrClosedStaysSilent(s: State, id: string, e: Event, later: seq<Event>)
    requires Inv(s) && Undecided(s, id)
    requires e.EClose? || (e.EOpen? && e.record.agentId == id)
    ensures var t := Run(Step(s, e), later);
            Count(t.log, KAnnounced(s.pending[id].launch)) == 0 && Count(t.log, KLost(s.pending[id].launch)) == 0
  {
    var n := s.pending[id].launch;
    StepKeepsInv(s, e);
    assert n in Step(s, e).dropped;
    RunOnlyDropsMore(Step(s, e), later);
    RunKeepsInv(Step(s, e), later);
    assert n in Run(Step(s, e), later).dropped;
    assert Fates(Run(Step(s, e), later), n) == 1;
  }

  ghost predicate IsHeld(s: State, n: nat) { exists id :: id in s.pending && s.pending[id].launch == n }

  /** Two logs have the same announcements, losses and ok replies of a launch. */
  ghost predicate SaysNoMore(was: seq<Effect>, now: seq<Effect>, n: nat) {
    && Count(now, KAnnounced(n)) == Count(was, KAnnounced(n))
    && Count(now, KLost(n)) == Count(was, KLost(n))
    && Count(now, KGranted(n)) == Count(was, KGranted(n))
  }

  /** Once its entry has left the map, a launch gets no further announcement, loss or ok reply. */
  lemma {:induction false} GoneIsSilentForever(s: State, events: seq<Event>, n: nat)
    requires n < s.launches && !IsHeld(s, n)
    ensures SaysNoMore(s.log, Run(s, events).log, n)
    decreases |events|
  {
    if events != [] {
      GoneStepSilent(s, events[0], n);
      StepOnlyDropsMore(s, events[0]);
      GoneIsSilentForever(Step(s, events[0]), events[1..], n);
    }
  }

  /** A timer that can fire: an entry's in the map, or a held reply's. */
  predicate TimerEnabled(s: State, e: Event) {
    (e.EExpire? && e.id in s.pending) || (e.EWaitOver? && e.promise in s.waiting)
  }

  ghost predicate CanFire(s: State, fired: seq<Event>)
    decreases |fired|
  {
    fired == [] || (TimerEnabled(s, fired[0]) && CanFire(Step(s, fired[0]), fired[1..]))
  }

  lemma ExpiryShrinks(s: State, id: string)
    ensures var t := ExpireStep(s, id);
            t.pending == s.pending - {id} && t.waiting <= s.waiting && t.launches == s.launches && t.promises == s.promises
  {
  }

  lemma OneFiring(s: State, e: Event)
    requires SlotsOk(s) && TimerEnabled(s, e)
    ensures Step(s, e).launches == s.launches && Step(s, e).promises == s.promises
    ensures |Step(s, e).pending| + |Step(s, e).waiting| < |s.pending| + |s.waiting|
  {
    if e.EExpire? {
      ExpiryShrinks(s, e.id);
      assert (s.pending - {e.id}).Keys == s.pending.Keys - {e.id};
      Counting.SubsetCount(Step(s, e).waiting, s.waiting);
    } else {
      assert WaitOverStep(s, e.promise).pending.Keys == s.pending.Keys;
    }
  }

  /** However the timers fire, with no report in between, they come to an end. */
  lemma {:induction false} FiringsEnd(s: State, fired: seq<Event>)
    requires Inv(s) && CanFire(s, fired)
    ensures var t := Run(s, fired);
            && |t.pending| + |t.waiting| + |fired| <= |s.pending| + |s.waiting|
            && t.launches == s.launches && t.promises == s.promises
    decreases |fired|
  {
    if fired != [] {
      OneFiring(s, fired[0]);
      StepKeepsInv(s, fired[0]);
      FiringsEnd(Step(s, fired[0]), fired[1..]);
    }
  }

  /** When, in whatever order, no timer is left to fire, every wait is over: each launch has been announced, lost
    * or dropped exactly once, and each `placed` reply has been given. */
  lemma TimersDecideEverything(s: State, fired: seq<Event>)
    requires Inv(s) && CanFire(s, fired) && forall e :: !TimerEnabled(Run(s, fired), e)
    ensures Run(s, fired).pending == map[] && Run(s, fired).waiting == {}
    ensures forall n: nat :: n < s.launches ==>
              var t := Run(s, fired);
              Count(t.log, KAnnounced(n)) + Count(t.log, KLost(n)) + One(n in t.dropped) == 1
    ensures forall p: nat :: p < s.promises ==> Count(Run(s, fired).log, KSettled(p)) == 1
  {
    var t := Run(s, fired);
    FiringsEnd(s, fired);
    RunKeepsInv(s, fired);
    if id :| id in t.pending { assert TimerEnabled(t, EExpire(id)); }
    if p :| p in t.waiting { assert TimerEnabled(t, EWaitOver(p)); }
    forall n: nat | n < t.launches
      ensures Count(t.log, KAnnounced(n)) + Count(t.log, KLost(n)) + One(n in t.dropped) == 1
    {
      assert Fates(t, n) == 1;
    }
  }

  // ----- the steps of a launch no longer held -----

  lemma Unheard(log: seq<Effect>, e: Effect, n: nat)
    requires KindOf(e) != KAnnounced(n) && KindOf(e) != KLost(n) && KindOf(e) != KGranted(n)
    ensures SaysNoMore(log, log + [e], n)
  {
    CountOne(log, e);
  }

  /** A step says nothing about a launch it no longer holds, and never takes it back. */
  lemma GoneStepSilent(s: State, e: Event, n: nat)
    requires n < s.launches && !IsHeld(s, n)
    ensures !IsHeld(Step(s, e), n)
    ensures SaysNoMore(s.log, Step(s, e).log, n)
  {
    match e
    case EOpen(record) =>
    case EReady(id, report) => GoneReadySilent(s, id, report, n);
    case EPlaced(id, report) => GonePlacedSilent(s, id, report, n);
    case EAttached(id) => GoneAttachedSilent(s, id, n);
    case EExpire(id) => GoneExpireSilent(s, id, n);
    case EWaitOver(p) => Unheard(s.log, Settled(p, VPending), n);
    case EClose =>
  }

  lemma GoneAttachedSilent(s: State, id: string, n: nat)
    requires n < s.launches && !IsHeld(s, n)
    ensures !IsHeld(AttachedStep(s, id), n)
    ensures SaysNoMore(s.log, AttachedStep(s, id).log, n)
  {
    if Undecided(s, id) { AttachedCounts(s, id); }
  }

  lemma GoneReadySilent(s: State, id: string, report: Report, n: nat)
    requires n < s.launches && !IsHeld(s, n)
    ensures !IsHeld(Ready(s, id, report).0, n)
    ensures SaysNoMore(s.log, Ready(s, id, report).0.log, n)
  {
    if id in s.pending && s.pending[id].phase.Launching? {
      assert s.pending[id].launch != n;
      if report.ok {
        Unheard(s.log, ReadyGranted(s.pending[id].launch), n);
      } else {
        GoneLoseSilent(s, id, RefusedOnHost(s.pending[id].record.host, report.reason), n);
      }
    }
  }

  lemma GoneLoseSilent(s: State, id: string, reason: Reason, n: nat)
    requires n < s.launches && !IsHeld(s, n) && id in s.pending
    ensures !IsHeld(Lose(s, id, reason), n)
    ensures SaysNoMore(s.log, Lose(s, id, reason).log, n)
  {
    LoseCounts(s, id, reason);
  }

  lemma GoneExpireSilent(s: State, id: string, n: nat)
    requires n < s.launches && !IsHeld(s, n)
    ensures !IsHeld(ExpireStep(s, id), n)
    ensures SaysNoMore(s.log, ExpireStep(s, id).log, n)
  {
    if Undecided(s, id) {
      GoneLoseSilent(s, id, ExpiryReason(s.pending[id].phase, s.pending[id].record).value, n);
    }
  }

  lemma GonePlacedSilent(s: State, id: string, report: Report, n: nat)
    requires n < s.launches && !IsHeld(s, n)
    ensures !IsHeld(PlacedReportStep(s, id, report), n)
    ensures SaysNoMore(s.log, PlacedReportStep(s, id, report).log, n)
  {
    Unheard(s.log, Settled(s.promises, VAttached), n);
    Unheard(s.log, Settled(s.promises, VFailed(NotWaiting(id, PlacedReport))), n);
    if id in s.pending && s.pending[id].phase.Acked? && !report.ok {
      GoneNotPlacedSilent(s.(promises := s.promises + 1), id, report, s.promises, n);
    }
  }

  lemma GoneNotPlacedSilent(s: State, id: string, report: Report, p: nat, n: nat)
    requires n < s.launches && !IsHeld(s, n) && id in s.pending
    ensures var reason := NotPlaced(s.pending[id].record.host, report.reason);
            var t := Lose(s, id, reason);
            && !IsHeld(t, n)
            && SaysNoMore(s.log, t.log + [Settled(p, VFailed(reason))], n)
  {
    var reason := NotPlaced(s.pending[id].record.host, report.reason);
    GoneLoseSilent(s, id, reason, n);
    Unheard(Lose(s, id, reason).log, Settled(p, VFailed(reason)), n);
  }
}
