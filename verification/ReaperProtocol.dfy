/** The settle-then-probe queue of agents that detached, as steps over values: what each step does to the
  * timers and the queue, and what becomes of every schedule over a whole run. */
module ReaperProtocol {
  import opened Counting

  const REAP_BATCH: nat := 25

  /** `n` numbers the schedules in order. */
  datatype Event = Scheduled(n: nat, id: string) | Checked(n: nat, id: string) | Cancelled(n: nat, id: string)
    | Replaced(n: nat, id: string) | Closed(ns: set<nat>)

  /** `armed` is the event loop's side: the settle timers that can still fire. `owners` and `serial` number
    * the schedules: whose each was, and the last one of each agent. */
  datatype State = State(pending: map<string, nat>, due: seq<string>, drain: bool, armed: map<nat, string>,
                         owners: seq<string>, serial: map<string, nat>, history: seq<Event>)

  /** What a check may do to the queue while it runs. */
  datatype Act = Reschedule(id: string) | Release(id: string)

  type Check = string -> seq<Act>

  datatype Step = ScheduleStep(id: string) | CancelStep(id: string) | CloseStep
    | SettleStep(timer: nat, check: Check) | DrainStep(check: Check)

  datatype Ticket = Ticket(id: string, n: nat)

  function Init(): State { State(map[], [], false, map[], [], map[], []) }

  predicate Waiting(s: State, id: string) { id in s.pending || id in s.due }

  function Serial(s: State, id: string): nat { if id in s.serial then s.serial[id] else 0 }

  function Without(q: seq<string>, id: string): seq<string> {
    if q == [] then [] else if q[0] == id then Without(q[1..], id) else [q[0]] + Without(q[1..], id)
  }

  function Dropped(s: State, id: string): State {
    s.(pending := s.pending - {id}, due := Without(s.due, id),
       armed := if id in s.pending then s.armed - {s.pending[id]} else s.armed)
  }

  function Noted(s: State, e: Event): State { s.(history := s.history + [e]) }

  function Cancel(s: State, id: string): State {
    if Waiting(s, id) then Noted(Dropped(s, id), Cancelled(Serial(s, id), id)) else Dropped(s, id)
  }

  function Replace(s: State, id: string): State {
    if Waiting(s, id) then Noted(Dropped(s, id), Replaced(Serial(s, id), id)) else Dropped(s, id)
  }

  /** A settle timer of its own for `id`. */
  function Armed(s: State, id: string): State {
    var n := |s.owners|;
    Noted(s.(pending := s.pending[id := n], armed := s.armed[n := id], owners := s.owners + [id],
             serial := s.serial[id := n]), Scheduled(n, id))
  }

  function Schedule(s: State, id: string): State {
    Armed(Replace(s, id), id)
  }

  /** The schedules still to end. */
  function Open(s: State): set<nat> { set id | id in s.pending.Keys + Members(s.due) :: Serial(s, id) }

  function Close(s: State): State {
    Noted(s.(pending := map[], due := [], drain := false, armed := map[]), Closed(Open(s)))
  }

  function ActOn(s: State, act: Act): State { if act.Reschedule? then Schedule(s, act.id) else Cancel(s, act.id) }

  function Acted(s: State, acts: seq<Act>): State
    decreases |acts|
  {
    if acts == [] then s else Acted(ActOn(s, acts[0]), acts[1..])
  }

  function Taken(s: State, t: Ticket): State { Noted(s.(due := Without(s.due, t.id)), Checked(t.n, t.id)) }

  /** The members of a batch in turn, whatever became of them since it was drawn up. */
  function Batch(s: State, batch: seq<Ticket>, check: Check): State
    decreases |batch|
  {
    if batch == [] then s else Batch(Acted(Taken(s, batch[0]), check(batch[0].id)), batch[1..], check)
  }

  function Tickets(s: State): seq<Ticket> {
    var size := if |s.due| < REAP_BATCH then |s.due| else REAP_BATCH;
    seq(size, i requires 0 <= i < size => Ticket(s.due[i], Serial(s, s.due[i])))
  }

  function RunBatch(s: State, check: Check): State { Batch(s, Tickets(s), check).(drain := true) }

  function Settled(s: State, timer: nat): State
    requires timer in s.armed
  {
    var id := s.armed[timer];
    s.(armed := s.armed - {timer}, pending := s.pending - {id}, due := if id in s.due then s.due else s.due + [id])
  }

  predicate Enabled(s: State, step: Step) {
    match step
    case SettleStep(timer, _) => timer in s.armed
    case DrainStep(_) => s.drain
    case _ => true
  }

  function Next(s: State, step: Step): State
    requires Enabled(s, step)
  {
    match step
    case ScheduleStep(id) => Schedule(s, id)
    case CancelStep(id) => Cancel(s, id)
    case CloseStep => Close(s)
    case SettleStep(timer, check) => var t := Settled(s, timer); if t.drain then t else RunBatch(t, check)
    case DrainStep(check) => var t := s.(drain := false); if t.due != [] then RunBatch(t, check) else t
  }

  ghost predicate CanRun(s: State, steps: seq<Step>)
    decreases |steps|
  {
    steps == [] || (Enabled(s, steps[0]) && CanRun(Next(s, steps[0]), steps[1..]))
  }

  ghost function Run(s: State, steps: seq<Step>): State
    requires CanRun(s, steps)
    decreases |steps|
  {
    if steps == [] then s else Run(Next(s, steps[0]), steps[1..])
  }

  // ----- what every step keeps -----

  /** Each pending entry has exactly one settle timer, and each settle timer a pending entry. */
  ghost predicate Timed(s: State) {
    && (forall id :: id in s.pending ==> s.pending[id] in s.armed && s.armed[s.pending[id]] == id)
    && (forall n :: n in s.armed ==> s.armed[n] in s.pending && s.pending[s.armed[n]] == n)
  }

  ghost predicate Numbered(s: State) {
    && (forall id :: id in s.serial ==> s.serial[id] < |s.owners| && s.owners[s.serial[id]] == id)
    && (forall id :: id in s.pending ==> id in s.serial && s.serial[id] == s.pending[id])
    && (forall id :: id in s.due ==> id in s.serial)
    && (forall n :: n in s.armed ==> n < |s.owners|)
  }

  ghost predicate Queued(s: State) { Distinct(s.due) && forall id :: id in s.due ==> id !in s.pending }

  /** What holds even inside a batch. */
  ghost predicate Ordered(s: State) { Timed(s) && Numbered(s) && Queued(s) }

  /** Between events, a queue with anyone in it is about to be drained. */
  ghost predicate Inv(s: State) { Ordered(s) && (s.due != [] ==> s.drain) }

  lemma {:induction false} WithoutIs(q: seq<string>, id: string)
    ensures forall x :: x in Without(q, id) <==> x in q && x != id
    ensures |Without(q, id)| <= |q|
    ensures Distinct(q) ==> Distinct(Without(q, id))
  {
    if q != [] {
      assert q == [q[0]] + q[1..];
      WithoutIs(q[1..], id);
      if Distinct(q) {
        assert Distinct(q[1..]) && q[0] !in q[1..];
        assert forall x :: x in Without(q[1..], id) ==> x != q[0];
      }
    }
  }

  lemma DroppedKeeps(s: State, id: string)
    requires Ordered(s)
    ensures Ordered(Dropped(s, id)) && !Waiting(Dropped(s, id), id)
    ensures forall x :: x != id ==> (x in Dropped(s, id).due <==> x in s.due)
  {
    WithoutIs(s.due, id);
  }

  lemma ArmedKeeps(s: State, id: string)
    requires Ordered(s) && !Waiting(s, id)
    ensures Ordered(Armed(s, id))
  {
  }

  lemma CancelKeeps(s: State, id: string)
    requires Ordered(s)
    ensures Ordered(Cancel(s, id))
  {
    DroppedKeeps(s, id);
  }

  lemma ScheduleKeeps(s: State, id: string)
    requires Ordered(s)
    ensures Ordered(Schedule(s, id))
  {
    DroppedKeeps(s, id);
    ArmedKeeps(Replace(s, id), id);
  }

  lemma {:induction false} ActedKeeps(s: State, acts: seq<Act>)
    requires Ordered(s)
    ensures Ordered(Acted(s, acts))
    decreases |acts|
  {
    if acts != [] {
      CancelKeeps(s, acts[0].id);
      ScheduleKeeps(s, acts[0].id);
      ActedKeeps(ActOn(s, acts[0]), acts[1..]);
    }
  }

  lemma TakenKeeps(s: State, t: Ticket)
    requires Ordered(s)
    ensures Ordered(Taken(s, t))
  {
    WithoutIs(s.due, t.id);
  }

  lemma {:induction false} BatchKeeps(s: State, batch: seq<Ticket>, check: Check)
    requires Ordered(s)
    ensures Ordered(Batch(s, batch, check))
    decreases |batch|
  {
    if batch != [] {
      TakenKeeps(s, batch[0]);
      ActedKeeps(Taken(s, batch[0]), check(batch[0].id));
      BatchKeeps(Acted(Taken(s, batch[0]), check(batch[0].id)), batch[1..], check);
    }
  }

  lemma DrainAside(s: State, drain: bool)
    requires Ordered(s)
    ensures Ordered(s.(drain := drain))
  {
  }

  lemma SettledKeeps(s: State, timer: nat)
    requires Ordered(s) && timer in s.armed
    ensures Ordered(Settled(s, timer))
    ensures Settled(s, timer).due == s.due + [s.armed[timer]]
  {
  }

  /** Pending and due stay apart, timers and pending entries match one to one, and a queue with anyone in it
    * is about to be drained, whatever a check does to the queue. */
  lemma NextKeeps(s: State, step: Step)
    requires Inv(s) && Enabled(s, step)
    ensures Inv(Next(s, step))
  {
    match step
    case ScheduleStep(id) =>
      ScheduleKeeps(s, id);
      WithoutIs(s.due, id);
    case CancelStep(id) =>
      CancelKeeps(s, id);
      WithoutIs(s.due, id);
    case CloseStep =>
    case SettleStep(timer, check) =>
      SettledKeeps(s, timer);
      BatchKeeps(Settled(s, timer), Tickets(Settled(s, timer)), check);
    case DrainStep(check) =>
      var t := s.(drain := false);
      assert Ordered(t);
      BatchKeeps(t, Tickets(t), check);
  }

  lemma {:induction false} RunKeeps(s: State, steps: seq<Step>)
    requires Inv(s) && CanRun(s, steps)
    ensures Inv(Run(s, steps))
    decreases |steps|
  {
    if steps != [] {
      NextKeeps(s, steps[0]);
      RunKeeps(Next(s, steps[0]), steps[1..]);
    }
  }

  // ----- what becomes of a schedule -----

  predicate Ends(e: Event, n: nat) { if e.Closed? then n in e.ns else !e.Scheduled? && e.n == n }

  function Fates(history: seq<Event>, n: nat): nat {
    if history == [] then 0
    else Fates(history[..|history| - 1], n) + if Ends(history[|history| - 1], n) then 1 else 0
  }

  lemma FatesOfMore(history: seq<Event>, e: Event, n: nat)
    ensures Fates(history + [e], n) == Fates(history, n) + if Ends(e, n) then 1 else 0
  {
    assert (history + [e])[..|history|] == history;
  }

  predicate Active(s: State, n: nat) {
    n < |s.owners| && Serial(s, s.owners[n]) == n && Waiting(s, s.owners[n])
  }

  /** Schedule `n` has ended exactly once, or is still waiting and has not. */
  predicate Once(s: State, n: nat) { Fates(s.history, n) == if n < |s.owners| && !Active(s, n) then 1 else 0 }

  ghost predicate Accounted(s: State) { forall n: nat :: Once(s, n) }

  lemma DroppedActive(s: State, id: string, n: nat)
    ensures Active(Dropped(s, id), n) <==> Active(s, n) && s.owners[n] != id
  {
    WithoutIs(s.due, id);
  }

  /** Dropping an agent ends its schedule, and no other. */
  lemma EndedOnce(s: State, id: string, e: Event, n: nat)
    requires Waiting(s, id) && Once(s, n) && (Ends(e, n) <==> n == Serial(s, id))
    requires Serial(s, id) < |s.owners| && s.owners[Serial(s, id)] == id
    ensures Once(Noted(Dropped(s, id), e), n)
  {
    if n < |s.owners| { DroppedActive(s, id, n); }
    FatesOfMore(s.history, e, n);
  }

  lemma NothingEnded(s: State, id: string, n: nat)
    requires !Waiting(s, id) && Once(s, n)
    ensures Once(Dropped(s, id), n)
  {
    if n < |s.owners| { DroppedActive(s, id, n); }
  }

  lemma CancelAccounts(s: State, id: string, n: nat)
    requires Ordered(s) && Once(s, n)
    ensures Once(Cancel(s, id), n)
  {
    if Waiting(s, id) {
      EndedOnce(s, id, Cancelled(Serial(s, id), id), n);
    } else {
      NothingEnded(s, id, n);
    }
  }

  lemma ArmedAccounts(s: State, id: string, n: nat)
    requires Ordered(s) && !Waiting(s, id) && Once(s, n)
    ensures Once(Armed(s, id), n)
  {
    FatesOfMore(s.history, Scheduled(|s.owners|, id), n);
  }

  lemma ReplaceAccounts(s: State, id: string, n: nat)
    requires Ordered(s) && Once(s, n)
    ensures Once(Replace(s, id), n)
  {
    if Waiting(s, id) {
      EndedOnce(s, id, Replaced(Serial(s, id), id), n);
    } else {
      NothingEnded(s, id, n);
    }
  }

  lemma ScheduleAccounts(s: State, id: string, n: nat)
    requires Ordered(s) && Once(s, n)
    ensures Once(Schedule(s, id), n)
  {
    ReplaceAccounts(s, id, n);
    DroppedKeeps(s, id);
    ArmedAccounts(Replace(s, id), id, n);
  }

  predicate Touches(acts: seq<Act>, id: string) { exists i :: 0 <= i < |acts| && acts[i].id == id }

  /** No check touches a later member of its own batch. */
  predicate Behaved(batch: seq<Ticket>, check: Check) {
    forall i, j :: 0 <= i < j < |batch| ==> !Touches(check(batch[i].id), batch[j].id)
  }

  /** The members not reached yet are still queued under the schedule they were drawn up for. */
  ghost predicate Drawn(s: State, batch: seq<Ticket>) {
    && (forall i :: 0 <= i < |batch| ==> batch[i].id in s.due && Serial(s, batch[i].id) == batch[i].n)
    && (forall i, j :: 0 <= i < j < |batch| ==> batch[i].id != batch[j].id)
  }

  lemma {:induction false} ActedAccounts(s: State, acts: seq<Act>, n: nat)
    requires Ordered(s) && Once(s, n)
    ensures Once(Acted(s, acts), n)
    decreases |acts|
  {
    if acts != [] {
      CancelKeeps(s, acts[0].id);
      ScheduleKeeps(s, acts[0].id);
      CancelAccounts(s, acts[0].id, n);
      ScheduleAccounts(s, acts[0].id, n);
      ActedAccounts(ActOn(s, acts[0]), acts[1..], n);
    }
  }

  lemma {:induction false} ActedSpares(s: State, acts: seq<Act>, id: string)
    requires !Touches(acts, id) && id in s.due
    ensures id in Acted(s, acts).due && Serial(Acted(s, acts), id) == Serial(s, id)
    decreases |acts|
  {
    if acts != [] {
      WithoutIs(s.due, acts[0].id);
      assert acts[0].id != id;
      assert forall i :: 0 <= i < |acts[1..]| ==> acts[1..][i] == acts[i + 1];
      ActedSpares(ActOn(s, acts[0]), acts[1..], id);
    }
  }

  lemma TakenActive(s: State, t: Ticket, n: nat)
    requires Ordered(s) && n < |s.owners| && t.id in s.due
    ensures Active(Taken(s, t), n) <==> Active(s, n) && s.owners[n] != t.id
  {
    WithoutIs(s.due, t.id);
  }

  lemma TakenAccounts(s: State, t: Ticket, n: nat)
    requires Ordered(s) && Once(s, n) && t.id in s.due && Serial(s, t.id) == t.n
    ensures Once(Taken(s, t), n) && Ordered(Taken(s, t))
  {
    TakenKeeps(s, t);
    if n < |s.owners| { TakenActive(s, t, n); }
    FatesOfMore(s.history, Checked(t.n, t.id), n);
  }

  lemma {:induction false} BatchAccounts(s: State, batch: seq<Ticket>, check: Check, n: nat)
    requires Ordered(s) && Once(s, n) && Drawn(s, batch) && Behaved(batch, check)
    ensures Once(Batch(s, batch, check), n)
    decreases |batch|
  {
    if batch != [] {
      var t := Taken(s, batch[0]);
      var u := Acted(t, check(batch[0].id));
      TakenAccounts(s, batch[0], n);
      ActedKeeps(t, check(batch[0].id));
      ActedAccounts(t, check(batch[0].id), n);
      assert Drawn(u, batch[1..]) by { StaysDrawn(s, batch, check); }
      assert Behaved(batch[1..], check);
      BatchAccounts(u, batch[1..], check, n);
    }
  }

  lemma StaysDrawn(s: State, batch: seq<Ticket>, check: Check)
    requires batch != [] && Drawn(s, batch) && Behaved(batch, check)
    ensures Drawn(Acted(Taken(s, batch[0]), check(batch[0].id)), batch[1..])
  {
    var t := Taken(s, batch[0]);
    forall i | 0 <= i < |batch[1..]|
      ensures batch[1..][i].id in Acted(t, check(batch[0].id)).due
      ensures Serial(Acted(t, check(batch[0].id)), batch[1..][i].id) == batch[1..][i].n
    {
      assert batch[1..][i] == batch[i + 1];
      WithoutIs(s.due, batch[0].id);
      ActedSpares(t, check(batch[0].id), batch[i + 1].id);
    }
  }

  /** The batch a step draws up, if it runs one. */
  function BatchOf(s: State, step: Step): seq<Ticket>
    requires Enabled(s, step)
  {
    match step
    case SettleStep(timer, _) => var t := Settled(s, timer); if t.drain then [] else Tickets(t)
    case DrainStep(_) => Tickets(s)
    case _ => []
  }

  predicate BehavedStep(s: State, step: Step)
    requires Enabled(s, step)
  {
    match step
    case SettleStep(_, check) => Behaved(BatchOf(s, step), check)
    case DrainStep(check) => Behaved(BatchOf(s, step), check)
    case _ => true
  }

  lemma NextAccounts(s: State, step: Step, n: nat)
    requires Inv(s) && Enabled(s, step) && BehavedStep(s, step) && Once(s, n)
    ensures Once(Next(s, step), n)
  {
    match step
    case ScheduleStep(id) => ScheduleAccounts(s, id, n);
    case CancelStep(id) => CancelAccounts(s, id, n);
    case CloseStep =>
    case SettleStep(timer, check) => SettleAccounts(s, timer, check, n);
    case DrainStep(check) => DrainAccounts(s, check, n);
  }

  lemma RunBatchAccounts(s: State, check: Check, n: nat)
    requires Ordered(s) && Once(s, n) && Behaved(Tickets(s), check)
    ensures Once(RunBatch(s, check), n)
  {
    BatchAccounts(s, Tickets(s), check, n);
  }

  lemma DrainAccounts(s: State, check: Check, n: nat)
    requires Inv(s) && s.drain && Once(s, n)
    requires BehavedStep(s, DrainStep(check))
    ensures Once(Next(s, DrainStep(check)), n)
  {
    var t := s.(drain := false);
    assert Tickets(t) == Tickets(s);
    if t.due != [] { RunBatchAccounts(t, check, n); }
  }

  lemma SettleAccounts(s: State, timer: nat, check: Check, n: nat)
    requires Inv(s) && timer in s.armed && Once(s, n)
    requires BehavedStep(s, SettleStep(timer, check))
    ensures Once(Next(s, SettleStep(timer, check)), n)
  {
    var t := Settled(s, timer);
    SettledKeeps(s, timer);
    assert Once(t, n);
    if !t.drain { RunBatchAccounts(t, check, n); }
  }

  ghost predicate BehavedRun(s: State, steps: seq<Step>)
    requires CanRun(s, steps)
    decreases |steps|
  {
    steps == [] || (BehavedStep(s, steps[0]) && BehavedRun(Next(s, steps[0]), steps[1..]))
  }

  lemma {:induction false} RunAccounts(s: State, steps: seq<Step>, n: nat)
    requires Inv(s) && CanRun(s, steps) && BehavedRun(s, steps) && Once(s, n)
    ensures Once(Run(s, steps), n)
    decreases |steps|
  {
    if steps != [] {
      NextKeeps(s, steps[0]);
      NextAccounts(s, steps[0], n);
      RunAccounts(Next(s, steps[0]), steps[1..], n);
    }
  }

  /** Every schedule ends in exactly one check, cancel, reschedule or close, or is still waiting. */
  lemma EveryScheduleEndsOnce(steps: seq<Step>, n: nat)
    requires CanRun(Init(), steps) && BehavedRun(Init(), steps)
    requires n < |Run(Init(), steps).owners|
    ensures Fates(Run(Init(), steps).history, n) == if Active(Run(Init(), steps), n) then 0 else 1
  {
    RunAccounts(Init(), steps, n);
  }

  // ----- a cancel made too late -----

  /** The member is queued as drawn up, or its schedule has ended already. */
  predicate QueuedOrEnded(s: State, t: Ticket) { (t.id in s.due && Serial(s, t.id) == t.n) || Fates(s.history, t.n) >= 1 }

  lemma CancelEnds(s: State, id: string, t: Ticket)
    requires QueuedOrEnded(s, t)
    ensures QueuedOrEnded(Cancel(s, id), t) && Fates(s.history, t.n) <= Fates(Cancel(s, id).history, t.n)
    ensures id == t.id ==> Fates(Cancel(s, id).history, t.n) >= 1
  {
    WithoutIs(s.due, id);
    FatesOfMore(s.history, Cancelled(Serial(s, id), id), t.n);
  }

  lemma ReplaceEnds(s: State, id: string, t: Ticket)
    requires QueuedOrEnded(s, t)
    ensures QueuedOrEnded(Replace(s, id), t) && Fates(s.history, t.n) <= Fates(Replace(s, id).history, t.n)
    ensures id == t.id ==> Fates(Replace(s, id).history, t.n) >= 1
  {
    WithoutIs(s.due, id);
    FatesOfMore(s.history, Replaced(Serial(s, id), id), t.n);
  }

  lemma ActEnds(s: State, act: Act, t: Ticket)
    requires QueuedOrEnded(s, t)
    ensures QueuedOrEnded(ActOn(s, act), t)
    ensures Fates(s.history, t.n) <= Fates(ActOn(s, act).history, t.n)
    ensures act.id == t.id ==> Fates(ActOn(s, act).history, t.n) >= 1
  {
    if act.Reschedule? {
      ReplaceEnds(s, act.id, t);
    } else {
      CancelEnds(s, act.id, t);
    }
  }

  lemma {:induction false} ActsEnd(s: State, acts: seq<Act>, t: Ticket)
    requires QueuedOrEnded(s, t)
    ensures QueuedOrEnded(Acted(s, acts), t)
    ensures Fates(s.history, t.n) <= Fates(Acted(s, acts).history, t.n)
    ensures Touches(acts, t.id) ==> Fates(Acted(s, acts).history, t.n) >= 1
    decreases |acts|
  {
    if acts != [] {
      ActEnds(s, acts[0], t);
      ActsEnd(ActOn(s, acts[0]), acts[1..], t);
      if Touches(acts, t.id) && acts[0].id != t.id {
        var i :| 0 <= i < |acts| && acts[i].id == t.id;
        assert acts[1..][i - 1].id == t.id;
      }
    }
  }

  lemma TakenEnds(s: State, taken: Ticket, t: Ticket)
    requires QueuedOrEnded(s, t)
    ensures taken.id != t.id ==> QueuedOrEnded(Taken(s, taken), t)
    ensures Fates(Taken(s, taken).history, t.n) == Fates(s.history, t.n) + if taken.n == t.n then 1 else 0
  {
    WithoutIs(s.due, taken.id);
    FatesOfMore(s.history, Checked(taken.n, taken.id), t.n);
  }

  /** A member of the batch is checked whatever became of it, so a schedule that has ended ends again. */
  lemma {:induction false} CheckedAnyway(s: State, batch: seq<Ticket>, check: Check, t: Ticket)
    requires Fates(s.history, t.n) >= 1
    ensures Fates(Batch(s, batch, check).history, t.n) >= Fates(s.history, t.n) + if t in batch then 1 else 0
    decreases |batch|
  {
    if batch != [] {
      TakenEnds(s, batch[0], t);
      ActsEnd(Taken(s, batch[0]), check(batch[0].id), t);
      CheckedAnyway(Acted(Taken(s, batch[0]), check(batch[0].id)), batch[1..], check, t);
    }
  }

  /** Another member's check leaves the member queued or ended, and ended if it touches it. */
  lemma OtherMember(s: State, first: Ticket, check: Check, t: Ticket)
    requires QueuedOrEnded(s, t) && first.id != t.id
    ensures var u := Acted(Taken(s, first), check(first.id));
            QueuedOrEnded(u, t) && (Touches(check(first.id), t.id) ==> Fates(u.history, t.n) >= 1)
  {
    TakenEnds(s, first, t);
    ActsEnd(Taken(s, first), check(first.id), t);
  }

  lemma {:induction false} TouchedEndsTwice(s: State, batch: seq<Ticket>, check: Check, i: nat, j: nat)
    requires i < j < |batch| && Touches(check(batch[i].id), batch[j].id)
    requires forall k :: 0 <= k < j ==> batch[k].id != batch[j].id
    requires QueuedOrEnded(s, batch[j])
    ensures Fates(Batch(s, batch, check).history, batch[j].n) >= 2
    decreases |batch|
  {
    var t := batch[j];
    var u := Acted(Taken(s, batch[0]), check(batch[0].id));
    OtherMember(s, batch[0], check, t);
    assert batch[1..][j - 1] == t;
    if i == 0 {
      CheckedAnyway(u, batch[1..], check, t);
    } else {
      assert batch[1..][i - 1] == batch[i] && forall k :: 0 <= k < j - 1 ==> batch[1..][k] == batch[k + 1];
      TouchedEndsTwice(u, batch[1..], check, i - 1, j - 1);
    }
  }

  lemma UnbehavedEndsTwice(s: State, check: Check) returns (n: nat)
    requires Queued(s) && !Behaved(Tickets(s), check)
    ensures Fates(RunBatch(s, check).history, n) >= 2
  {
    var batch := Tickets(s);
    var i, j :| 0 <= i < j < |batch| && Touches(check(batch[i].id), batch[j].id);
    TouchedEndsTwice(s, batch, check, i, j);
    n := batch[j].n;
  }

  /** The batch is a snapshot: schedules keep ending exactly once just as long as no check cancels or
    * reschedules a member of its own batch that is still to come. */
  lemma AccountedIffBehaved(s: State, step: Step)
    requires Inv(s) && Accounted(s) && Enabled(s, step)
    ensures Accounted(Next(s, step)) <==> BehavedStep(s, step)
  {
    if BehavedStep(s, step) {
      forall n: nat
        ensures Once(Next(s, step), n)
      {
        NextAccounts(s, step, n);
      }
    } else {
      var check := if step.SettleStep? then step.check else step.check;
      var t := if step.SettleStep? then Settled(s, step.timer) else s.(drain := false);
      if step.SettleStep? { SettledKeeps(s, step.timer); }
      assert Queued(t) && BatchOf(s, step) == Tickets(t) && t.due != [];
      var n := UnbehavedEndsTwice(t, check);
      assert !Once(RunBatch(t, check), n);
    }
  }

  // ----- turns -----

  function Checks(history: seq<Event>): nat {
    if history == [] then 0 else Checks(history[..|history| - 1]) + if history[|history| - 1].Checked? then 1 else 0
  }

  lemma ChecksOfMore(history: seq<Event>, e: Event)
    ensures Checks(history + [e]) == Checks(history) + if e.Checked? then 1 else 0
  {
    assert (history + [e])[..|history|] == history;
  }

  lemma {:induction false} ActsCheckNothing(s: State, acts: seq<Act>)
    ensures Checks(Acted(s, acts).history) == Checks(s.history)
    decreases |acts|
  {
    if acts != [] {
      var id := acts[0].id;
      ChecksOfMore(s.history, Replaced(Serial(s, id), id));
      ChecksOfMore(Replace(s, id).history, Scheduled(|s.owners|, id));
      ChecksOfMore(s.history, Cancelled(Serial(s, id), id));
      ActsCheckNothing(ActOn(s, acts[0]), acts[1..]);
    }
  }

  lemma {:induction false} BatchChecks(s: State, batch: seq<Ticket>, check: Check)
    ensures Checks(Batch(s, batch, check).history) == Checks(s.history) + |batch|
    decreases |batch|
  {
    if batch != [] {
      ChecksOfMore(s.history, Checked(batch[0].n, batch[0].id));
      ActsCheckNothing(Taken(s, batch[0]), check(batch[0].id));
      BatchChecks(Acted(Taken(s, batch[0]), check(batch[0].id)), batch[1..], check);
    }
  }

  /** At most 25 checks run in one turn of the event loop, and none while a drain is already set. */
  lemma ChecksPerTurn(s: State, step: Step)
    requires Enabled(s, step)
    ensures Checks(Next(s, step).history) == Checks(s.history) + |BatchOf(s, step)|
    ensures |BatchOf(s, step)| <= REAP_BATCH
    ensures step.SettleStep? && s.drain ==> BatchOf(s, step) == []
  {
    match step
    case ScheduleStep(id) => ActsCheckNothing(s, [Reschedule(id)]);
      assert Acted(s, [Reschedule(id)]) == Acted(Schedule(s, id), []);
    case CancelStep(id) => ActsCheckNothing(s, [Release(id)]);
      assert Acted(s, [Release(id)]) == Acted(Cancel(s, id), []);
    case CloseStep => ChecksOfMore(s.history, Closed(Open(s)));
    case SettleStep(timer, check) =>
      BatchChecks(Settled(s, timer), Tickets(Settled(s, timer)), check);
    case DrainStep(check) =>
      assert Tickets(s.(drain := false)) == Tickets(s);
      BatchChecks(s.(drain := false), Tickets(s), check);
  }

  // ----- draining -----

  /** What the supervisor's check does to the queue: at most release the agent it asks about. */
  ghost predicate SelfReleasing(check: Check) {
    forall id, i :: 0 <= i < |check(id)| ==> check(id)[i] == Release(id)
  }

  lemma {:induction false} WithoutAbsent(q: seq<string>, id: string)
    requires id !in q
    ensures Without(q, id) == q
  {
    if q != [] {
      assert id !in q[1..];
      WithoutAbsent(q[1..], id);
    }
  }

  lemma {:induction false} ReleasingNobody(s: State, acts: seq<Act>, id: string)
    requires !Waiting(s, id) && forall i :: 0 <= i < |acts| ==> acts[i] == Release(id)
    ensures Acted(s, acts) == s
    decreases |acts|
  {
    if acts != [] {
      WithoutAbsent(s.due, id);
      assert s.pending - {id} == s.pending;
      assert Cancel(s, id) == s;
      ReleasingNobody(s, acts[1..], id);
    }
  }

  function ChecksOf(batch: seq<Ticket>): seq<Event> {
    seq(|batch|, i requires 0 <= i < |batch| => Checked(batch[i].n, batch[i].id))
  }

  /** The front of the queue is checked in order and leaves it. */
  lemma {:induction false} FrontChecked(s: State, batch: seq<Ticket>, check: Check)
    requires Ordered(s) && SelfReleasing(check) && |batch| <= |s.due|
    requires forall i :: 0 <= i < |batch| ==> batch[i].id == s.due[i]
    ensures Batch(s, batch, check) == s.(due := s.due[|batch|..], history := s.history + ChecksOf(batch))
    decreases |batch|
  {
    if batch == [] {
      assert s.due[0..] == s.due && s.history + ChecksOf(batch) == s.history;
    } else {
      var u := s.(due := s.due[1..], history := s.history + [Checked(batch[0].n, batch[0].id)]);
      FirstChecked(s, batch[0], check);
      FrontChecked(u, batch[1..], check);
      assert s.due[1..][|batch| - 1..] == s.due[|batch|..];
      FirstOfChecks(batch);
      Associates(s.history, [Checked(batch[0].n, batch[0].id)], ChecksOf(batch[1..]));
    }
  }

  lemma FirstChecked(s: State, t: Ticket, check: Check)
    requires Ordered(s) && SelfReleasing(check) && s.due != [] && t.id == s.due[0]
    ensures Acted(Taken(s, t), check(t.id)) == s.(due := s.due[1..], history := s.history + [Checked(t.n, t.id)])
  {
    assert s.due[0] !in s.due[1..];
    WithoutAbsent(s.due[1..], t.id);
    ReleasingNobody(Taken(s, t), check(t.id), t.id);
  }

  lemma FirstOfChecks(batch: seq<Ticket>)
    requires batch != []
    ensures ChecksOf(batch) == [Checked(batch[0].n, batch[0].id)] + ChecksOf(batch[1..])
  {
  }

  function Turns(waiting: nat): nat { (waiting + REAP_BATCH - 1) / REAP_BATCH }

  function Drains(check: Check, turns: nat): seq<Step> { seq(turns, _ => DrainStep(check)) }

  function AllTickets(s: State, q: seq<string>): seq<Ticket> {
    seq(|q|, i requires 0 <= i < |q| => Ticket(q[i], Serial(s, q[i])))
  }

  lemma OneTurn(s: State, check: Check)
    requires Inv(s) && s.due != [] && SelfReleasing(check)
    ensures Inv(Next(s, DrainStep(check)))
    ensures Next(s, DrainStep(check)) == s.(due := s.due[|Tickets(s)|..], history := s.history + ChecksOf(Tickets(s)))
  {
    var t := s.(drain := false);
    assert Tickets(t) == Tickets(s);
    FrontChecked(t, Tickets(t), check);
    NextKeeps(s, DrainStep(check));
  }

  lemma TurnsChecks(s: State, u: State)
    requires s.due != [] && u == s.(due := s.due[|Tickets(s)|..], history := s.history + ChecksOf(Tickets(s)))
    ensures u.history + ChecksOf(AllTickets(u, u.due)) == s.history + ChecksOf(AllTickets(s, s.due))
  {
    var k := |Tickets(s)|;
    assert Tickets(s) == AllTickets(s, s.due[..k]);
    assert AllTickets(u, u.due) == AllTickets(s, s.due[k..]);
    Associates(s.history, ChecksOf(Tickets(s)), ChecksOf(AllTickets(u, u.due)));
  }

  /** A queue of any length is checked in order, each member once, in as many turns as 25 at a time takes. */
  lemma {:induction false} QueueDrains(s: State, check: Check)
    requires Inv(s) && SelfReleasing(check)
    ensures var steps := Drains(check, Turns(|s.due|));
            && CanRun(s, steps)
            && Run(s, steps).due == []
            && Run(s, steps).history == s.history + ChecksOf(AllTickets(s, s.due))
    decreases |s.due|
  {
    var steps := Drains(check, Turns(|s.due|));
    if s.due == [] {
      assert steps == [] && s.history + ChecksOf(AllTickets(s, s.due)) == s.history;
    } else {
      var u := Next(s, DrainStep(check));
      OneTurn(s, check);
      QueueDrains(u, check);
      TurnByTurn(check, |s.due|);
      TurnsChecks(s, u);
    }
  }

  lemma Associates(a: seq<Event>, b: seq<Event>, c: seq<Event>)
    ensures a + (b + c) == a + b + c
  {
  }

  lemma TurnByTurn(check: Check, waiting: nat)
    requires waiting > 0
    ensures var left := if waiting < REAP_BATCH then 0 else waiting - REAP_BATCH;
            var steps := Drains(check, Turns(waiting));
            steps != [] && steps[0] == DrainStep(check) && steps[1..] == Drains(check, Turns(left))
  {
    var left := if waiting < REAP_BATCH then 0 else waiting - REAP_BATCH;
    assert Turns(waiting) == 1 + Turns(left);
    assert Drains(check, Turns(waiting))[1..] == Drains(check, Turns(left));
  }

  // ----- draining whatever the checks do -----

  lemma {:induction false} ActedNeverGrows(s: State, acts: seq<Act>)
    ensures |Acted(s, acts).due| <= |s.due| && forall x :: x in Acted(s, acts).due ==> x in s.due
    decreases |acts|
  {
    if acts != [] {
      WithoutIs(s.due, acts[0].id);
      ActedNeverGrows(ActOn(s, acts[0]), acts[1..]);
    }
  }

  lemma {:induction false} WithoutShrinks(q: seq<string>, id: string)
    requires id in q
    ensures |Without(q, id)| < |q|
  {
    if q[0] == id {
      WithoutIs(q[1..], id);
    } else {
      assert q == [q[0]] + q[1..];
      WithoutShrinks(q[1..], id);
    }
  }

  /** The members of a batch are out of the queue afterwards, whatever the checks did, and nobody came in. */
  lemma {:induction false} BatchLeaves(s: State, batch: seq<Ticket>, front: seq<string>, check: Check)
    requires |front| == |batch| && forall i :: 0 <= i < |batch| ==> batch[i].id == front[i]
    ensures forall x :: x in Batch(s, batch, check).due ==> x in s.due && x !in front
    decreases |batch|
  {
    if batch != [] {
      var t := Taken(s, batch[0]);
      WithoutIs(s.due, batch[0].id);
      ActedNeverGrows(t, check(batch[0].id));
      BatchLeaves(Acted(t, check(batch[0].id)), batch[1..], front[1..], check);
      assert front == [batch[0].id] + front[1..];
    }
  }

  /** A turn takes 25 out of the queue, or all there are. */
  lemma TurnShrinks(s: State, check: Check)
    requires Inv(s) && s.drain && s.due != []
    ensures |Next(s, DrainStep(check)).due| + |Tickets(s)| <= |s.due|
  {
    var (t, k) := (s.(drain := false), |Tickets(s)|);
    assert Tickets(t) == Tickets(s);
    DrainAside(s, false);
    BatchKeeps(t, Tickets(t), check);
    BatchLeaves(t, Tickets(t), s.due[..k], check);
    LeftBehind(s.due, Batch(t, Tickets(t), check).due, k);
  }

  /** Those left are from behind the first `k`. */
  lemma LeftBehind(q: seq<string>, left: seq<string>, k: nat)
    requires k <= |q| && Distinct(left) && forall x :: x in left ==> x in q && x !in q[..k]
    ensures |left| + k <= |q|
  {
    assert q == q[..k] + q[k..];
    NoMoreThanAll(left, q[k..]);
  }

  /** Whatever checks do to the queue, it is empty after as many turns as 25 at a time takes, and no turn is missed
    * before: while anyone is due, the drain is set. */
  lemma {:induction false} DrainingEnds(s: State, steps: seq<Step>)
    requires Inv(s) && CanRun(s, steps) && forall e :: e in steps ==> e.DrainStep?
    ensures |steps| >= Turns(|s.due|) ==> Run(s, steps).due == []
    ensures Run(s, steps).due != [] ==> Run(s, steps).drain
    decreases |steps|
  {
    if steps != [] {
      NextKeeps(s, steps[0]);
      assert steps[0] == DrainStep(steps[0].check);
      if s.due != [] { TurnShrinks(s, steps[0].check); }
      DrainingEnds(Next(s, steps[0]), steps[1..]);
    }
  }

}
