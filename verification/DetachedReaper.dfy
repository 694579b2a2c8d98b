/** The reaper itself, statement by statement: its timers by agent, its queue in insertion order, and the
  * drain timer. A check may call back into it while a batch runs. */
module DetachedReaper {
  import P = ReaperProtocol

  /** Settle timers of the event loop: armed until they fire or are cleared. */
  class EventLoop {
    var armed: map<nat, string>

    constructor ()
      ensures armed == map[]
    {
      armed := map[];
    }

    method SetTimeout(timer: nat, id: string)
      modifies this
      ensures armed == old(armed)[timer := id]
    {
      armed := armed[timer := id];
    }

    method ClearTimeout(timer: nat)
      modifies this
      ensures armed == old(armed) - {timer}
    {
      armed := armed - {timer};
    }
  }

  class DetachedReaper {
    const loop: EventLoop
    var pending: map<string, nat>
    var due: seq<string>
    var drain: bool
    var timers: nat
    ghost var owners: seq<string>
    ghost var serial: map<string, nat>
    ghost var history: seq<P.Event>

    /** The reaper and its timers as a state of the protocol. */
    ghost function View(): P.State
      reads this, loop
    {
      P.State(pending, due, drain, loop.armed, owners, serial, history)
    }

    ghost predicate Valid()
      reads this, loop
    {
      timers == |owners| && P.Ordered(View())
    }

    constructor ()
      ensures Valid() && View() == P.Init() && fresh(loop)
    {
      loop := new EventLoop();
      pending, due, drain, timers := map[], [], false, 0;
      owners, serial, history := [], map[], [];
    }

    method Schedule(id: string)
      requires Valid()
      modifies this, loop
      ensures Valid() && View() == P.Schedule(old(View()), id)
    {
      P.ScheduleKeeps(View(), id);
      Drop(id, true);
      Arm(id);
    }

    /** The rest of `schedule`: a settle timer for `id`. */
    method Arm(id: string)
      requires timers == |owners|
      modifies this, loop
      ensures View() == P.Armed(old(View()), id) && timers == |owners|
    {
      var timer := timers;
      timers := timers + 1;
      loop.SetTimeout(timer, id);
      pending := pending[id := timer];
      owners, serial, history := owners + [id], serial[id := timer], history + [P.Scheduled(timer, id)];
    }

    method Cancel(id: string)
      requires Valid()
      modifies this, loop
      ensures Valid() && View() == P.Cancel(old(View()), id)
    {
      P.CancelKeeps(View(), id);
      Drop(id, false);
    }

    /** `cancel`, which `schedule` calls first; `replacing` only says which of the two to record. */
    method Drop(id: string, ghost replacing: bool)
      requires Valid()
      modifies this, loop
      ensures timers == old(timers)
      ensures View() == if replacing then P.Replace(old(View()), id) else P.Cancel(old(View()), id)
    {
      if P.Waiting(View(), id) {
        var n := P.Serial(View(), id);
        history := history + [if replacing then P.Replaced(n, id) else P.Cancelled(n, id)];
      }
      if id in pending {
        loop.ClearTimeout(pending[id]);
      }
      pending := pending - {id};
      due := Delete(due, id);
    }

    method Close()
      requires Valid()
      modifies this, loop
      ensures Valid() && View() == P.Close(old(View()))
    {
      history := history + [P.Closed(P.Open(View()))];
      ClearSettleTimers();
      pending := map[];
      due := [];
      drain := false;
    }

    /** The first loop of `close`. */
    method ClearSettleTimers()
      requires P.Timed(View())
      modifies loop
      ensures loop.armed == map[]
    {
      var left := pending.Keys;
      while left != {}
        invariant left <= pending.Keys
        invariant forall n :: n in loop.armed ==> n in old(loop.armed) && loop.armed[n] == old(loop.armed)[n]
        invariant forall n :: n in loop.armed ==> loop.armed[n] in left
      {
        var id :| id in left;
        loop.ClearTimeout(pending[id]);
        left := left - {id};
      }
      assert loop.armed.Keys == {};
    }

    /** A settle timer fires. */
    method Settle(timer: nat, check: P.Check)
      requires Valid() && timer in loop.armed
      modifies this, loop
      ensures Valid() && View() == P.Next(old(View()), P.SettleStep(timer, check))
    {
      P.SettledKeeps(View(), timer);
      var id := loop.armed[timer];
      loop.ClearTimeout(timer);
      pending := pending - {id};
      if id !in due {
        due := due + [id];
      }
      DrainSoon(check);
    }

    /** The drain timer fires. */
    method Drain(check: P.Check)
      requires Valid() && drain
      modifies this, loop
      ensures Valid() && View() == P.Next(old(View()), P.DrainStep(check))
    {
      drain := false;
      if |due| > 0 {
        RunBatch(check);
      }
    }

    method DrainSoon(check: P.Check)
      requires Valid()
      modifies this, loop
      ensures Valid() && View() == if old(drain) then old(View()) else P.RunBatch(old(View()), check)
    {
      if !drain {
        RunBatch(check);
      }
    }

    method RunBatch(check: P.Check)
      requires Valid()
      modifies this, loop
      ensures Valid() && View() == P.RunBatch(old(View()), check)
    {
      var batch := due[..if |due| < P.REAP_BATCH then |due| else P.REAP_BATCH];
      RunMembers(batch, P.Tickets(View()), check);
      P.DrainAside(View(), true);
      drain := true;
    }

    method RunMembers(batch: seq<string>, ghost tickets: seq<P.Ticket>, check: P.Check)
      requires Valid() && |tickets| == |batch| && forall k :: 0 <= k < |batch| ==> tickets[k].id == batch[k]
      modifies this, loop
      ensures Valid() && View() == P.Batch(old(View()), tickets, check)
    {
      ghost var start := View();
      var i := 0;
      while i < |batch|
        invariant 0 <= i <= |batch| && Valid()
        invariant P.Batch(View(), tickets[i..], check) == P.Batch(start, tickets, check)
      {
        RunMember(batch[i], tickets[i], check);
        i := i + 1;
      }
    }

    method RunMember(id: string, ghost ticket: P.Ticket, check: P.Check)
      requires Valid() && ticket.id == id
      modifies this, loop
      ensures Valid() && View() == P.Acted(P.Taken(old(View()), ticket), check(id))
    {
      P.TakenKeeps(View(), ticket);
      due := Delete(due, id);
      history := history + [P.Checked(ticket.n, id)];
      RunCheck(check(id));
    }

    /** What one check does to the reaper. */
    method RunCheck(acts: seq<P.Act>)
      requires Valid()
      modifies this, loop
      ensures Valid() && View() == P.Acted(old(View()), acts)
    {
      ghost var start := View();
      var i := 0;
      while i < |acts|
        invariant 0 <= i <= |acts| && Valid()
        invariant P.Acted(View(), acts[i..]) == P.Acted(start, acts)
      {
        RunAct(acts[i]);
        i := i + 1;
      }
    }

    method RunAct(act: P.Act)
      requires Valid()
      modifies this, loop
      ensures Valid() && View() == P.ActOn(old(View()), act)
    {
      match act
      case Reschedule(id) => Schedule(id);
      case Release(id) => Cancel(id);
    }
  }

  /** `Set.delete`, which leaves the order of the others. */
  method Delete(q: seq<string>, id: string) returns (r: seq<string>)
    ensures r == P.Without(q, id)
  {
    r := [];
    var i := 0;
    while i < |q|
      invariant 0 <= i <= |q|
      invariant P.Without(q, id) == r + P.Without(q[i..], id)
    {
      assert q[i..][1..] == q[i + 1..];
      if q[i] != id {
        r := r + [q[i]];
      }
      i := i + 1;
    }
  }
}
