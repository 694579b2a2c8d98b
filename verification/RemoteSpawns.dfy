/** `RemoteSpawns` as written: entries that several timers and one map refer to by identity, each
  * with its own launch timer and at most one held reply, over an event loop whose armed timers are
  * explicit. Every call and every timer firing refines a step of RemoteSpawnProtocol. */
module RemoteSpawns {
  import opened Options
  import opened RemoteSpawnProtocol
  import opened RemoteSpawnTable

  class RemoteSpawns {
    /** Every entry made so far, by the serial number that stands for its identity. */
    var entries: map<nat, Entry>
    var launches: nat
    /** The map of the source: agent id to entry. */
    var pending: map<string, nat>
    /** Launch timers that are set and neither fired nor cleared, by handle. */
    var alarms: map<nat, Alarm>
    var nextTimer: nat
    /** The `attachMs` timers behind held replies, by promise. */
    var waits: map<nat, nat>
    var promises: nat
    /** Callbacks run and replies given, in order. */
    var log: seq<Effect>
    /** The protocol state this object stands for. */
    ghost var view: State

    ghost function T(): Table
      reads this`entries, this`launches, this`pending, this`alarms, this`nextTimer, this`waits, this`promises
    {
      Table(entries, launches, pending, alarms, nextTimer, waits, promises)
    }

    ghost predicate Valid()
      reads this
    {
      Sound(T(), view) && view.log == log
    }

    constructor ()
      ensures Valid() && view == Init
    {
      entries, pending, alarms, waits := map[], map[], map[], map[];
      launches, nextTimer, promises := 0, 0, 0;
      log, view := [], Init;
      SoundInit(Init);
    }

    method ClearTimeout(n: nat)
      requires n in entries
      modifies this`alarms
      ensures T() == Cleared(old(T()), n)
    {
      if entries[n].timer.Some? { alarms := alarms - {entries[n].timer.value}; }
    }

    method Arm(n: nat, failure: Option<Reason>)
      requires n in entries
      modifies this`alarms, this`nextTimer, this`entries
      ensures T() == Rearmed(old(T()), n, failure)
    {
      ClearTimeout(n);
      alarms := alarms[nextTimer := Alarm(n, failure)];
      entries := entries[n := entries[n].(timer := Some(nextTimer))];
      nextTimer := nextTimer + 1;
    }

    method Forget(n: nat)
      requires n in entries
      modifies this`alarms, this`pending
      ensures T() == Forgotten(old(T()), n)
    {
      ClearTimeout(n);
      var id := entries[n].record.agentId;
      if id in pending && pending[id] == n { pending := pending - {id}; }
    }

    /** `entry.waiter?.(verdict)`: clears the reply's own timer and the waiter, then resolves. */
    method Settle(n: nat, verdict: Verdict)
      requires n in entries
      modifies this`waits, this`log, this`entries
      ensures T() == Answered(old(T()), n)
      ensures log == old(log) + if old(entries)[n].waiter.None? then [] else [Settled(old(entries)[n].waiter.value, verdict)]
    {
      if entries[n].waiter.Some? {
        var p := entries[n].waiter.value;
        waits := waits - {p};
        entries := entries[n := entries[n].(waiter := None)];
        log := log + [Settled(p, verdict)];
      }
    }

    method Fail(n: nat, reason: Reason)
      requires Valid() && IsCurrent(T(), n) && entries[n].record.agentId in view.pending
      modifies this
      ensures Valid() && promises == old(promises) && old(entries[n].record.agentId) !in pending
      ensures view == Lose(old(view), old(entries[n].record.agentId), reason)
    {
      var record := entries[n].record;
      FailedSound(T(), n, view, reason);
      SoundAt(T(), view, record.agentId);
      view := Lose(view, record.agentId, reason);
      Forget(n);
      Settle(n, VFailed(reason));
      log := log + [if record.keepsIdentity then ToldLost(n, reason) else Retired(n, reason)];
    }

    method OpenSpawn(record: Record)
      requires Valid()
      modifies this
      ensures Valid()
      ensures view == Open(old(view), record)
    {
      OpenedSound(T(), record, view);
      ReplaceEntry(record);
      view := Open(view, record);
    }

    /** The body of `open`: clear the replaced entry's timer, put a new entry in its place, arm it. */
    method ReplaceEntry(record: Record)
      requires record.agentId in pending ==> pending[record.agentId] in entries
      modifies this`alarms, this`launches, this`entries, this`pending, this`nextTimer
      ensures T() == Opened(old(T()), record)
    {
      if record.agentId in pending { ClearTimeout(pending[record.agentId]); }
      var n := launches;
      launches := launches + 1;
      entries := entries[n := Entry(record, Launching, None, None)];
      pending := pending[record.agentId := n];
      Arm(n, Some(NoReadyReport(record.host)));
    }

    method Has(id: string) returns (held: bool)
      requires Valid()
      ensures held == Undecided(view, id)
    {
      SoundAt(T(), view, id);
      held := id in pending && entries[pending[id]].phase != Attached;
    }

    method ReadyReported(id: string, report: Report) returns (reply: Reply)
      requires Valid()
      modifies this
      ensures Valid()
      ensures (view, reply) == Ready(old(view), id, report)
    {
      SoundAt(T(), view, id);
      if id !in pending || entries[pending[id]].phase != Launching { return Denied(NotWaiting(id, ReadyReport)); }
      var n := pending[id];
      var record := entries[n].record;
      if !report.ok {
        var reason := RefusedOnHost(record.host, report.reason);
        Fail(n, reason);
        return Denied(reason);
      }
      Grant(id, report);
      return Granted;
    }

    method Grant(id: string, report: Report)
      requires Valid() && id in pending && IsCurrent(T(), pending[id]) && entries[pending[id]].record.agentId == id
      requires entries[pending[id]].phase == Launching && report.ok
      modifies this
      ensures Valid() && view == Ready(old(view), id, report).0
    {
      var n := pending[id];
      var record := entries[n].record;
      GrantedSound(T(), n, view, report);
      SoundAt(T(), view, id);
      Advance(n, Acked, Some(PlacementUnconfirmed(record.name, record.host)));
      log := log + [ReadyGranted(n)];
      view := Ready(view, id, report).0;
    }

    method Advance(n: nat, phase: Phase, failure: Option<Reason>)
      requires n in entries
      modifies this`alarms, this`nextTimer, this`entries
      ensures T() == Rearmed(InPhase(old(T()), n, phase), n, failure)
    {
      entries := entries[n := entries[n].(phase := phase)];
      Arm(n, failure);
    }

    /** Returns the promise's number; `PlacedReportStep` says when and how it is settled. */
    method PlacedReported(id: string, report: Report) returns (promise: nat)
      requires Valid()
      modifies this
      ensures Valid() && promise == old(promises)
      ensures view == PlacedReportStep(old(view), id, report)
    {
      SoundAt(T(), view, id);
      promise := promises;
      if id in pending && entries[pending[id]].phase == Attached {
        ForgetAttached(id);
        SettleAtOnce(VAttached);
      } else if id !in pending || entries[pending[id]].phase != Acked {
        SettleAtOnce(VFailed(NotWaiting(id, PlacedReport)));
      } else if !report.ok {
        var reason := NotPlaced(entries[pending[id]].record.host, report.reason);
        Fail(pending[id], reason);
        SettleAtOnce(VFailed(reason));
      } else {
        HoldReply(id);
      }
    }

    method ForgetAttached(id: string)
      requires Valid() && id in pending && IsCurrent(T(), pending[id]) && entries[pending[id]].record.agentId == id
      modifies this
      ensures Valid() && view == old(view).(pending := old(view).pending - {id})
      ensures promises == old(promises) && id !in pending
    {
      var n := pending[id];
      ForgottenSound(T(), n, view);
      Forget(n);
      view := view.(pending := view.pending - {id});
    }

    method HoldReply(id: string)
      requires Valid() && id in pending && IsCurrent(T(), pending[id]) && entries[pending[id]].record.agentId == id
      requires entries[pending[id]].phase == Acked && id in view.pending
      modifies this
      ensures Valid() && view == PlacedReportStep(old(view), id, Report(true, None))
    {
      HeldSound(T(), pending[id], view);
      SoundAt(T(), view, id);
      Hold(pending[id]);
      view := PlacedReportStep(view, id, Report(true, None));
    }

    method Hold(n: nat)
      requires n in entries
      modifies this`waits, this`entries, this`promises
      ensures T() == Held(old(T()), n)
    {
      waits := waits[promises := n];
      entries := entries[n := entries[n].(phase := Placed, waiter := Some(promises))];
      promises := promises + 1;
    }

    /** `Promise.resolve(verdict)`. */
    method SettleAtOnce(verdict: Verdict)
      requires Valid()
      modifies this`promises, this`log, this`view
      ensures Valid()
      ensures view == old(view).(promises := old(view).promises + 1, log := old(view).log + [Settled(old(view).promises, verdict)])
    {
      PromisedSound(T(), view, log + [Settled(promises, verdict)]);
      SoundAt(T(), view, "");
      log := log + [Settled(promises, verdict)];
      view := view.(promises := view.promises + 1, log := view.log + [Settled(view.promises, verdict)]);
      promises := promises + 1;
    }

    method AgentAttached(id: string)
      requires Valid()
      modifies this
      ensures Valid()
      ensures view == AttachedStep(old(view), id)
    {
      SoundAt(T(), view, id);
      if id !in pending || entries[pending[id]].phase == Attached { return; }
      var n := pending[id];
      if entries[n].phase == Placed { AttachedReportedSound(T(), n, view); } else { AttachedKeptSound(T(), n, view); }
      Announce(n);
      view := AttachedStep(view, id);
    }

    /** The body of `attached` for a waiting entry. */
    method Announce(n: nat)
      requires n in entries
      modifies this`alarms, this`nextTimer, this`entries, this`waits, this`log, this`pending
      ensures var a := Answered(InPhase(Cleared(old(T()), n), n, Attached), n);
              T() == if old(entries)[n].phase == Placed then Forgotten(a, n) else Rearmed(a, n, None)
      ensures log == old(log) + [Announced(n)]
                     + if old(entries)[n].waiter.None? then [] else [Settled(old(entries)[n].waiter.value, VAttached)]
    {
      ClearTimeout(n);
      var reported := entries[n].phase == Placed;
      entries := entries[n := entries[n].(phase := Attached)];
      log := log + [Announced(n)];
      Settle(n, VAttached);
      if reported { Forget(n); } else { Arm(n, None); }
    }

    method Close()
      requires Valid()
      modifies this
      ensures Valid()
      ensures view == CloseStep(old(view)) && alarms == map[]
    {
      ClosedSound(T(), view);
      var left := pending.Keys;
      while left != {}
        invariant left <= pending.Keys
        invariant T() == old(T()).(alarms := alarms) && log == old(log) && view == old(view)
        invariant forall a :: a in alarms ==> a in old(alarms) && alarms[a] == old(alarms)[a]
        invariant forall a :: a in alarms ==> entries[alarms[a].entry].record.agentId in left
      {
        var id :| id in left;
        ClearTimeout(pending[id]);
        left := left - {id};
      }
      assert alarms == map[];
      pending := map[];
      view := CloseStep(view);
    }

    /** Some armed launch timer fires: it is the timer of an entry in the map, which then leaves it. */
    method FireAlarm(a: nat)
      requires Valid() && a in alarms
      modifies this
      ensures Valid()
      ensures exists id :: id in old(pending) && old(pending)[id] == old(alarms)[a].entry
                           && view == ExpireStep(old(view), id) && id !in pending
    {
      AlarmAt(T(), view, a);
      var n, failure := alarms[a].entry, alarms[a].failure;
      var id := entries[n].record.agentId;
      SoundAt(T(), view, id);
      if failure.None? { ForgetAttached(id); } else { Fail(n, failure.value); }
      assert id in old(pending) && old(pending)[id] == n && id !in pending;
    }

    /** The timer behind a held reply fires. */
    method FireWait(p: nat)
      requires Valid() && p in waits
      modifies this
      ensures Valid()
      ensures view == WaitOverStep(old(view), p)
    {
      WaitOverSound(T(), p, view);
      view := WaitOverStep(view, p);
      Settle(waits[p], VPending);
    }
  }

}
