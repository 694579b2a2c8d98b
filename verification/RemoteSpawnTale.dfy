/** What is said of remote spawns, told without phases, held replies or a map of the pending: only from what was opened,
  * asked and said before. The protocol says exactly this, whatever happens. */
module RemoteSpawnTale {
  import opened Options
  import opened RemoteSpawnProtocol

  /** `launched`: the launches, in order; `current`: the latest of each agent since the last close; `asked`: for each
    * `placed` report, in order, the launch it was awaited for, if it was; `lapsed`: launches whose timer fired after
    * they were announced. */
  datatype Tale = Tale(launched: seq<Record>, current: map<string, nat>, log: seq<Effect>, asked: seq<Option<nat>>, lapsed: set<nat>)

  const Untold := Tale([], map[], [], [], {})

  predicate IsAnnounced(log: seq<Effect>, n: nat) { Announced(n) in log }

  predicate IsGranted(log: seq<Effect>, n: nat) { ReadyGranted(n) in log }

  ghost predicate IsLost(log: seq<Effect>, n: nat) { exists r :: Retired(n, r) in log || ToldLost(n, r) in log }

  ghost predicate IsSettled(log: seq<Effect>, p: nat) { exists v :: Settled(p, v) in log }

  /** The agent's launch, neither announced nor lost. */
  ghost predicate StillOpen(t: Tale, id: string) {
    id in t.current && !IsAnnounced(t.log, t.current[id]) && !IsLost(t.log, t.current[id])
  }

  /** A `placed` report of launch `n` is still to come and will be heard: `n` was announced or granted, not lost, no
    * report of it was awaited before, and it has not been announced too long. */
  ghost predicate Awaits(t: Tale, n: nat) {
    (IsAnnounced(t.log, n) || IsGranted(t.log, n)) && !IsLost(t.log, n) && Some(n) !in t.asked && n !in t.lapsed
  }

  /** The reply still owed for launch `n`. */
  ghost predicate Owed(t: Tale, n: nat, p: nat) { p < |t.asked| && t.asked[p] == Some(n) && !IsSettled(t.log, p) }

  ghost function Reply(t: Tale, n: nat, verdict: Verdict): seq<Effect> {
    if p: nat :| Owed(t, n, p) then [Settled(p, verdict)] else []
  }

  function Loss(t: Tale, n: nat, reason: Reason): Effect
    requires n < |t.launched|
  {
    if t.launched[n].keepsIdentity then ToldLost(n, reason) else Retired(n, reason)
  }

  /** A launch is lost: whoever waits for it is told why, and so is whoever keeps, or else retires, the identity. */
  ghost function LostFor(t: Tale, n: nat, reason: Reason): Tale
    requires n < |t.launched|
  {
    t.(log := t.log + Reply(t, n, VFailed(reason)) + [Loss(t, n, reason)])
  }

  ghost predicate Numbered(t: Tale) { forall id :: id in t.current ==> t.current[id] < |t.launched| }

  ghost function Placed(t: Tale, id: string, report: Report): Tale
    requires Numbered(t)
  {
    var p := |t.asked|;
    if id !in t.current || !Awaits(t, t.current[id]) then
      t.(asked := t.asked + [None], log := t.log + [Settled(p, VFailed(NotWaiting(id, PlacedReport)))])
    else
      var n := t.current[id];
      var t1 := t.(asked := t.asked + [Some(n)]);
      if IsAnnounced(t.log, n) then t1.(log := t.log + [Settled(p, VAttached)])
      else if report.ok then t1
      else
        var reason := NotPlaced(t.launched[n].host, report.reason);
        t1.(log := t.log + [Loss(t, n, reason), Settled(p, VFailed(reason))])
  }

  /** What each event adds. */
  ghost function Told(t: Tale, e: Event): (u: Tale)
    requires Numbered(t)
    ensures Numbered(u)
  {
    match e
    case EOpen(record) => t.(launched := t.launched + [record], current := t.current[record.agentId := |t.launched|])
    case EClose => t.(current := map[])
    case EReady(id, report) =>
      if !StillOpen(t, id) || IsGranted(t.log, t.current[id]) then t
      else
        var n := t.current[id];
        if report.ok then t.(log := t.log + [ReadyGranted(n)])
        else LostFor(t, n, RefusedOnHost(t.launched[n].host, report.reason))
    case EPlaced(id, report) => Placed(t, id, report)
    case EAttached(id) =>
      if !StillOpen(t, id) then t
      else
        var n := t.current[id];
        t.(log := t.log + [Announced(n)] + Reply(t, n, VAttached))
    case EExpire(id) =>
      if id !in t.current || IsLost(t.log, t.current[id]) then t
      else
        var n := t.current[id];
        if IsAnnounced(t.log, n) then t.(lapsed := t.lapsed + {n})
        else
          LostFor(t, n, if IsGranted(t.log, n) then PlacementUnconfirmed(t.launched[n].name, t.launched[n].host)
                        else NoReadyReport(t.launched[n].host))
    case EWaitOver(p) => if p < |t.asked| && !IsSettled(t.log, p) then t.(log := t.log + [Settled(p, VPending)]) else t
  }

  ghost function Tell(t: Tale, events: seq<Event>): (u: Tale)
    requires Numbered(t)
    ensures Numbered(u)
    decreases |events|
  {
    if events == [] then t else Tell(Told(t, events[0]), events[1..])
  }

  // ----- the protocol and the tale -----

  /** Everything said is of launches opened and promises made. */
  ghost predicate Known(t: Tale) {
    && Numbered(t)
    && (forall n: nat :: IsAnnounced(t.log, n) || IsGranted(t.log, n) || IsLost(t.log, n) ==> n < |t.launched|)
    && (forall p: nat :: IsSettled(t.log, p) ==> p < |t.asked|)
    && (forall p :: 0 <= p < |t.asked| && t.asked[p].None? ==> IsSettled(t.log, p))
    && (forall n: nat :: Some(n) in t.asked || n in t.lapsed ==> n < |t.launched|)
    && (forall p, q :: 0 <= p < q < |t.asked| && t.asked[p].Some? ==> t.asked[p] != t.asked[q])
    && (forall a, b :: a in t.current && b in t.current && t.current[a] == t.current[b] ==> a == b)
    && (forall id :: id in t.current ==> t.launched[t.current[id]].agentId == id)
  }

  ghost predicate SameCounts(s: State, t: Tale) {
    s.log == t.log && s.launches == |t.launched| && s.promises == |t.asked|
    && forall p: nat :: p in s.waiting <==> p < |t.asked| && !IsSettled(t.log, p)
  }

  /** What the entry of an agent, or its absence, stands for. */
  ghost predicate StandsFor(s: State, t: Tale, id: string) {
    if id in s.pending then
      var slot := s.pending[id];
      var n := slot.launch;
      && id in t.current && n == t.current[id] && n < |t.launched| && t.launched[n] == slot.record
      && !IsLost(t.log, n) && n !in t.lapsed
      && (slot.phase.Attached? <==> IsAnnounced(t.log, n))
      && (!slot.phase.Attached? ==> (slot.phase.Launching? <==> !IsGranted(t.log, n)))
      && (slot.phase.Placed? <==> Some(n) in t.asked)
      && (forall p: nat :: slot.waiter == Some(p) <==> Owed(t, n, p))
    else
      id in t.current ==>
        var n := t.current[id];
        IsLost(t.log, n) || (IsAnnounced(t.log, n) && (Some(n) in t.asked || n in t.lapsed))
  }

  ghost predicate Tells(s: State, t: Tale) {
    Known(t) && SameCounts(s, t) && forall id :: StandsFor(s, t, id)
  }

  // ----- one more effect -----

  lemma OneMore(log: seq<Effect>, e: Effect)
    ensures forall n: nat :: IsAnnounced(log + [e], n) <==> IsAnnounced(log, n) || e == Announced(n)
    ensures forall n: nat :: IsGranted(log + [e], n) <==> IsGranted(log, n) || e == ReadyGranted(n)
    ensures forall n: nat :: IsLost(log + [e], n) <==> IsLost(log, n) || ((e.Retired? || e.ToldLost?) && e.launch == n)
    ensures forall p: nat :: IsSettled(log + [e], p) <==> IsSettled(log, p) || (e.Settled? && e.promise == p)
  {
    forall n: nat ensures IsLost(log + [e], n) <==> IsLost(log, n) || ((e.Retired? || e.ToldLost?) && e.launch == n) {
      if (e.Retired? || e.ToldLost?) && e.launch == n { assert e in log + [e]; }
      if r :| Retired(n, r) in log || ToldLost(n, r) in log {
        assert Retired(n, r) in log + [e] || ToldLost(n, r) in log + [e];
      }
    }
    forall p: nat ensures IsSettled(log + [e], p) <==> IsSettled(log, p) || (e.Settled? && e.promise == p) {
      if e.Settled? && e.promise == p { assert Settled(p, e.verdict) in log + [e]; }
      if v :| Settled(p, v) in log { assert Settled(p, v) in log + [e]; }
    }
  }

  /** Nothing more is said or asked about launch `m`. */
  ghost predicate SameAbout(t: Tale, u: Tale, m: nat) {
    && (IsAnnounced(u.log, m) <==> IsAnnounced(t.log, m))
    && (IsGranted(u.log, m) <==> IsGranted(t.log, m))
    && (IsLost(u.log, m) <==> IsLost(t.log, m))
    && (Some(m) in u.asked <==> Some(m) in t.asked)
    && (m in u.lapsed <==> m in t.lapsed)
    && forall p: nat :: Owed(u, m, p) <==> Owed(t, m, p)
  }

  /** Nothing more is said or asked but about launch `n`. */
  ghost predicate OnlyAbout(t: Tale, u: Tale, n: nat) {
    u.current == t.current && u.launched == t.launched && forall m: nat :: m != n ==> SameAbout(t, u, m)
  }

  lemma OnlyAboutThrough(t: Tale, t1: Tale, u: Tale, n: nat)
    requires OnlyAbout(t, t1, n) && OnlyAbout(t1, u, n)
    ensures OnlyAbout(t, u, n)
  {
    forall m: nat | m != n ensures SameAbout(t, u, m) { assert SameAbout(t, t1, m) && SameAbout(t1, u, m); }
  }

  /** An agent whose launch is another one stands as it did. */
  lemma OthersStand(s: State, t: Tale, s1: State, u: Tale, id: string)
    requires StandsFor(s, t, id) && u.current == t.current && u.launched == t.launched
    requires (id in s.pending <==> id in s1.pending) && (id in s.pending ==> s1.pending[id] == s.pending[id])
    requires id in t.current ==> SameAbout(t, u, t.current[id])
    ensures StandsFor(s1, u, id)
  {
  }

  // ----- each event -----

  lemma OpenedTells(s: State, t: Tale, record: Record)
    requires Tells(s, t)
    ensures Tells(Step(s, EOpen(record)), Told(t, EOpen(record)))
  {
    var (s1, u) := (Step(s, EOpen(record)), Told(t, EOpen(record)));
    forall id ensures StandsFor(s1, u, id) {
      assert StandsFor(s, t, id);
      if id == record.agentId { OpenedStands(s, t, record); } else { OpenedOthersStand(s, t, record, id); }
    }
  }

  lemma OpenedStands(s: State, t: Tale, record: Record)
    requires Known(t) && SameCounts(s, t)
    ensures StandsFor(Step(s, EOpen(record)), Told(t, EOpen(record)), record.agentId)
  {
    var n := |t.launched|;
    assert !IsAnnounced(t.log, n) && !IsGranted(t.log, n) && !IsLost(t.log, n) && Some(n) !in t.asked && n !in t.lapsed;
  }

  lemma OpenedOthersStand(s: State, t: Tale, record: Record, id: string)
    requires Known(t) && StandsFor(s, t, id) && id != record.agentId
    ensures StandsFor(Step(s, EOpen(record)), Told(t, EOpen(record)), id)
  {
    if id in t.current {
      var u := Told(t, EOpen(record));
      assert forall p: nat :: Owed(u, t.current[id], p) <==> Owed(t, t.current[id], p);
    }
  }

  lemma ClosedTells(s: State, t: Tale)
    requires Tells(s, t)
    ensures Tells(Step(s, EClose), Told(t, EClose))
  {
  }

  /** What is owed is what is held. */
  lemma ReplyIs(s: State, t: Tale, id: string, verdict: Verdict)
    requires Tells(s, t) && id in s.pending
    ensures Reply(t, s.pending[id].launch, verdict) ==
              if s.pending[id].waiter.Some? then [Settled(s.pending[id].waiter.value, verdict)] else []
  {
    assert StandsFor(s, t, id);
    var n := s.pending[id].launch;
    if s.pending[id].waiter.Some? { assert Owed(t, n, s.pending[id].waiter.value); }
    forall p: nat, q: nat | Owed(t, n, p) && Owed(t, n, q) ensures p == q {
    }
  }

  /** A step that touches one agent's launch. */
  lemma OneTouched(s: State, t: Tale, s1: State, u: Tale, id: string)
    requires Tells(s, t) && Known(u) && SameCounts(s1, u) && StandsFor(s1, u, id)
    requires id in t.current && OnlyAbout(t, u, t.current[id])
    requires forall k :: k != id ==> (k in s.pending <==> k in s1.pending) && (k in s.pending ==> s1.pending[k] == s.pending[k])
    ensures Tells(s1, u)
  {
    forall k ensures StandsFor(s1, u, k) {
      assert StandsFor(s, t, k);
      if k != id { OthersStand(s, t, s1, u, k); }
    }
  }

  lemma GrantedTells(s: State, t: Tale, id: string)
    requires Tells(s, t) && id in s.pending && s.pending[id].phase.Launching?
    ensures var n := s.pending[id].launch;
            Tells(Ready(s, id, Report(true, None)).0, t.(log := t.log + [ReadyGranted(n)]))
  {
    var n := s.pending[id].launch;
    assert StandsFor(s, t, id);
    OneMore(t.log, ReadyGranted(n));
    OneTouched(s, t, Ready(s, id, Report(true, None)).0, t.(log := t.log + [ReadyGranted(n)]), id);
  }

  /** A promise is settled, and nothing else changes. */
  lemma SettledSame(t: Tale, n: nat, p: nat, verdict: Verdict)
    requires Known(t) && Owed(t, n, p)
    ensures var u := t.(log := t.log + [Settled(p, verdict)]);
            && Known(u) && OnlyAbout(t, u, n) && (forall q: nat :: !Owed(u, n, q))
            && (forall q: nat :: IsSettled(u.log, q) <==> IsSettled(t.log, q) || q == p)
            && (IsAnnounced(u.log, n) <==> IsAnnounced(t.log, n)) && (IsGranted(u.log, n) <==> IsGranted(t.log, n))
            && (IsLost(u.log, n) <==> IsLost(t.log, n))
  {
    OneMore(t.log, Settled(p, verdict));
  }

  /** The reply owed for a launch is given, if there is one. */
  lemma RepliedSame(s: State, t: Tale, id: string, verdict: Verdict)
    requires Tells(s, t) && id in s.pending
    ensures var n := s.pending[id].launch;
            var u := t.(log := t.log + Reply(t, n, verdict));
            && Known(u) && OnlyAbout(t, u, n) && (forall q: nat :: !Owed(u, n, q))
            && SameCounts(Answer(s, s.pending[id].waiter, verdict), u)
            && (IsAnnounced(u.log, n) <==> IsAnnounced(t.log, n)) && (IsGranted(u.log, n) <==> IsGranted(t.log, n))
            && (IsLost(u.log, n) <==> IsLost(t.log, n))
  {
    assert StandsFor(s, t, id);
    var slot := s.pending[id];
    ReplyIs(s, t, id, verdict);
    if slot.waiter.Some? {
      SettledSame(t, slot.launch, slot.waiter.value, verdict);
    } else {
      assert t.log + [] == t.log;
    }
  }

  lemma LossSame(t: Tale, n: nat, reason: Reason)
    requires Known(t) && n < |t.launched|
    ensures var u := t.(log := t.log + [Loss(t, n, reason)]);
            && Known(u) && OnlyAbout(t, u, n) && IsLost(u.log, n)
            && (forall q: nat :: IsSettled(u.log, q) <==> IsSettled(t.log, q))
  {
    OneMore(t.log, Loss(t, n, reason));
  }

  lemma LostTells(s: State, t: Tale, id: string, reason: Reason)
    requires Tells(s, t) && id in s.pending && s.pending[id].launch < |t.launched|
    ensures Tells(Lose(s, id, reason), LostFor(t, s.pending[id].launch, reason))
  {
    assert StandsFor(s, t, id);
    var slot := s.pending[id];
    var n := slot.launch;
    var t1 := t.(log := t.log + Reply(t, n, VFailed(reason)));
    RepliedSame(s, t, id, VFailed(reason));
    LossSame(t1, n, reason);
    assert Loss(t1, n, reason) == LossOf(slot, reason);
    LostSame(s, t, t1, id, reason);
  }

  lemma LostSame(s: State, t: Tale, t1: Tale, id: string, reason: Reason)
    requires Tells(s, t) && id in s.pending && s.pending[id].launch < |t.launched|
    requires t1 == t.(log := t.log + Reply(t, s.pending[id].launch, VFailed(reason)))
    requires var n := s.pending[id].launch;
             var u := t1.(log := t1.log + [Loss(t, n, reason)]);
             && OnlyAbout(t, t1, n) && OnlyAbout(t1, u, n)
             && Known(u) && IsLost(u.log, n) && Loss(t, n, reason) == LossOf(s.pending[id], reason)
             && SameCounts(Answer(s, s.pending[id].waiter, VFailed(reason)), t1)
             && (forall q: nat :: IsSettled(u.log, q) <==> IsSettled(t1.log, q))
    ensures Tells(Lose(s, id, reason), LostFor(t, s.pending[id].launch, reason))
  {
    var (s1, u) := (Lose(s, id, reason), LostFor(t, s.pending[id].launch, reason));
    assert StandsFor(s, t, id);
    assert s1.pending == s.pending - {id};
    assert StandsFor(s1, u, id);
    LostCounts(s, t, t1, id, reason);
    OnlyAboutThrough(t, t1, u, s.pending[id].launch);
    OneTouched(s, t, s1, u, id);
  }

  lemma LostCounts(s: State, t: Tale, t1: Tale, id: string, reason: Reason)
    requires id in s.pending && s.pending[id].launch < |t.launched|
    requires t1 == t.(log := t.log + Reply(t, s.pending[id].launch, VFailed(reason)))
    requires SameCounts(Answer(s, s.pending[id].waiter, VFailed(reason)), t1)
    requires Loss(t, s.pending[id].launch, reason) == LossOf(s.pending[id], reason)
    requires forall q: nat :: IsSettled(t1.log + [Loss(t, s.pending[id].launch, reason)], q) <==> IsSettled(t1.log, q)
    ensures SameCounts(Lose(s, id, reason), LostFor(t, s.pending[id].launch, reason))
  {
  }

  /** A `placed` report is awaited exactly of an entry acked or attached. */
  lemma AwaitedIs(s: State, t: Tale, id: string)
    requires Tells(s, t)
    ensures id in t.current && Awaits(t, t.current[id]) <==>
              id in s.pending && (s.pending[id].phase.Acked? || s.pending[id].phase.Attached?)
    ensures id in s.pending ==> id in t.current && t.current[id] == s.pending[id].launch < |t.launched|
    ensures id in s.pending ==> (s.pending[id].phase.Attached? <==> IsAnnounced(t.log, t.current[id]))
    ensures StillOpen(t, id) <==> Undecided(s, id)
    ensures id in s.pending ==>
              (s.pending[id].phase.Launching? <==> StillOpen(t, id) && !IsGranted(t.log, t.current[id]))
  {
    assert StandsFor(s, t, id);
  }

  /** A report is answered at once. */
  lemma AnsweredSame(t: Tale, about: Option<nat>, verdict: Verdict)
    requires Known(t) && (about.Some? ==> about.value < |t.launched| && about !in t.asked)
    ensures var u := t.(asked := t.asked + [about], log := t.log + [Settled(|t.asked|, verdict)]);
            && Known(u) && (forall m: nat :: about != Some(m) ==> SameAbout(t, u, m))
            && (forall p: nat :: p < |u.asked| && !IsSettled(u.log, p) <==> p < |t.asked| && !IsSettled(t.log, p))
            && (about.Some? ==> about in u.asked && (IsAnnounced(u.log, about.value) <==> IsAnnounced(t.log, about.value)))
  {
    var u := t.(asked := t.asked + [about], log := t.log + [Settled(|t.asked|, verdict)]);
    OneMore(t.log, Settled(|t.asked|, verdict));
    assert forall p :: 0 <= p < |t.asked| ==> u.asked[p] == t.asked[p];
    if about.Some? { assert u.asked[|t.asked|] == about; }
    forall m: nat | about != Some(m) ensures Some(m) in u.asked <==> Some(m) in t.asked {
    }
  }

  lemma RefusedTells(s: State, t: Tale, id: string, report: Report)
    requires Tells(s, t) && !(id in t.current && Awaits(t, t.current[id]))
    ensures Tells(Step(s, EPlaced(id, report)), Told(t, EPlaced(id, report)))
  {
    var (s1, u) := (Step(s, EPlaced(id, report)), Told(t, EPlaced(id, report)));
    AwaitedIs(s, t, id);
    AnsweredSame(t, None, VFailed(NotWaiting(id, PlacedReport)));
    forall k ensures StandsFor(s1, u, k) {
      assert StandsFor(s, t, k);
      OthersStand(s, t, s1, u, k);
    }
  }

  lemma ReadTells(s: State, t: Tale, id: string, report: Report)
    requires Tells(s, t) && id in s.pending && s.pending[id].phase.Attached?
    ensures Tells(Step(s, EPlaced(id, report)), Told(t, EPlaced(id, report)))
  {
    AwaitedIs(s, t, id);
    AnsweredSame(t, Some(t.current[id]), VAttached);
    OneTouched(s, t, Step(s, EPlaced(id, report)), Told(t, EPlaced(id, report)), id);
  }

  lemma AskedSame(t: Tale, n: nat)
    requires Known(t) && n < |t.launched| && Some(n) !in t.asked
    ensures var u := t.(asked := t.asked + [Some(n)]);
            && Known(u) && OnlyAbout(t, u, n)
            && Some(n) in u.asked && (forall p: nat :: Owed(u, n, p) <==> p == |t.asked|)
  {
    var u := t.(asked := t.asked + [Some(n)]);
    assert forall p :: 0 <= p < |t.asked| ==> u.asked[p] == t.asked[p];
    assert u.asked[|t.asked|] == Some(n) && !IsSettled(t.log, |t.asked|);
    forall m: nat | m != n ensures Some(m) in u.asked <==> Some(m) in t.asked {
    }
  }

  lemma HeldTells(s: State, t: Tale, id: string)
    requires Tells(s, t) && id in s.pending && s.pending[id].phase.Acked?
    ensures Tells(Step(s, EPlaced(id, Report(true, None))), Told(t, EPlaced(id, Report(true, None))))
  {
    AwaitedIs(s, t, id);
    assert StandsFor(s, t, id);
    AskedSame(t, t.current[id]);
    OneTouched(s, t, Step(s, EPlaced(id, Report(true, None))), Told(t, EPlaced(id, Report(true, None))), id);
  }

  /** A launch is lost, and the report that says so answered. */
  lemma LostAndAnswered(t: Tale, n: nat, reason: Reason)
    requires Known(t) && n < |t.launched| && Some(n) !in t.asked
    ensures var u := t.(asked := t.asked + [Some(n)],
                        log := t.log + [Loss(t, n, reason), Settled(|t.asked|, VFailed(reason))]);
            && Known(u) && OnlyAbout(t, u, n) && IsLost(u.log, n)
            && (forall p: nat :: p < |u.asked| && !IsSettled(u.log, p) <==> p < |t.asked| && !IsSettled(t.log, p))
  {
    var t1 := t.(log := t.log + [Loss(t, n, reason)]);
    LossSame(t, n, reason);
    AnsweredSame(t1, Some(n), VFailed(reason));
    OneMore(t1.log, Settled(|t.asked|, VFailed(reason)));
    assert t1.log + [Settled(|t.asked|, VFailed(reason))] == t.log + [Loss(t, n, reason), Settled(|t.asked|, VFailed(reason))];
  }

  /** The launch was not placed: it is lost, and the report answered with the same reason. */
  lemma NotPlacedTells(s: State, t: Tale, id: string, report: Report)
    requires Tells(s, t) && id in s.pending && s.pending[id].phase.Acked? && !report.ok
    ensures Tells(Step(s, EPlaced(id, report)), Told(t, EPlaced(id, report)))
  {
    AwaitedIs(s, t, id);
    assert StandsFor(s, t, id);
    var n := t.current[id];
    LostAndAnswered(t, n, NotPlaced(t.launched[n].host, report.reason));
    OneTouched(s, t, Step(s, EPlaced(id, report)), Told(t, EPlaced(id, report)), id);
  }

  lemma PlacedTells(s: State, t: Tale, id: string, report: Report)
    requires Tells(s, t)
    ensures Tells(Step(s, EPlaced(id, report)), Told(t, EPlaced(id, report)))
  {
    AwaitedIs(s, t, id);
    if !(id in t.current && Awaits(t, t.current[id])) {
      RefusedTells(s, t, id, report);
    } else if s.pending[id].phase.Attached? {
      ReadTells(s, t, id, report);
    } else if report.ok {
      HeldTells(s, t, id);
    } else {
      NotPlacedTells(s, t, id, report);
    }
  }

  lemma AnnouncedSame(t: Tale, n: nat)
    requires Known(t) && n < |t.launched|
    ensures var u := t.(log := t.log + [Announced(n)]);
            && Known(u) && OnlyAbout(t, u, n) && IsAnnounced(u.log, n)
            && (IsLost(u.log, n) <==> IsLost(t.log, n)) && (forall p: nat :: Owed(u, n, p) <==> Owed(t, n, p))
            && (forall p: nat :: IsSettled(u.log, p) <==> IsSettled(t.log, p))
  {
    OneMore(t.log, Announced(n));
  }

  lemma AttachedTells(s: State, t: Tale, id: string)
    requires Tells(s, t)
    ensures Tells(Step(s, EAttached(id)), Told(t, EAttached(id)))
  {
    AwaitedIs(s, t, id);
    if Undecided(s, id) {
      assert StandsFor(s, t, id);
      var n := t.current[id];
      var t1 := t.(log := t.log + [Announced(n)]);
      AnnouncedSame(t, n);
      ReplyIs(s, t, id, VAttached);
      AnnouncedTells(s, t, t1, id);
    }
  }

  lemma AnnouncedTells(s: State, t: Tale, t1: Tale, id: string)
    requires Tells(s, t) && Undecided(s, id) && StandsFor(s, t, id)
    requires var n := s.pending[id].launch;
             && t1 == t.(log := t.log + [Announced(n)]) && Known(t1) && IsAnnounced(t1.log, n) && !IsLost(t1.log, n)
             && OnlyAbout(t, t1, n)
             && (forall p: nat :: Owed(t1, n, p) <==> Owed(t, n, p))
             && (forall p: nat :: IsSettled(t1.log, p) <==> IsSettled(t.log, p))
    requires Reply(t, s.pending[id].launch, VAttached) ==
               if s.pending[id].waiter.Some? then [Settled(s.pending[id].waiter.value, VAttached)] else []
    ensures Tells(Step(s, EAttached(id)), Told(t, EAttached(id)))
  {
    AwaitedIs(s, t, id);
    var slot := s.pending[id];
    var u := Told(t, EAttached(id));
    if slot.waiter.Some? {
      SettledSame(t1, slot.launch, slot.waiter.value, VAttached);
      assert u.log == t1.log + [Settled(slot.waiter.value, VAttached)];
    } else {
      assert u == t1;
    }
    AnnouncedCounts(s, t, u, id);
    OnlyAboutThrough(t, t1, u, slot.launch);
    OneTouched(s, t, Step(s, EAttached(id)), u, id);
  }

  lemma AnnouncedCounts(s: State, t: Tale, u: Tale, id: string)
    requires SameCounts(s, t) && Undecided(s, id) && u.launched == t.launched && u.asked == t.asked
    requires u.log == t.log + [Announced(s.pending[id].launch)]
                      + if s.pending[id].waiter.Some? then [Settled(s.pending[id].waiter.value, VAttached)] else []
    requires forall p: nat :: IsSettled(u.log, p) <==> IsSettled(t.log, p) || s.pending[id].waiter == Some(p)
    ensures SameCounts(Step(s, EAttached(id)), u)
  {
  }

  lemma ExpiredTells(s: State, t: Tale, id: string)
    requires Tells(s, t)
    ensures Tells(Step(s, EExpire(id)), Told(t, EExpire(id)))
  {
    AwaitedIs(s, t, id);
    assert StandsFor(s, t, id);
    if id in s.pending && !s.pending[id].phase.Attached? {
      LostTells(s, t, id, ExpiryReason(s.pending[id].phase, s.pending[id].record).value);
    } else if id in t.current && !IsLost(t.log, t.current[id]) {
      OneTouched(s, t, Step(s, EExpire(id)), Told(t, EExpire(id)), id);
    }
  }

  lemma WaitOverTells(s: State, t: Tale, p: nat)
    requires Tells(s, t)
    ensures Tells(Step(s, EWaitOver(p)), Told(t, EWaitOver(p)))
  {
    var (s1, u) := (Step(s, EWaitOver(p)), Told(t, EWaitOver(p)));
    if p in s.waiting {
      var n := t.asked[p].value;
      SettledSame(t, n, p, VPending);
      forall k ensures StandsFor(s1, u, k) { WaitOverStands(s, t, p, n, k); }
    }
  }

  lemma WaitOverStands(s: State, t: Tale, p: nat, n: nat, k: string)
    requires Tells(s, t) && p in s.waiting && Owed(t, n, p)
    requires var u := t.(log := t.log + [Settled(p, VPending)]);
             && OnlyAbout(t, u, n) && (forall q: nat :: !Owed(u, n, q))
             && (IsAnnounced(u.log, n) <==> IsAnnounced(t.log, n)) && (IsGranted(u.log, n) <==> IsGranted(t.log, n))
             && (IsLost(u.log, n) <==> IsLost(t.log, n))
    ensures StandsFor(WaitOverStep(s, p), t.(log := t.log + [Settled(p, VPending)]), k)
  {
    var u := t.(log := t.log + [Settled(p, VPending)]);
    assert StandsFor(s, t, k);
    if k in s.pending && s.pending[k].launch != n {
      assert !Owed(t, s.pending[k].launch, p);
      assert Unwaited(s.pending[k], p) == s.pending[k];
      OthersStand(s, t, WaitOverStep(s, p), u, k);
    }
  }

  lemma ReadyTells(s: State, t: Tale, id: string, report: Report)
    requires Tells(s, t)
    ensures Tells(Step(s, EReady(id, report)), Told(t, EReady(id, report)))
  {
    AwaitedIs(s, t, id);
    if id in s.pending && s.pending[id].phase.Launching? {
      if report.ok {
        GrantedTells(s, t, id);
      } else {
        assert StandsFor(s, t, id);
        LostTells(s, t, id, RefusedOnHost(s.pending[id].record.host, report.reason));
      }
    }
  }

  lemma StepTells(s: State, t: Tale, e: Event)
    requires Tells(s, t)
    ensures Tells(Step(s, e), Told(t, e))
  {
    match e
    case EOpen(record) => OpenedTells(s, t, record);
    case EReady(id, report) => ReadyTells(s, t, id, report);
    case EPlaced(id, report) => PlacedTells(s, t, id, report);
    case EAttached(id) => AttachedTells(s, t, id);
    case EExpire(id) => ExpiredTells(s, t, id);
    case EWaitOver(p) => WaitOverTells(s, t, p);
    case EClose => ClosedTells(s, t);
  }

  lemma {:induction false} RunTells(s: State, t: Tale, events: seq<Event>)
    requires Tells(s, t)
    ensures Tells(Run(s, events), Tell(t, events))
    decreases |events|
  {
    if events != [] {
      StepTells(s, t, events[0]);
      RunTells(Step(s, events[0]), Told(t, events[0]), events[1..]);
    }
  }

  /** Whatever happens, the protocol says exactly what the tale does, in that order. */
  lemma SaysWhatTheTaleDoes(events: seq<Event>)
    ensures Run(Init, events).log == Tell(Untold, events).log
    ensures Tells(Run(Init, events), Tell(Untold, events))
  {
    RunTells(Init, Untold, events);
  }

  /** `has`: the agent's launch is still open. */
  lemma HasIs(events: seq<Event>, id: string)
    ensures Undecided(Run(Init, events), id) <==> StillOpen(Tell(Untold, events), id)
  {
    SaysWhatTheTaleDoes(events);
    AwaitedIs(Run(Init, events), Tell(Untold, events), id);
  }

  /** The reply to a ready report: granted exactly when the launch is open and was not before, and otherwise why not. */
  lemma ReadyReplyIs(events: seq<Event>, id: string, report: Report)
    ensures var t := Tell(Untold, events);
            Ready(Run(Init, events), id, report).1 ==
              if !StillOpen(t, id) || IsGranted(t.log, t.current[id]) then Denied(NotWaiting(id, ReadyReport))
              else if report.ok then Granted
              else Denied(RefusedOnHost(t.launched[t.current[id]].host, report.reason))
  {
    SaysWhatTheTaleDoes(events);
    var (s, t) := (Run(Init, events), Tell(Untold, events));
    AwaitedIs(s, t, id);
    assert StandsFor(s, t, id);
  }

  // ----- what an answer and a loss mean -----

  ghost predicate LostWith(log: seq<Effect>, n: nat, reason: Reason) { Retired(n, reason) in log || ToldLost(n, reason) in log }

  /** What was said before tells each answer true: attached, of a launch announced by then; pending, of one neither
    * announced nor lost by then; failed, of a report nobody waited for, or of a launch lost for just that reason. And a
    * loss is told to whoever keeps the identity, if someone does, or else retires it; with no ready report by then, or
    * with one. */
  ghost predicate True(t: Tale, i: nat)
    requires i < |t.log|
  {
    match t.log[i]
    case Settled(p, VAttached) => p < |t.asked| && t.asked[p].Some? && IsAnnounced(t.log[..i], t.asked[p].value)
    case Settled(p, VPending) =>
      p < |t.asked| && t.asked[p].Some?
      && !IsAnnounced(t.log[..i], t.asked[p].value) && !IsLost(t.log[..i], t.asked[p].value)
    case Settled(p, VFailed(reason)) =>
      p < |t.asked|
      && if t.asked[p].None? then reason.NotWaiting? && reason.what == PlacedReport else LostWith(t.log, t.asked[p].value, reason)
    case Retired(n, reason) => n < |t.launched| && !t.launched[n].keepsIdentity && Fits(t.log[..i], t.launched[n], n, reason)
    case ToldLost(n, reason) => n < |t.launched| && t.launched[n].keepsIdentity && Fits(t.log[..i], t.launched[n], n, reason)
    case Announced(n) => n < |t.launched| && !IsLost(t.log, n) && !IsAnnounced(t.log[..i], n)
    case ReadyGranted(n) => n < |t.launched| && !IsGranted(t.log[..i], n) && !IsLost(t.log[..i], n)
  }

  /** A reason fits what was said of a launch: without a ready report, none came or it refused; with one, the launch
    * was not placed or did not register. */
  ghost predicate Fits(log: seq<Effect>, record: Record, n: nat, reason: Reason) {
    match reason
    case NoReadyReport(host) => host == record.host && !IsGranted(log, n)
    case RefusedOnHost(host, _) => host == record.host && !IsGranted(log, n)
    case PlacementUnconfirmed(name, host) => name == record.name && host == record.host && IsGranted(log, n)
    case NotPlaced(host, _) => host == record.host && IsGranted(log, n)
    case NotWaiting(_, _) => false
  }

  ghost predicate AllTrue(t: Tale) { forall i: nat :: i < |t.log| ==> True(t, i) }

  /** What was true stays true, as long as nothing announced is lost. */
  lemma OldStayTrue(t: Tale, u: Tale)
    requires AllTrue(t) && t.log <= u.log && t.asked <= u.asked && t.launched <= u.launched
    requires forall n: nat :: IsAnnounced(t.log, n) ==> !IsLost(u.log, n)
    ensures forall i: nat :: i < |t.log| ==> True(u, i)
  {
    forall i: nat | i < |t.log| ensures True(u, i) {
      assert True(t, i) && u.log[i] == t.log[i] && u.log[..i] == t.log[..i];
      assert forall e :: e in t.log ==> e in u.log;
    }
  }

  /** One more effect, true of what was said before. */
  lemma OneMoreTrue(t: Tale, u: Tale, e: Effect)
    requires AllTrue(t) && u.log == t.log + [e] && t.asked <= u.asked && t.launched <= u.launched
    requires forall n: nat :: IsAnnounced(t.log, n) ==> !IsLost(u.log, n)
    requires u.log[..|t.log|] == t.log ==> True(u, |t.log|)
    ensures AllTrue(u)
  {
    OldStayTrue(t, u);
    assert u.log[..|t.log|] == t.log;
  }

  /** And one more still. */
  lemma TwoMoreTrue(t: Tale, u: Tale, d: Effect, e: Effect)
    requires AllTrue(t) && u.log == t.log + [d, e] && t.asked <= u.asked && t.launched <= u.launched
    requires forall n: nat :: IsAnnounced(t.log, n) ==> !IsLost(u.log, n)
    requires u.log[..|t.log|] == t.log ==> True(u, |t.log|)
    requires u.log[..|t.log| + 1] == t.log + [d] ==> True(u, |t.log| + 1)
    ensures AllTrue(u)
  {
    OldStayTrue(t, u);
    assert u.log[..|t.log|] == t.log && u.log[..|t.log| + 1] == t.log + [d];
    forall i: nat | i < |u.log| ensures True(u, i) { assert i < |t.log| || i == |t.log| || i == |t.log| + 1; }
  }

  lemma AnnouncedAreNotLost(t: Tale, n: nat)
    requires AllTrue(t) && IsAnnounced(t.log, n)
    ensures !IsLost(t.log, n)
  {
    var i :| 0 <= i < |t.log| && t.log[i] == Announced(n);
    assert True(t, i);
  }

  lemma LostForIsTrue(t: Tale, n: nat, reason: Reason)
    requires Known(t) && AllTrue(t) && n < |t.launched| && !IsAnnounced(t.log, n) && Fits(t.log, t.launched[n], n, reason)
    ensures AllTrue(LostFor(t, n, reason))
  {
    var u := LostFor(t, n, reason);
    forall m: nat | IsAnnounced(t.log, m) ensures !IsLost(u.log, m) { StaysUnlost(t, n, reason, m); }
    if p: nat :| Owed(t, n, p) {
      var q: nat :| Owed(t, n, q) && Reply(t, n, VFailed(reason)) == [Settled(q, VFailed(reason))];
      assert u.log == t.log + [Settled(q, VFailed(reason)), Loss(t, n, reason)];
      OneMore(t.log, Settled(q, VFailed(reason)));
      assert Loss(t, n, reason) in u.log;
      TwoMoreTrue(t, u, Settled(q, VFailed(reason)), Loss(t, n, reason));
    } else {
      assert u.log == t.log + [Loss(t, n, reason)];
      OneMoreTrue(t, u, Loss(t, n, reason));
    }
  }

  lemma StaysUnlost(t: Tale, n: nat, reason: Reason, m: nat)
    requires Known(t) && AllTrue(t) && n < |t.launched| && m != n && IsAnnounced(t.log, m)
    ensures !IsLost(LostFor(t, n, reason).log, m)
  {
    AnnouncedAreNotLost(t, m);
    var t1 := t.log + Reply(t, n, VFailed(reason));
    if p: nat :| Owed(t, n, p) {
      var q: nat :| Owed(t, n, q) && Reply(t, n, VFailed(reason)) == [Settled(q, VFailed(reason))];
      OneMore(t.log, Settled(q, VFailed(reason)));
    } else {
      assert t1 == t.log;
    }
    OneMore(t1, Loss(t, n, reason));
  }

  lemma AnnouncedIsTrue(t: Tale, n: nat)
    requires Known(t) && AllTrue(t) && n < |t.launched| && !IsAnnounced(t.log, n) && !IsLost(t.log, n)
    ensures AllTrue(t.(log := t.log + [Announced(n)] + Reply(t, n, VAttached)))
  {
    var u := t.(log := t.log + [Announced(n)] + Reply(t, n, VAttached));
    OneMore(t.log, Announced(n));
    forall m: nat | IsAnnounced(t.log, m) ensures !IsLost(t.log, m) { AnnouncedAreNotLost(t, m); }
    if p: nat :| Owed(t, n, p) {
      var q: nat :| Owed(t, n, q) && Reply(t, n, VAttached) == [Settled(q, VAttached)];
      assert u.log == t.log + [Announced(n), Settled(q, VAttached)];
      OneMore(t.log + [Announced(n)], Settled(q, VAttached));
      assert t.log + [Announced(n)] + [Settled(q, VAttached)] == u.log;
      TwoMoreTrue(t, u, Announced(n), Settled(q, VAttached));
    } else {
      assert u.log == t.log + [Announced(n)];
      OneMoreTrue(t, u, Announced(n));
    }
  }

  lemma PlacedIsTrue(t: Tale, id: string, report: Report)
    requires Known(t) && AllTrue(t)
    ensures AllTrue(Told(t, EPlaced(id, report)))
  {
    var u := Told(t, EPlaced(id, report));
    var p := |t.asked|;
    forall m: nat | IsAnnounced(t.log, m) ensures !IsLost(t.log, m) { AnnouncedAreNotLost(t, m); }
    if id !in t.current || !Awaits(t, t.current[id]) {
      var e := Settled(p, VFailed(NotWaiting(id, PlacedReport)));
      OneMore(t.log, e);
      assert u.asked[p] == None;
      OneMoreTrue(t, u, e);
    } else if IsAnnounced(t.log, t.current[id]) {
      OneMore(t.log, Settled(p, VAttached));
      assert u.asked[p] == Some(t.current[id]);
      OneMoreTrue(t, u, Settled(p, VAttached));
    } else if report.ok {
      OldStayTrue(t, u);
    } else {
      NotPlacedIsTrue(t, id, report);
    }
  }

  lemma NotPlacedIsTrue(t: Tale, id: string, report: Report)
    requires Known(t) && AllTrue(t) && (forall m: nat :: IsAnnounced(t.log, m) ==> !IsLost(t.log, m))
    requires id in t.current && Awaits(t, t.current[id]) && !IsAnnounced(t.log, t.current[id]) && !report.ok
    ensures AllTrue(Told(t, EPlaced(id, report)))
  {
    var (n, p) := (t.current[id], |t.asked|);
    var u := Told(t, EPlaced(id, report));
    var reason := NotPlaced(t.launched[n].host, report.reason);
    OneMore(t.log, Loss(t, n, reason));
    OneMore(t.log + [Loss(t, n, reason)], Settled(p, VFailed(reason)));
    assert t.log + [Loss(t, n, reason)] + [Settled(p, VFailed(reason))] == u.log;
    assert u.asked[p] == Some(n) && Loss(t, n, reason) in u.log;
    TwoMoreTrue(t, u, Loss(t, n, reason), Settled(p, VFailed(reason)));
  }

  lemma WaitOverIsTrue(t: Tale, p: nat)
    requires Known(t) && AllTrue(t) && HeldOpen(t)
    ensures AllTrue(Told(t, EWaitOver(p)))
  {
    var u := Told(t, EWaitOver(p));
    if p < |t.asked| && !IsSettled(t.log, p) {
      forall m: nat | IsAnnounced(t.log, m) ensures !IsLost(t.log, m) { AnnouncedAreNotLost(t, m); }
      OneMore(t.log, Settled(p, VPending));
      assert Owed(t, t.asked[p].value, p);
      OneMoreTrue(t, u, Settled(p, VPending));
    }
  }

  /** A reply still owed is of a launch neither announced nor lost. */
  ghost predicate HeldOpen(t: Tale) {
    forall n: nat, p: nat :: Owed(t, n, p) ==> !IsAnnounced(t.log, n) && !IsLost(t.log, n)
  }

  lemma ToldIsTrue(t: Tale, e: Event)
    requires Known(t) && AllTrue(t) && HeldOpen(t)
    ensures AllTrue(Told(t, e))
  {
    match e
    case EOpen(_) => OldStayTrue(t, Told(t, e)) by { forall m: nat | IsAnnounced(t.log, m) ensures !IsLost(t.log, m) { AnnouncedAreNotLost(t, m); } }
    case EReady(id, report) =>
      if StillOpen(t, id) && !IsGranted(t.log, t.current[id]) {
        if report.ok { GrantedIsTrue(t, t.current[id]); }
        else { LostForIsTrue(t, t.current[id], RefusedOnHost(t.launched[t.current[id]].host, report.reason)); }
      }
    case EPlaced(id, report) => PlacedIsTrue(t, id, report);
    case EAttached(id) => if StillOpen(t, id) { AnnouncedIsTrue(t, t.current[id]); }
    case EExpire(id) =>
      if StillOpen(t, id) {
        var n := t.current[id];
        LostForIsTrue(t, n, if IsGranted(t.log, n) then PlacementUnconfirmed(t.launched[n].name, t.launched[n].host)
                            else NoReadyReport(t.launched[n].host));
      } else {
        SameLogIsTrue(t, Told(t, e));
      }
    case EWaitOver(p) => WaitOverIsTrue(t, p);
    case EClose => SameLogIsTrue(t, Told(t, e));
  }

  lemma SameLogIsTrue(t: Tale, u: Tale)
    requires AllTrue(t) && u.log == t.log && u.asked == t.asked && u.launched == t.launched
    ensures AllTrue(u)
  {
    forall i: nat | i < |u.log| ensures True(u, i) { assert True(t, i); }
  }

  lemma GrantedIsTrue(t: Tale, n: nat)
    requires Known(t) && AllTrue(t) && n < |t.launched| && !IsGranted(t.log, n) && !IsLost(t.log, n)
    ensures AllTrue(t.(log := t.log + [ReadyGranted(n)]))
  {
    OneMore(t.log, ReadyGranted(n));
    forall m: nat | IsAnnounced(t.log, m) ensures !IsLost(t.log, m) { AnnouncedAreNotLost(t, m); }
    OneMoreTrue(t, t.(log := t.log + [ReadyGranted(n)]), ReadyGranted(n));
  }

  lemma RepliedKeepsOpen(t: Tale, n: nat, verdict: Verdict)
    requires Known(t) && HeldOpen(t)
    ensures var u := t.(log := t.log + Reply(t, n, verdict));
            && (forall p: nat :: !Owed(u, n, p))
            && (forall m: nat, p: nat :: Owed(u, m, p) ==> Owed(t, m, p))
            && (forall m: nat :: IsAnnounced(u.log, m) <==> IsAnnounced(t.log, m))
            && (forall m: nat :: IsLost(u.log, m) <==> IsLost(t.log, m))
  {
    if p: nat :| Owed(t, n, p) {
      var q: nat :| Owed(t, n, q) && Reply(t, n, verdict) == [Settled(q, verdict)];
      OneMore(t.log, Settled(q, verdict));
    } else {
      assert t.log + Reply(t, n, verdict) == t.log;
    }
  }

  lemma LostKeepsOpen(t: Tale, n: nat, reason: Reason)
    requires Known(t) && HeldOpen(t) && n < |t.launched|
    ensures HeldOpen(LostFor(t, n, reason))
  {
    var t1 := t.(log := t.log + Reply(t, n, VFailed(reason)));
    RepliedKeepsOpen(t, n, VFailed(reason));
    OneMore(t1.log, Loss(t, n, reason));
    assert LostFor(t, n, reason).log == t1.log + [Loss(t, n, reason)];
    assert forall m: nat, p: nat :: Owed(LostFor(t, n, reason), m, p) ==> Owed(t1, m, p);
  }

  lemma AnnouncedKeepsOpen(t: Tale, n: nat)
    requires Known(t) && HeldOpen(t) && n < |t.launched|
    ensures HeldOpen(t.(log := t.log + [Announced(n)] + Reply(t, n, VAttached)))
  {
    var t1 := t.(log := t.log + [Announced(n)]);
    var u := t.(log := t.log + [Announced(n)] + Reply(t, n, VAttached));
    OneMore(t.log, Announced(n));
    if p: nat :| Owed(t, n, p) {
      var q: nat :| Owed(t, n, q) && Reply(t, n, VAttached) == [Settled(q, VAttached)];
      OneMore(t1.log, Settled(q, VAttached));
      forall p: nat | Owed(t, n, p) ensures p == q { assert t.asked[p] == t.asked[q]; }
    } else {
      assert u.log == t1.log;
    }
    forall m: nat, p: nat | Owed(u, m, p) ensures Owed(t, m, p) && m != n {
      assert IsSettled(t.log, p) ==> IsSettled(t1.log, p);
      assert Owed(t, m, p);
    }
  }

  lemma PlacedKeepsOpen(t: Tale, id: string, report: Report)
    requires Known(t) && HeldOpen(t)
    ensures HeldOpen(Told(t, EPlaced(id, report)))
  {
    var u := Told(t, EPlaced(id, report));
    var p := |t.asked|;
    if id !in t.current || !Awaits(t, t.current[id]) {
      OneMore(t.log, Settled(p, VFailed(NotWaiting(id, PlacedReport))));
    } else if IsAnnounced(t.log, t.current[id]) {
      OneMore(t.log, Settled(p, VAttached));
    } else if !report.ok {
      var n := t.current[id];
      LostAndAnswered(t, n, NotPlaced(t.launched[n].host, report.reason));
    }
    forall m: nat, q: nat | Owed(u, m, q)
      ensures !IsAnnounced(u.log, m) && !IsLost(u.log, m)
    {
      if q < p { assert u.asked[q] == t.asked[q] && Owed(t, m, q); }
    }
  }

  lemma ToldKeepsOpen(t: Tale, e: Event)
    requires Known(t) && HeldOpen(t)
    ensures HeldOpen(Told(t, e))
  {
    match e
    case EOpen(_) => assert forall m: nat, p: nat :: Owed(Told(t, e), m, p) ==> Owed(t, m, p);
    case EReady(id, report) =>
      if StillOpen(t, id) && !IsGranted(t.log, t.current[id]) {
        if report.ok { OneMore(t.log, ReadyGranted(t.current[id])); assert forall m: nat, p: nat :: Owed(Told(t, e), m, p) ==> Owed(t, m, p); }
        else { LostKeepsOpen(t, t.current[id], RefusedOnHost(t.launched[t.current[id]].host, report.reason)); }
      }
    case EPlaced(id, report) => PlacedKeepsOpen(t, id, report);
    case EAttached(id) => if StillOpen(t, id) { AnnouncedKeepsOpen(t, t.current[id]); }
    case EExpire(id) =>
      if StillOpen(t, id) {
        var n := t.current[id];
        LostKeepsOpen(t, n, if IsGranted(t.log, n) then PlacementUnconfirmed(t.launched[n].name, t.launched[n].host)
                            else NoReadyReport(t.launched[n].host));
      } else {
        assert forall m: nat, p: nat :: Owed(Told(t, e), m, p) ==> Owed(t, m, p);
      }
    case EWaitOver(p) =>
      OneMore(t.log, Settled(p, VPending));
      assert forall m: nat, q: nat :: Owed(Told(t, e), m, q) ==> Owed(t, m, q);
    case EClose => assert forall m: nat, p: nat :: Owed(Told(t, e), m, p) ==> Owed(t, m, p);
  }

  lemma {:induction false} RunIsTrue(s: State, t: Tale, events: seq<Event>)
    requires Tells(s, t) && AllTrue(t) && HeldOpen(t)
    ensures AllTrue(Tell(t, events))
    decreases |events|
  {
    if events != [] {
      StepTells(s, t, events[0]);
      ToldIsTrue(t, events[0]);
      ToldKeepsOpen(t, events[0]);
      RunIsTrue(Step(s, events[0]), Told(t, events[0]), events[1..]);
    }
  }

  /** Over every run, every answer and every loss in the log is true of what was said before. */
  lemma EveryAnswerIsTrue(events: seq<Event>, i: nat)
    requires i < |Run(Init, events).log|
    ensures Run(Init, events).log == Tell(Untold, events).log && True(Tell(Untold, events), i)
  {
    SaysWhatTheTaleDoes(events);
    RunIsTrue(Init, Untold, events);
  }

  /** A wait is answered pending by its own timer alone. */
  lemma PendingIsTheTimers(s: State, e: Event, p: nat)
    requires Settled(p, VPending) in Step(s, e).log && Settled(p, VPending) !in s.log
    ensures e == EWaitOver(p)
  {
  }
}
