/** What the entries, the map and the armed timers of `RemoteSpawns` look like at one moment, and
  * the small updates the calls are made of. An entry's serial number stands for its identity. */
module RemoteSpawnTable {
  import opened Options
  import opened RemoteSpawnProtocol

  datatype Entry = Entry(record: Record, phase: Phase, timer: Option<nat>, waiter: Option<nat>)

  /** What an armed launch timer does when it fires: with no failure text it only forgets the entry. */
  datatype Alarm = Alarm(entry: nat, failure: Option<Reason>)

  /** `alarms`: launch timers set and neither fired nor cleared. `waits`: the timers behind held replies,
    * by promise, each with the entry whose waiter it clears. */
  datatype Table = Table(entries: map<nat, Entry>, launches: nat, pending: map<string, nat>,
                         alarms: map<nat, Alarm>, nextTimer: nat, waits: map<nat, nat>, promises: nat)

  // ----- well-formed tables -----

  /** One armed timer per entry in the map, whose text is the one its phase calls for. */
  ghost predicate PendingOk(t: Table) {
    forall id :: id in t.pending ==>
      && t.pending[id] in t.entries
      && t.entries[t.pending[id]].record.agentId == id
      && t.entries[t.pending[id]].timer.Some?
      && AlarmIs(t, t.entries[t.pending[id]].timer.value, t.pending[id])
  }

  ghost predicate AlarmIs(t: Table, a: nat, n: nat)
    requires n in t.entries
  {
    a in t.alarms && t.alarms[a] == Alarm(n, ExpiryReason(t.entries[n].phase, t.entries[n].record))
  }

  /** No other launch timer is armed. */
  ghost predicate AlarmsOk(t: Table) {
    forall a :: a in t.alarms ==> a < t.nextTimer && IsCurrent(t, t.alarms[a].entry) && t.entries[t.alarms[a].entry].timer == Some(a)
  }

  ghost predicate IsCurrent(t: Table, n: nat) {
    n in t.entries && t.entries[n].record.agentId in t.pending && t.pending[t.entries[n].record.agentId] == n
  }

  /** A reply is held by exactly the entry whose waiter names it. */
  ghost predicate WaitsOk(t: Table) {
    && (forall p :: p in t.waits ==> p < t.promises && t.waits[p] in t.entries && t.entries[t.waits[p]].waiter == Some(p))
    && (forall n :: n in t.entries && t.entries[n].waiter.Some? ==> HoldsReply(t, n, t.entries[n].waiter.value))
  }

  ghost predicate HoldsReply(t: Table, n: nat, p: nat)
    requires n in t.entries
  {
    t.entries[n].phase == Placed && p in t.waits && t.waits[p] == n
  }

  ghost predicate Ok(t: Table) {
    (forall n :: n in t.entries ==> n < t.launches) && PendingOk(t) && AlarmsOk(t) && WaitsOk(t)
  }

  // ----- the updates -----

  function Cleared(t: Table, n: nat): Table
    requires n in t.entries
  {
    if t.entries[n].timer.None? then t else t.(alarms := t.alarms - {t.entries[n].timer.value})
  }

  function Rearmed(t: Table, n: nat, failure: Option<Reason>): Table
    requires n in t.entries
  {
    var c := Cleared(t, n);
    c.(alarms := c.alarms[t.nextTimer := Alarm(n, failure)], nextTimer := t.nextTimer + 1,
       entries := t.entries[n := t.entries[n].(timer := Some(t.nextTimer))])
  }

  function Forgotten(t: Table, n: nat): Table
    requires n in t.entries
  {
    var c := Cleared(t, n);
    var id := t.entries[n].record.agentId;
    if id in t.pending && t.pending[id] == n then c.(pending := t.pending - {id}) else c
  }

  function Answered(t: Table, n: nat): Table
    requires n in t.entries
  {
    if t.entries[n].waiter.None? then t
    else t.(waits := t.waits - {t.entries[n].waiter.value}, entries := t.entries[n := t.entries[n].(waiter := None)])
  }

  function InPhase(t: Table, n: nat, phase: Phase): Table
    requires n in t.entries
  {
    t.(entries := t.entries[n := t.entries[n].(phase := phase)])
  }

  /** A new entry takes the place of the one under its id, whose timer is cleared first. */
  function Opened(t: Table, record: Record): Table
    requires record.agentId in t.pending ==> t.pending[record.agentId] in t.entries
  {
    var c := if record.agentId in t.pending then Cleared(t, t.pending[record.agentId]) else t;
    var made := c.(entries := t.entries[t.launches := Entry(record, Launching, None, None)], launches := t.launches + 1,
                   pending := t.pending[record.agentId := t.launches]);
    Rearmed(made, t.launches, Some(NoReadyReport(record.host)))
  }

  function Held(t: Table, n: nat): Table
    requires n in t.entries
  {
    t.(waits := t.waits[t.promises := n], promises := t.promises + 1,
       entries := t.entries[n := t.entries[n].(phase := Placed, waiter := Some(t.promises))])
  }

  // ----- each keeps the table well formed -----

  lemma ForgottenOk(t: Table, n: nat)
    requires Ok(t) && IsCurrent(t, n)
    ensures Ok(Forgotten(t, n)) && !IsCurrent(Forgotten(t, n), n)
  {
  }

  lemma AnsweredOk(t: Table, n: nat)
    requires Ok(t) && n in t.entries
    ensures Ok(Answered(t, n))
  {
  }

  /** A phase change and its re-arming go together. */
  lemma AdvancedOk(t: Table, n: nat, phase: Phase)
    requires Ok(t) && IsCurrent(t, n) && t.entries[n].waiter.None?
    ensures Ok(Rearmed(InPhase(t, n, phase), n, ExpiryReason(phase, t.entries[n].record)))
  {
    AdvancedPending(t, n, phase);
    AdvancedAlarms(t, n, phase);
    AdvancedWaits(t, n, phase);
  }

  lemma AdvancedAlarms(t: Table, n: nat, phase: Phase)
    requires PendingOk(t) && AlarmsOk(t) && IsCurrent(t, n)
    ensures AlarmsOk(Rearmed(InPhase(t, n, phase), n, ExpiryReason(phase, t.entries[n].record)))
  {
  }

  lemma AdvancedWaits(t: Table, n: nat, phase: Phase)
    requires WaitsOk(t) && n in t.entries && t.entries[n].waiter.None?
    ensures WaitsOk(Rearmed(InPhase(t, n, phase), n, ExpiryReason(phase, t.entries[n].record)))
  {
  }

  lemma AdvancedPending(t: Table, n: nat, phase: Phase)
    requires PendingOk(t) && AlarmsOk(t) && IsCurrent(t, n)
    ensures PendingOk(Rearmed(InPhase(t, n, phase), n, ExpiryReason(phase, t.entries[n].record)))
  {
  }

  lemma OpenedOk(t: Table, record: Record)
    requires Ok(t)
    ensures Ok(Opened(t, record))
  {
    OpenedPending(t, record);
    OpenedAlarms(t, record);
    OpenedWaits(t, record);
  }

  lemma OpenedWaits(t: Table, record: Record)
    requires WaitsOk(t) && (forall n :: n in t.entries ==> n < t.launches)
    requires record.agentId in t.pending ==> t.pending[record.agentId] in t.entries
    ensures WaitsOk(Opened(t, record)) && (forall n :: n in Opened(t, record).entries ==> n < Opened(t, record).launches)
  {
  }

  lemma OpenedPending(t: Table, record: Record)
    requires Ok(t)
    ensures PendingOk(Opened(t, record))
  {
  }

  lemma OpenedAlarms(t: Table, record: Record)
    requires Ok(t)
    ensures AlarmsOk(Opened(t, record))
  {
  }

  lemma HeldWaits(t: Table, n: nat)
    requires Ok(t) && IsCurrent(t, n) && t.entries[n].phase == Acked
    ensures WaitsOk(Held(t, n))
  {
  }

  lemma HeldOk(t: Table, n: nat)
    requires Ok(t) && IsCurrent(t, n) && t.entries[n].phase == Acked
    ensures Ok(Held(t, n))
  {
    HeldWaits(t, n);
  }

  /** The phase of an entry that is in nobody's reach matters to nothing. */
  lemma GonePhaseOk(t: Table, n: nat, phase: Phase)
    requires Ok(t) && n in t.entries && !IsCurrent(t, n) && t.entries[n].waiter.None?
    ensures Ok(InPhase(t, n, phase))
  {
  }

  /** An attach after the `placed` report: the order of the source's statements does not matter. */
  lemma AttachedReported(t: Table, n: nat)
    requires Ok(t) && IsCurrent(t, n)
    ensures Forgotten(Answered(InPhase(Cleared(t, n), n, Attached), n), n)
            == InPhase(Answered(Forgotten(t, n), n), n, Attached)
  {
    var a := Forgotten(Answered(InPhase(Cleared(t, n), n, Attached), n), n);
    var b := InPhase(Answered(Forgotten(t, n), n), n, Attached);
    assert a.entries == b.entries;
    assert a.alarms == b.alarms;
  }

  lemma AttachedUnreported(t: Table, n: nat)
    requires Ok(t) && IsCurrent(t, n) && t.entries[n].waiter.None?
    ensures Rearmed(Answered(InPhase(Cleared(t, n), n, Attached), n), n, None) == Rearmed(InPhase(t, n, Attached), n, None)
  {
    assert Rearmed(InPhase(Cleared(t, n), n, Attached), n, None).alarms == Rearmed(InPhase(t, n, Attached), n, None).alarms;
  }

  // ----- each refines its protocol step -----

  ghost function SlotOf(n: nat, e: Entry): Slot { Slot(n, e.record, e.phase, e.waiter) }

  /** The protocol state `v` is this table with timers left out; what was said and dropped is not in the table. */
  ghost predicate Shows(t: Table, v: State) {
    && (forall id :: id in v.pending <==> id in t.pending)
    && (forall id :: id in t.pending ==> t.pending[id] in t.entries && v.pending[id] == SlotOf(t.pending[id], t.entries[t.pending[id]]))
    && v.launches == t.launches && v.promises == t.promises
    && (forall p :: p in v.waiting <==> p in t.waits)
  }

  lemma LoseShows(t: Table, n: nat, v: State, reason: Reason)
    requires Ok(t) && Shows(t, v) && IsCurrent(t, n)
    ensures Shows(Answered(Forgotten(t, n), n), Lose(v, t.entries[n].record.agentId, reason))
  {
  }

  lemma OpenShows(t: Table, v: State, record: Record)
    requires Ok(t) && Shows(t, v)
    ensures Shows(Opened(t, record), Open(v, record))
  {
  }

  lemma AdvancedShows(t: Table, n: nat, v: State, w: State, phase: Phase, failure: Option<Reason>)
    requires Ok(t) && Shows(t, v) && IsCurrent(t, n)
    requires var id := t.entries[n].record.agentId;
             w.pending == v.pending[id := v.pending[id].(phase := phase)]
    requires w.launches == v.launches && w.promises == v.promises && w.waiting == v.waiting
    ensures Shows(Rearmed(InPhase(t, n, phase), n, failure), w)
  {
  }

  lemma HeldShows(t: Table, n: nat, v: State)
    requires Ok(t) && Shows(t, v) && IsCurrent(t, n) && t.entries[n].phase == Acked
    ensures Shows(Held(t, n), PlacedReportStep(v, t.entries[n].record.agentId, Report(true, None)))
  {
  }

  lemma AttachedReportedShows(t: Table, n: nat, v: State)
    requires Ok(t) && Shows(t, v) && IsCurrent(t, n) && t.entries[n].phase == Placed
    ensures Shows(InPhase(Answered(Forgotten(t, n), n), n, Attached), AttachedStep(v, t.entries[n].record.agentId))
  {
  }

  lemma ForgottenShows(t: Table, n: nat, v: State, w: State)
    requires Ok(t) && Shows(t, v) && IsCurrent(t, n)
    requires w.pending == v.pending - {t.entries[n].record.agentId}
    requires w.launches == v.launches && w.promises == v.promises && w.waiting == v.waiting
    ensures Shows(Forgotten(t, n), w)
  {
  }

  lemma WaitOverShows(t: Table, p: nat, v: State)
    requires Ok(t) && Shows(t, v) && p in t.waits
    ensures Shows(Answered(t, t.waits[p]), WaitOverStep(v, p))
  {
  }

  // ----- tables and protocol states that belong together -----

  /** `Sound` is stated under this guard so that a proof opens it only by mentioning `Look`. */
  ghost predicate Look(x: int) { true }

  ghost predicate Sound(t: Table, v: State) {
    forall x {:trigger Look(x)} :: Look(x) ==> Ok(t) && Shows(t, v)
  }

  lemma SoundMeans(t: Table, v: State)
    requires Sound(t, v)
    ensures Ok(t) && Shows(t, v)
  {
    assert Look(0);
  }

  /** What a call reads off before it changes anything. */
  lemma SoundAt(t: Table, v: State, id: string)
    requires Sound(t, v)
    ensures id in t.pending <==> id in v.pending
    ensures id in t.pending ==> IsCurrent(t, t.pending[id])
    ensures id in t.pending ==> t.entries[t.pending[id]].record.agentId == id
    ensures id in t.pending ==> v.pending[id] == SlotOf(t.pending[id], t.entries[t.pending[id]])
    ensures v.promises == t.promises && v.launches == t.launches
  {
    SoundMeans(t, v);
  }

  lemma SoundInit(v: State)
    requires v == Init
    ensures Sound(Table(map[], 0, map[], map[], 0, map[], 0), v)
  {
  }

  lemma PromisedSound(t: Table, v: State, log: seq<Effect>)
    requires Sound(t, v)
    ensures Sound(t.(promises := t.promises + 1), v.(promises := v.promises + 1, log := log))
  {
    SoundMeans(t, v);
  }

  lemma OpenedSound(t: Table, record: Record, v: State)
    requires Sound(t, v)
    ensures record.agentId in t.pending ==> t.pending[record.agentId] in t.entries
    ensures Sound(Opened(t, record), Open(v, record))
  {
    SoundMeans(t, v);
    OpenedOk(t, record);
    OpenShows(t, v, record);
  }

  lemma FailedSound(t: Table, n: nat, v: State, reason: Reason)
    requires Sound(t, v) && IsCurrent(t, n)
    ensures t.entries[n].record.agentId in v.pending
    ensures Sound(Answered(Forgotten(t, n), n), Lose(v, t.entries[n].record.agentId, reason))
  {
    SoundMeans(t, v);
    ForgottenOk(t, n);
    AnsweredOk(Forgotten(t, n), n);
    LoseShows(t, n, v, reason);
  }

  lemma ForgottenSound(t: Table, n: nat, v: State)
    requires Sound(t, v) && IsCurrent(t, n)
    ensures Sound(Forgotten(t, n), v.(pending := v.pending - {t.entries[n].record.agentId}))
  {
    SoundMeans(t, v);
    ForgottenOk(t, n);
    ForgottenShows(t, n, v, v.(pending := v.pending - {t.entries[n].record.agentId}));
  }

  lemma GrantedSound(t: Table, n: nat, v: State, report: Report)
    requires Sound(t, v) && IsCurrent(t, n) && t.entries[n].phase == Launching && report.ok
    ensures Sound(Rearmed(InPhase(t, n, Acked), n, ExpiryReason(Acked, t.entries[n].record)),
                  Ready(v, t.entries[n].record.agentId, report).0)
  {
    SoundMeans(t, v);
    AdvancedOk(t, n, Acked);
    AdvancedShows(t, n, v, Ready(v, t.entries[n].record.agentId, report).0, Acked, ExpiryReason(Acked, t.entries[n].record));
  }

  lemma HeldSound(t: Table, n: nat, v: State)
    requires Sound(t, v) && IsCurrent(t, n) && t.entries[n].phase == Acked
    ensures Sound(Held(t, n), PlacedReportStep(v, t.entries[n].record.agentId, Report(true, None)))
  {
    SoundMeans(t, v);
    HeldOk(t, n);
    HeldShows(t, n, v);
  }

  lemma AttachedReportedSound(t: Table, n: nat, v: State)
    requires Sound(t, v) && IsCurrent(t, n) && t.entries[n].phase == Placed
    ensures Sound(Forgotten(Answered(InPhase(Cleared(t, n), n, Attached), n), n), AttachedStep(v, t.entries[n].record.agentId))
  {
    SoundMeans(t, v);
    AttachedReported(t, n);
    ForgottenOk(t, n);
    AnsweredOk(Forgotten(t, n), n);
    GonePhaseOk(Answered(Forgotten(t, n), n), n, Attached);
    AttachedReportedShows(t, n, v);
  }

  lemma AttachedKeptShows(t: Table, n: nat, v: State)
    requires Ok(t) && Shows(t, v) && IsCurrent(t, n) && t.entries[n].phase != Placed && t.entries[n].phase != Attached
    ensures Shows(Rearmed(InPhase(t, n, Attached), n, None), AttachedStep(v, t.entries[n].record.agentId))
  {
    var id := t.entries[n].record.agentId;
    AdvancedShows(t, n, v, AttachedStep(v, id), Attached, None);
  }

  lemma AttachedKept(t: Table, n: nat, v: State)
    requires Sound(t, v) && IsCurrent(t, n) && t.entries[n].phase != Placed && t.entries[n].phase != Attached
    ensures Sound(Rearmed(InPhase(t, n, Attached), n, None), AttachedStep(v, t.entries[n].record.agentId))
  {
    SoundMeans(t, v);
    AdvancedOk(t, n, Attached);
    AttachedKeptShows(t, n, v);
  }

  lemma AttachedKeptSound(t: Table, n: nat, v: State)
    requires Sound(t, v) && IsCurrent(t, n) && t.entries[n].phase != Placed && t.entries[n].phase != Attached
    ensures Sound(Rearmed(Answered(InPhase(Cleared(t, n), n, Attached), n), n, None), AttachedStep(v, t.entries[n].record.agentId))
  {
    AttachedKept(t, n, v);
    SoundMeans(t, v);
    AttachedUnreported(t, n);
  }

  lemma WaitOverSound(t: Table, p: nat, v: State)
    requires Sound(t, v) && p in t.waits
    ensures t.waits[p] in t.entries && t.entries[t.waits[p]].waiter == Some(p) && p in v.waiting
    ensures Sound(Answered(t, t.waits[p]), WaitOverStep(v, p))
  {
    SoundMeans(t, v);
    AnsweredOk(t, t.waits[p]);
    WaitOverShows(t, p, v);
  }

  lemma ClosedSound(t: Table, v: State)
    requires Sound(t, v)
    ensures forall id :: id in t.pending ==> t.pending[id] in t.entries
    ensures forall a :: a in t.alarms ==> IsCurrent(t, t.alarms[a].entry) && t.entries[t.alarms[a].entry].timer == Some(a)
    ensures Sound(t.(alarms := map[], pending := map[]), CloseStep(v))
  {
    SoundMeans(t, v);
  }

  lemma AlarmAt(t: Table, v: State, a: nat)
    requires Sound(t, v) && a in t.alarms
    ensures IsCurrent(t, t.alarms[a].entry)
    ensures var e := t.entries[t.alarms[a].entry]; t.alarms[a].failure == ExpiryReason(e.phase, e.record)
  {
    SoundMeans(t, v);
  }
}
