/** The guard tick by tick: whom it acts on, and how long it then leaves a pid alone. */
module ProcessGuardMonitor {
  import opened Options
  import opened ProcessGuard

  const KILL_REPEAT_MS: int := 10_000
  const RECORD_REPEAT_MS: int := 600_000
  const READER_FAILURE_REPEAT_MS: int := 60_000

  datatype Mode = Kill | Log | Off

  /** One tick's inputs: the config read, the process table unless reading it failed, and the clock. */
  datatype Tick = Tick(mode: Mode, limitBytes: int, table: Option<seq<Row>>, now: int)

  /** `daemon` is the test for agent-chat's own processes and tmux. */
  datatype Host = Host(brokerPid: int, uid: int, agentProgram: string -> bool, daemon: string -> bool)

  /** One victim acted on, and how often the mode had changed by then. */
  datatype Deed = Deed(row: Row, at: int, killed: bool, epoch: nat)

  /** `epoch` counts mode changes; `clock` is the time of the last tick that read the table. */
  datatype State = State(lastMode: Option<Mode>, quietUntil: map<int, int>, deeds: seq<Deed>, epoch: nat, clock: int)

  function Init(start: int): State { State(None, map[], [], 0, start) }

  function GuardOf(host: Host, tick: Tick): Guard {
    Guard(host.brokerPid, host.uid, tick.limitBytes, host.agentProgram)
  }

  predicate Kills(host: Host, mode: Mode, row: Row) { mode == Kill && !host.daemon(row.command) }

  function QuietFor(killed: bool): int { if killed then KILL_REPEAT_MS else RECORD_REPEAT_MS }

  function Pruned(quiet: map<int, int>, now: int): map<int, int> { map p | p in quiet && quiet[p] > now :: quiet[p] }

  /** `forgetStale`. */
  function Forgot(s: State, mode: Mode, now: int): State {
    var changed := s.lastMode != Some(mode);
    s.(quietUntil := if changed then map[] else Pruned(s.quietUntil, now), lastMode := Some(mode),
       epoch := if changed then s.epoch + 1 else s.epoch, clock := now)
  }

  function ActOn(s: State, row: Row, host: Host, mode: Mode): State {
    if row.pid in s.quietUntil then s
    else
      var killed := Kills(host, mode, row);
      s.(deeds := s.deeds + [Deed(row, s.clock, killed, s.epoch)],
         quietUntil := s.quietUntil[row.pid := s.clock + QuietFor(killed)])
  }

  function ActOnAll(s: State, victims: seq<Row>, host: Host, mode: Mode): State {
    if victims == [] then s
    else ActOn(ActOnAll(s, victims[..|victims| - 1], host, mode), victims[|victims| - 1], host, mode)
  }

  lemma OneMore(s: State, victims: seq<Row>, i: nat, host: Host, mode: Mode)
    requires i < |victims|
    ensures ActOnAll(s, victims[..i + 1], host, mode) == ActOn(ActOnAll(s, victims[..i], host, mode), victims[i], host, mode)
  {
    assert victims[..i + 1][..i] == victims[..i];
  }

  ghost function Ticked(s: State, host: Host, tick: Tick): State {
    if tick.mode == Off || tick.table.None? then s
    else
      var rows := tick.table.value;
      ActOnAll(Forgot(s, tick.mode, tick.now), Chosen(rows, rows, GuardOf(host, tick)), host, tick.mode)
  }

  ghost function Run(s: State, host: Host, ticks: seq<Tick>): State {
    if ticks == [] then s else Ticked(Run(s, host, ticks[..|ticks| - 1]), host, ticks[|ticks| - 1])
  }

  // ----- the monitor -----

  class Monitor {
    const host: Host
    var lastMode: Option<Mode>
    var quietUntil: map<int, int>
    var lastReaderFailureAt: Option<int>
    ghost var deeds: seq<Deed>
    ghost var epoch: nat
    ghost var clock: int
    ghost var failures: seq<int>

    ghost function View(): State
      reads this
    {
      State(lastMode, quietUntil, deeds, epoch, clock)
    }

    /** Failures to read the table are recorded at least a minute apart. */
    ghost predicate Valid()
      reads this
    {
      && (lastReaderFailureAt.None? ==> failures == [])
      && (lastReaderFailureAt.Some? ==> failures != [] && failures[|failures| - 1] == lastReaderFailureAt.value)
      && forall i :: 0 <= i < |failures| - 1 ==> failures[i + 1] - failures[i] >= READER_FAILURE_REPEAT_MS
    }

    constructor (host: Host, ghost start: int)
      ensures Valid() && this.host == host && View() == Init(start)
    {
      this.host := host;
      lastMode, quietUntil, lastReaderFailureAt := None, map[], None;
      deeds, epoch, clock, failures := [], 0, start, [];
    }

    /** `guardOnce`. */
    method GuardOnce(tick: Tick)
      requires Valid()
      modifies this
      ensures Valid() && View() == Ticked(old(View()), host, tick)
    {
      if tick.mode == Off {
        return;
      }
      if tick.table.None? {
        NoteReaderFailure(tick.now);
        return;
      }
      var rows := tick.table.value;
      ForgetStale(tick.mode, tick.now);
      var victims := RunawayVictims(rows, GuardOf(host, tick));
      Consider(victims, tick.mode, tick.now);
    }

    /** The loop over the victims. */
    method Consider(victims: seq<Victim>, mode: Mode, now: int)
      requires now == clock
      modifies `quietUntil, `deeds
      ensures View() == ActOnAll(old(View()), RowsOf(victims), host, mode)
    {
      ghost var start, chosen := View(), RowsOf(victims);
      var i := 0;
      while i < |victims|
        invariant 0 <= i <= |victims|
        invariant View() == ActOnAll(start, chosen[..i], host, mode)
      {
        OneMore(start, chosen, i, host, mode);
        ConsiderOne(victims[i].row, mode, now);
        i := i + 1;
      }
      assert chosen[..|chosen|] == chosen;
    }

    /** The body of the loop. */
    method ConsiderOne(row: Row, mode: Mode, now: int)
      requires now == clock
      modifies `quietUntil, `deeds
      ensures View() == ActOn(old(View()), row, host, mode)
    {
      if row.pid in quietUntil {
        return;
      }
      var quietFor := Act(row, mode);
      quietUntil := quietUntil[row.pid := now + quietFor];
    }

    method ForgetStale(mode: Mode, now: int)
      modifies `lastMode, `quietUntil, `epoch, `clock
      ensures View() == Forgot(old(View()), mode, now)
    {
      if lastMode != Some(mode) {
        quietUntil := map[];
        epoch := epoch + 1;
      }
      lastMode := Some(mode);
      clock := now;
      quietUntil := map p | p in quietUntil && quietUntil[p] > now :: quietUntil[p];
    }

    method Act(row: Row, mode: Mode) returns (quietFor: int)
      modifies `deeds
      ensures deeds == old(deeds) + [Deed(row, clock, Kills(host, mode, row), epoch)]
      ensures quietFor == QuietFor(Kills(host, mode, row))
    {
      var daemon := host.daemon(row.command);
      if mode != Kill || daemon {
        deeds := deeds + [Deed(row, clock, false, epoch)];
        return RECORD_REPEAT_MS;
      }
      deeds := deeds + [Deed(row, clock, true, epoch)];
      return KILL_REPEAT_MS;
    }

    method NoteReaderFailure(now: int)
      requires Valid()
      modifies `lastReaderFailureAt, `failures
      ensures Valid()
      ensures failures == old(failures) || failures == old(failures) + [now]
    {
      if lastReaderFailureAt.Some? && now - lastReaderFailureAt.value < READER_FAILURE_REPEAT_MS {
        return;
      }
      lastReaderFailureAt := Some(now);
      failures := failures + [now];
    }
  }

  // ----- spacing -----

  /** Two deeds on one pid with no mode change between them. */
  predicate Comparable(a: Deed, b: Deed) { a.row.pid == b.row.pid && a.epoch == b.epoch }

  predicate Apart(a: Deed, b: Deed) { b.at - a.at >= QuietFor(a.killed) }

  ghost predicate Spaced(deeds: seq<Deed>) {
    forall i, j :: 0 <= i < j < |deeds| && Comparable(deeds[i], deeds[j]) ==> Apart(deeds[i], deeds[j])
  }

  /** A deed of the present epoch still keeps its pid quiet, unless its time is over. */
  predicate Remembered(s: State, d: Deed) {
    && d.epoch <= s.epoch
    && (d.epoch == s.epoch ==>
          || s.clock >= d.at + QuietFor(d.killed)
          || (d.row.pid in s.quietUntil && s.quietUntil[d.row.pid] >= d.at + QuietFor(d.killed)))
  }

  ghost predicate Inv(s: State) { Spaced(s.deeds) && forall i :: 0 <= i < |s.deeds| ==> Remembered(s, s.deeds[i]) }

  lemma {:induction false} ActAllKeeps(s: State, victims: seq<Row>, host: Host, mode: Mode)
    requires Inv(s)
    ensures Inv(ActOnAll(s, victims, host, mode)) && ActOnAll(s, victims, host, mode).clock == s.clock
  {
    if victims != [] {
      var init := victims[..|victims| - 1];
      ActAllKeeps(s, init, host, mode);
    }
  }

  /** The clock does not run backwards. */
  ghost predicate Forward(start: int, ticks: seq<Tick>) {
    && (forall i :: 0 <= i < |ticks| ==> ticks[i].now >= start)
    && forall i, j :: 0 <= i < j < |ticks| ==> ticks[i].now <= ticks[j].now
  }

  lemma {:induction false} RunKeeps(host: Host, start: int, ticks: seq<Tick>)
    requires Forward(start, ticks)
    ensures Inv(Run(Init(start), host, ticks))
    ensures Run(Init(start), host, ticks).clock == start
         || exists i :: 0 <= i < |ticks| && Run(Init(start), host, ticks).clock == ticks[i].now
  {
    if ticks != [] {
      var (init, tick) := (ticks[..|ticks| - 1], ticks[|ticks| - 1]);
      var s := Run(Init(start), host, init);
      RunKeeps(host, start, init);
      assert s.clock <= tick.now;
      if tick.mode != Off && tick.table.Some? {
        var rows := tick.table.value;
        ActAllKeeps(Forgot(s, tick.mode, tick.now), Chosen(rows, rows, GuardOf(host, tick)), host, tick.mode);
        assert ticks[|ticks| - 1].now == tick.now;
      }
    }
  }

  /** Over any run of ticks, two kills of one pid are at least ten seconds apart, and a record is ten minutes
    * before the next deed on its pid, unless the mode changed in between; switching off and on again is no
    * change. */
  lemma DeedsAreSpaced(host: Host, start: int, ticks: seq<Tick>, i: nat, j: nat)
    requires Forward(start, ticks)
    requires i < j < |Run(Init(start), host, ticks).deeds|
    ensures var deeds := Run(Init(start), host, ticks).deeds;
            deeds[i].row.pid == deeds[j].row.pid && deeds[i].epoch == deeds[j].epoch ==>
              deeds[j].at - deeds[i].at >= if deeds[i].killed then 10_000 else 600_000
  {
    RunKeeps(host, start, ticks);
    var deeds := Run(Init(start), host, ticks).deeds;
    if Comparable(deeds[i], deeds[j]) { assert Apart(deeds[i], deeds[j]); }
  }

  // ----- whom it acts on -----

  /** Tick `t` chose the deed's process, and it was a kill only in kill mode and of no daemon. */
  ghost predicate Justified(host: Host, t: Tick, d: Deed) {
    && t.mode != Off && t.table.Some? && d.at == t.now
    && d.row in Chosen(t.table.value, t.table.value, GuardOf(host, t))
    && (d.killed <==> t.mode == Kill && !host.daemon(d.row.command))
  }

  lemma {:induction false} ActedOnVictims(s: State, victims: seq<Row>, host: Host, mode: Mode, k: nat)
    requires |s.deeds| <= k < |ActOnAll(s, victims, host, mode).deeds|
    ensures var d := ActOnAll(s, victims, host, mode).deeds[k];
            d.row in victims && d.at == s.clock && (d.killed <==> Kills(host, mode, d.row))
    ensures ActOnAll(s, victims, host, mode).clock == s.clock
  {
    if victims != [] {
      var u := ActOnAll(s, victims[..|victims| - 1], host, mode);
      ClockStays(s, victims[..|victims| - 1], host, mode);
      if k < |u.deeds| { ActedOnVictims(s, victims[..|victims| - 1], host, mode, k); }
    }
  }

  lemma {:induction false} ClockStays(s: State, victims: seq<Row>, host: Host, mode: Mode)
    ensures ActOnAll(s, victims, host, mode).clock == s.clock
    ensures s.deeds <= ActOnAll(s, victims, host, mode).deeds
  {
    if victims != [] { ClockStays(s, victims[..|victims| - 1], host, mode); }
  }

  /** Every deed of a run was done at some tick on a process that tick's table made a victim. */
  lemma {:induction false} EveryDeedIsJustified(host: Host, start: int, ticks: seq<Tick>, k: nat)
    requires k < |Run(Init(start), host, ticks).deeds|
    ensures exists i :: 0 <= i < |ticks| && Justified(host, ticks[i], Run(Init(start), host, ticks).deeds[k])
  {
    if ticks != [] {
      var (init, tick) := (ticks[..|ticks| - 1], ticks[|ticks| - 1]);
      var s := Run(Init(start), host, init);
      var d := Run(Init(start), host, ticks).deeds[k];
      if tick.mode != Off && tick.table.Some? {
        ClockStays(Forgot(s, tick.mode, tick.now), Chosen(tick.table.value, tick.table.value, GuardOf(host, tick)), host, tick.mode);
      }
      if k < |s.deeds| {
        EveryDeedIsJustified(host, start, init, k);
        var i :| 0 <= i < |init| && Justified(host, init[i], s.deeds[k]);
        assert ticks[i] == init[i] && d == s.deeds[k];
      } else {
        var rows := tick.table.value;
        ActedOnVictims(Forgot(s, tick.mode, tick.now), Chosen(rows, rows, GuardOf(host, tick)), host, tick.mode, k);
        assert Justified(host, ticks[|ticks| - 1], d);
      }
    }
  }

  /** No run ever kills init, the broker, a root, or one of the processes the broker runs under. */
  lemma KillsAreSafe(host: Host, start: int, ticks: seq<Tick>, k: nat) returns (t: Tick)
    requires k < |Run(Init(start), host, ticks).deeds|
    ensures t in ticks && t.table.Some?
    ensures var d := Run(Init(start), host, ticks).deeds[k];
            && (d.killed ==> t.mode == Kill && !host.daemon(d.row.command))
            && d.row.pid != INIT_PID && d.row.pid != host.brokerPid && !host.agentProgram(d.row.command)
            && !Protected(ByPid(t.table.value), host.brokerPid, d.row.pid)
            && d.row.rssKb * 1024 > t.limitBytes
  {
    EveryDeedIsJustified(host, start, ticks, k);
    var d := Run(Init(start), host, ticks).deeds[k];
    var i :| 0 <= i < |ticks| && Justified(host, ticks[i], d);
    t := ticks[i];
    ChosenAre(t.table.value, t.table.value, GuardOf(host, t), d.row);
  }
}
