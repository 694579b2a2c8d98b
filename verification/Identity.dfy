/** An agent's identity as a fold over its log rows, oldest first: the lifecycle state machine, the
  * hidden "this exit may be false" flag, and what the resulting times mean in terms of the log. */
module Identity {
  import opened Options

  datatype Kind = Spawned | AgentAttached | AgentDetached | AgentResumed | AgentExited | AgentRetired | Other

  /** The fields of a row's `meta` the lifecycle reads. Strings are "" when absent. */
  datatype Meta = Meta(name: Option<string>, adopted: bool, provisional: Option<bool>, teleportFrom: string,
                       surface: string, host: string, code: Option<int>, inferred: bool, failed: bool,
                       crashStreak: Option<int>, crashCleared: bool)

  /** `derivedBody`: the body starts with the text a provisional registration sends. */
  datatype Row = Row(kind: Kind, msgId: Option<string>, ref: Option<string>, actor: string, target: Option<string>,
                     ts: int, derivedBody: bool, meta: Meta)

  datatype Lifecycle = Spawning | Live | Detached | Exited | Retired

  datatype Exit = Exit(code: Option<int>, failedToStart: bool, inferred: bool)

  datatype Agent = Agent(agentId: string, name: string, provisionalName: bool, state: Lifecycle, adopted: bool,
                         spawnedAt: int, surface: string, host: string, teleportFrom: string, lastEventAt: int,
                         exit: Option<Exit>, exitedAt: Option<int>, detachedAt: Option<int>, crashStreak: Option<int>)

  /** The spawn row mints the id, every other row cites it. */
  function AgentIdOf(row: Row): Option<string> { if row.kind == Spawned then row.msgId else row.ref }

  function NameOf(row: Row): Option<string> { if row.target.Some? then row.target else row.meta.name }

  function OrEmpty(s: Option<string>): string { if s.Some? then s.value else "" }

  function DerivedName(row: Row, firstName: bool): bool {
    if row.meta.provisional.None? then firstName && row.derivedBody else row.meta.provisional.value
  }

  function SpawnedFrom(row: Row, id: string): Agent {
    Agent(id, OrEmpty(NameOf(row)), row.meta.adopted && DerivedName(row, true), Spawning, row.meta.adopted, row.ts,
          row.meta.surface, row.meta.host, row.meta.teleportFrom, row.ts, None, None, None, row.meta.crashStreak)
  }

  /** The first name of an adopted identity minted before `provisional` was recorded, if it is one. */
  function LegacyName(rows: seq<Row>): Option<string>
    decreases |rows|
  {
    if rows == [] then None
    else if rows[0].kind == Spawned then
      (if !rows[0].meta.adopted || rows[0].meta.provisional.Some? then None else NameOf(rows[0]))
    else LegacyName(rows[1..])
  }

  // ----- the fold -----

  /** An identity under construction, with the flag `exitInferred` the result does not show. */
  datatype Folding = Folding(agent: Option<Agent>, exitInferred: bool)

  /** Whether the exit a row records may be false: the launcher died, or the start was given up on. */
  predicate Doubtful(row: Row) { row.meta.inferred || row.meta.failed }

  function NextExitedAt(a: Agent, doubt: bool, row: Row): Option<int> {
    match row.kind
    case AgentExited => Some(row.ts)
    case AgentResumed => None
    case AgentAttached => if doubt then None else a.exitedAt
    case _ => a.exitedAt
  }

  function NextState(a: Agent, row: Row): Lifecycle {
    match row.kind
    case AgentAttached => Live
    case AgentDetached => if a.exitedAt.Some? then Exited else Detached
    case AgentResumed => Spawning
    case AgentExited => Exited
    case AgentRetired => Retired
    case _ => a.state
  }

  /** What one row does to a settled identity, field by field. */
  function Apply(a: Agent, doubt: bool, row: Row, legacy: Option<string>): Folding {
    var renamed := a.adopted && row.kind == AgentAttached;
    var resumed := row.kind == AgentResumed;
    var exited := row.kind == AgentExited;
    var reopened := row.kind == AgentAttached && doubt;
    Folding(
      Some(a.(name := if renamed then row.actor else a.name,
              provisionalName := if renamed then DerivedName(row, legacy == Some(row.actor)) else a.provisionalName,
              state := NextState(a, row),
              surface := if resumed && row.meta.surface != "" then row.meta.surface else a.surface,
              host := if resumed then row.meta.host else a.host,
              lastEventAt := row.ts,
              exit := if exited then Some(Exit(row.meta.code, row.meta.failed, row.meta.inferred))
                      else if reopened then None else a.exit,
              exitedAt := NextExitedAt(a, doubt, row),
              detachedAt := if row.kind == AgentDetached then Some(row.ts)
                            else if resumed || row.kind == AgentAttached then None else a.detachedAt,
              crashStreak := if exited then row.meta.crashStreak
                             else if resumed && row.meta.crashCleared then None else a.crashStreak)),
      if exited then Doubtful(row) else if reopened then false else doubt)
  }

  function Step(f: Folding, row: Row, legacy: Option<string>): Folding {
    if AgentIdOf(row).None? then f
    else if row.kind == Spawned then
      (if f.agent.None? then Folding(Some(SpawnedFrom(row, AgentIdOf(row).value)), f.exitInferred) else f)
    else if f.agent.None? || f.agent.value.state == Retired then f
    else Apply(f.agent.value, f.exitInferred, row, legacy)
  }

  function Steps(rows: seq<Row>, legacy: Option<string>): Folding {
    if rows == [] then Folding(None, false)
    else Step(Steps(rows[..|rows| - 1], legacy), rows[|rows| - 1], legacy)
  }

  function Fold(rows: seq<Row>): Option<Agent> { Steps(rows, LegacyName(rows)).agent }

  /** `foldAgent`, statement by statement. */
  method FoldAgent(rows: seq<Row>) returns (result: Option<Agent>)
    ensures result == Fold(rows)
  {
    var legacy := LegacyName(rows);
    result := None;
    var exitInferred := false;
    for k := 0 to |rows|
      invariant Folding(result, exitInferred) == Steps(rows[..k], legacy)
    {
      var row := rows[k];
      assert rows[..k + 1][..k] == rows[..k];
      if AgentIdOf(row).None? { continue; }
      if row.kind == Spawned {
        if result.None? { result := Some(SpawnedFrom(row, AgentIdOf(row).value)); }
        continue;
      }
      if result.None? || result.value.state == Retired { continue; }
      var agent := result.value;
      agent, exitInferred := ApplyRow(agent, exitInferred, row, legacy);
      result := Some(agent);
    }
    assert rows[..|rows|] == rows;
  }

  /** The body of the loop after its guards, in the order the source assigns. */
  method ApplyRow(before: Agent, doubt: bool, row: Row, legacy: Option<string>) returns (agent: Agent, exitInferred: bool)
    ensures Folding(Some(agent), exitInferred) == Apply(before, doubt, row, legacy)
  {
    agent, exitInferred := before.(lastEventAt := row.ts), doubt;
    if agent.adopted && row.kind == AgentAttached {
      agent := agent.(name := row.actor, provisionalName := DerivedName(row, legacy == Some(row.actor)));
    }
    if row.kind == AgentResumed && row.meta.surface != "" { agent := agent.(surface := row.meta.surface); }
    if row.kind == AgentResumed { agent := agent.(host := row.meta.host); }
    if row.kind == AgentExited {
      agent := agent.(exit := Some(Exit(row.meta.code, row.meta.failed, row.meta.inferred)), exitedAt := Some(row.ts),
                      crashStreak := row.meta.crashStreak);
      exitInferred := row.meta.inferred || row.meta.failed;
    }
    if row.kind == AgentResumed && row.meta.crashCleared { agent := agent.(crashStreak := None); }
    if row.kind == AgentAttached && exitInferred {
      agent := agent.(exitedAt := None, exit := None);
      exitInferred := false;
    }
    if row.kind == AgentResumed { agent := agent.(exitedAt := None); }
    if row.kind == AgentDetached { agent := agent.(detachedAt := Some(row.ts)); }
    if row.kind == AgentResumed || row.kind == AgentAttached { agent := agent.(detachedAt := None); }
    var closesAfterExit := row.kind == AgentDetached && agent.exitedAt.Some?;
    match row.kind {
      case AgentAttached => agent := agent.(state := Live);
      case AgentDetached => agent := agent.(state := if closesAfterExit then Exited else Detached);
      case AgentResumed => agent := agent.(state := Spawning);
      case AgentExited => agent := agent.(state := Exited);
      case AgentRetired => agent := agent.(state := Retired);
      case _ =>
    }
  }

  // ----- what every fold keeps -----

  /** What the state of an identity says about its times. */
  predicate Coherent(a: Agent) {
    && (a.state == Exited ==> a.exit.Some? && a.exitedAt.Some?)
    && (a.state == Detached ==> a.detachedAt.Some? && a.exitedAt.None?)
    && (a.state == Spawning ==> a.exitedAt.None? && a.detachedAt.None?)
    && (a.state == Live ==> a.detachedAt.None?)
    && (a.exitedAt.Some? ==> a.exit.Some?)
  }

  /** The flag the fold keeps to itself can be read off the recorded exit. */
  predicate DoubtShows(f: Folding) {
    f.exitInferred <==> f.agent.Some? && f.agent.value.exit.Some?
                        && (f.agent.value.exit.value.inferred || f.agent.value.exit.value.failedToStart)
  }

  lemma {:induction false} StepsKeep(rows: seq<Row>, legacy: Option<string>)
    ensures var f := Steps(rows, legacy); DoubtShows(f) && (f.agent.Some? ==> Coherent(f.agent.value))
  {
    if rows != [] { StepsKeep(rows[..|rows| - 1], legacy); }
  }

  lemma EveryFoldIsCoherent(rows: seq<Row>)
    requires Fold(rows).Some?
    ensures Coherent(Fold(rows).value)
  {
    StepsKeep(rows, LegacyName(rows));
  }

  predicate AwaitsExit(a: Agent) { a.state == Detached && a.exitedAt.None? }

  function StoppedAt(a: Agent): Option<int> { if a.exitedAt.Some? then a.exitedAt else a.detachedAt }

  /** `awaitsExit` is exactly "detached", and whatever has stopped says when. */
  lemma StoppedAgentsSayWhen(rows: seq<Row>)
    requires Fold(rows).Some?
    ensures var a := Fold(rows).value;
            && (AwaitsExit(a) <==> a.state == Detached)
            && (a.state == Exited || a.state == Detached ==> StoppedAt(a).Some?)
            && (a.state == Spawning ==> StoppedAt(a).None?)
  {
    StepsKeep(rows, LegacyName(rows));
  }

  // ----- a fold can be continued -----

  predicate HasSpawn(rows: seq<Row>) { exists k :: 0 <= k < |rows| && rows[k].kind == Spawned }

  lemma {:induction false} LegacyNameSettles(rows: seq<Row>, more: seq<Row>)
    requires HasSpawn(rows)
    ensures LegacyName(rows + more) == LegacyName(rows)
    decreases |rows|
  {
    if rows[0].kind != Spawned {
      var k :| 0 <= k < |rows| && rows[k].kind == Spawned;
      assert rows[1..][k - 1].kind == Spawned;
      LegacyNameSettles(rows[1..], more);
    }
    assert (rows + more)[1..] == rows[1..] + more;
  }

  lemma {:induction false} AgentNeedsSpawn(rows: seq<Row>, legacy: Option<string>)
    requires Steps(rows, legacy).agent.Some?
    ensures HasSpawn(rows)
  {
    var init := rows[..|rows| - 1];
    if Steps(init, legacy).agent.Some? {
      AgentNeedsSpawn(init, legacy);
      var k :| 0 <= k < |init| && init[k].kind == Spawned;
      assert rows[k].kind == Spawned;
    } else {
      assert rows[|rows| - 1].kind == Spawned;
    }
  }

  /** What one more row does depends only on the identity so far (and the first name): the hidden flag
    * carries nothing a reader of the identity lacks. */
  function Continue(a: Agent, row: Row, legacy: Option<string>): Agent {
    var doubt := a.exit.Some? && (a.exit.value.inferred || a.exit.value.failedToStart);
    Step(Folding(Some(a), doubt), row, legacy).agent.value
  }

  lemma FoldContinues(rows: seq<Row>, row: Row)
    requires Fold(rows).Some?
    ensures Fold(rows + [row]) == Some(Continue(Fold(rows).value, row, LegacyName(rows)))
  {
    StepsKeep(rows, LegacyName(rows));
    AgentNeedsSpawn(rows, LegacyName(rows));
    LegacyNameSettles(rows, [row]);
    assert (rows + [row])[..|rows|] == rows;
  }

  /** Retired is absorbing: no later rows change anything at all. */
  lemma {:induction false} RetiredAbsorbs(rows: seq<Row>, more: seq<Row>)
    requires Fold(rows).Some? && Fold(rows).value.state == Retired
    ensures Fold(rows + more) == Fold(rows)
    decreases |more|
  {
    if more == [] {
      assert rows + more == rows;
    } else {
      FoldContinues(rows, more[0]);
      assert rows + more == (rows + [more[0]]) + more[1..];
      RetiredAbsorbs(rows + [more[0]], more[1..]);
    }
  }

  // ----- what the times mean -----

  predicate Minted(rows: seq<Row>) { exists k :: 0 <= k < |rows| && rows[k].kind == Spawned && rows[k].msgId.Some? }

  /** The rows that act on the identity: after its spawn row, up to and including its retirement. */
  function Acting(rows: seq<Row>): seq<Row> {
    if rows == [] then []
    else
      var (init, row) := (rows[..|rows| - 1], rows[|rows| - 1]);
      ActingNext(Acting(init), Minted(init), row)
  }

  /** Exit `k` still stands: nothing later recorded another, resumed the agent, or (for an exit that
    * may be false) attached it again. */
  ghost predicate ExitStands(acting: seq<Row>, k: nat) {
    k < |acting| && acting[k].kind == AgentExited
    && forall j :: k < j < |acting| ==>
         acting[j].kind != AgentExited && acting[j].kind != AgentResumed
         && ((acting[k].meta.inferred || acting[k].meta.failed) ==> acting[j].kind != AgentAttached)
  }

  ghost predicate DetachStands(acting: seq<Row>, k: nat) {
    k < |acting| && acting[k].kind == AgentDetached
    && forall j :: k < j < |acting| ==>
         acting[j].kind != AgentDetached && acting[j].kind != AgentResumed && acting[j].kind != AgentAttached
  }

  /** Row `k` is the latest that moves the lifecycle. */
  ghost predicate LastMove(acting: seq<Row>, k: nat) {
    k < |acting| && acting[k].kind != Other && forall j :: k < j < |acting| ==> acting[j].kind == Other
  }

  function ExitOf(row: Row): Exit { Exit(row.meta.code, row.meta.failed, row.meta.inferred) }

  ghost predicate ExitedAtMeans(f: Folding, acting: seq<Row>)
    requires f.agent.Some?
  {
    && (f.agent.value.exitedAt.Some? ==>
          exists k: nat :: ExitStands(acting, k) && acting[k].ts == f.agent.value.exitedAt.value)
    && (forall k: nat :: ExitStands(acting, k) ==>
          f.agent.value.exitedAt == Some(acting[k].ts) && f.exitInferred == (acting[k].meta.inferred || acting[k].meta.failed))
  }

  /** Exit `k` is the one on record: nothing later recorded another or (for an exit that may be false) attached the
    * agent. A resume leaves it on record, though it no longer stands. */
  ghost predicate ExitKept(acting: seq<Row>, k: nat) {
    k < |acting| && acting[k].kind == AgentExited
    && forall j :: k < j < |acting| ==>
         acting[j].kind != AgentExited && ((acting[k].meta.inferred || acting[k].meta.failed) ==> acting[j].kind != AgentAttached)
  }

  /** The exit shown is the one on record, and the hidden flag says whether that one may be false. */
  ghost predicate ExitMeans(f: Folding, acting: seq<Row>)
    requires f.agent.Some?
  {
    var exit := f.agent.value.exit;
    && (exit.Some? ==> exists k: nat :: ExitKept(acting, k) && exit == Some(Exit(acting[k].meta.code, acting[k].meta.failed, acting[k].meta.inferred)))
    && (exit.None? ==> !f.exitInferred)
    && forall k: nat :: ExitKept(acting, k) ==> exit == Some(Exit(acting[k].meta.code, acting[k].meta.failed, acting[k].meta.inferred)) && f.exitInferred == (acting[k].meta.inferred || acting[k].meta.failed)
  }

  ghost predicate DetachedAtMeans(a: Agent, acting: seq<Row>) {
    && (a.detachedAt.Some? ==> exists k: nat :: DetachStands(acting, k) && acting[k].ts == a.detachedAt.value)
    && (forall k: nat :: DetachStands(acting, k) ==> a.detachedAt == Some(acting[k].ts))
  }

  ghost predicate StateMeans(a: Agent, acting: seq<Row>) {
    && (a.state == Spawning || exists k: nat :: LastMove(acting, k))
    && (forall k: nat :: LastMove(acting, k) ==>
          a.state == match acting[k].kind
                     case AgentAttached => Live
                     case AgentResumed => Spawning
                     case AgentExited => Exited
                     case AgentRetired => Retired
                     case _ => if a.exitedAt.Some? then Exited else Detached)
  }

  ghost predicate Meant(f: Folding, acting: seq<Row>)
    requires f.agent.Some?
  {
    ExitedAtMeans(f, acting) && ExitMeans(f, acting)
    && DetachedAtMeans(f.agent.value, acting) && StateMeans(f.agent.value, acting)
    && (f.agent.value.state == Retired <==> exists k :: 0 <= k < |acting| && acting[k].kind == AgentRetired)
    && (forall k :: 0 <= k < |acting| ==> acting[k].kind != Spawned)
  }

  lemma ExitedAtStep(f: Folding, acting: seq<Row>, row: Row, legacy: Option<string>)
    requires f.agent.Some? && ExitedAtMeans(f, acting)
    ensures ExitedAtMeans(Apply(f.agent.value, f.exitInferred, row, legacy), acting + [row])
  {
    var g := Apply(f.agent.value, f.exitInferred, row, legacy);
    var now := acting + [row];
    forall k: nat | ExitStands(now, k)
      ensures g.agent.value.exitedAt == Some(now[k].ts) && g.exitInferred == Doubtful(now[k])
    {
      if k < |acting| {
        assert now[|acting|] == row;
        assert forall j :: k < j < |acting| ==> now[j] == acting[j];
        assert ExitStands(acting, k);
      }
    }
    if g.agent.value.exitedAt.Some? {
      if row.kind == AgentExited {
        assert ExitStands(now, |acting|);
      } else {
        var k: nat :| ExitStands(acting, k) && acting[k].ts == f.agent.value.exitedAt.value;
        assert ExitStands(now, k);
      }
    }
  }

  lemma ExitStep(f: Folding, acting: seq<Row>, row: Row, legacy: Option<string>)
    requires f.agent.Some? && ExitMeans(f, acting)
    ensures ExitMeans(Apply(f.agent.value, f.exitInferred, row, legacy), acting + [row])
  {
    var g := Apply(f.agent.value, f.exitInferred, row, legacy);
    var now := acting + [row];
    forall k: nat | ExitKept(now, k)
      ensures g.agent.value.exit == Some(ExitOf(now[k])) && g.exitInferred == Doubtful(now[k])
    {
      if k < |acting| {
        assert now[|acting|] == row;
        assert forall j :: k < j < |acting| ==> now[j] == acting[j];
        assert ExitKept(acting, k);
      }
    }
    if g.agent.value.exit.Some? {
      if row.kind == AgentExited {
        assert ExitKept(now, |acting|);
      } else {
        var k: nat :| ExitKept(acting, k) && f.agent.value.exit == Some(ExitOf(acting[k]));
        assert ExitKept(now, k);
      }
    }
  }

  lemma DetachedAtStep(f: Folding, acting: seq<Row>, row: Row, legacy: Option<string>)
    requires f.agent.Some? && DetachedAtMeans(f.agent.value, acting)
    ensures DetachedAtMeans(Apply(f.agent.value, f.exitInferred, row, legacy).agent.value, acting + [row])
  {
    var a := Apply(f.agent.value, f.exitInferred, row, legacy).agent.value;
    var now := acting + [row];
    forall k: nat | DetachStands(now, k) ensures a.detachedAt == Some(now[k].ts) {
      if k < |acting| {
        assert now[|acting|] == row;
        assert forall j :: k < j < |acting| ==> now[j] == acting[j];
        assert DetachStands(acting, k);
      }
    }
    if a.detachedAt.Some? {
      if row.kind == AgentDetached {
        assert DetachStands(now, |acting|);
      } else {
        var k: nat :| DetachStands(acting, k) && acting[k].ts == f.agent.value.detachedAt.value;
        assert DetachStands(now, k);
      }
    }
  }

  lemma StateStep(f: Folding, acting: seq<Row>, row: Row, legacy: Option<string>)
    requires f.agent.Some? && StateMeans(f.agent.value, acting) && row.kind != Spawned
    ensures StateMeans(Apply(f.agent.value, f.exitInferred, row, legacy).agent.value, acting + [row])
  {
    var now := acting + [row];
    if row.kind != Other {
      assert LastMove(now, |acting|);
      forall k: nat | LastMove(now, k) ensures k == |acting| { assert now[|acting|] == row; }
    } else {
      if k: nat :| LastMove(acting, k) { assert LastMove(now, k); }
      forall k: nat | LastMove(now, k) ensures LastMove(acting, k) {
        assert now[|acting|] == row && forall j :: 0 <= j < |acting| ==> now[j] == acting[j];
      }
    }
  }

  /** The fold and its acting rows belong together. */
  ghost predicate Together(f: Folding, acting: seq<Row>, minted: bool) {
    (f.agent.Some? <==> minted) && if f.agent.Some? then Meant(f, acting) else acting == [] && !f.exitInferred
  }

  lemma {:induction false} StepsMean(rows: seq<Row>, legacy: Option<string>)
    ensures Together(Steps(rows, legacy), Acting(rows), Minted(rows))
  {
    if rows != [] {
      var (init, row) := (rows[..|rows| - 1], rows[|rows| - 1]);
      StepsMean(init, legacy);
      MintedGrows(init, row);
      assert rows == init + [row];
      TogetherStep(Steps(init, legacy), Acting(init), Minted(init), row, legacy);
    }
  }

  function ActingNext(acting: seq<Row>, minted: bool, row: Row): seq<Row> {
    if minted && row.kind != Spawned && row.ref.Some? && (forall k :: 0 <= k < |acting| ==> acting[k].kind != AgentRetired)
    then acting + [row] else acting
  }

  lemma TogetherStep(f: Folding, acting: seq<Row>, minted: bool, row: Row, legacy: Option<string>)
    requires Together(f, acting, minted)
    ensures Together(Step(f, row, legacy), ActingNext(acting, minted, row), minted || (row.kind == Spawned && row.msgId.Some?))
  {
    if minted && row.kind != Spawned && row.ref.Some? {
      StepMeant(f, acting, row, legacy);
    } else if !minted && row.kind == Spawned && row.msgId.Some? {
      FreshMeant(SpawnedFrom(row, row.msgId.value), f.exitInferred);
    }
  }

  lemma FreshMeant(a: Agent, doubt: bool)
    requires a.state == Spawning && a.exitedAt.None? && a.detachedAt.None? && a.exit.None? && !doubt
    ensures Meant(Folding(Some(a), doubt), [])
  {
  }

  lemma MintedGrows(init: seq<Row>, row: Row)
    ensures Minted(init + [row]) <==> Minted(init) || (row.kind == Spawned && row.msgId.Some?)
  {
    var rows := init + [row];
    if k :| 0 <= k < |init| && init[k].kind == Spawned && init[k].msgId.Some? {
      assert rows[k].kind == Spawned && rows[k].msgId.Some?;
    }
    assert rows[|init|] == row;
  }

  lemma RetiredStep(acting: seq<Row>, row: Row)
    ensures var now := acting + [row];
            (exists k :: 0 <= k < |now| && now[k].kind == AgentRetired)
            <==> (exists k :: 0 <= k < |acting| && acting[k].kind == AgentRetired) || row.kind == AgentRetired
  {
    var now := acting + [row];
    assert now[|acting|] == row && forall k :: 0 <= k < |acting| ==> now[k] == acting[k];
  }

  lemma StepMeant(f: Folding, acting: seq<Row>, row: Row, legacy: Option<string>)
    requires f.agent.Some? && Meant(f, acting) && row.kind != Spawned && row.ref.Some?
    ensures Meant(Step(f, row, legacy), if f.agent.value.state == Retired then acting else acting + [row])
  {
    if f.agent.value.state != Retired {
      var (g, now) := (Apply(f.agent.value, f.exitInferred, row, legacy), acting + [row]);
      assert Step(f, row, legacy) == g;
      assert ExitedAtMeans(g, now) by { ExitedAtStep(f, acting, row, legacy); }
      assert ExitMeans(g, now) by { ExitStep(f, acting, row, legacy); }
      assert DetachedAtMeans(g.agent.value, now) by { DetachedAtStep(f, acting, row, legacy); }
      assert StateMeans(g.agent.value, now) by { StateStep(f, acting, row, legacy); }
      RetiredStep(acting, row);
    }
  }

  /** The fold against the log itself: the exit is the one on record and its time that of the exit still standing, the
    * detach time that of the detach still standing, and the state follows the latest row that moves it. */
  lemma FoldMeans(rows: seq<Row>)
    ensures Fold(rows).Some? <==> Minted(rows)
    ensures Fold(rows).Some? ==> Meant(Steps(rows, LegacyName(rows)), Acting(rows))
  {
    StepsMean(rows, LegacyName(rows));
  }

  /** Retired, or with an exit that still stands and is when the identity says. */
  ghost predicate HasEnded(a: Agent, acting: seq<Row>) {
    || (exists k :: 0 <= k < |acting| && acting[k].kind == AgentRetired)
    || (exists k: nat :: ExitStands(acting, k) && a.exitedAt == Some(acting[k].ts))
  }

  /** An identity that shows as ended did, by the log. */
  lemma {:induction false} EndedInLog(rows: seq<Row>)
    requires Fold(rows).Some? && (Fold(rows).value.state == Exited || Fold(rows).value.state == Retired)
    ensures HasEnded(Fold(rows).value, Acting(rows))
  {
    FoldMeans(rows);
    EveryFoldIsCoherent(rows);
    MeantAsEnded(Steps(rows, LegacyName(rows)), Acting(rows));
  }

  lemma MeantAsEnded(f: Folding, acting: seq<Row>)
    requires f.agent.Some? && Meant(f, acting) && Coherent(f.agent.value)
    requires f.agent.value.state == Exited || f.agent.value.state == Retired
    ensures HasEnded(f.agent.value, acting)
  {
  }

  // ----- what the name and the place mean -----

  function SpawnRow(rows: seq<Row>): Option<Row> {
    if rows == [] then None
    else
      SpawnNext(SpawnRow(rows[..|rows| - 1]), rows[|rows| - 1])
  }

  function SpawnNext(spawn: Option<Row>, row: Row): Option<Row> {
    if spawn.Some? then spawn else if row.kind == Spawned && row.msgId.Some? then Some(row) else None
  }

  function LastOf(acting: seq<Row>, kind: Kind): Option<Row> {
    if acting == [] then None
    else if acting[|acting| - 1].kind == kind then Some(acting[|acting| - 1]) else LastOf(acting[..|acting| - 1], kind)
  }

  /** The latest resume that changed the surface. */
  function LastSurface(acting: seq<Row>): Option<string> {
    if acting == [] then None
    else
      var row := acting[|acting| - 1];
      if row.kind == AgentResumed && row.meta.surface != "" then Some(row.meta.surface) else LastSurface(acting[..|acting| - 1])
  }

  /** The latest row that sets or clears the crash streak. */
  function LastStreak(acting: seq<Row>): Option<Row> {
    if acting == [] then None
    else
      var row := acting[|acting| - 1];
      if row.kind == AgentExited || (row.kind == AgentResumed && row.meta.crashCleared) then Some(row)
      else LastStreak(acting[..|acting| - 1])
  }

  /** An adopted name is what the latest attach called itself and a spawned name never moves; the host is the
    * latest resume's, the surface that of the latest resume to name one, and the id the spawn row's. The crash streak
    * is the latest exit's, unless a later resume cleared it. */
  predicate Follows(a: Agent, spawn: Row, acting: seq<Row>, legacy: Option<string>)
    requires spawn.msgId.Some?
  {
    var (attach, resume, streak) := (LastOf(acting, AgentAttached), LastOf(acting, AgentResumed), LastStreak(acting));
    && a.agentId == spawn.msgId.value && a.adopted == spawn.meta.adopted && a.spawnedAt == spawn.ts
    && a.teleportFrom == spawn.meta.teleportFrom
    && a.name == (if a.adopted && attach.Some? then attach.value.actor else OrEmpty(NameOf(spawn)))
    && a.provisionalName == (if a.adopted && attach.Some? then DerivedName(attach.value, legacy == Some(attach.value.actor))
                             else spawn.meta.adopted && DerivedName(spawn, true))
    && a.crashStreak == (if streak.None? then spawn.meta.crashStreak
                         else if streak.value.kind == AgentExited then streak.value.meta.crashStreak else None)
    && a.host == (if resume.Some? then resume.value.meta.host else spawn.meta.host)
    && a.surface == (if LastSurface(acting).Some? then LastSurface(acting).value else spawn.meta.surface)
    && a.lastEventAt == (if acting == [] then spawn.ts else acting[|acting| - 1].ts)
  }

  lemma FollowsStep(a: Agent, doubt: bool, spawn: Row, acting: seq<Row>, row: Row, legacy: Option<string>)
    requires spawn.msgId.Some? && Follows(a, spawn, acting, legacy)
    ensures Follows(Apply(a, doubt, row, legacy).agent.value, spawn, acting + [row], legacy)
  {
    LastOfMore(acting, row, AgentAttached);
    LastOfMore(acting, row, AgentResumed);
    LatestOfMore(acting, row);
  }

  lemma LastOfMore(acting: seq<Row>, row: Row, kind: Kind)
    ensures LastOf(acting + [row], kind) == if row.kind == kind then Some(row) else LastOf(acting, kind)
  {
    assert (acting + [row])[..|acting|] == acting;
  }

  lemma LatestOfMore(acting: seq<Row>, row: Row)
    ensures LastSurface(acting + [row]) ==
              if row.kind == AgentResumed && row.meta.surface != "" then Some(row.meta.surface) else LastSurface(acting)
    ensures LastStreak(acting + [row]) ==
              if row.kind == AgentExited || (row.kind == AgentResumed && row.meta.crashCleared) then Some(row)
              else LastStreak(acting)
  {
    assert (acting + [row])[..|acting|] == acting;
  }

  ghost predicate Followed(f: Folding, spawn: Option<Row>, acting: seq<Row>, legacy: Option<string>) {
    && (f.agent.Some? <==> spawn.Some?)
    && (spawn.Some? ==> spawn.value.msgId.Some? && Follows(f.agent.value, spawn.value, acting, legacy))
  }

  lemma FollowedStep(f: Folding, spawn: Option<Row>, acting: seq<Row>, row: Row, legacy: Option<string>)
    requires Followed(f, spawn, acting, legacy) && Together(f, acting, spawn.Some?)
    ensures Followed(Step(f, row, legacy), SpawnNext(spawn, row), ActingNext(acting, spawn.Some?, row), legacy)
  {
    if spawn.Some? && row.kind != Spawned && row.ref.Some? && f.agent.value.state != Retired {
      FollowsStep(f.agent.value, f.exitInferred, spawn.value, acting, row, legacy);
    }
  }

  lemma {:induction false} StepsFollow(rows: seq<Row>, legacy: Option<string>)
    ensures SpawnRow(rows).Some? <==> Minted(rows)
    ensures Followed(Steps(rows, legacy), SpawnRow(rows), Acting(rows), legacy)
  {
    if rows != [] {
      var (init, row) := (rows[..|rows| - 1], rows[|rows| - 1]);
      StepsFollow(init, legacy);
      StepsMean(init, legacy);
      assert Minted(rows) <==> SpawnNext(SpawnRow(init), row).Some? by { MintedGrows(init, row); assert rows == init + [row]; }
      FollowedStep(Steps(init, legacy), SpawnRow(init), Acting(init), row, legacy);
    }
  }

  /** The rest of the fold against the log: whose identity it is, what it is called and where it is. */
  lemma FoldFollows(rows: seq<Row>)
    ensures Fold(rows).Some? ==>
              SpawnRow(rows).Some? && SpawnRow(rows).value.msgId.Some?
              && Follows(Fold(rows).value, SpawnRow(rows).value, Acting(rows), LegacyName(rows))
  {
    StepsFollow(rows, LegacyName(rows));
  }

  // ----- the same, field by field -----

  ghost predicate LatestAt(acting: seq<Row>, kind: Kind, k: nat) {
    k < |acting| && acting[k].kind == kind && forall j :: k < j < |acting| ==> acting[j].kind != kind
  }

  ghost predicate SurfaceAt(acting: seq<Row>, k: nat) {
    && k < |acting| && acting[k].kind == AgentResumed && acting[k].meta.surface != ""
    && forall j :: k < j < |acting| ==> acting[j].kind != AgentResumed || acting[j].meta.surface == ""
  }

  ghost predicate StreakAt(acting: seq<Row>, k: nat) {
    && k < |acting| && (acting[k].kind == AgentExited || (acting[k].kind == AgentResumed && acting[k].meta.crashCleared))
    && forall j :: k < j < |acting| ==> acting[j].kind != AgentExited && !(acting[j].kind == AgentResumed && acting[j].meta.crashCleared)
  }

  /** The row that mints the identity: the first spawn row with an id. */
  ghost predicate MintedAt(rows: seq<Row>, k: nat) {
    && k < |rows| && rows[k].kind == Spawned && rows[k].msgId.Some?
    && forall j :: 0 <= j < k ==> rows[j].kind != Spawned || rows[j].msgId.None?
  }

  ghost predicate NamedBy(row: Row, name: string) {
    row.target == Some(name) || (row.target.None? && (row.meta.name == Some(name) || (row.meta.name.None? && name == "")))
  }

  /** Row `k` is the first spawn row, and gives an adopted identity this name without marking it as derived or not. */
  ghost predicate LegacyAt(rows: seq<Row>, name: string, k: nat) {
    && k < |rows| && rows[k].kind == Spawned && (forall j :: 0 <= j < k ==> rows[j].kind != Spawned)
    && rows[k].meta.adopted && rows[k].meta.provisional.None?
    && (rows[k].target == Some(name) || (rows[k].target.None? && rows[k].meta.name == Some(name)))
  }

  ghost predicate LegacyNamed(rows: seq<Row>, name: string) { exists k: nat :: LegacyAt(rows, name, k) }

  /** What the identity shows of row `k` of the log, which mints it, and of the rows that acted on it since. */
  ghost predicate Shows(a: Agent, rows: seq<Row>, k: nat, acting: seq<Row>)
    requires MintedAt(rows, k)
  {
    var spawn := rows[k];
    && a.agentId == spawn.msgId.value && a.spawnedAt == spawn.ts && a.adopted == spawn.meta.adopted
    && a.teleportFrom == spawn.meta.teleportFrom
    && (a.adopted ==> forall i: nat :: LatestAt(acting, AgentAttached, i) ==>
          && a.name == acting[i].actor
          && (a.provisionalName <==>
                || acting[i].meta.provisional == Some(true)
                || (acting[i].meta.provisional.None? && acting[i].derivedBody && LegacyNamed(rows, acting[i].actor))))
    && (!a.adopted || (forall i: nat :: !LatestAt(acting, AgentAttached, i)) ==>
          && NamedBy(spawn, a.name)
          && (a.provisionalName <==>
                a.adopted && (spawn.meta.provisional == Some(true) || (spawn.meta.provisional.None? && spawn.derivedBody))))
    && (forall i: nat :: LatestAt(acting, AgentResumed, i) ==> a.host == acting[i].meta.host)
    && ((forall i: nat :: !LatestAt(acting, AgentResumed, i)) ==> a.host == spawn.meta.host)
    && (forall i: nat :: SurfaceAt(acting, i) ==> a.surface == acting[i].meta.surface)
    && ((forall i: nat :: !SurfaceAt(acting, i)) ==> a.surface == spawn.meta.surface)
    && (forall i: nat :: StreakAt(acting, i) ==>
          a.crashStreak == if acting[i].kind == AgentExited then acting[i].meta.crashStreak else None)
    && ((forall i: nat :: !StreakAt(acting, i)) ==> a.crashStreak == spawn.meta.crashStreak)
    && a.lastEventAt == (if acting == [] then spawn.ts else acting[|acting| - 1].ts)
  }

  lemma {:induction false} LastOfIs(acting: seq<Row>, kind: Kind)
    ensures LastOf(acting, kind).None? <==> forall k: nat :: !LatestAt(acting, kind, k)
    ensures forall k: nat :: LatestAt(acting, kind, k) ==> LastOf(acting, kind) == Some(acting[k])
  {
    if acting != [] {
      var (init, last) := (acting[..|acting| - 1], |acting| - 1);
      LastOfIs(init, kind);
      if acting[last].kind == kind {
        assert LatestAt(acting, kind, last);
      } else {
        forall k: nat ensures LatestAt(acting, kind, k) <==> LatestAt(init, kind, k) {
          assert forall j :: 0 <= j < last ==> init[j] == acting[j];
        }
      }
    }
  }

  lemma {:induction false} LastSurfaceIs(acting: seq<Row>)
    ensures LastSurface(acting).None? <==> forall k: nat :: !SurfaceAt(acting, k)
    ensures forall k: nat :: SurfaceAt(acting, k) ==> LastSurface(acting) == Some(acting[k].meta.surface)
  {
    if acting != [] {
      var (init, last) := (acting[..|acting| - 1], |acting| - 1);
      LastSurfaceIs(init);
      if acting[last].kind == AgentResumed && acting[last].meta.surface != "" {
        assert SurfaceAt(acting, last);
      } else {
        forall k: nat ensures SurfaceAt(acting, k) <==> SurfaceAt(init, k) {
          assert forall j :: 0 <= j < last ==> init[j] == acting[j];
        }
      }
    }
  }

  lemma {:induction false} LastStreakIs(acting: seq<Row>)
    ensures LastStreak(acting).None? <==> forall k: nat :: !StreakAt(acting, k)
    ensures forall k: nat :: StreakAt(acting, k) ==> LastStreak(acting) == Some(acting[k])
  {
    if acting != [] {
      var (init, last) := (acting[..|acting| - 1], |acting| - 1);
      LastStreakIs(init);
      if acting[last].kind == AgentExited || (acting[last].kind == AgentResumed && acting[last].meta.crashCleared) {
        assert StreakAt(acting, last);
      } else {
        forall k: nat ensures StreakAt(acting, k) <==> StreakAt(init, k) {
          assert forall j :: 0 <= j < last ==> init[j] == acting[j];
        }
      }
    }
  }

  lemma {:induction false} SpawnRowIs(rows: seq<Row>, k: nat)
    requires MintedAt(rows, k)
    ensures SpawnRow(rows) == Some(rows[k])
  {
    var init := rows[..|rows| - 1];
    if k < |init| {
      assert MintedAt(init, k) by { assert forall j :: 0 <= j <= k ==> init[j] == rows[j]; }
      SpawnRowIs(init, k);
    } else {
      NoSpawnRow(init);
    }
  }

  lemma {:induction false} NoSpawnRow(rows: seq<Row>)
    requires forall j :: 0 <= j < |rows| ==> rows[j].kind != Spawned || rows[j].msgId.None?
    ensures SpawnRow(rows).None?
  {
    if rows != [] { NoSpawnRow(rows[..|rows| - 1]); }
  }

  lemma {:induction false} FirstMinted(rows: seq<Row>) returns (k: nat)
    requires Minted(rows)
    ensures MintedAt(rows, k)
  {
    k := 0;
    while rows[k].kind != Spawned || rows[k].msgId.None?
      invariant k < |rows| && forall j :: 0 <= j < k ==> rows[j].kind != Spawned || rows[j].msgId.None?
      decreases |rows| - k
    {
      k := k + 1;
    }
  }

  lemma {:induction false} LegacyNameIs(rows: seq<Row>, name: string)
    ensures LegacyName(rows) == Some(name) <==> LegacyNamed(rows, name)
  {
    if rows != [] {
      if rows[0].kind == Spawned {
        assert LegacyName(rows) == Some(name) <==> LegacyAt(rows, name, 0);
      } else {
        LegacyNameIs(rows[1..], name);
        LaterLegacyName(rows, name);
      }
    }
  }

  lemma LaterLegacyName(rows: seq<Row>, name: string)
    requires rows != [] && rows[0].kind != Spawned
    ensures LegacyNamed(rows, name) <==> LegacyNamed(rows[1..], name)
  {
    forall k: nat ensures LegacyAt(rows[1..], name, k) ==> LegacyAt(rows, name, k + 1) {
      assert forall j :: 0 <= j < |rows| - 1 ==> rows[1..][j] == rows[j + 1];
      assert forall j :: 1 <= j < k + 1 < |rows| ==> rows[j] == rows[1..][j - 1];
    }
    forall k: nat ensures LegacyAt(rows, name, k) ==> k > 0 && LegacyAt(rows[1..], name, k - 1) {
      assert forall j :: 0 <= j < |rows| - 1 ==> rows[1..][j] == rows[j + 1];
    }
    if k: nat :| LegacyAt(rows, name, k) { assert LegacyAt(rows[1..], name, k - 1); }
  }

  /** An identity shows, field by field, what the rows of the log say. */
  lemma {:induction false} FoldShows(rows: seq<Row>) returns (k: nat)
    requires Fold(rows).Some?
    ensures MintedAt(rows, k) && Shows(Fold(rows).value, rows, k, Acting(rows))
  {
    FoldMeans(rows);
    k := FirstMinted(rows);
    SpawnRowIs(rows, k);
    FoldFollows(rows);
    FollowedShows(Fold(rows).value, rows, k, Acting(rows));
  }

  lemma FollowedShows(a: Agent, rows: seq<Row>, k: nat, acting: seq<Row>)
    requires MintedAt(rows, k) && Follows(a, rows[k], acting, LegacyName(rows))
    ensures Shows(a, rows, k, acting)
  {
    LastOfIs(acting, AgentAttached);
    LastOfIs(acting, AgentResumed);
    LastSurfaceIs(acting);
    LastStreakIs(acting);
    forall i: nat | LatestAt(acting, AgentAttached, i)
      ensures LegacyName(rows) == Some(acting[i].actor) <==> LegacyNamed(rows, acting[i].actor)
    {
      LegacyNameIs(rows, acting[i].actor);
    }
  }
}
