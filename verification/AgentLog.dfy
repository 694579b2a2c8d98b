/** The roster read from the whole log: grouping by agent, one fold per group, newest first, and the
  * cached fold that must never drift from refolding. */
module AgentLog {
  import Counting
  import opened Options
  import opened Identity

  // ----- grouping -----

  function RowsFor(rows: seq<Row>, id: string): seq<Row> {
    if rows == [] then []
    else RowsFor(rows[..|rows| - 1], id) + (if AgentIdOf(rows[|rows| - 1]) == Some(id) then [rows[|rows| - 1]] else [])
  }

  /** The ids in the order their first rows appear, which is the order a `Map` keeps. */
  function IdsOf(rows: seq<Row>): seq<string> {
    if rows == [] then []
    else
      var ids := IdsOf(rows[..|rows| - 1]);
      var id := AgentIdOf(rows[|rows| - 1]);
      if id.Some? && id.value !in ids then ids + [id.value] else ids
  }

  method GroupByAgent(rows: seq<Row>) returns (order: seq<string>, groups: map<string, seq<Row>>)
    ensures order == IdsOf(rows)
    ensures forall id :: id in groups <==> id in order
    ensures forall id :: id in groups ==> groups[id] == RowsFor(rows, id)
  {
    order, groups := [], map[];
    for k := 0 to |rows|
      invariant order == IdsOf(rows[..k])
      invariant forall id :: id in groups <==> id in order
      invariant forall id :: id in groups ==> groups[id] == RowsFor(rows[..k], id)
      invariant forall id :: id !in groups ==> RowsFor(rows[..k], id) == []
    {
      assert rows[..k + 1][..k] == rows[..k];
      var id := AgentIdOf(rows[k]);
      if id.None? { continue; }
      if id.value in groups {
        groups := groups[id.value := groups[id.value] + [rows[k]]];
      } else {
        order, groups := order + [id.value], groups[id.value := [rows[k]]];
      }
    }
    assert rows[..|rows|] == rows;
  }

  lemma {:induction false} IdsAreDistinct(rows: seq<Row>)
    ensures forall i, j :: 0 <= i < j < |IdsOf(rows)| ==> IdsOf(rows)[i] != IdsOf(rows)[j]
  {
    if rows != [] { IdsAreDistinct(rows[..|rows| - 1]); }
  }

  lemma {:induction false} IdsWithRows(rows: seq<Row>, id: string)
    ensures id in IdsOf(rows) <==> RowsFor(rows, id) != []
  {
    if rows != [] { IdsWithRows(rows[..|rows| - 1], id); }
  }

  ghost predicate Increasing(at: seq<nat>) { forall i, j :: 0 <= i < j < |at| ==> at[i] < at[j] }

  /** `at` are positions in `rows`, in order, of the rows of `picked`. */
  ghost predicate PositionsOf(at: seq<nat>, rows: seq<Row>, picked: seq<Row>) {
    |at| == |picked| && Increasing(at) && forall k :: 0 <= k < |at| ==> at[k] < |rows| && rows[at[k]] == picked[k]
  }

  lemma OneMorePosition(at: seq<nat>, rows: seq<Row>, row: Row, picked: seq<Row>)
    requires PositionsOf(at, rows, picked)
    ensures PositionsOf(at + [|rows|], rows + [row], picked + [row])
  {
  }

  /** Every row of the id has its position listed, and no other row. */
  ghost predicate Complete(at: seq<nat>, rows: seq<Row>, id: string) {
    forall i: nat :: i < |rows| ==> (i in at <==> AgentIdOf(rows[i]) == Some(id))
  }

  /** A group is an order-preserving subsequence, and takes exactly the rows that carry its id. */
  lemma {:induction false} GroupKeepsOrder(rows: seq<Row>, id: string) returns (at: seq<nat>)
    ensures PositionsOf(at, rows, RowsFor(rows, id)) && Complete(at, rows, id)
  {
    if rows == [] {
      at := [];
    } else {
      var init, row := rows[..|rows| - 1], rows[|rows| - 1];
      var before := GroupKeepsOrder(init, id);
      assert rows == init + [row];
      if AgentIdOf(row) == Some(id) {
        OneMorePosition(before, init, row, RowsFor(init, id));
        at := before + [|init|];
      } else {
        at := before;
      }
    }
  }

  // ----- the roster -----

  function FoldEach(rows: seq<Row>, ids: seq<string>): seq<Agent> {
    if ids == [] then []
    else
      var a := Fold(RowsFor(rows, ids[|ids| - 1]));
      FoldEach(rows, ids[..|ids| - 1]) + (if a.Some? then [a.value] else [])
  }

  /** A stable sort, newest first: `sort((a, b) => b.spawnedAt - a.spawnedAt)`. */
  function SortNewest(agents: seq<Agent>): seq<Agent> {
    if agents == [] then [] else Insert(SortNewest(agents[..|agents| - 1]), agents[|agents| - 1])
  }

  function Insert(sorted: seq<Agent>, a: Agent): seq<Agent> {
    if sorted == [] || sorted[|sorted| - 1].spawnedAt >= a.spawnedAt then sorted + [a]
    else Insert(sorted[..|sorted| - 1], a) + [sorted[|sorted| - 1]]
  }

  function FoldAll(rows: seq<Row>): seq<Agent> { SortNewest(FoldEach(rows, IdsOf(rows))) }

  lemma FoldEachNext(rows: seq<Row>, ids: seq<string>, k: nat)
    requires k < |ids|
    ensures FoldEach(rows, ids[..k + 1])
            == FoldEach(rows, ids[..k])
               + (if Fold(RowsFor(rows, ids[k])).Some? then [Fold(RowsFor(rows, ids[k])).value] else [])
  {
    assert ids[..k + 1][..k] == ids[..k];
  }

  method FoldEveryAgent(rows: seq<Row>) returns (agents: seq<Agent>)
    ensures agents == FoldAll(rows)
  {
    var order, groups := GroupByAgent(rows);
    agents := [];
    for k := 0 to |order|
      invariant agents == FoldEach(rows, order[..k])
    {
      FoldEachNext(rows, order, k);
      assert order[k] in groups;
      var agent := FoldAgent(groups[order[k]]);
      if agent.Some? { agents := agents + [agent.value]; }
    }
    assert order[..|order|] == order;
    agents := SortNewest(agents);
  }

  predicate NewestFirst(agents: seq<Agent>) {
    forall i, j :: 0 <= i < j < |agents| ==> agents[i].spawnedAt >= agents[j].spawnedAt
  }

  lemma {:induction false} InsertPermutes(sorted: seq<Agent>, a: Agent)
    ensures multiset(Insert(sorted, a)) == multiset(sorted) + multiset{a}
  {
    if sorted != [] && sorted[|sorted| - 1].spawnedAt < a.spawnedAt {
      InsertPermutes(sorted[..|sorted| - 1], a);
      assert sorted == sorted[..|sorted| - 1] + [sorted[|sorted| - 1]];
    }
  }

  predicate NoneBefore(agents: seq<Agent>, ts: int) { forall i :: 0 <= i < |agents| ==> agents[i].spawnedAt >= ts }

  lemma {:induction false} InsertSorts(sorted: seq<Agent>, a: Agent, ts: int)
    requires NewestFirst(sorted)
    ensures NewestFirst(Insert(sorted, a))
    ensures NoneBefore(sorted, ts) && a.spawnedAt >= ts ==> NoneBefore(Insert(sorted, a), ts)
  {
    if sorted != [] && sorted[|sorted| - 1].spawnedAt < a.spawnedAt {
      InsertSorts(sorted[..|sorted| - 1], a, ts);
      InsertSorts(sorted[..|sorted| - 1], a, sorted[|sorted| - 1].spawnedAt);
    }
  }

  lemma {:induction false} SortNewestSorts(agents: seq<Agent>)
    ensures NewestFirst(SortNewest(agents)) && multiset(SortNewest(agents)) == multiset(agents)
  {
    if agents != [] {
      var init := agents[..|agents| - 1];
      SortNewestSorts(init);
      InsertSorts(SortNewest(init), agents[|agents| - 1], 0);
      InsertPermutes(SortNewest(init), agents[|agents| - 1]);
      assert agents == init + [agents[|agents| - 1]];
    }
  }

  function SpawnedAt(agents: seq<Agent>, ts: int): seq<Agent> {
    if agents == [] then []
    else SpawnedAt(agents[..|agents| - 1], ts) + (if agents[|agents| - 1].spawnedAt == ts then [agents[|agents| - 1]] else [])
  }

  lemma {:induction false} InsertKeepsTies(sorted: seq<Agent>, a: Agent, ts: int)
    ensures SpawnedAt(Insert(sorted, a), ts) == SpawnedAt(sorted + [a], ts)
  {
    assert (sorted + [a])[..|sorted|] == sorted;
    if sorted != [] && sorted[|sorted| - 1].spawnedAt < a.spawnedAt {
      var (init, last) := (sorted[..|sorted| - 1], sorted[|sorted| - 1]);
      InsertKeepsTies(init, a, ts);
      assert (init + [a])[..|init|] == init;
      assert (Insert(init, a) + [last])[..|Insert(init, a)|] == Insert(init, a);
    }
  }

  /** Agents spawned in the same millisecond stay in log order. */
  lemma {:induction false} SortIsStable(agents: seq<Agent>, ts: int)
    ensures SpawnedAt(SortNewest(agents), ts) == SpawnedAt(agents, ts)
  {
    if agents != [] {
      var (init, last) := (agents[..|agents| - 1], agents[|agents| - 1]);
      SortIsStable(init, ts);
      SortNewestSorts(init);
      InsertKeepsTies(SortNewest(init), last, ts);
      assert (SortNewest(init) + [last])[..|SortNewest(init)|] == SortNewest(init);
    }
  }

  // ----- one agent read two ways -----

  lemma {:induction false} StepsHaveId(rows: seq<Row>, legacy: Option<string>, id: string)
    requires forall k :: 0 <= k < |rows| ==> AgentIdOf(rows[k]) == Some(id)
    ensures Steps(rows, legacy).agent.Some? ==> Steps(rows, legacy).agent.value.agentId == id
  {
    if rows != [] { StepsHaveId(rows[..|rows| - 1], legacy, id); }
  }

  lemma GroupFoldsToId(rows: seq<Row>, id: string)
    ensures Fold(RowsFor(rows, id)).Some? ==> Fold(RowsFor(rows, id)).value.agentId == id
  {
    var at := GroupKeepsOrder(rows, id);
    forall k | 0 <= k < |RowsFor(rows, id)| ensures AgentIdOf(RowsFor(rows, id)[k]) == Some(id) {
      assert at[k] in at;
    }
    StepsHaveId(RowsFor(rows, id), LegacyName(RowsFor(rows, id)), id);
  }

  lemma {:induction false} FoldEachFinds(rows: seq<Row>, ids: seq<string>, a: Agent)
    ensures a in FoldEach(rows, ids) <==> exists id :: id in ids && Fold(RowsFor(rows, id)) == Some(a)
  {
    if ids != [] {
      var (init, last) := (ids[..|ids| - 1], ids[|ids| - 1]);
      FoldEachFinds(rows, init, a);
      assert forall id :: id in ids <==> id in init || id == last by { assert ids == init + [last]; }
      if id :| id in ids && Fold(RowsFor(rows, id)) == Some(a) {
        assert id == last || id in init;
      }
    }
  }

  /** The roster holds an agent exactly when reading that agent alone (`get`) gives it. */
  lemma RosterAgreesWithGet(rows: seq<Row>, a: Agent)
    ensures a in FoldAll(rows) <==> Fold(RowsFor(rows, a.agentId)) == Some(a)
  {
    var ids := IdsOf(rows);
    SortNewestSorts(FoldEach(rows, ids));
    assert a in FoldAll(rows) <==> a in multiset(FoldAll(rows));
    assert a in FoldEach(rows, ids) <==> a in multiset(FoldEach(rows, ids));
    FoldEachFinds(rows, ids, a);
    forall id | id in ids && Fold(RowsFor(rows, id)) == Some(a) ensures id == a.agentId { GroupFoldsToId(rows, id); }
    IdsWithRows(rows, a.agentId);
  }

  // ----- the cached fold -----

  /** A row object; `last === row` compares these by identity. */
  class EventRow {
    const row: Row
    constructor (row: Row) ensures this.row == row { this.row := row; }
  }

  function Contents(read: seq<EventRow>): seq<Row> { seq(|read|, i requires 0 <= i < |read| => read[i].row) }

  /** The log: it only appends. A `stable` store hands out the same row objects on every read; another
    * builds fresh ones. */
  class EventStore {
    var rows: seq<EventRow>
    const stable: bool

    constructor (stable: bool)
      ensures rows == [] && this.stable == stable
    {
      rows := [];
      this.stable := stable;
    }

    method Append(row: Row)
      modifies this
      ensures |rows| == old(|rows|) + 1 && old(rows) <= rows && rows[|rows| - 1].row == row
    {
      var r := new EventRow(row);
      rows := rows + [r];
    }

    method AgentEvents() returns (read: seq<EventRow>)
      ensures Contents(read) == Contents(rows)
      ensures if stable then read == rows else fresh(read)
    {
      if stable { return rows; }
      read := [];
      for k := 0 to |rows|
        invariant |read| == k && fresh(read)
        invariant forall i :: 0 <= i < k ==> read[i].row == rows[i].row
      {
        var copy := new EventRow(rows[k].row);
        read := read + [copy];
      }
    }
  }

  datatype Folded = Folded(count: nat, last: Option<EventRow>, agents: seq<Agent>)

  function Last(read: seq<EventRow>): Option<EventRow> { if read == [] then None else Some(read[|read| - 1]) }

  class AgentLog {
    const events: EventStore
    var folded: Option<Folded>
    /** The read the cached fold was made from. */
    ghost var seen: seq<EventRow>

    ghost predicate Valid()
      reads this, events
    {
      folded.Some? ==>
        && folded.value == Folded(|seen|, Last(seen), FoldAll(Contents(seen)))
        && (events.stable ==> seen <= events.rows)
    }

    constructor (events: EventStore)
      ensures Valid() && this.events == events
    {
      this.events := events;
      folded, seen := None, [];
    }

    /** Whatever was appended since, the answer is the fold of the log as it is now. */
    method All() returns (agents: seq<Agent>)
      requires Valid()
      modifies this
      ensures Valid()
      ensures agents == FoldAll(Contents(events.rows))
    {
      var read := events.AgentEvents();
      var last := Last(read);
      if folded.None? || folded.value.count != |read| || folded.value.last != last {
        var refolded := FoldEveryAgent(Contents(read));
        folded := Some(Folded(|read|, last, refolded));
        seen := read;
      } else {
        if events.stable { SameCountSameLast(seen, read); }
        assert seen == read;
      }
      agents := folded.value.agents;
    }

    method Get(id: string) returns (agent: Option<Agent>)
      ensures agent == Fold(RowsFor(Contents(events.rows), id))
    {
      agent := FoldAgent(RowsFor(Contents(events.rows), id));
    }
  }

  /** Appends made by anyone leave the cache valid. */
  twostate lemma AppendKeepsCache(log: AgentLog)
    requires old(log.Valid()) && unchanged(log) && old(log.events.rows) <= log.events.rows
    ensures log.Valid()
  {
  }

  /** The cache test is exact for reads of which one extends the other, as an append-only log gives. */
  lemma SameCountSameLast(earlier: seq<EventRow>, later: seq<EventRow>)
    requires earlier <= later
    ensures |earlier| == |later| && Last(earlier) == Last(later) <==> earlier == later
  {
    if |earlier| == |later| { assert later[..|later|] == later; }
  }

  // ----- lineage -----

  function WithId(agents: seq<Agent>, id: string): Option<Agent> {
    if agents == [] then None
    else if agents[0].agentId == id then Some(agents[0]) else WithId(agents[1..], id)
  }

  /** The first agent that teleported from `id`. */
  function SuccessorOf(agents: seq<Agent>, id: string): Option<Agent> {
    if agents == [] then None
    else if agents[0].teleportFrom == id then Some(agents[0]) else SuccessorOf(agents[1..], id)
  }

  /** `a` is the first agent with this id. */
  ghost predicate FirstWithId(agents: seq<Agent>, id: string, a: Agent) {
    exists i :: 0 <= i < |agents| && agents[i] == a && a.agentId == id && forall j :: 0 <= j < i ==> agents[j].agentId != id
  }

  /** `a` is the first agent that teleported from this one. */
  ghost predicate FirstTeleportedFrom(agents: seq<Agent>, id: string, a: Agent) {
    exists i ::
      0 <= i < |agents| && agents[i] == a && a.teleportFrom == id && forall j :: 0 <= j < i ==> agents[j].teleportFrom != id
  }

  /** `agents.find` by id. */
  lemma {:induction false} WithIdIs(agents: seq<Agent>, id: string)
    ensures WithId(agents, id).None? <==> forall i :: 0 <= i < |agents| ==> agents[i].agentId != id
    ensures WithId(agents, id).Some? ==> FirstWithId(agents, id, WithId(agents, id).value)
  {
    if agents != [] && agents[0].agentId != id {
      var rest := agents[1..];
      WithIdIs(rest, id);
      assert forall i :: 1 <= i < |agents| ==> agents[i] == rest[i - 1];
      if WithId(rest, id).Some? {
        var a := WithId(rest, id).value;
        var i :| 0 <= i < |rest| && rest[i] == a && a.agentId == id && forall j :: 0 <= j < i ==> rest[j].agentId != id;
        assert agents[i + 1] == a;
      }
    }
  }

  /** `agents.find` by `teleportFrom`. */
  lemma {:induction false} SuccessorIs(agents: seq<Agent>, id: string)
    ensures SuccessorOf(agents, id).None? <==> forall i :: 0 <= i < |agents| ==> agents[i].teleportFrom != id
    ensures SuccessorOf(agents, id).Some? ==> FirstTeleportedFrom(agents, id, SuccessorOf(agents, id).value)
  {
    if agents != [] && agents[0].teleportFrom != id {
      var rest := agents[1..];
      SuccessorIs(rest, id);
      assert forall i :: 1 <= i < |agents| ==> agents[i] == rest[i - 1];
      if SuccessorOf(rest, id).Some? {
        var a := SuccessorOf(rest, id).value;
        var i :| 0 <= i < |rest| && rest[i] == a && a.teleportFrom == id && forall j :: 0 <= j < i ==> rest[j].teleportFrom != id;
        assert agents[i + 1] == a;
      }
    }
  }

  /** `lineageFrom`: ends on any `teleportFrom` graph, cycles included. */
  method LineageFrom(agents: seq<Agent>, id: string) returns (line: seq<Agent>)
    ensures line == [] <==> forall i :: 0 <= i < |agents| ==> agents[i].agentId != id
    ensures line != [] ==> FirstWithId(agents, id, line[0])
    ensures forall k :: 0 <= k < |line| - 1 ==> FirstTeleportedFrom(agents, line[k].agentId, line[k + 1])
    ensures Counting.Distinct(line)
    ensures line != [] ==>
              || (forall i :: 0 <= i < |agents| ==> agents[i].teleportFrom != line[|line| - 1].agentId)
              || exists k :: 0 <= k < |line| && FirstTeleportedFrom(agents, line[|line| - 1].agentId, line[k])
  {
    line := [];
    var next := WithId(agents, id);
    WithIdIs(agents, id);
    while next.Some? && next.value !in line
      invariant forall a :: a in line ==> a in agents
      invariant next.Some? ==> next.value in agents
      invariant forall k :: 0 <= k < |line| - 1 ==> FirstTeleportedFrom(agents, line[k].agentId, line[k + 1])
      invariant Counting.Distinct(line)
      invariant line == [] ==> next == WithId(agents, id)
      invariant line != [] ==> FirstWithId(agents, id, line[0]) && next == SuccessorOf(agents, line[|line| - 1].agentId)
      invariant line != [] && next.Some? ==> FirstTeleportedFrom(agents, line[|line| - 1].agentId, next.value)
      decreases |agents| - |line|
    {
      line := line + [next.value];
      Counting.NoMoreThanAll(line, agents);
      SuccessorIs(agents, next.value.agentId);
      next := SuccessorOf(agents, next.value.agentId);
    }
    if line != [] { SuccessorIs(agents, line[|line| - 1].agentId); }
  }
}
