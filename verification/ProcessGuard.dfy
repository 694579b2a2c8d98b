/** Which processes a tick of the process guard may stop: walks over the parent pids of one read of the
  * process table, which may hold cycles, missing parents and a pid twice. */
module ProcessGuard {
  import opened Options
  import ParentPids

  const INIT_PID := 1

  datatype Row = Row(pid: int, ppid: int, uid: int, rssKb: nat, command: string)

  /** `agentProgram` is the argv test for a `claude`, `codex` or factory process. */
  datatype Guard = Guard(brokerPid: int, uid: int, limitBytes: int, agentProgram: string -> bool)

  predicate IsRoot(row: Row, g: Guard) { row.pid == g.brokerPid || g.agentProgram(row.command) }

  /** The table by pid, in which a later row replaces an earlier one. */
  function ByPid(rows: seq<Row>): (m: map<int, Row>)
    ensures forall p :: p in m ==> m[p].pid == p && m[p] in rows
  {
    if rows == [] then map[]
    else
      var last := rows[|rows| - 1];
      ByPid(rows[..|rows| - 1])[last.pid := last]
  }

  ghost predicate Keyed(byPid: map<int, Row>) { forall p :: p in byPid ==> byPid[p].pid == p }

  function Lookup(byPid: map<int, Row>, pid: int): Option<Row> { if pid in byPid then Some(byPid[pid]) else None }

  // ----- the root above a process -----

  /** The row `k` parents above `row`'s parent. */
  function Above(row: Row, byPid: map<int, Row>, k: nat): Option<Row> {
    if k == 0 then Lookup(byPid, row.ppid)
    else
      var below := Above(row, byPid, k - 1);
      if below.None? then None else Lookup(byPid, below.value.ppid)
  }

  ghost predicate PlainTo(row: Row, byPid: map<int, Row>, g: Guard, k: nat) {
    forall j: nat :: j < k ==>
      var a := Above(row, byPid, j); a.Some? && !IsRoot(a.value, g) && a.value.pid != row.pid
  }

  /** The first root above `row` is `k` parents up, and `row`'s own pid is not met on the way. */
  ghost predicate NearestRoot(row: Row, byPid: map<int, Row>, g: Guard, k: nat) {
    && PlainTo(row, byPid, g, k)
    && var a := Above(row, byPid, k); a.Some? && IsRoot(a.value, g) && a.value.pid != row.pid
  }

  ghost predicate HasRoot(row: Row, byPid: map<int, Row>, g: Guard, root: Row) {
    exists k: nat :: NearestRoot(row, byPid, g, k) && Above(row, byPid, k) == Some(root)
  }

  ghost predicate Rootless(row: Row, byPid: map<int, Row>, g: Guard) { forall k: nat :: !NearestRoot(row, byPid, g, k) }

  lemma {:induction false} SameSteps(row: Row, byPid: map<int, Row>, i: nat, j: nat, m: nat)
    requires Above(row, byPid, i) == Above(row, byPid, j)
    ensures Above(row, byPid, i + m) == Above(row, byPid, j + m)
  {
    if m > 0 { SameSteps(row, byPid, i, j, m - 1); }
  }

  lemma {:induction false} NothingAbove(row: Row, byPid: map<int, Row>, k: nat, m: nat)
    requires k <= m && Above(row, byPid, k).None?
    ensures Above(row, byPid, m).None?
  {
    if k < m { NothingAbove(row, byPid, k, m - 1); }
  }

  /** Coming round again means there is no root to come to. */
  lemma RepeatIsRootless(row: Row, byPid: map<int, Row>, g: Guard, j: nat, k: nat)
    requires PlainTo(row, byPid, g, k) && j < k && Above(row, byPid, k) == Above(row, byPid, j)
    ensures Rootless(row, byPid, g)
  {
    forall m: nat
      ensures !NearestRoot(row, byPid, g, m)
    {
      if NearestRoot(row, byPid, g, m) && m >= k {
        assert k + (m - k) == m;
        SameSteps(row, byPid, j, k, m - k);
      }
    }
  }

  lemma OwnPidIsRootless(row: Row, byPid: map<int, Row>, g: Guard, k: nat)
    requires PlainTo(row, byPid, g, k) && Above(row, byPid, k).Some? && Above(row, byPid, k).value.pid == row.pid
    ensures Rootless(row, byPid, g)
  {
    assert forall m: nat :: NearestRoot(row, byPid, g, m) ==> m <= k;
  }

  /** The pids visited are the row's own and those of the first `k` rows above it. */
  ghost predicate VisitedTo(row: Row, byPid: map<int, Row>, k: nat, visited: set<int>) {
    forall p :: p in visited ==>
      (p == row.pid || exists j: nat :: j < k && Above(row, byPid, j).Some? && Above(row, byPid, j).value.pid == p)
  }

  lemma VisitedAgain(row: Row, byPid: map<int, Row>, g: Guard, k: nat, visited: set<int>)
    requires Keyed(byPid) && PlainTo(row, byPid, g, k) && VisitedTo(row, byPid, k, visited)
    requires Above(row, byPid, k).Some? && Above(row, byPid, k).value.pid in visited
    ensures Rootless(row, byPid, g)
  {
    var p := Above(row, byPid, k).value.pid;
    if p == row.pid {
      OwnPidIsRootless(row, byPid, g, k);
    } else {
      var j: nat :| j < k && Above(row, byPid, j).Some? && Above(row, byPid, j).value.pid == p;
      assert byPid[p] == Above(row, byPid, j).value && byPid[p] == Above(row, byPid, k).value;
      RepeatIsRootless(row, byPid, g, j, k);
    }
  }

  /** `rootOf`: ends on any table, with the nearest root if there is one. */
  method RootOf(row: Row, byPid: map<int, Row>, g: Guard) returns (root: Option<Row>)
    requires Keyed(byPid)
    ensures root.Some? ==> HasRoot(row, byPid, g, root.value)
    ensures root.None? ==> Rootless(row, byPid, g)
  {
    var visited := {row.pid};
    var parent := Lookup(byPid, row.ppid);
    ghost var k: nat := 0;
    while parent.Some?
      invariant parent == Above(row, byPid, k) && PlainTo(row, byPid, g, k)
      invariant VisitedTo(row, byPid, k, visited) && row.pid in visited
      decreases byPid.Keys + {row.pid} - visited
    {
      if parent.value.pid in visited {
        VisitedAgain(row, byPid, g, k, visited);
        return None;
      }
      visited := visited + {parent.value.pid};
      assert VisitedTo(row, byPid, k + 1, visited);
      if IsRoot(parent.value, g) {
        assert NearestRoot(row, byPid, g, k);
        return parent;
      }
      parent := Lookup(byPid, parent.value.ppid);
      k := k + 1;
    }
    root := None;
  }

  // ----- the broker's own ancestors -----

  function Parents(byPid: map<int, Row>): map<int, int> { map p | p in byPid :: byPid[p].ppid }

  /** The pid `k` parents above the broker. */
  function Up(byPid: map<int, Row>, broker: int, k: nat): Option<int> { ParentPids.Up(Parents(byPid), broker, k) }

  ghost predicate BelowInit(byPid: map<int, Row>, broker: int, k: nat) {
    forall j: nat :: 0 < j < k ==> Up(byPid, broker, j) != Some(INIT_PID)
  }

  /** Init, the broker, and every ancestor of the broker up to init. */
  ghost predicate Protected(byPid: map<int, Row>, broker: int, p: int) {
    p == INIT_PID || exists k: nat :: Up(byPid, broker, k) == Some(p) && BelowInit(byPid, broker, k)
  }

  ghost predicate ProtectedTo(byPid: map<int, Row>, broker: int, k: nat, p: int) {
    p == INIT_PID || exists j: nat :: j <= k && Up(byPid, broker, j) == Some(p)
  }

  lemma AllMet(byPid: map<int, Row>, broker: int, k: nat, p: int)
    requires Up(byPid, broker, k).Some? && BelowInit(byPid, broker, k + 1)
    requires Up(byPid, broker, k + 1).None? || ProtectedTo(byPid, broker, k, Up(byPid, broker, k + 1).value)
    ensures Protected(byPid, broker, p) <==> ProtectedTo(byPid, broker, k, p)
  {
    if Protected(byPid, broker, p) && p != INIT_PID {
      var m: nat :| Up(byPid, broker, m) == Some(p) && BelowInit(byPid, broker, m);
      if m > k {
        var next := Up(byPid, broker, k + 1);
        if next.None? {
          ParentPids.NothingUp(Parents(byPid), broker, k + 1, m);
        } else if next.value != INIT_PID {
          var j: nat :| j <= k && Up(byPid, broker, j) == next;
          var i := ParentPids.UpRepeats(Parents(byPid), broker, j, k, m);
          assert Up(byPid, broker, i) == Some(p);
        }
      }
    }
    if ProtectedTo(byPid, broker, k, p) && p != INIT_PID {
      var j: nat :| j <= k && Up(byPid, broker, j) == Some(p);
      assert BelowInit(byPid, broker, j);
    }
  }

  /** `protectedPids`: ends on any table. */
  method ProtectedPids(byPid: map<int, Row>, brokerPid: int) returns (pids: set<int>)
    requires Keyed(byPid)
    ensures forall p :: p in pids <==> Protected(byPid, brokerPid, p)
  {
    pids := {INIT_PID, brokerPid};
    var row := Lookup(byPid, brokerPid);
    ghost var k: nat := 0;
    ghost var at := brokerPid;
    while row.Some? && row.value.ppid !in pids
      invariant Up(byPid, brokerPid, k) == Some(at) && row == Lookup(byPid, at)
      invariant BelowInit(byPid, brokerPid, k + 1)
      invariant forall p :: p in pids <==> ProtectedTo(byPid, brokerPid, k, p)
      invariant at in pids
      decreases byPid.Keys - pids, if row.Some? then 1 else 0
    {
      at := row.value.ppid;
      pids := pids + {row.value.ppid};
      k := k + 1;
      assert Up(byPid, brokerPid, k) == Some(at);
      row := Lookup(byPid, row.value.ppid);
    }
    forall p
      ensures p in pids <==> Protected(byPid, brokerPid, p)
    {
      AllMet(byPid, brokerPid, k, p);
    }
  }

  // ----- the victims -----

  datatype Victim = Victim(row: Row, root: Row)

  /** A process over the limit that the guard may act on. */
  ghost predicate Qualifies(row: Row, rows: seq<Row>, g: Guard) {
    && row.uid == g.uid && row.rssKb * 1024 > g.limitBytes
    && !Protected(ByPid(rows), g.brokerPid, row.pid) && !IsRoot(row, g)
    && !Rootless(row, ByPid(rows), g)
  }

  ghost function Chosen(some: seq<Row>, rows: seq<Row>, g: Guard): seq<Row> {
    if some == [] then []
    else
      var last := some[|some| - 1];
      Chosen(some[..|some| - 1], rows, g) + if Qualifies(last, rows, g) then [last] else []
  }

  ghost function RowsOf(victims: seq<Victim>): seq<Row> { seq(|victims|, i requires 0 <= i < |victims| => victims[i].row) }

  lemma {:induction false} ChosenAre(some: seq<Row>, rows: seq<Row>, g: Guard, row: Row)
    ensures row in Chosen(some, rows, g) <==> row in some && Qualifies(row, rows, g)
  {
    if some != [] { ChosenAre(some[..|some| - 1], rows, g, row); }
  }

  /** `runawayVictims`: exactly the rows that qualify, in table order, each with its nearest root. */
  method RunawayVictims(rows: seq<Row>, g: Guard) returns (victims: seq<Victim>)
    ensures RowsOf(victims) == Chosen(rows, rows, g)
    ensures forall i :: 0 <= i < |victims| ==> HasRoot(victims[i].row, ByPid(rows), g, victims[i].root)
  {
    var byPid := ByPid(rows);
    var spared := ProtectedPids(byPid, g.brokerPid);
    victims := [];
    var i := 0;
    while i < |rows|
      invariant 0 <= i <= |rows|
      invariant RowsOf(victims) == Chosen(rows[..i], rows, g)
      invariant forall j :: 0 <= j < |victims| ==> HasRoot(victims[j].row, byPid, g, victims[j].root)
    {
      var row := rows[i];
      assert rows[..i + 1][..i] == rows[..i];
      i := i + 1;
      if row.uid != g.uid || row.rssKb * 1024 <= g.limitBytes {
        continue;
      }
      if row.pid in spared || IsRoot(row, g) {
        continue;
      }
      var root := RootOf(row, byPid, g);
      if root.Some? {
        assert !Rootless(row, byPid, g);
        victims := victims + [Victim(row, root.value)];
      }
    }
    assert rows[..|rows|] == rows;
  }

  /** Never init, the broker, a root, or anything the broker descends from below init; and always something
    * that descends from a root. */
  lemma VictimsAreSafe(rows: seq<Row>, g: Guard, victim: Row, k: nat)
    requires victim in Chosen(rows, rows, g)
    ensures victim.pid != INIT_PID && victim.pid != g.brokerPid && !g.agentProgram(victim.command)
    ensures BelowInit(ByPid(rows), g.brokerPid, k) ==> Up(ByPid(rows), g.brokerPid, k) != Some(victim.pid)
    ensures exists root :: HasRoot(victim, ByPid(rows), g, root)
  {
    ChosenAre(rows, rows, g, victim);
    var m: nat :| NearestRoot(victim, ByPid(rows), g, m);
    assert HasRoot(victim, ByPid(rows), g, Above(victim, ByPid(rows), m).value);
  }

  /** A process has one nearest root at most. */
  lemma NearestRootIsUnique(row: Row, byPid: map<int, Row>, g: Guard, a: Row, b: Row)
    requires HasRoot(row, byPid, g, a) && HasRoot(row, byPid, g, b)
    ensures a == b
  {
    var i: nat :| NearestRoot(row, byPid, g, i) && Above(row, byPid, i) == Some(a);
    var j: nat :| NearestRoot(row, byPid, g, j) && Above(row, byPid, j) == Some(b);
  }

  // ----- the victims, on the table's own rows -----

  /** `row` is the last row of the table with this pid. */
  ghost predicate LastWith(rows: seq<Row>, pid: int, row: Row) {
    exists i :: 0 <= i < |rows| && rows[i] == row && row.pid == pid && forall j :: i < j < |rows| ==> rows[j].pid != pid
  }

  /** One more row is the last with its pid, and changes nothing for the others. */
  lemma LastWithMore(init: seq<Row>, last: Row, pid: int, row: Row)
    ensures LastWith(init + [last], pid, row) <==> if last.pid == pid then row == last else LastWith(init, pid, row)
  {
    var rows := init + [last];
    if last.pid == pid {
      assert rows[|init|] == last;
    } else {
      if i :| 0 <= i < |init| && init[i] == row && row.pid == pid && forall j :: i < j < |init| ==> init[j].pid != pid {
        assert rows[i] == row && forall j :: i < j < |rows| ==> rows[j].pid != pid;
      }
      if i :| 0 <= i < |rows| && rows[i] == row && row.pid == pid && forall j :: i < j < |rows| ==> rows[j].pid != pid {
        assert init[i] == row && forall j :: i < j < |init| ==> init[j] == rows[j];
      }
    }
  }

  /** The map holds exactly the pids of the rows, each with its last row. */
  lemma {:induction false} ByPidIs(rows: seq<Row>, pid: int, row: Row)
    ensures Lookup(ByPid(rows), pid) == Some(row) <==> LastWith(rows, pid, row)
  {
    if rows != [] {
      var (init, last) := (rows[..|rows| - 1], rows[|rows| - 1]);
      ByPidIs(init, pid, row);
      LastWithMore(init, last, pid, row);
      assert rows == init + [last];
    }
  }

  /** The rows from the parent of `row` up to a root, without one in between and without `row`'s own pid. */
  ghost predicate LineToRoot(rows: seq<Row>, g: Guard, row: Row, line: seq<Row>) {
    && line != [] && LastWith(rows, row.ppid, line[0])
    && (forall k {:trigger line[k]} :: 0 <= k < |line| ==> line[k].pid != row.pid)
    && (forall k :: 0 <= k < |line| - 1 ==>
          LastWith(rows, line[k].ppid, line[k + 1]) && line[k].pid != g.brokerPid && !g.agentProgram(line[k].command))
    && (line[|line| - 1].pid == g.brokerPid || g.agentProgram(line[|line| - 1].command))
  }

  /** The pids from the broker upwards, init not in between. */
  ghost predicate BrokerLine(rows: seq<Row>, broker: int, line: seq<int>) {
    && line != [] && line[0] == broker
    && (forall k :: 0 <= k < |line| - 1 ==> exists r :: LastWith(rows, line[k], r) && r.ppid == line[k + 1])
    && (forall k :: 0 < k < |line| - 1 ==> line[k] != 1)
  }

  /** Who the guard may act on, on the rows alone: those of its uid over the limit that are neither init nor a root,
    * that the broker does not descend from below init, and that descend from a root. */
  ghost predicate Runaway(rows: seq<Row>, g: Guard, row: Row) {
    && row.uid == g.uid && row.rssKb * 1024 > g.limitBytes
    && row.pid != 1 && row.pid != g.brokerPid && !g.agentProgram(row.command)
    && (forall line :: BrokerLine(rows, g.brokerPid, line) ==> line[|line| - 1] != row.pid)
    && exists line :: LineToRoot(rows, g, row, line)
  }

  lemma {:induction false} LineIsAbove(rows: seq<Row>, g: Guard, row: Row, line: seq<Row>, k: nat)
    requires LineToRoot(rows, g, row, line) && k < |line|
    ensures Above(row, ByPid(rows), k) == Some(line[k])
  {
    if k == 0 {
      ByPidIs(rows, row.ppid, line[0]);
    } else {
      LineIsAbove(rows, g, row, line, k - 1);
      ByPidIs(rows, line[k - 1].ppid, line[k]);
    }
  }

  lemma LineToRootIff(rows: seq<Row>, g: Guard, row: Row)
    ensures (exists line :: LineToRoot(rows, g, row, line)) <==> !Rootless(row, ByPid(rows), g)
  {
    var byPid := ByPid(rows);
    if line :| LineToRoot(rows, g, row, line) {
      forall k: nat | k < |line| ensures Above(row, byPid, k) == Some(line[k]) { LineIsAbove(rows, g, row, line, k); }
      assert NearestRoot(row, byPid, g, |line| - 1);
    }
    if m: nat :| NearestRoot(row, byPid, g, m) {
      var line := LineUpTo(rows, g, row, m);
      assert LineToRoot(rows, g, row, line);
    }
  }

  lemma RowsUpTo(row: Row, byPid: map<int, Row>, m: nat) returns (line: seq<Row>)
    requires forall k: nat :: k <= m ==> Above(row, byPid, k).Some?
    ensures |line| == m + 1 && forall k: nat :: k <= m ==> Above(row, byPid, k) == Some(line[k])
  {
    line := seq(m + 1, k requires 0 <= k <= m => Above(row, byPid, k).value);
  }

  lemma LineUpTo(rows: seq<Row>, g: Guard, row: Row, m: nat) returns (line: seq<Row>)
    requires NearestRoot(row, ByPid(rows), g, m)
    ensures LineToRoot(rows, g, row, line)
  {
    var byPid := ByPid(rows);
    forall k: nat | k <= m ensures Above(row, byPid, k).Some? { assert k == m || k < m; }
    line := RowsUpTo(row, byPid, m);
    assert LastWith(rows, row.ppid, line[0]) by {
      assert Above(row, byPid, 0) == Some(line[0]);
      ByPidIs(rows, row.ppid, line[0]);
    }
    forall k | 0 <= k < m ensures LastWith(rows, line[k].ppid, line[k + 1]) && !IsRoot(line[k], g) {
      assert Above(row, byPid, k) == Some(line[k]) && Above(row, byPid, k + 1) == Some(line[k + 1]);
      NextRow(rows, row, k);
    }
    forall k {:trigger line[k]} | 0 <= k < |line| ensures line[k].pid != row.pid {
      assert Above(row, byPid, k) == Some(line[k]);
    }
    assert Above(row, byPid, m) == Some(line[m]);
  }

  lemma NextRow(rows: seq<Row>, row: Row, k: nat)
    requires Above(row, ByPid(rows), k).Some? && Above(row, ByPid(rows), k + 1).Some?
    ensures LastWith(rows, Above(row, ByPid(rows), k).value.ppid, Above(row, ByPid(rows), k + 1).value)
  {
    ByPidIs(rows, Above(row, ByPid(rows), k).value.ppid, Above(row, ByPid(rows), k + 1).value);
  }

  lemma {:induction false} BrokerLineIsUp(rows: seq<Row>, broker: int, line: seq<int>, k: nat)
    requires BrokerLine(rows, broker, line) && k < |line|
    ensures Up(ByPid(rows), broker, k) == Some(line[k])
  {
    if k > 0 {
      BrokerLineIsUp(rows, broker, line, k - 1);
      var r :| LastWith(rows, line[k - 1], r) && r.ppid == line[k];
      ByPidIs(rows, line[k - 1], r);
    }
  }

  lemma BrokerLineUpTo(rows: seq<Row>, broker: int, m: nat) returns (line: seq<int>)
    requires Up(ByPid(rows), broker, m).Some? && BelowInit(ByPid(rows), broker, m)
    ensures BrokerLine(rows, broker, line) && line[|line| - 1] == Up(ByPid(rows), broker, m).value
  {
    var byPid := ByPid(rows);
    forall k: nat | k <= m ensures Up(byPid, broker, k).Some? {
      if Up(byPid, broker, k).None? { ParentPids.NothingUp(Parents(byPid), broker, k, m); }
    }
    line := PidsUpTo(byPid, broker, m);
    forall k | 0 <= k < m ensures exists r :: LastWith(rows, line[k], r) && r.ppid == line[k + 1] {
      assert Up(byPid, broker, k) == Some(line[k]) && Up(byPid, broker, k + 1) == Some(line[k + 1]);
      var r := ParentRow(rows, broker, k);
      assert LastWith(rows, line[k], r) && r.ppid == line[k + 1];
    }
    forall k | 0 < k < m ensures line[k] != 1 { assert Up(byPid, broker, k) == Some(line[k]); }
    assert Up(byPid, broker, 0) == Some(line[0]) && Up(byPid, broker, m) == Some(line[m]);
  }

  lemma PidsUpTo(byPid: map<int, Row>, broker: int, m: nat) returns (line: seq<int>)
    requires forall k: nat :: k <= m ==> Up(byPid, broker, k).Some?
    ensures |line| == m + 1 && forall k: nat :: k <= m ==> Up(byPid, broker, k) == Some(line[k])
  {
    line := seq(m + 1, k requires 0 <= k <= m => Up(byPid, broker, k).value);
  }

  lemma ParentRow(rows: seq<Row>, broker: int, k: nat) returns (r: Row)
    requires Up(ByPid(rows), broker, k).Some? && Up(ByPid(rows), broker, k + 1).Some?
    ensures LastWith(rows, Up(ByPid(rows), broker, k).value, r) && r.ppid == Up(ByPid(rows), broker, k + 1).value
  {
    var pid := Up(ByPid(rows), broker, k).value;
    r := ByPid(rows)[pid];
    ByPidIs(rows, pid, r);
  }

  lemma ProtectedIff(rows: seq<Row>, broker: int, pid: int)
    ensures Protected(ByPid(rows), broker, pid) <==>
              pid == 1 || exists line :: BrokerLine(rows, broker, line) && line[|line| - 1] == pid
  {
    var byPid := ByPid(rows);
    if line :| BrokerLine(rows, broker, line) && line[|line| - 1] == pid {
      var m: nat := |line| - 1;
      BrokerLineIsUp(rows, broker, line, m);
      forall k: nat | 0 < k < m ensures Up(byPid, broker, k) != Some(INIT_PID) { BrokerLineIsUp(rows, broker, line, k); }
      assert Up(byPid, broker, m) == Some(pid) && BelowInit(byPid, broker, m);
    }
    if m: nat :| Up(byPid, broker, m) == Some(pid) && BelowInit(byPid, broker, m) {
      var line := BrokerLineUpTo(rows, broker, m);
      assert BrokerLine(rows, broker, line) && line[|line| - 1] == pid;
    }
  }

  /** The victims are exactly those: nobody else, and nobody is missed, on tables with repeated pids too. */
  lemma VictimsIff(rows: seq<Row>, g: Guard, row: Row)
    ensures row in Chosen(rows, rows, g) <==> row in rows && Runaway(rows, g, row)
  {
    ChosenAre(rows, rows, g, row);
    LineToRootIff(rows, g, row);
    ProtectedIff(rows, g.brokerPid, row.pid);
    if row.pid == g.brokerPid {
      assert BrokerLine(rows, g.brokerPid, [row.pid]) && [row.pid][0] == row.pid;
    }
  }
}
