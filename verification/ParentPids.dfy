/** Following parent pids upwards in a table that may hold cycles. */
module ParentPids {
  import opened Options

  /** The pid `k` parents above `start`. */
  function Up(parents: map<int, int>, start: int, k: nat): Option<int> {
    if k == 0 then Some(start)
    else
      var below := Up(parents, start, k - 1);
      if below.None? || below.value !in parents then None else Some(parents[below.value])
  }

  lemma {:induction false} NothingUp(parents: map<int, int>, start: int, k: nat, m: nat)
    requires k <= m && Up(parents, start, k).None?
    ensures Up(parents, start, m).None?
  {
    if k < m { NothingUp(parents, start, k, m - 1); }
  }

  /** Once the chain repeats, everything further up has been met. */
  lemma {:induction false} UpRepeats(parents: map<int, int>, start: int, j: nat, k: nat, m: nat) returns (i: nat)
    requires j <= k && Up(parents, start, k + 1) == Up(parents, start, j)
    ensures i <= k && Up(parents, start, m) == Up(parents, start, i)
  {
    if m <= k {
      i := m;
    } else if m == k + 1 {
      i := j;
    } else {
      var h := UpRepeats(parents, start, j, k, m - 1);
      i := if h == k then j else h + 1;
    }
  }
}
