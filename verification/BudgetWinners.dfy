/** Whose window the merge shows, of any number of files: stated on the files, newest first, and not on the lists of
  * candidates the merge goes through. */
module BudgetWinners {
  import opened Budget
  import opened Options

  // ----- the files, newest first -----

  function WrittenAt(files: seq<Read>, t: real): seq<Read> {
    if files == [] then [] else (if files[0].writtenAt == t then [files[0]] else []) + WrittenAt(files[1..], t)
  }

  lemma {:induction false} InsertKeepsTies(read: Read, sorted: seq<Read>, t: real)
    requires Descending(sorted)
    ensures WrittenAt(Insert(read, sorted), t) == (if read.writtenAt == t then [read] else []) + WrittenAt(sorted, t)
  {
    if sorted != [] && sorted[0].writtenAt > read.writtenAt {
      InsertKeepsTies(read, sorted[1..], t);
      assert Insert(read, sorted)[1..] == Insert(read, sorted[1..]);
      if read.writtenAt == t { assert WrittenAt(sorted, t) == WrittenAt(sorted[1..], t); }
    } else {
      assert Insert(read, sorted)[1..] == sorted;
    }
  }

  /** Newest first, and files of one time in the order given. */
  lemma {:induction false} NewestFirstIsStable(all: seq<Read>, t: real)
    ensures Descending(NewestFirst(all)) && multiset(NewestFirst(all)) == multiset(all)
    ensures WrittenAt(NewestFirst(all), t) == WrittenAt(all, t)
  {
    NewestFirstSorts(all);
    if all != [] {
      NewestFirstIsStable(all[1..], t);
      InsertKeepsTies(all[0], NewestFirst(all[1..]), t);
    }
  }

  // ----- who is asked -----

  /** File `k` is asked for the window: the newest, or one at most 15 minutes old, that has it. */
  ghost predicate Has(s: seq<Read>, name: string, k: nat) {
    k < |s| && (k == 0 || s[k].age <= 900) && name in s[k].limits
  }

  /** Its reset has passed. */
  ghost predicate Past(s: seq<Read>, name: string, now: real, k: nat) {
    k < |s| && name in s[k].limits && s[k].limits[name].resetsAt.Some? && s[k].limits[name].resetsAt.value * 1000.0 <= now
  }

  /** Those among which the window is picked: whose reset is to come; or, where none is and the newest file has the
    * window, all. */
  ghost predicate InPool(s: seq<Read>, name: string, now: real, k: nat) {
    && Has(s, name, k)
    && (!Past(s, name, now, k) || (Has(s, name, 0) && forall j: nat :: Has(s, name, j) ==> Past(s, name, now, j)))
  }

  ghost predicate TimedIn(s: seq<Read>, name: string, now: real, k: nat) {
    InPool(s, name, now, k) && s[k].limits[name].resetsAt.Some?
  }

  /** No timed window of the pool resets more than an hour later. */
  ghost predicate Late(s: seq<Read>, name: string, now: real, k: nat) {
    && TimedIn(s, name, now, k)
    && forall j: nat :: TimedIn(s, name, now, j) ==>
         s[j].limits[name].resetsAt.value - s[k].limits[name].resetsAt.value <= 3600.0
  }

  ghost predicate First(s: seq<Read>, name: string, now: real, k: nat) {
    InPool(s, name, now, k) && forall j: nat :: j < k ==> !InPool(s, name, now, j)
  }

  /** File `k` is the one whose window is shown: the newest of the pool, if that one's is untimed; otherwise, of the late
    * ones, the newest of those with the highest figure. */
  ghost predicate Wins(s: seq<Read>, name: string, now: real, k: nat) {
    && InPool(s, name, now, k)
    && if s[k].limits[name].resetsAt.None? then First(s, name, now, k)
       else
         && (forall f: nat :: First(s, name, now, f) ==> s[f].limits[name].resetsAt.Some?)
         && Late(s, name, now, k)
         && (forall j: nat :: Late(s, name, now, j) ==> s[j].limits[name].usedPct <= s[k].limits[name].usedPct)
         && (forall j: nat :: j < k && Late(s, name, now, j) ==> s[j].limits[name].usedPct < s[k].limits[name].usedPct)
  }

  // ----- lists of files by position -----

  ghost predicate Rising(ps: seq<nat>) { forall i, j :: 0 <= i < j < |ps| ==> ps[i] < ps[j] }

  ghost predicate Having(s: seq<Read>, name: string, ps: seq<nat>) {
    Rising(ps) && forall i :: 0 <= i < |ps| ==> Has(s, name, ps[i])
  }

  ghost function Of(s: seq<Read>, name: string, k: nat): Candidate
    requires Has(s, name, k)
  {
    Candidate(s[k].limits[name], s[k].age)
  }

  ghost function Cs(s: seq<Read>, name: string, ps: seq<nat>): seq<Candidate>
    requires Having(s, name, ps)
  {
    seq(|ps|, i requires 0 <= i < |ps| => Of(s, name, ps[i]))
  }

  ghost function Select(ps: seq<nat>, keep: nat -> bool): seq<nat> {
    if ps == [] then [] else (if keep(ps[0]) then [ps[0]] else []) + Select(ps[1..], keep)
  }

  lemma {:induction false} SelectIn(ps: seq<nat>, keep: nat -> bool, k: nat)
    ensures k in Select(ps, keep) <==> k in ps && keep(k)
  {
    if ps != [] {
      SelectIn(ps[1..], keep, k);
      assert ps == [ps[0]] + ps[1..];
    }
  }

  lemma {:induction false} SelectRises(ps: seq<nat>, keep: nat -> bool)
    requires Rising(ps)
    ensures Rising(Select(ps, keep))
  {
    if ps != [] {
      var (rest, more) := (Select(ps[1..], keep), Select(ps, keep));
      SelectRises(ps[1..], keep);
      if keep(ps[0]) {
        forall j | 0 <= j < |rest| ensures ps[0] < rest[j] {
          SelectIn(ps[1..], keep, rest[j]);
          assert rest[j] in rest;
        }
        assert more == [ps[0]] + rest;
      }
    }
  }

  lemma {:induction false} Selects(ps: seq<nat>, keep: nat -> bool)
    requires Rising(ps)
    ensures Rising(Select(ps, keep)) && forall k: nat :: k in Select(ps, keep) <==> k in ps && keep(k)
  {
    SelectRises(ps, keep);
    forall k: nat ensures k in Select(ps, keep) <==> k in ps && keep(k) { SelectIn(ps, keep, k); }
  }

  lemma {:induction false} SelectHas(s: seq<Read>, name: string, ps: seq<nat>, keep: nat -> bool)
    requires Having(s, name, ps)
    ensures Having(s, name, Select(ps, keep))
  {
    Selects(ps, keep);
    forall i | 0 <= i < |Select(ps, keep)| ensures Has(s, name, Select(ps, keep)[i]) {
      assert Select(ps, keep)[i] in ps;
    }
  }

  lemma {:induction false} TailOf(s: seq<Read>, name: string, ps: seq<nat>)
    requires Having(s, name, ps) && ps != []
    ensures Having(s, name, ps[1..]) && Cs(s, name, ps)[1..] == Cs(s, name, ps[1..]) && Cs(s, name, ps)[0] == Of(s, name, ps[0])
  {
  }

  /** Selecting from a list is keeping its head, or not, and selecting from the rest. */
  lemma {:induction false} SelectHead(s: seq<Read>, name: string, ps: seq<nat>, keep: nat -> bool)
    requires Having(s, name, ps) && ps != []
    ensures Having(s, name, Select(ps, keep)) && Having(s, name, ps[1..]) && Having(s, name, Select(ps[1..], keep))
    ensures Cs(s, name, Select(ps, keep)) ==
              (if keep(ps[0]) then [Of(s, name, ps[0])] else []) + Cs(s, name, Select(ps[1..], keep))
  {
    SelectHas(s, name, ps, keep);
    TailOf(s, name, ps);
    SelectHas(s, name, ps[1..], keep);
    if keep(ps[0]) { TailOf(s, name, Select(ps, keep)); }
  }

  lemma {:induction false} LiveIs(s: seq<Read>, name: string, now: real, ps: seq<nat>, keep: nat -> bool)
    requires Having(s, name, ps) && forall k: nat :: Has(s, name, k) ==> (keep(k) <==> !Past(s, name, now, k))
    ensures Having(s, name, Select(ps, keep)) && Live(Cs(s, name, ps), now) == Cs(s, name, Select(ps, keep))
  {
    if ps != [] {
      SelectHead(s, name, ps, keep);
      TailOf(s, name, ps);
      LiveIs(s, name, now, ps[1..], keep);
      var (c, cs) := (Of(s, name, ps[0]), Cs(s, name, ps));
      assert Has(s, name, ps[0]) && (keep(ps[0]) <==> !Passed(c.window, now));
      assert Live(cs, now) == (if Passed(cs[0].window, now) then [] else [cs[0]]) + Live(cs[1..], now);
    }
  }

  lemma {:induction false} TimedIs(s: seq<Read>, name: string, ps: seq<nat>, keep: nat -> bool)
    requires Having(s, name, ps) && forall k: nat :: Has(s, name, k) ==> (keep(k) <==> s[k].limits[name].resetsAt.Some?)
    ensures Having(s, name, Select(ps, keep)) && Timed(Cs(s, name, ps)) == Cs(s, name, Select(ps, keep))
  {
    if ps != [] {
      SelectHead(s, name, ps, keep);
      TailOf(s, name, ps);
      TimedIs(s, name, ps[1..], keep);
      var cs := Cs(s, name, ps);
      assert Has(s, name, ps[0]);
      assert Timed(cs) == (if cs[0].window.resetsAt.Some? then [cs[0]] else []) + Timed(cs[1..]);
    }
  }

  ghost predicate AllTimed(s: seq<Read>, name: string, ps: seq<nat>)
    requires Having(s, name, ps)
  {
    forall i :: 0 <= i < |ps| ==> s[ps[i]].limits[name].resetsAt.Some?
  }

  lemma {:induction false} SameIs(s: seq<Read>, name: string, ps: seq<nat>, latest: real, keep: nat -> bool)
    requires Having(s, name, ps) && AllTimed(s, name, ps)
    requires forall k: nat :: Has(s, name, k) && s[k].limits[name].resetsAt.Some? ==>
               (keep(k) <==> latest - s[k].limits[name].resetsAt.value <= 3600.0)
    ensures Having(s, name, Select(ps, keep)) && SameWindow(Cs(s, name, ps), latest) == Cs(s, name, Select(ps, keep))
  {
    if ps != [] {
      SelectHead(s, name, ps, keep);
      TailOf(s, name, ps);
      SameIs(s, name, ps[1..], latest, keep);
      var cs := Cs(s, name, ps);
      assert Has(s, name, ps[0]) && s[ps[0]].limits[name].resetsAt.Some?;
      assert SameWindow(cs, latest) ==
        (if latest - cs[0].window.resetsAt.value <= 3600.0 then [cs[0]] else []) + SameWindow(cs[1..], latest);
    }
  }

  // ----- from the candidates to the winner -----

  /** A passed reset does not introduce a window. */
  ghost predicate Introduced(s: seq<Read>, name: string, now: real, k: nat) {
    k == 0 || !Past(s, name, now, k) || exists j: nat :: j < k && Has(s, name, j) && (j == 0 || !Past(s, name, now, j))
  }

  ghost predicate AskedTo(s: seq<Read>, name: string, now: real, n: nat, ps: seq<nat>) {
    Having(s, name, ps) && forall k: nat :: k in ps <==> k < n && Has(s, name, k) && Introduced(s, name, now, k)
  }

  lemma {:induction false} FreshMore(s: seq<Read>, n: nat)
    requires 1 <= n < |s|
    ensures Fresh(s[1..n + 1]) == Fresh(s[1..n]) + if s[n].age <= 900 then [s[n]] else []
  {
    var more := s[1..n + 1];
    assert more != [] && more[..|more| - 1] == s[1..n] && more[|more| - 1] == s[n];
    assert Fresh(more) == Fresh(more[..|more| - 1]) + if more[|more| - 1].age <= 900 then [more[|more| - 1]] else [];
  }

  lemma {:induction false} AskedAre(s: seq<Read>, name: string, now: real, n: nat) returns (ps: seq<nat>)
    requires 1 <= n <= |s|
    ensures AskedTo(s, name, now, n, ps) && Candidates(s[0], Fresh(s[1..n]), name, now) == Cs(s, name, ps)
    decreases n
  {
    if n == 1 {
      assert s[1..1] == [];
      ps := if name in s[0].limits then [0] else [];
      assert Candidates(s[0], [], name, now) == Cs(s, name, ps);
    } else {
      var had := AskedAre(s, name, now, n - 1);
      FreshMore(s, n - 1);
      ps := AskedMore(s, name, now, n - 1, had);
    }
  }

  lemma {:induction false} CandidatesMore(newest: Read, lenders: seq<Read>, last: Read, name: string, now: real)
    ensures var had := Candidates(newest, lenders, name, now);
            Candidates(newest, lenders + [last], name, now) ==
              if name !in last.limits || (had == [] && Passed(last.limits[name], now)) then had
              else had + [Candidate(last.limits[name], last.age)]
  {
    assert (lenders + [last])[..|lenders|] == lenders;
  }

  lemma {:induction false} AskedMore(s: seq<Read>, name: string, now: real, n: nat, had: seq<nat>) returns (ps: seq<nat>)
    requires 1 <= n < |s| && AskedTo(s, name, now, n, had)
    requires Candidates(s[0], Fresh(s[1..n]), name, now) == Cs(s, name, had)
    requires Fresh(s[1..n + 1]) == Fresh(s[1..n]) + if s[n].age <= 900 then [s[n]] else []
    ensures AskedTo(s, name, now, n + 1, ps) && Candidates(s[0], Fresh(s[1..n + 1]), name, now) == Cs(s, name, ps)
  {
    var lenders := Fresh(s[1..n]);
    if s[n].age <= 900 {
      CandidatesMore(s[0], lenders, s[n], name, now);
    } else {
      assert Fresh(s[1..n + 1]) == lenders;
    }
    IntroducedIff(s, name, now, n, had);
    assert |Cs(s, name, had)| == |had|;
    if Has(s, name, n) && Introduced(s, name, now, n) {
      ps := had + [n];
      AskedOneMore(s, name, now, n, had);
      assert Cs(s, name, ps) == Cs(s, name, had) + [Of(s, name, n)];
    } else {
      ps := had;
      AskedNoMore(s, name, now, n, had);
    }
  }

  lemma {:induction false} AskedNoMore(s: seq<Read>, name: string, now: real, n: nat, had: seq<nat>)
    requires AskedTo(s, name, now, n, had) && !(Has(s, name, n) && Introduced(s, name, now, n))
    ensures AskedTo(s, name, now, n + 1, had)
  {
    forall k: nat ensures k in had <==> k < n + 1 && Has(s, name, k) && Introduced(s, name, now, k) {
      assert k < n + 1 <==> k < n || k == n;
    }
  }

  lemma {:induction false} AskedOneMore(s: seq<Read>, name: string, now: real, n: nat, had: seq<nat>)
    requires AskedTo(s, name, now, n, had) && Has(s, name, n) && Introduced(s, name, now, n)
    ensures AskedTo(s, name, now, n + 1, had + [n])
  {
    forall i | 0 <= i < |had| ensures had[i] < n { assert had[i] in had; }
    forall k: nat
      ensures k in had + [n] <==> k < n + 1 && Has(s, name, k) && Introduced(s, name, now, k)
    {
      assert k in had + [n] <==> k in had || k == n;
    }
  }

  lemma {:induction false} IntroducedIff(s: seq<Read>, name: string, now: real, n: nat, had: seq<nat>)
    requires 1 <= n < |s| && AskedTo(s, name, now, n, had)
    ensures Introduced(s, name, now, n) <==> !Past(s, name, now, n) || had != []
  {
    if had != [] {
      var k := had[0];
      assert k in had;
      if k != 0 && Past(s, name, now, k) {
        var j: nat :| j < k && Has(s, name, j) && (j == 0 || !Past(s, name, now, j));
        assert j < n;
      }
    }
    if j: nat :| j < n && Has(s, name, j) && (j == 0 || !Past(s, name, now, j)) { assert j in had; }
  }

  ghost predicate PoolAt(s: seq<Read>, name: string, now: real, ps: seq<nat>) {
    Having(s, name, ps) && forall k: nat :: k in ps <==> InPool(s, name, now, k)
  }

  lemma {:induction false} PoolIs(s: seq<Read>, name: string, now: real, asked: seq<nat>) returns (ps: seq<nat>)
    requires s != [] && AskedTo(s, name, now, |s|, asked)
    ensures PoolAt(s, name, now, ps) && Pool(Cs(s, name, asked), now) == Cs(s, name, ps)
    ensures asked == [] <==> ps == []
  {
    var keep := (k: nat) => k < |s| && name in s[k].limits && !Passed(s[k].limits[name], now);
    LiveIs(s, name, now, asked, keep);
    Selects(asked, keep);
    var live := Select(asked, keep);
    ps := if live != [] then live else asked;
    if live != [] {
      assert live[0] in live;
    } else {
      NoneLive(s, name, now, asked, live, keep);
    }
  }

  lemma {:induction false} NoneLive(s: seq<Read>, name: string, now: real, asked: seq<nat>, live: seq<nat>, keep: nat -> bool)
    requires AskedTo(s, name, now, |s|, asked) && live == []
    requires forall k: nat :: Has(s, name, k) ==> (keep(k) <==> !Past(s, name, now, k))
    requires forall k: nat :: k in live <==> k in asked && keep(k)
    ensures forall k: nat :: k in asked <==> InPool(s, name, now, k)
  {
    assert forall k: nat :: Has(s, name, k) && !Past(s, name, now, k) ==> k in asked && k in live;
    forall k: nat
      ensures k in asked <==> InPool(s, name, now, k)
    {
      if k in asked && k != 0 {
        var j: nat :| j < k && Has(s, name, j) && (j == 0 || !Past(s, name, now, j));
        assert j == 0;
      }
    }
  }

  /** The window picked is the winner's. */
  lemma {:induction false} PickWins(s: seq<Read>, name: string, now: real, asked: seq<nat>) returns (w: nat)
    requires s != [] && AskedTo(s, name, now, |s|, asked) && asked != []
    ensures Wins(s, name, now, w) && PickWindow(Cs(s, name, asked), now) == Of(s, name, w)
  {
    var ps := PoolIs(s, name, now, asked);
    assert ps[0] in ps;
    forall j: nat | j < ps[0] ensures !InPool(s, name, now, j) { assert j !in ps; }
    assert First(s, name, now, ps[0]);
    if s[ps[0]].limits[name].resetsAt.None? {
      w := ps[0];
    } else {
      w := TimedPickWins(s, name, now, ps);
    }
  }

  lemma {:induction false} OneFirst(s: seq<Read>, name: string, now: real, j: nat, k: nat)
    requires First(s, name, now, j) && First(s, name, now, k)
    ensures j == k
  {
  }

  ghost predicate TimedAt(s: seq<Read>, name: string, now: real, ts: seq<nat>) {
    Having(s, name, ts) && forall k: nat :: k in ts <==> TimedIn(s, name, now, k)
  }

  lemma {:induction false} TimedPickWins(s: seq<Read>, name: string, now: real, ps: seq<nat>) returns (w: nat)
    requires PoolAt(s, name, now, ps) && ps != [] && First(s, name, now, ps[0]) && s[ps[0]].limits[name].resetsAt.Some?
    ensures Wins(s, name, now, w)
    ensures var cs := Timed(Cs(s, name, ps));
            cs != [] && SameWindow(cs, Latest(cs)) != [] && Highest(SameWindow(cs, Latest(cs))) == Of(s, name, w)
  {
    var keep := (k: nat) => k < |s| && name in s[k].limits && s[k].limits[name].resetsAt.Some?;
    TimedIs(s, name, ps, keep);
    Selects(ps, keep);
    var ts := Select(ps, keep);
    assert ps[0] in ts;
    assert TimedAt(s, name, now, ts);
    w := LatePickWins(s, name, now, ts);
    forall f: nat | First(s, name, now, f) ensures s[f].limits[name].resetsAt.Some? { OneFirst(s, name, now, f, ps[0]); }
  }

  ghost predicate LateAt(s: seq<Read>, name: string, now: real, ls: seq<nat>) {
    Having(s, name, ls) && forall k: nat :: k in ls <==> Late(s, name, now, k)
  }

  /** Of the timed ones, the first of the highest that are late. */
  lemma {:induction false} LatePickWins(s: seq<Read>, name: string, now: real, ts: seq<nat>) returns (w: nat)
    requires TimedAt(s, name, now, ts) && ts != []
    ensures Late(s, name, now, w)
    ensures var cs := Cs(s, name, ts);
            && (forall c :: c in cs ==> c.window.resetsAt.Some?)
            && SameWindow(cs, Latest(cs)) != [] && Highest(SameWindow(cs, Latest(cs))) == Of(s, name, w)
    ensures forall j: nat :: Late(s, name, now, j) ==> s[j].limits[name].usedPct <= s[w].limits[name].usedPct
    ensures forall j: nat :: j < w && Late(s, name, now, j) ==> s[j].limits[name].usedPct < s[w].limits[name].usedPct
  {
    forall i | 0 <= i < |ts| ensures s[ts[i]].limits[name].resetsAt.Some? { assert ts[i] in ts; }
    var ls := LateOnes(s, name, now, ts);
    w := FirstOfHighest(s, name, ls);
    assert w in ls;
    forall j: nat | Late(s, name, now, j)
      ensures s[j].limits[name].usedPct <= s[w].limits[name].usedPct
      ensures j < w ==> s[j].limits[name].usedPct < s[w].limits[name].usedPct
    {
      assert j in ls;
    }
  }

  lemma {:induction false} LateOnes(s: seq<Read>, name: string, now: real, ts: seq<nat>) returns (ls: seq<nat>)
    requires TimedAt(s, name, now, ts) && ts != [] && AllTimed(s, name, ts)
    requires forall c :: c in Cs(s, name, ts) ==> c.window.resetsAt.Some?
    ensures LateAt(s, name, now, ls) && ls != []
    ensures SameWindow(Cs(s, name, ts), Latest(Cs(s, name, ts))) == Cs(s, name, ls)
  {
    var cs := Cs(s, name, ts);
    var latest := Latest(cs);
    var keep := (k: nat) => k < |s| && name in s[k].limits && s[k].limits[name].resetsAt.Some?
                            && latest - s[k].limits[name].resetsAt.value <= 3600.0;
    SameIs(s, name, ts, latest, keep);
    Selects(ts, keep);
    ls := Select(ts, keep);
    var last := LateIs(s, name, now, ts, latest);
    forall k: nat ensures k in ls <==> Late(s, name, now, k) { assert k in ts ==> TimedIn(s, name, now, k); }
    assert last in ls;
  }

  lemma {:induction false} LateIs(s: seq<Read>, name: string, now: real, ts: seq<nat>, latest: real) returns (last: nat)
    requires TimedAt(s, name, now, ts) && ts != [] && AllTimed(s, name, ts)
    requires (forall c :: c in Cs(s, name, ts) ==> c.window.resetsAt.Some?) && latest == Latest(Cs(s, name, ts))
    ensures forall k: nat :: Late(s, name, now, k) <==> k in ts && latest - s[k].limits[name].resetsAt.value <= 3600.0
    ensures Late(s, name, now, last)
  {
    var cs := Cs(s, name, ts);
    forall j: nat | TimedIn(s, name, now, j) ensures s[j].limits[name].resetsAt.value <= latest {
      assert j in ts;
      var i :| 0 <= i < |ts| && ts[i] == j;
      assert cs[i] == Of(s, name, j) && cs[i] in cs;
    }
    var top :| top in cs && top.window.resetsAt.value == latest;
    var t :| 0 <= t < |ts| && cs[t] == top;
    last := ts[t];
    assert last in ts && TimedIn(s, name, now, last);
  }

  lemma {:induction false} FirstOfHighest(s: seq<Read>, name: string, ls: seq<nat>) returns (w: nat)
    requires Having(s, name, ls) && ls != []
    ensures w in ls && Highest(Cs(s, name, ls)) == Of(s, name, w)
    ensures forall j :: j in ls ==> s[j].limits[name].usedPct <= s[w].limits[name].usedPct
    ensures forall j :: j in ls && j < w ==> s[j].limits[name].usedPct < s[w].limits[name].usedPct
  {
    var cs := Cs(s, name, ls);
    var i := HighestIsFirst(cs);
    w := ls[i];
    forall j | j in ls
      ensures s[j].limits[name].usedPct <= s[w].limits[name].usedPct
      ensures j < w ==> s[j].limits[name].usedPct < s[w].limits[name].usedPct
    {
      var m :| 0 <= m < |ls| && ls[m] == j;
      assert cs[m] == Of(s, name, j) && cs[m] in cs;
    }
  }

  lemma {:induction false} WinnerIsUnique(s: seq<Read>, name: string, now: real, j: nat, k: nat)
    requires Wins(s, name, now, j) && Wins(s, name, now, k)
    ensures j == k
  {
    if s[j].limits[name].resetsAt.None? && s[k].limits[name].resetsAt.None? { OneFirst(s, name, now, j, k); }
  }

  // ----- the merge -----

  lemma {:induction false} CandidatesWin(all: seq<Read>, name: string, now: real) returns (asked: seq<nat>)
    requires all != []
    ensures NewestFirst(all) != [] && AskedTo(NewestFirst(all), name, now, |all|, asked) && |NewestFirst(all)| == |all|
    ensures CandidatesOf(all, name, now) == Cs(NewestFirst(all), name, asked)
  {
    var s := NewestFirst(all);
    NewestFirstSorts(all);
    asked := AskedAre(s, name, now, |s|);
    assert s[1..|s|] == s[1..];
  }

  lemma {:induction false} NobodyWins(s: seq<Read>, name: string, now: real)
    requires s != [] && AskedTo(s, name, now, |s|, [])
    ensures forall k: nat :: !Wins(s, name, now, k)
  {
    var ps := PoolIs(s, name, now, []);
    assert forall k: nat :: k !in ps;
  }

  /** For any number of files: a window is shown exactly when some file wins it, and it is that file's. */
  lemma {:induction false} WinnerIsShown(all: seq<Read>, now: real, r: Read, name: string)
    requires all != [] && IsMerge(all, now, r)
    ensures name in r.limits <==> exists k: nat :: Wins(NewestFirst(all), name, now, k)
    ensures forall k: nat :: Wins(NewestFirst(all), name, now, k) ==> r.limits[name] == NewestFirst(all)[k].limits[name]
  {
    var s := NewestFirst(all);
    var asked := CandidatesWin(all, name, now);
    assert name in r.limits <==> CandidatesOf(all, name, now) != [];
    if asked == [] {
      NobodyWins(s, name, now);
    } else {
      var w := PickWins(s, name, now, asked);
      forall k: nat | Wins(s, name, now, k) ensures r.limits[name] == s[k].limits[name] { WinnerIsUnique(s, name, now, k, w); }
    }
  }

  /** The age is that of the newest file or of the oldest that wins a window, and stale is more than two minutes. */
  lemma {:induction false} AgeIsOfTheOldest(all: seq<Read>, now: real, r: Read)
    requires all != [] && IsMerge(all, now, r)
    ensures var s := NewestFirst(all);
            && s != [] && r.writtenAt == s[0].writtenAt && r.age >= s[0].age && (r.stale <==> r.age > 120)
            && (forall name, k: nat :: Wins(s, name, now, k) ==> r.age >= s[k].age)
            && (r.age == s[0].age || exists name, k: nat :: Wins(s, name, now, k) && r.age == s[k].age)
  {
    var s := NewestFirst(all);
    NewestFirstSorts(all);
    forall name, k: nat | Wins(s, name, now, k) ensures r.age >= s[k].age {
      var asked := CandidatesWin(all, name, now);
      if asked == [] { NobodyWins(s, name, now); }
      var w := PickWins(s, name, now, asked);
      WinnerIsUnique(s, name, now, k, w);
    }
    if r.age != s[0].age {
      var name :| CandidatesOf(all, name, now) != [] && PickWindow(CandidatesOf(all, name, now), now).age == r.age;
      var asked := CandidatesWin(all, name, now);
      var w := PickWins(s, name, now, asked);
      assert Wins(s, name, now, w) && r.age == s[w].age;
    }
  }
}
