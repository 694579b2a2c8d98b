/** One account's rate-limit figure out of many readings: the newest file's windows, completed and raised by
  * the other fresh files. Seconds and percentages are reals; `now` is in milliseconds. */
module Budget {
  import opened Options

  const MAX_ACCOUNT_READING_AGE_SECONDS: int := 900
  const SAME_WINDOW_TOLERANCE_S: real := 3600.0
  const STALE_AFTER_SECONDS: int := 120

  datatype Window = Window(usedPct: real, resetsAt: Option<real>)

  datatype Read = Read(writtenAt: real, limits: map<string, Window>, age: int, stale: bool)

  datatype Candidate = Candidate(window: Window, age: int)

  // ----- the newest file first -----

  function Insert(read: Read, sorted: seq<Read>): seq<Read> {
    if sorted == [] || sorted[0].writtenAt <= read.writtenAt then [read] + sorted
    else [sorted[0]] + Insert(read, sorted[1..])
  }

  /** Newest first, files of one time in the order given. */
  function NewestFirst(all: seq<Read>): seq<Read> {
    if all == [] then [] else Insert(all[0], NewestFirst(all[1..]))
  }

  ghost predicate Descending(s: seq<Read>) { forall i, j :: 0 <= i < j < |s| ==> s[i].writtenAt >= s[j].writtenAt }

  lemma {:induction false} InsertPermutes(read: Read, sorted: seq<Read>)
    ensures multiset(Insert(read, sorted)) == multiset(sorted) + multiset{read} && |Insert(read, sorted)| == |sorted| + 1
  {
    if sorted != [] && sorted[0].writtenAt > read.writtenAt {
      InsertPermutes(read, sorted[1..]);
      assert sorted == [sorted[0]] + sorted[1..];
    }
  }

  lemma {:induction false} InsertSorts(read: Read, sorted: seq<Read>, bound: real)
    requires Descending(sorted) && forall r :: r in sorted ==> r.writtenAt <= bound
    ensures Descending(Insert(read, sorted))
    ensures forall r :: r in Insert(read, sorted) ==> r == read || r.writtenAt <= bound
  {
    if sorted != [] && sorted[0].writtenAt > read.writtenAt {
      InsertSorts(read, sorted[1..], sorted[0].writtenAt);
      assert sorted[0] in sorted && forall r :: r in Insert(read, sorted[1..]) ==> r.writtenAt <= sorted[0].writtenAt;
    }
  }

  lemma {:induction false} NewestFirstPermutes(all: seq<Read>)
    ensures multiset(NewestFirst(all)) == multiset(all) && |NewestFirst(all)| == |all|
  {
    if all != [] {
      NewestFirstPermutes(all[1..]);
      InsertPermutes(all[0], NewestFirst(all[1..]));
      assert all == [all[0]] + all[1..];
    }
  }

  lemma {:induction false} NewestFirstSorts(all: seq<Read>)
    ensures Descending(NewestFirst(all)) && multiset(NewestFirst(all)) == multiset(all)
    ensures |NewestFirst(all)| == |all|
  {
    NewestFirstPermutes(all);
    if all != [] {
      NewestFirstSorts(all[1..]);
      var sorted := NewestFirst(all[1..]);
      InsertSorts(all[0], sorted, if sorted == [] then 0.0 else sorted[0].writtenAt);
    }
  }

  ghost predicate DistinctTimes(all: seq<Read>) {
    forall r, t :: r in multiset(all) && t in multiset(all) && r.writtenAt == t.writtenAt ==> r == t && multiset(all)[r] == 1
  }

  lemma WithoutHead(a: seq<Read>)
    requires a != []
    ensures multiset(a[1..]) == multiset(a) - multiset{a[0]}
  {
    assert a == [a[0]] + a[1..];
  }

  lemma SameLength(a: seq<Read>, b: seq<Read>)
    requires multiset(a) == multiset(b)
    ensures |a| == |b|
  {
    assert |multiset(a)| == |a| && |multiset(b)| == |b|;
  }

  lemma TailsAgree(a: seq<Read>, b: seq<Read>)
    requires a != [] && b != [] && a[0] == b[0] && multiset(a) == multiset(b)
    ensures multiset(a[1..]) == multiset(b[1..])
  {
    WithoutHead(a);
    WithoutHead(b);
  }

  lemma {:induction false} OneOrder(a: seq<Read>, b: seq<Read>)
    requires Descending(a) && Descending(b) && multiset(a) == multiset(b) && DistinctTimes(a)
    ensures a == b
  {
    SameLength(a, b);
    if a != [] {
      TailsAgree(a, b);
      DistinctTail(a);
      OneOrder(a[1..], b[1..]);
    }
  }

  lemma DistinctTail(a: seq<Read>)
    requires a != [] && DistinctTimes(a)
    ensures DistinctTimes(a[1..])
  {
    WithoutHead(a);
    forall r, t | r in multiset(a[1..]) && t in multiset(a[1..]) && r.writtenAt == t.writtenAt
      ensures r == t && multiset(a[1..])[r] == 1
    {
      assert r in multiset(a) && t in multiset(a);
    }
  }

  // ----- the candidates for one window -----

  predicate Passed(w: Window, now: real) { w.resetsAt.Some? && w.resetsAt.value * 1000.0 <= now }

  function Fresh(others: seq<Read>): seq<Read> {
    if others == [] then []
    else Fresh(others[..|others| - 1])
         + if others[|others| - 1].age <= MAX_ACCOUNT_READING_AGE_SECONDS then [others[|others| - 1]] else []
  }

  /** The windows called `name`, newest file first. A reset that has passed does not introduce a window. */
  function Candidates(newest: Read, lenders: seq<Read>, name: string, now: real): seq<Candidate> {
    if lenders == [] then
      if name in newest.limits then [Candidate(newest.limits[name], newest.age)] else []
    else
      var had := Candidates(newest, lenders[..|lenders| - 1], name, now);
      var last := lenders[|lenders| - 1];
      if name !in last.limits || (had == [] && Passed(last.limits[name], now)) then had
      else had + [Candidate(last.limits[name], last.age)]
  }

  ghost predicate Listed(byName: map<string, seq<Candidate>>, name: string, candidates: seq<Candidate>) {
    (name in byName <==> candidates != []) && (name in byName ==> byName[name] == candidates)
  }

  ghost predicate AllListed(byName: map<string, seq<Candidate>>, newest: Read, lenders: seq<Read>, now: real) {
    forall name :: Listed(byName, name, Candidates(newest, lenders, name, now))
  }

  /** `windowCandidates`. */
  method WindowCandidates(newest: Read, lenders: seq<Read>, now: real) returns (byName: map<string, seq<Candidate>>)
    ensures AllListed(byName, newest, lenders, now)
  {
    byName := map name | name in newest.limits :: [Candidate(newest.limits[name], newest.age)];
    var i := 0;
    while i < |lenders|
      invariant 0 <= i <= |lenders|
      invariant AllListed(byName, newest, lenders[..i], now)
    {
      byName := AddLender(byName, newest, lenders, i, now);
      i := i + 1;
    }
    assert lenders[..|lenders|] == lenders;
  }

  lemma OneMore(newest: Read, lenders: seq<Read>, i: nat, name: string, now: real)
    requires i < |lenders|
    ensures var had := Candidates(newest, lenders[..i], name, now);
            var last := lenders[i];
            Candidates(newest, lenders[..i + 1], name, now) ==
              if name !in last.limits || (had == [] && Passed(last.limits[name], now)) then had
              else had + [Candidate(last.limits[name], last.age)]
  {
    assert lenders[..i + 1][..i] == lenders[..i];
  }

  /** The loop over one lender's windows. */
  method AddLender(had: map<string, seq<Candidate>>, newest: Read, lenders: seq<Read>, i: nat, now: real)
    returns (byName: map<string, seq<Candidate>>)
    requires i < |lenders|
    requires AllListed(had, newest, lenders[..i], now)
    ensures AllListed(byName, newest, lenders[..i + 1], now)
  {
    ghost var (before, after) := (lenders[..i], lenders[..i + 1]);
    var limits := lenders[i].limits;
    byName := had;
    var left := limits.Keys;
    while left != {}
      invariant left <= limits.Keys
      invariant forall name :: name in left || name !in limits ==> Listed(byName, name, Candidates(newest, before, name, now))
      invariant forall name :: name !in left && name in limits ==> Listed(byName, name, Candidates(newest, after, name, now))
    {
      var name :| name in left;
      left := left - {name};
      OneMore(newest, lenders, i, name, now);
      var window := limits[name];
      if name in byName || !Passed(window, now) {
        byName := byName[name := (if name in byName then byName[name] else []) + [Candidate(window, lenders[i].age)]];
      }
    }
    forall name
      ensures Listed(byName, name, Candidates(newest, after, name, now))
    {
      OneMore(newest, lenders, i, name, now);
    }
  }

  // ----- the one picked -----

  function Live(cs: seq<Candidate>, now: real): (r: seq<Candidate>)
    ensures forall c :: c in r <==> c in cs && !Passed(c.window, now)
  {
    if cs == [] then [] else (if Passed(cs[0].window, now) then [] else [cs[0]]) + Live(cs[1..], now)
  }

  function Timed(cs: seq<Candidate>): (r: seq<Candidate>)
    ensures forall c :: c in r <==> c in cs && c.window.resetsAt.Some?
  {
    if cs == [] then [] else (if cs[0].window.resetsAt.Some? then [cs[0]] else []) + Timed(cs[1..])
  }

  function Latest(cs: seq<Candidate>): (t: real)
    requires cs != [] && forall c :: c in cs ==> c.window.resetsAt.Some?
    ensures forall c :: c in cs ==> c.window.resetsAt.value <= t
    ensures exists c :: c in cs && c.window.resetsAt.value == t
  {
    assert cs[0] in cs;
    var t := cs[0].window.resetsAt.value;
    if |cs| == 1 then t
    else
      var rest := Latest(cs[1..]);
      if rest > t then rest else t
  }

  /** Those whose reset is within an hour of the latest. */
  function SameWindow(cs: seq<Candidate>, latest: real): (r: seq<Candidate>)
    requires forall c :: c in cs ==> c.window.resetsAt.Some?
    ensures forall c :: c in r <==> c in cs && latest - c.window.resetsAt.value <= SAME_WINDOW_TOLERANCE_S
  {
    if cs == [] then []
    else
      (if latest - cs[0].window.resetsAt.value <= SAME_WINDOW_TOLERANCE_S then [cs[0]] else []) + SameWindow(cs[1..], latest)
  }

  /** `reduce`: the first of the highest. */
  function Highest(cs: seq<Candidate>): (h: Candidate)
    requires cs != []
    ensures h in cs && forall c :: c in cs ==> c.window.usedPct <= h.window.usedPct
  {
    if |cs| == 1 then cs[0]
    else
      var best := Highest(cs[..|cs| - 1]);
      var c := cs[|cs| - 1];
      assert cs == cs[..|cs| - 1] + [c];
      if c.window.usedPct > best.window.usedPct then c else best
  }

  /** On ties the newest file wins: everything before the one picked is lower. */
  lemma {:induction false} HighestIsFirst(cs: seq<Candidate>) returns (i: nat)
    requires cs != []
    ensures i < |cs| && cs[i] == Highest(cs)
    ensures forall j :: 0 <= j < i ==> cs[j].window.usedPct < Highest(cs).window.usedPct
  {
    if |cs| == 1 {
      i := 0;
    } else {
      var init := cs[..|cs| - 1];
      i := HighestIsFirst(init);
      if cs[|cs| - 1].window.usedPct > Highest(init).window.usedPct {
        i := |cs| - 1;
        assert forall j :: 0 <= j < i ==> init[j] in init && cs[j] == init[j];
      }
    }
  }

  function Pool(cs: seq<Candidate>, now: real): (r: seq<Candidate>)
    ensures cs != [] ==> r != []
    ensures forall c :: c in r ==> c in cs
  {
    var live := Live(cs, now);
    if live != [] then live else cs
  }

  function PickWindow(cs: seq<Candidate>, now: real): (picked: Candidate)
    requires cs != []
    ensures picked in cs
  {
    var pool := Pool(cs, now);
    var first := pool[0];
    if first.window.resetsAt.None? then first
    else
      assert first in Timed(pool);
      var timed := Timed(pool);
      var latest := Latest(timed);
      assert SameWindow(timed, latest) != [];
      Highest(SameWindow(timed, latest))
  }

  /** Usage only rises inside one window: where the first figure left has a reset time, the figure picked is
    * the highest of all that reset within an hour of the latest, and is itself one of those. */
  lemma PickedIsHighestOfLatest(cs: seq<Candidate>, now: real, c: Candidate)
    requires cs != [] && Pool(cs, now)[0].window.resetsAt.Some?
    requires c in Pool(cs, now) && c.window.resetsAt.Some?
    ensures var p := PickWindow(cs, now);
            && p in Pool(cs, now) && p.window.resetsAt.Some?
            && c.window.resetsAt.value - p.window.resetsAt.value <= SAME_WINDOW_TOLERANCE_S
            && (c.window.usedPct > p.window.usedPct ==>
                  exists d :: d in Pool(cs, now) && d.window.resetsAt.Some?
                    && d.window.resetsAt.value - c.window.resetsAt.value > SAME_WINDOW_TOLERANCE_S)
  {
    var pool := Pool(cs, now);
    assert pool[0] in Timed(pool);
    var timed := Timed(pool);
    var latest := Latest(timed);
    assert c in timed;
    var top :| top in timed && top.window.resetsAt.value == latest;
    assert top in SameWindow(timed, latest);
    if c !in SameWindow(timed, latest) {
      assert top in pool;
    }
  }

  /** A window whose reset has passed is shown only when every file's has. */
  lemma PassedOnlyAsLastResort(cs: seq<Candidate>, now: real)
    requires cs != [] && Passed(PickWindow(cs, now).window, now)
    ensures forall c :: c in cs ==> Passed(c.window, now)
  {
    assert PickWindow(cs, now) in Pool(cs, now);
  }

  // ----- the merged reading -----

  function Newest(all: seq<Read>): Read
    requires all != []
  {
    NewestFirstSorts(all);
    NewestFirst(all)[0]
  }

  function Lenders(all: seq<Read>): seq<Read>
    requires all != []
  {
    NewestFirstSorts(all);
    Fresh(NewestFirst(all)[1..])
  }

  function CandidatesOf(all: seq<Read>, name: string, now: real): seq<Candidate>
    requires all != []
  {
    Candidates(Newest(all), Lenders(all), name, now)
  }

  ghost predicate WindowsMerged(all: seq<Read>, now: real, limits: map<string, Window>)
    requires all != []
  {
    forall name ::
      && (name in limits <==> CandidatesOf(all, name, now) != [])
      && (name in limits ==> limits[name] == PickWindow(CandidatesOf(all, name, now), now).window)
  }

  /** The age is the newest file's or the oldest lender's, whichever is more. */
  ghost predicate AgeMerged(all: seq<Read>, now: real, age: int)
    requires all != []
  {
    && age >= Newest(all).age
    && (forall name :: CandidatesOf(all, name, now) != [] ==> PickWindow(CandidatesOf(all, name, now), now).age <= age)
    && (age == Newest(all).age
        || exists name :: CandidatesOf(all, name, now) != [] && PickWindow(CandidatesOf(all, name, now), now).age == age)
  }

  ghost predicate IsMerge(all: seq<Read>, now: real, r: Read)
    requires all != []
  {
    && r.writtenAt == Newest(all).writtenAt
    && WindowsMerged(all, now, r.limits)
    && AgeMerged(all, now, r.age)
    && (r.stale <==> r.age > STALE_AFTER_SECONDS)
  }

  /** `age` is that of the newest file, or of the oldest picked for a name in `done`. */
  ghost predicate Aged(picked: map<string, Candidate>, done: set<string>, newest: int, age: int)
    requires done <= picked.Keys
  {
    && age >= newest && (forall name :: name in done ==> picked[name].age <= age)
    && (age == newest || exists name :: name in done && picked[name].age == age)
  }

  /** The loop of `mergeWindows`, over the windows picked. */
  method Collect(picked: map<string, Candidate>, newest: int) returns (limits: map<string, Window>, age: int)
    ensures limits == map name | name in picked :: picked[name].window
    ensures Aged(picked, picked.Keys, newest, age)
  {
    limits, age := map[], newest;
    var left := picked.Keys;
    while left != {}
      invariant left <= picked.Keys && limits.Keys == picked.Keys - left
      invariant forall name :: name in limits ==> limits[name] == picked[name].window
      invariant Aged(picked, limits.Keys, newest, age)
    {
      var name :| name in left;
      left := left - {name};
      var c := picked[name];
      limits := limits[name := c.window];
      age := if c.age > age then c.age else age;
    }
  }

  ghost predicate PickIs(all: seq<Read>, now: real, picked: map<string, Candidate>, name: string)
    requires all != []
  {
    var cs := CandidatesOf(all, name, now);
    (name in picked <==> cs != []) && (name in picked ==> picked[name] == PickWindow(cs, now))
  }

  lemma PicksAre(all: seq<Read>, byName: map<string, seq<Candidate>>, now: real, picked: map<string, Candidate>)
    requires all != [] && (forall name :: name in byName ==> byName[name] != [])
    requires AllListed(byName, Newest(all), Lenders(all), now)
    requires picked == map name | name in byName :: PickWindow(byName[name], now)
    ensures forall name :: PickIs(all, now, picked, name)
  {
    forall name ensures PickIs(all, now, picked, name) {
      assert Listed(byName, name, Candidates(Newest(all), Lenders(all), name, now));
    }
  }

  lemma PicksAreMerged(all: seq<Read>, now: real, picked: map<string, Candidate>)
    requires all != [] && forall name :: PickIs(all, now, picked, name)
    ensures WindowsMerged(all, now, map name | name in picked :: picked[name].window)
  {
    var limits := map name | name in picked :: picked[name].window;
    forall name
      ensures name in limits <==> CandidatesOf(all, name, now) != []
      ensures name in limits ==> limits[name] == PickWindow(CandidatesOf(all, name, now), now).window
    {
      assert PickIs(all, now, picked, name);
    }
  }

  lemma PicksAreAged(all: seq<Read>, now: real, picked: map<string, Candidate>, age: int)
    requires all != [] && forall name :: PickIs(all, now, picked, name)
    requires Aged(picked, picked.Keys, Newest(all).age, age)
    ensures AgeMerged(all, now, age)
  {
    forall name | CandidatesOf(all, name, now) != []
      ensures PickWindow(CandidatesOf(all, name, now), now).age <= age
    {
      assert PickIs(all, now, picked, name);
    }
    if age != Newest(all).age {
      var name :| name in picked && picked[name].age == age;
      assert PickIs(all, now, picked, name);
    }
  }

  /** `mergeWindows`. */
  method MergeWindows(all: seq<Read>, now: real) returns (r: Read)
    requires all != []
    ensures IsMerge(all, now, r)
  {
    var newest := Newest(all);
    var byName := WindowCandidates(newest, Lenders(all), now);
    forall name | name in byName ensures byName[name] != [] {
      assert Listed(byName, name, Candidates(newest, Lenders(all), name, now));
    }
    var picked := map name | name in byName :: PickWindow(byName[name], now);
    var limits, age := Collect(picked, newest.age);
    PicksAre(all, byName, now, picked);
    PicksAreMerged(all, now, picked);
    PicksAreAged(all, now, picked, age);
    r := Read(newest.writtenAt, limits, age, age > STALE_AFTER_SECONDS);
  }

  /** One reading set has one merge. */
  lemma MergeIsUnique(all: seq<Read>, now: real, r: Read, t: Read)
    requires all != [] && IsMerge(all, now, r) && IsMerge(all, now, t)
    ensures r == t
  {
    assert r.limits.Keys == t.limits.Keys;
    assert r.limits == t.limits;
  }

  /** The order the files are read in does not matter, when no two were written at one time. */
  lemma OrderDoesNotMatter(a: seq<Read>, b: seq<Read>, now: real, r: Read, t: Read)
    requires a != [] && b != [] && multiset(a) == multiset(b) && DistinctTimes(a)
    requires IsMerge(a, now, r) && IsMerge(b, now, t)
    ensures r == t
  {
    NewestFirstSorts(a);
    NewestFirstSorts(b);
    OneOrder(NewestFirst(a), NewestFirst(b));
    MergeIsUnique(a, now, r, t);
  }

  // ----- where the windows come from -----

  /** `c` is what `read` says about `name`, unchanged. */
  predicate Says(read: Read, name: string, c: Candidate) {
    name in read.limits && c == Candidate(read.limits[name], read.age)
  }

  lemma {:induction false} CandidateIsSaid(newest: Read, lenders: seq<Read>, name: string, now: real, c: Candidate)
    requires c in Candidates(newest, lenders, name, now)
    ensures Says(newest, name, c) || exists r :: r in lenders && Says(r, name, c)
  {
    if lenders != [] {
      var init := lenders[..|lenders| - 1];
      if c in Candidates(newest, init, name, now) {
        CandidateIsSaid(newest, init, name, now, c);
      } else {
        assert lenders[|lenders| - 1] in lenders;
      }
    }
  }

  lemma {:induction false} FreshAre(others: seq<Read>, r: Read)
    ensures r in Fresh(others) <==> r in others && r.age <= MAX_ACCOUNT_READING_AGE_SECONDS
  {
    if others != [] {
      FreshAre(others[..|others| - 1], r);
      assert others == others[..|others| - 1] + [others[|others| - 1]];
    }
  }

  /** Every window shown is one file's window unchanged, that file is the newest or at most 15 minutes old,
    * and the reading says it is at least as old as that file. */
  lemma EveryWindowIsSomeones(all: seq<Read>, now: real, r: Read, name: string) returns (from: Read)
    requires all != [] && IsMerge(all, now, r) && name in r.limits
    ensures from in all && name in from.limits && r.limits[name] == from.limits[name]
    ensures from.age <= r.age && (from == Newest(all) || from.age <= MAX_ACCOUNT_READING_AGE_SECONDS)
  {
    var picked := PickWindow(CandidatesOf(all, name, now), now);
    CandidateIsSaid(Newest(all), Lenders(all), name, now, picked);
    NewestFirstSorts(all);
    if Says(Newest(all), name, picked) {
      from := Newest(all);
      assert from in multiset(NewestFirst(all));
    } else {
      from :| from in Lenders(all) && Says(from, name, picked);
      FreshAre(NewestFirst(all)[1..], from);
      assert from in multiset(NewestFirst(all));
    }
    assert from in multiset(all);
  }

  lemma {:induction false} NewestLeads(newest: Read, lenders: seq<Read>, name: string, now: real)
    requires name in newest.limits
    ensures Candidates(newest, lenders, name, now) != []
    ensures Candidates(newest, lenders, name, now)[0] == Candidate(newest.limits[name], newest.age)
  {
    if lenders != [] { NewestLeads(newest, lenders[..|lenders| - 1], name, now); }
  }

  /** Nothing the newest file says is dropped, and no other file lowers it while its window has not reset: a
    * lower figure is shown only for a window that resets more than an hour later. */
  lemma NewestIsNeverLowered(all: seq<Read>, now: real, r: Read, name: string)
    requires all != [] && IsMerge(all, now, r) && name in Newest(all).limits
    ensures name in r.limits
    ensures var w := Newest(all).limits[name];
            !Passed(w, now) && w.resetsAt.Some? && r.limits[name].usedPct < w.usedPct ==>
              exists c :: c in CandidatesOf(all, name, now) && c.window.resetsAt.Some?
                && c.window.resetsAt.value - w.resetsAt.value > SAME_WINDOW_TOLERANCE_S
  {
    var cs := CandidatesOf(all, name, now);
    var w := Newest(all).limits[name];
    NewestLeads(Newest(all), Lenders(all), name, now);
    if !Passed(w, now) && w.resetsAt.Some? {
      assert Live(cs, now)[0] == cs[0] == Pool(cs, now)[0];
      PickedIsHighestOfLatest(cs, now, cs[0]);
    }
  }

  lemma {:induction false} SomeCandidate(newest: Read, lenders: seq<Read>, name: string, now: real)
    ensures Candidates(newest, lenders, name, now) != [] <==>
              name in newest.limits || exists r :: r in lenders && name in r.limits && !Passed(r.limits[name], now)
  {
    if lenders != [] {
      var init := lenders[..|lenders| - 1];
      SomeCandidate(newest, init, name, now);
      assert lenders == init + [lenders[|lenders| - 1]];
    }
  }

  /** A window the newest file lacks is shown exactly when a fresh file has it with its reset still to come. */
  lemma WindowIsShownWhen(all: seq<Read>, now: real, r: Read, name: string)
    requires all != [] && IsMerge(all, now, r)
    ensures name in r.limits <==>
              || name in Newest(all).limits
              || exists f :: f in NewestFirst(all)[1..] && f.age <= MAX_ACCOUNT_READING_AGE_SECONDS
                   && name in f.limits && !Passed(f.limits[name], now)
  {
    SomeCandidate(Newest(all), Lenders(all), name, now);
    NewestFirstSorts(all);
    forall f
      ensures f in Lenders(all) <==> f in NewestFirst(all)[1..] && f.age <= MAX_ACCOUNT_READING_AGE_SECONDS
    {
      FreshAre(NewestFirst(all)[1..], f);
    }
  }

  // ----- two files of one time -----

  /** Window `w` is picked over `v`, though `v` is the newer file's. */
  predicate Beats(w: Window, v: Window, now: real) {
    if Passed(w, now) != Passed(v, now) then Passed(v, now)
    else
      && w.resetsAt.Some? && v.resetsAt.Some?
      && var later := w.resetsAt.value - v.resetsAt.value;
         later > SAME_WINDOW_TOLERANCE_S || (later >= -SAME_WINDOW_TOLERANCE_S && w.usedPct > v.usedPct)
  }

  lemma PickOfTwo(x: Candidate, y: Candidate, now: real)
    ensures PickWindow([x, y], now) == if Beats(y.window, x.window, now) then y else x
  {
    var cs := [x, y];
    assert cs[1..] == [y] && [y][1..] == [];
    assert Live([y], now) == if Passed(y.window, now) then [] else [y];
    if Passed(x.window, now) == Passed(y.window, now) {
      assert Live(cs, now) == if Passed(x.window, now) then [] else [x] + [y];
      assert Pool(cs, now) == cs;
      if x.window.resetsAt.Some? { HighestOfTwo(x, y); }
    } else {
      var one := if Passed(x.window, now) then y else x;
      assert Live(cs, now) == [one];
      PickOfOne(one, now);
    }
  }

  lemma PickOfOne(x: Candidate, now: real)
    ensures PickWindow([x], now) == x
  {
    assert PickWindow([x], now) in [x];
  }

  lemma HighestOfTwo(x: Candidate, y: Candidate)
    requires x.window.resetsAt.Some?
    ensures var timed := Timed([x, y]);
            x in timed && Highest(SameWindow(timed, Latest(timed))) ==
              if y.window.resetsAt.Some? && (y.window.resetsAt.value - x.window.resetsAt.value > SAME_WINDOW_TOLERANCE_S
                   || (y.window.resetsAt.value - x.window.resetsAt.value >= -SAME_WINDOW_TOLERANCE_S
                       && y.window.usedPct > x.window.usedPct))
              then y else x
  {
    assert [x, y][1..] == [y] && [y][1..] == [];
    var timed := Timed([x, y]);
    assert Timed([y]) == if y.window.resetsAt.Some? then [y] else [];
    assert timed == [x] + Timed([y]);
    if y.window.resetsAt.Some? {
      assert timed == [x, y];
      SameWindowOfTwo(x, y, Latest(timed));
    } else {
      assert timed == [x];
    }
  }

  lemma SameWindowOfTwo(x: Candidate, y: Candidate, latest: real)
    requires x.window.resetsAt.Some? && y.window.resetsAt.Some?
    requires latest == Latest([x, y])
    ensures var same := SameWindow([x, y], latest);
            var later := y.window.resetsAt.value - x.window.resetsAt.value;
            same != [] && Highest(same) == if later > SAME_WINDOW_TOLERANCE_S
                                              || (later >= -SAME_WINDOW_TOLERANCE_S && y.window.usedPct > x.window.usedPct)
                                           then y else x
  {
    assert [x, y][1..] == [y] && [y][1..] == [] && [x, y][..1] == [x];
    assert SameWindow([y], latest) == if latest - y.window.resetsAt.value <= SAME_WINDOW_TOLERANCE_S then [y] else [];
    assert SameWindow([x, y], latest) ==
      (if latest - x.window.resetsAt.value <= SAME_WINDOW_TOLERANCE_S then [x] else []) + SameWindow([y], latest);
    if SameWindow([x, y], latest) == [x] + [y] { assert [x] + [y] == [x, y]; }
  }

  predicate IsFresh(r: Read) { r.age <= MAX_ACCOUNT_READING_AGE_SECONDS }

  /** Read in this order, the second file's window `name` is shown. */
  predicate Lends(first: Read, second: Read, name: string, now: real) {
    && IsFresh(second) && name in second.limits
    && if name in first.limits then Beats(second.limits[name], first.limits[name], now) else !Passed(second.limits[name], now)
  }

  lemma OneLender(a: Read, b: Read, name: string, now: real)
    ensures Candidates(a, [b], name, now) ==
              (if name in a.limits then [Candidate(a.limits[name], a.age)] else [])
              + if name in b.limits && (name in a.limits || !Passed(b.limits[name], now))
                then [Candidate(b.limits[name], b.age)] else []
  {
    assert [b][..0] == [];
  }

  lemma BothRead(a: Read, b: Read)
    requires a.writtenAt == b.writtenAt
    ensures Newest([a, b]) == a && Lenders([a, b]) == if IsFresh(b) then [b] else []
  {
    assert [a, b][1..] == [b] && [b][1..] == [] && [b][..0] == [];
    assert NewestFirst([b]) == [b] && NewestFirst([a, b]) == [a, b];
    assert Fresh([b]) == Fresh([b][..0]) + if IsFresh(b) then [b] else [];
  }

  lemma OfTwo(a: Read, b: Read, name: string, now: real)
    requires a.writtenAt == b.writtenAt
    ensures Newest([a, b]) == a
    ensures var cs := CandidatesOf([a, b], name, now);
            if Lends(a, b, name, now) then cs != [] && PickWindow(cs, now) == Candidate(b.limits[name], b.age)
            else if name in a.limits then cs != [] && PickWindow(cs, now) == Candidate(a.limits[name], a.age)
            else cs == []
  {
    BothRead(a, b);
    if IsFresh(b) {
      PickedOfTwo(a, b, name, now);
    } else if name in a.limits {
      PickOfOne(Candidate(a.limits[name], a.age), now);
    }
  }

  lemma PickedOfTwo(a: Read, b: Read, name: string, now: real)
    requires IsFresh(b)
    ensures var cs := Candidates(a, [b], name, now);
            if Lends(a, b, name, now) then cs != [] && PickWindow(cs, now) == Candidate(b.limits[name], b.age)
            else if name in a.limits then cs != [] && PickWindow(cs, now) == Candidate(a.limits[name], a.age)
            else cs == []
  {
    OneLender(a, b, name, now);
    if name in a.limits {
      var x := Candidate(a.limits[name], a.age);
      PickOfOne(x, now);
      if name in b.limits { PickOfTwo(x, Candidate(b.limits[name], b.age), now); }
    } else if name in b.limits {
      PickOfOne(Candidate(b.limits[name], b.age), now);
    }
  }

  /** The window of one name is the same in both orders: neither file has it, or both say the same, or one file's is
    * shown either way, being picked over the other's even when read second. */
  predicate SameEitherWay(a: Read, b: Read, name: string, now: real) {
    || (name !in a.limits && name !in b.limits)
    || (name in a.limits && name in b.limits && a.limits[name] == b.limits[name])
    || Lends(a, b, name, now)
    || Lends(b, a, name, now)
  }

  /** The order of two files of one time does not matter if and only if it matters for no window, and, of two
    * ages, the greater is shown even when its file is read second. */
  lemma TiesMatterIff(a: Read, b: Read, now: real, r: Read, t: Read)
    requires a.writtenAt == b.writtenAt
    requires IsMerge([a, b], now, r) && IsMerge([b, a], now, t)
    ensures r == t <==>
              && (forall name :: SameEitherWay(a, b, name, now))
              && (a.age < b.age ==> exists name :: Lends(a, b, name, now))
              && (b.age < a.age ==> exists name :: Lends(b, a, name, now))
  {
    forall name ensures ShownAlike(r, t, name) <==> SameEitherWay(a, b, name, now) { AlikeIff(a, b, name, now, r, t); }
    AgeOfTwo(a, b, now, r);
    AgeOfTwo(b, a, now, t);
    AllAlike(r, t);
    assert r == t <==> r.limits == t.limits && r.age == t.age;
  }

  predicate ShownAlike(r: Read, t: Read, name: string) {
    (name in r.limits <==> name in t.limits) && (name in r.limits ==> r.limits[name] == t.limits[name])
  }

  lemma AllAlike(r: Read, t: Read)
    ensures r.limits == t.limits <==> forall name :: ShownAlike(r, t, name)
  {
    if forall name :: ShownAlike(r, t, name) {
      forall name ensures name in r.limits <==> name in t.limits { assert ShownAlike(r, t, name); }
      forall name | name in r.limits ensures r.limits[name] == t.limits[name] { assert ShownAlike(r, t, name); }
      assert r.limits == t.limits;
    }
  }

  /** The window `name` of the merge, for two files read in this order. */
  function Shown(first: Read, second: Read, name: string, now: real): Option<Window> {
    if Lends(first, second, name, now) then Some(second.limits[name])
    else if name in first.limits then Some(first.limits[name])
    else None
  }

  lemma ShownIs(a: Read, b: Read, name: string, now: real, r: Read)
    requires a.writtenAt == b.writtenAt && WindowsMerged([a, b], now, r.limits)
    ensures Shown(a, b, name, now) == if name in r.limits then Some(r.limits[name]) else None
  {
    OfTwo(a, b, name, now);
    assert name in r.limits <==> CandidatesOf([a, b], name, now) != [];
  }

  lemma ShownIff(a: Read, b: Read, name: string, now: real)
    ensures Shown(a, b, name, now) == Shown(b, a, name, now) <==> SameEitherWay(a, b, name, now)
  {
  }

  lemma AlikeIff(a: Read, b: Read, name: string, now: real, r: Read, t: Read)
    requires a.writtenAt == b.writtenAt
    requires WindowsMerged([a, b], now, r.limits) && WindowsMerged([b, a], now, t.limits)
    ensures ShownAlike(r, t, name) <==> SameEitherWay(a, b, name, now)
  {
    ShownIs(a, b, name, now, r);
    ShownIs(b, a, name, now, t);
    ShownIff(a, b, name, now);
  }

  lemma AgeOfTwo(a: Read, b: Read, now: real, r: Read)
    requires a.writtenAt == b.writtenAt && IsMerge([a, b], now, r)
    ensures r.writtenAt == a.writtenAt
    ensures r.age == if b.age > a.age && exists name :: Lends(a, b, name, now) then b.age else a.age
  {
    forall name
      ensures var cs := CandidatesOf([a, b], name, now);
              cs != [] ==> PickWindow(cs, now).age == if Lends(a, b, name, now) then b.age else a.age
    {
      OfTwo(a, b, name, now);
    }
    if name :| Lends(a, b, name, now) { OfTwo(a, b, name, now); }
    OfTwo(a, b, "", now);
  }

  /** So it does matter where both have an untimed window of one name and differ on it. */
  lemma TiesGoByOrder(a: Read, b: Read, name: string, now: real, r: Read, t: Read)
    requires a.writtenAt == b.writtenAt && name in a.limits && name in b.limits && a.limits[name] != b.limits[name]
    requires a.limits[name].resetsAt.None? && b.limits[name].resetsAt.None?
    requires IsMerge([a, b], now, r) && IsMerge([b, a], now, t)
    ensures r != t
  {
    TiesMatterIff(a, b, now, r, t);
    assert !SameEitherWay(a, b, name, now);
  }
}
