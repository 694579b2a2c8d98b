/** The two-row edit distance behind "close matches" for an unknown profile name.
  * The loop refines recursive Levenshtein, which is shown to be a metric and to be
  * exactly the length of a shortest script of single-character edits. */
module EditDistance {
  import opened Options

  function Min3(x: nat, y: nat, z: nat): nat {
    if x <= y && x <= z then x else if y <= z then y else z
  }

  function Cost(x: char, y: char): nat { if x == y then 0 else 1 }

  /** Recursive Levenshtein on the last characters: the reference definition. */
  function Lev(a: string, b: string): nat
    decreases |a| + |b|
  {
    if a == "" then |b|
    else if b == "" then |a|
    else
      var (p, x) := (a[..|a| - 1], a[|a| - 1]);
      var (q, y) := (b[..|b| - 1], b[|b| - 1]);
      Min3(Lev(p, b) + 1, Lev(a, q) + 1, Lev(p, q) + Cost(x, y))
  }

  /** The table entry for two prefixes. */
  ghost function D(a: string, b: string, i: nat, j: nat): nat
    requires i <= |a| && j <= |b|
  {
    Lev(a[..i], b[..j])
  }

  lemma Cell(a: string, b: string, i: nat, j: nat)
    requires 1 <= i <= |a| && 1 <= j <= |b|
    ensures D(a, b, i, j) == Min3(D(a, b, i - 1, j) + 1, D(a, b, i, j - 1) + 1,
                                  D(a, b, i - 1, j - 1) + Cost(a[i - 1], b[j - 1]))
  {
    assert a[..i][..i - 1] == a[..i - 1] && b[..j][..j - 1] == b[..j - 1];
  }

  /** Row `i` of the table, up to column `n`. */
  ghost predicate IsRow(row: seq<nat>, a: string, b: string, i: nat, n: nat)
    requires i <= |a| && n <= |b| + 1
  {
    |row| == n && forall j :: 0 <= j < n ==> row[j] == D(a, b, i, j)
  }

  /** The source's nested loops over `prev` and `row`. */
  method Compute(a: string, b: string) returns (d: nat)
    ensures d == Lev(a, b)
  {
    var prev: seq<nat> := seq(|b| + 1, (j: nat) => j);
    for i := 1 to |a| + 1
      invariant IsRow(prev, a, b, i - 1, |b| + 1)
    {
      prev := NextRow(a, b, i, prev);
    }
    assert a[..|a|] == a && b[..|b|] == b;
    d := prev[|b|];
  }

  method NextRow(a: string, b: string, i: nat, prev: seq<nat>) returns (row: seq<nat>)
    requires 1 <= i <= |a| && IsRow(prev, a, b, i - 1, |b| + 1)
    ensures IsRow(row, a, b, i, |b| + 1)
  {
    row := [i];
    for j := 1 to |b| + 1
      invariant IsRow(row, a, b, i, j)
    {
      var d := Min3(prev[j] + 1, row[j - 1] + 1, prev[j - 1] + Cost(a[i - 1], b[j - 1]));
      assert d == D(a, b, i, j) by { Cell(a, b, i, j); }
      row := row + [d];
    }
  }

  // ----- metric laws -----

  lemma {:induction false} SelfDistance(a: string)
    ensures Lev(a, a) == 0
  {
    if a != "" { SelfDistance(a[..|a| - 1]); }
  }

  lemma {:induction false} ZeroMeansEqual(a: string, b: string)
    requires Lev(a, b) == 0
    ensures a == b
    decreases |a| + |b|
  {
    if a != "" && b != "" {
      var p, q := a[..|a| - 1], b[..|b| - 1];
      ZeroMeansEqual(p, q);
      assert a == p + [a[|a| - 1]] && b == q + [b[|b| - 1]];
    }
  }

  lemma {:induction false} Symmetric(a: string, b: string)
    ensures Lev(a, b) == Lev(b, a)
    decreases |a| + |b|
  {
    if a != "" && b != "" {
      var p, q := a[..|a| - 1], b[..|b| - 1];
      Symmetric(p, b);
      Symmetric(a, q);
      Symmetric(p, q);
    }
  }

  lemma {:induction false} Bounds(a: string, b: string)
    ensures Lev(a, b) <= (if |a| <= |b| then |b| else |a|)
    ensures Lev(a, b) >= |a| - |b| && Lev(a, b) >= |b| - |a|
    decreases |a| + |b|
  {
    if a != "" && b != "" {
      var p, q := a[..|a| - 1], b[..|b| - 1];
      Bounds(p, b);
      Bounds(a, q);
      Bounds(p, q);
    }
  }

  /** The distance without the last characters of one, or of both. */
  lemma {:induction false} LastStep(a: string, b: string)
    requires a != "" && b != ""
    ensures var (p, q) := (a[..|a| - 1], b[..|b| - 1]);
            Lev(a, b) == Min3(Lev(p, b) + 1, Lev(a, q) + 1, Lev(p, q) + Cost(a[|a| - 1], b[|b| - 1]))
  {
  }

  lemma {:induction false} Triangle(a: string, b: string, c: string)
    ensures Lev(a, c) <= Lev(a, b) + Lev(b, c)
    decreases |a| + |b| + |c|
  {
    if a == "" || b == "" || c == "" {
      Bounds(a, b);
      Bounds(b, c);
      Bounds(a, c);
    } else {
      var (p, q, r) := (a[..|a| - 1], b[..|b| - 1], c[..|c| - 1]);
      LastStep(a, b);
      LastStep(b, c);
      LastStep(a, c);
      if Lev(a, b) == Lev(p, b) + 1 {
        Triangle(p, b, c);
      } else if Lev(b, c) == Lev(b, r) + 1 {
        Triangle(a, b, r);
      } else if Lev(a, b) == Lev(a, q) + 1 {
        if Lev(b, c) == Lev(q, c) + 1 { Triangle(a, q, c); } else { Triangle(a, q, r); }
      } else {
        if Lev(b, c) == Lev(q, c) + 1 { Triangle(p, q, c); } else { Triangle(p, q, r); }
      }
    }
  }

  // ----- the distance counts edits -----

  datatype Edit = Insert(at: nat, c: char) | Delete(at: nat) | Substitute(at: nat, c: char)

  predicate Fits(s: string, e: Edit) {
    if e.Insert? then e.at <= |s| else e.at < |s|
  }

  function Apply(s: string, e: Edit): string
    requires Fits(s, e)
  {
    match e
    case Insert(i, c) => s[..i] + [c] + s[i..]
    case Delete(i) => s[..i] + s[i + 1..]
    case Substitute(i, c) => s[..i] + [c] + s[i + 1..]
  }

  /** Running `script` on `a` is defined at every step and ends in `b`. */
  ghost predicate Turns(a: string, script: seq<Edit>, b: string)
    decreases |script|
  {
    if script == [] then a == b
    else Fits(a, script[0]) && Turns(Apply(a, script[0]), script[1..], b)
  }

  lemma {:induction false} CommonSuffix(a: string, b: string, tail: string)
    ensures Lev(a + tail, b + tail) <= Lev(a, b)
  {
    if tail == "" {
      assert a + tail == a && b + tail == b;
    } else {
      var t := tail[..|tail| - 1];
      CommonSuffix(a, b, t);
      assert (a + tail)[..|a + tail| - 1] == a + t && (b + tail)[..|b + tail| - 1] == b + t;
    }
  }

  lemma OneMoreCharacter(head: string, c: char)
    ensures Lev(head, head + [c]) <= 1 && Lev(head + [c], head) <= 1
  {
    SelfDistance(head);
    assert (head + [c])[..|head|] == head;
  }

  lemma OneOtherCharacter(head: string, c: char, x: char)
    ensures Lev(head + [c], head + [x]) <= 1
  {
    SelfDistance(head);
    assert (head + [c])[..|head|] == head && (head + [x])[..|head|] == head;
  }

  lemma OneEditCostsAtMostOne(s: string, e: Edit)
    requires Fits(s, e)
    ensures Lev(s, Apply(s, e)) <= 1
  {
    var i := e.at;
    match e
    case Insert(_, c) => InsertCostsOne(s[..i], c, s[i..]);
      assert s == s[..i] + s[i..];
    case Delete(_) => DeleteCostsOne(s[..i], s[i], s[i + 1..]);
      assert s == s[..i] + [s[i]] + s[i + 1..];
    case Substitute(_, c) => SubstituteCostsOne(s[..i], s[i], c, s[i + 1..]);
      assert s == s[..i] + [s[i]] + s[i + 1..];
  }

  lemma InsertCostsOne(head: string, c: char, tail: string)
    ensures Lev(head + tail, head + [c] + tail) <= 1
  {
    OneMoreCharacter(head, c);
    CommonSuffix(head, head + [c], tail);
  }

  lemma DeleteCostsOne(head: string, c: char, tail: string)
    ensures Lev(head + [c] + tail, head + tail) <= 1
  {
    OneMoreCharacter(head, c);
    CommonSuffix(head + [c], head, tail);
  }

  lemma SubstituteCostsOne(head: string, c: char, d: char, tail: string)
    ensures Lev(head + [c] + tail, head + [d] + tail) <= 1
  {
    OneOtherCharacter(head, c, d);
    CommonSuffix(head + [c], head + [d], tail);
  }

  /** No script is shorter than the distance. */
  lemma {:induction false} NoShorterScript(a: string, script: seq<Edit>, b: string)
    requires Turns(a, script, b)
    ensures Lev(a, b) <= |script|
    decreases |script|
  {
    if script == [] {
      SelfDistance(a);
    } else {
      var next := Apply(a, script[0]);
      NoShorterScript(next, script[1..], b);
      OneEditCostsAtMostOne(a, script[0]);
      Triangle(a, next, b);
    }
  }

  lemma ApplyBefore(a: string, e: Edit, tail: string)
    requires Fits(a, e)
    ensures Fits(a + tail, e) && Apply(a + tail, e) == Apply(a, e) + tail
  {
    assert (a + tail)[..e.at] == a[..e.at] && (a + tail)[e.at..] == a[e.at..] + tail;
    if !e.Insert? { assert (a + tail)[e.at + 1..] == a[e.at + 1..] + tail; }
  }

  /** A script for a prefix works unchanged in front of any suffix. */
  lemma {:induction false} TurnsBefore(a: string, script: seq<Edit>, b: string, tail: string)
    requires Turns(a, script, b)
    ensures Turns(a + tail, script, b + tail)
    decreases |script|
  {
    if script != [] {
      ApplyBefore(a, script[0], tail);
      TurnsBefore(Apply(a, script[0]), script[1..], b, tail);
    }
  }

  lemma {:induction false} TurnsThenOne(a: string, script: seq<Edit>, b: string, e: Edit)
    requires Turns(a, script, b) && Fits(b, e)
    ensures Turns(a, script + [e], Apply(b, e))
    decreases |script|
  {
    if script == [] {
      assert [e][1..] == [];
    } else {
      TurnsThenOne(Apply(a, script[0]), script[1..], b, e);
      assert (script + [e])[1..] == script[1..] + [e];
    }
  }

  lemma AppendCharacter(a: string, script: seq<Edit>, q: string, y: char) returns (longer: seq<Edit>)
    requires Turns(a, script, q)
    ensures |longer| == |script| + 1 && Turns(a, longer, q + [y])
  {
    TurnsThenOne(a, script, q, Insert(|q|, y));
    longer := script + [Insert(|q|, y)];
    assert Apply(q, Insert(|q|, y)) == q + [y];
  }

  lemma DropCharacter(p: string, x: char, script: seq<Edit>, b: string) returns (longer: seq<Edit>)
    requires Turns(p, script, b)
    ensures |longer| == |script| + 1 && Turns(p + [x], longer, b)
  {
    longer := [Delete(|p|)] + script;
    assert Apply(p + [x], Delete(|p|)) == p;
    assert longer[1..] == script;
  }

  lemma KeepOrReplace(p: string, x: char, script: seq<Edit>, q: string, y: char) returns (longer: seq<Edit>)
    requires Turns(p, script, q)
    ensures |longer| == |script| + Cost(x, y) && Turns(p + [x], longer, q + [y])
  {
    TurnsBefore(p, script, q, [x]);
    longer := script;
    if x != y {
      TurnsThenOne(p + [x], script, q + [x], Substitute(|q|, y));
      longer := script + [Substitute(|q|, y)];
      assert Apply(q + [x], Substitute(|q|, y)) == q + [y];
    }
  }

  lemma {:induction false} ScriptOfLength(a: string, b: string) returns (script: seq<Edit>)
    ensures |script| == Lev(a, b) && Turns(a, script, b)
    decreases |a| + |b|
  {
    if a == "" && b == "" { return []; }
    if a != "" { assert a == a[..|a| - 1] + [a[|a| - 1]]; }
    if b != "" { assert b == b[..|b| - 1] + [b[|b| - 1]]; }
    if a == "" || (b != "" && Lev(a, b) == Lev(a, b[..|b| - 1]) + 1) {
      script := ScriptOfLength(a, b[..|b| - 1]);
      script := AppendCharacter(a, script, b[..|b| - 1], b[|b| - 1]);
    } else if b == "" || Lev(a, b) == Lev(a[..|a| - 1], b) + 1 {
      script := ScriptOfLength(a[..|a| - 1], b);
      script := DropCharacter(a[..|a| - 1], a[|a| - 1], script, b);
    } else {
      script := ScriptOfLength(a[..|a| - 1], b[..|b| - 1]);
      script := KeepOrReplace(a[..|a| - 1], a[|a| - 1], script, b[..|b| - 1], b[|b| - 1]);
    }
  }

  /** The distance is within `k` exactly when some script of at most `k` edits does the job. */
  lemma DistanceCountsEdits(a: string, b: string, k: nat)
    ensures Lev(a, b) <= k <==> exists script :: |script| <= k && Turns(a, script, b)
  {
    if Lev(a, b) <= k {
      var script := ScriptOfLength(a, b);
      assert |script| <= k && Turns(a, script, b);
    }
    if script :| |script| <= k && Turns(a, script, b) {
      NoShorterScript(a, script, b);
    }
  }

  // ----- its one use: naming close profiles -----

  predicate PartAt(s: string, part: string, i: nat) {
    i + |part| <= |s| && s[i..i + |part|] == part
  }

  predicate Includes(s: string, part: string) {
    exists i: nat :: i <= |s| && PartAt(s, part, i)
  }

  datatype Selection =
    | Names(names: seq<string>)
    | CloseMatches(close: seq<string>)
    | NoneClose(available: seq<string>)

  ghost predicate Close(profile: string, name: string) {
    Includes(profile, name) || Includes(name, profile) || Lev(profile, name) <= 2
  }

  ghost function CloseTo(all: seq<string>, name: string): seq<string> {
    if all == [] then []
    else CloseTo(all[..|all| - 1], name)
         + (if Close(all[|all| - 1], name) then [all[|all| - 1]] else [])
  }

  /** `selectProfileNames`, the thrown error being one of the two refusals. */
  method SelectProfileNames(all: seq<string>, name: Option<string>) returns (r: Selection)
    ensures name.None? ==> r == Names(all)
    ensures name.Some? && name.value in all ==> r == Names([name.value])
    ensures name.Some? && name.value !in all ==>
              var close := CloseTo(all, name.value); r == if close == [] then NoneClose(all) else CloseMatches(close)
  {
    if name.None? || name.value in all {
      return Names(if name.None? then all else [name.value]);
    }
    var close := [];
    for i := 0 to |all|
      invariant close == CloseTo(all[..i], name.value)
    {
      var d := Compute(all[i], name.value);
      assert all[..i + 1][..i] == all[..i];
      if Includes(all[i], name.value) || Includes(name.value, all[i]) || d <= 2 {
        close := close + [all[i]];
      }
    }
    assert all[..|all|] == all;
    r := if close == [] then NoneClose(all) else CloseMatches(close);
  }

  lemma {:induction false} CloseToHolds(all: seq<string>, name: string, n: string)
    ensures n in CloseTo(all, name) <==> n in all && Close(n, name)
  {
    if all != [] {
      var init := all[..|all| - 1];
      CloseToHolds(init, name, n);
      assert all == init + [all[|all| - 1]];
    }
  }

  lemma IncludesIs(s: string, part: string)
    ensures Includes(s, part) <==> exists a: string, b: string :: s == a + part + b
  {
    if i: nat :| i <= |s| && PartAt(s, part, i) { assert s == s[..i] + part + s[i + |part|..]; }
    if a: string, b: string :| s == a + part + b { assert PartAt(s, part, |a|); }
  }

  /** A refusal offers exactly the profiles that contain the name, are contained in it, or are at most two edits off. */
  lemma OfferedIff(all: seq<string>, name: string, profile: string)
    ensures profile in CloseTo(all, name) <==>
              && profile in all
              && (|| (exists a: string, b: string :: profile == a + name + b)
                  || (exists a: string, b: string :: name == a + profile + b)
                  || exists script :: |script| <= 2 && Turns(profile, script, name))
  {
    CloseToHolds(all, name, profile);
    IncludesIs(profile, name);
    IncludesIs(name, profile);
    DistanceCountsEdits(profile, name, 2);
  }

  /** A name two typing slips away from a profile is always offered that profile. */
  lemma TwoSlipsAreSuggested(all: seq<string>, profile: string, name: string, slips: seq<Edit>)
    requires profile in all && |slips| <= 2 && Turns(profile, slips, name)
    ensures profile in CloseTo(all, name)
  {
    NoShorterScript(profile, slips, name);
    CloseToHolds(all, name, profile);
  }
}
