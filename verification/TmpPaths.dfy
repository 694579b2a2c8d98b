/** The one path an agent's temporary directory can have, and reading the launcher's pid back from its name. */
module TmpPaths {
  import opened Decimals
  import opened Letters
  import opened Options

  const TMP_ROOT := "/tmp"
  const DISK_TMP_ROOT_SUFFIX := "/.cache/agent-chat/tmp"
  const HARNESS_ROOT_SUFFIX := "/.cache/agent-chat/harness"
  const MAX_SAFE_INTEGER: nat := 9_007_199_254_740_991

  predicate Alphanumeric(c: char) { '0' <= c <= '9' || 'a' <= c <= 'z' || 'A' <= c <= 'Z' }

  /** `[a-z0-9][a-z0-9_-]{0,63}`, in either case. */
  predicate ValidName(name: string) {
    && 1 <= |name| <= 64 && Alphanumeric(name[0])
    && forall i :: 0 <= i < |name| ==> Alphanumeric(name[i]) || name[i] == '_' || name[i] == '-'
  }

  predicate EndsWith(t: string, end: string) { |end| <= |t| && t[|t| - |end|..] == end }

  /** `normal` says of an absolute path that normalising changes nothing. */
  predicate IsTmpRoot(root: string, normal: string -> bool) {
    root == TMP_ROOT
    || (root != "" && root[0] == '/' && normal(root)
        && (EndsWith(root, DISK_TMP_ROOT_SUFFIX) || EndsWith(root, HARNESS_ROOT_SUFFIX)))
  }

  function Entry(name: string, pid: nat): string { "ac-" + name + "-" + Decimal(pid) }

  function AgentTmpPath(name: string, pid: nat, root: string, normal: string -> bool): Option<string> {
    if !ValidName(name) || pid > MAX_SAFE_INTEGER || pid == 0 || !IsTmpRoot(root, normal) then None
    else Some(root + "/" + Entry(name, pid))
  }

  /** `^[1-9]\d{0,9}$` */
  predicate PidDigits(t: string) { 1 <= |t| <= 10 && t[0] != '0' && forall i :: 0 <= i < |t| ==> IsDigit(t[i]) }

  predicate StartsWith(t: string, start: string) { |start| <= |t| && t[..|start|] == start }

  function PidOf(entry: string, name: string, root: string, normal: string -> bool): Option<nat> {
    var prefix := "ac-" + name + "-";
    if !StartsWith(entry, prefix) then None
    else if !PidDigits(entry[|prefix|..]) then None
    else
      var pid := Value(entry[|prefix|..]);
      if AgentTmpPath(name, pid, root, normal) == Some(root + "/" + entry) then Some(pid) else None
  }

  // ----- what a name determines -----

  /** A text is split in one way at the last `c`. */
  lemma SplitAtLast(a: string, b: string, x: string, y: string, c: char)
    requires a + [c] + b == x + [c] + y && c !in b && c !in y
    ensures a == x && b == y
  {
    var t := a + [c] + b;
    assert t[|a|] == c && t[|x|] == c;
    assert a == t[..|a|] && x == t[..|x|] && b == t[|a| + 1..] && y == t[|x| + 1..];
  }

  lemma EntryDetermines(name: string, pid: nat, other: string, otherPid: nat)
    requires Entry(name, pid) == Entry(other, otherPid)
    ensures name == other && pid == otherPid
  {
    SplitAtLast("ac-" + name, Decimal(pid), "ac-" + other, Decimal(otherPid), '-');
    assert ("ac-" + name)[3..] == name && ("ac-" + other)[3..] == other;
    ValueOfDecimal(pid);
    ValueOfDecimal(otherPid);
  }

  /** A path names one root, one agent name and one launcher, although names may hold dashes and digits. */
  lemma PathDeterminesTheLaunch(name: string, pid: nat, root: string, other: string, otherPid: nat, otherRoot: string,
                                normal: string -> bool)
    requires AgentTmpPath(name, pid, root, normal).Some?
    requires AgentTmpPath(name, pid, root, normal) == AgentTmpPath(other, otherPid, otherRoot, normal)
    ensures name == other && pid == otherPid && root == otherRoot
  {
    SplitAtLast(root, Entry(name, pid), otherRoot, Entry(other, otherPid), '/');
    EntryDetermines(name, pid, other, otherPid);
  }

  /** The pid is read from exactly the entries a launch of this name makes, pids of up to ten digits. */
  lemma PidOfIsExact(entry: string, name: string, root: string, normal: string -> bool, pid: nat)
    ensures PidOf(entry, name, root, normal) == Some(pid) <==>
              entry == Entry(name, pid) && AgentTmpPath(name, pid, root, normal).Some? && |Decimal(pid)| <= 10
  {
    var prefix := "ac-" + name + "-";
    if PidOf(entry, name, root, normal) == Some(pid) {
      DecimalOfValue(entry[|prefix|..]);
      assert entry == prefix + entry[|prefix|..];
    }
    if entry == Entry(name, pid) && AgentTmpPath(name, pid, root, normal).Some? && |Decimal(pid)| <= 10 {
      assert entry[..|prefix|] == prefix && entry[|prefix|..] == Decimal(pid);
      ValueOfDecimal(pid);
      NoLeadingZero(pid);
    }
  }

  lemma {:induction false} NoLeadingZero(n: nat)
    requires n > 0
    ensures Decimal(n)[0] != '0'
  {
    if n >= 10 { NoLeadingZero(n / 10); }
  }

  /** An entry is one name's at most. */
  lemma OneNamePerEntry(entry: string, name: string, other: string, root: string, normal: string -> bool)
    requires PidOf(entry, name, root, normal).Some? && PidOf(entry, other, root, normal).Some?
    ensures name == other
  {
    var (p, q) := (PidOf(entry, name, root, normal).value, PidOf(entry, other, root, normal).value);
    PidOfIsExact(entry, name, root, normal, p);
    PidOfIsExact(entry, other, root, normal, q);
    EntryDetermines(name, p, other, q);
  }

  // ----- which paths there are -----

  /** One to 64 letters, digits, dashes and underscores, of which the first is a letter or digit. */
  ghost predicate LaunchName(name: string) {
    && 0 < |name| < 65 && name[0] in DIGITS + LOWER + UPPER
    && forall c :: c in name ==> c in DIGITS + LOWER + UPPER + "-_"
  }

  /** `/tmp`, or one of two directories in the cache of some home, by an absolute and normal path. */
  ghost predicate LaunchRoot(root: string, normal: string -> bool) {
    || root == "/tmp"
    || (normal(root) && "/" <= root
        && exists home: string :: root == home + "/.cache/agent-chat/tmp" || root == home + "/.cache/agent-chat/harness")
  }

  lemma NameIs(name: string)
    ensures ValidName(name) <==> LaunchName(name)
  {
    forall c: char ensures c in DIGITS + LOWER + UPPER <==> Alphanumeric(c) {
      IsOneDigit(c);
      IsOneLower(c);
      IsOneUpper(c);
    }
    assert forall i :: 0 <= i < |name| ==> name[i] in name;
  }

  lemma EndsWithIs(t: string, end: string)
    ensures EndsWith(t, end) <==> exists before: string :: t == before + end
  {
    if EndsWith(t, end) { assert t == t[..|t| - |end|] + end; }
    if before: string :| t == before + end { assert t[|t| - |end|..] == end; }
  }

  lemma RootIs(root: string, normal: string -> bool)
    ensures IsTmpRoot(root, normal) <==> LaunchRoot(root, normal)
  {
    EndsWithIs(root, "/.cache/agent-chat/tmp");
    EndsWithIs(root, "/.cache/agent-chat/harness");
    assert "/" <= root <==> root != "" && root[0] == '/';
  }

  /** A launch of this name and pid under this root has a directory exactly when the three are sound, and this one. */
  lemma PathIs(name: string, pid: nat, root: string, normal: string -> bool, path: string)
    ensures AgentTmpPath(name, pid, root, normal) == Some(path) <==>
              && LaunchName(name) && 0 < pid < 9_007_199_254_740_992 && LaunchRoot(root, normal)
              && path == root + "/ac-" + name + "-" + Decimal(pid)
  {
    NameIs(name);
    RootIs(root, normal);
    assert root + "/" + ("ac-" + name + "-" + Decimal(pid)) == root + "/ac-" + name + "-" + Decimal(pid);
  }

  // ----- inside a directory -----

  predicate IsInside(path: string, dir: string) { path == dir || StartsWith(path, dir + "/") }

  lemma TmpPathIsInside(name: string, pid: nat, root: string, normal: string -> bool)
    requires AgentTmpPath(name, pid, root, normal).Some?
    ensures IsInside(AgentTmpPath(name, pid, root, normal).value, root)
  {
    var p := root + "/" + Entry(name, pid);
    assert p[..|root + "/"|] == root + "/";
  }
}
