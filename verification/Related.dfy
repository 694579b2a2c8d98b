/** The ranked "read this" section of a briefing, kept inside the characters reserved for it. A character
  * stands for one UTF-16 code unit. */
module Related {
  import opened Decimals
  import opened Whitespace

  const RELATED_LIMIT: nat := 6
  const RELATED_RESERVE: nat := 2600
  const TITLE_MAX: nat := 80
  const READ_IF_MAX: nat := 80

  /** `path` is the hit's path joined to the root; `readIf` is "" when the note declares none. */
  datatype Hit = Hit(id: string, initiative: string, title: string, path: string, readIf: string)

  function TrimEnd(t: string): (r: string)
    ensures |r| <= |t|
  {
    if t != "" && Blank(t[|t| - 1]) then TrimEnd(t[..|t| - 1]) else t
  }

  const ELLIPSIS := "\U{2026}"

  function Bounded(text: string, max: nat): (r: string)
    requires max > 0
    ensures |r| <= max && (|text| <= max ==> r == text)
  {
    if |text| <= max then text else TrimEnd(text[..max - 1]) + ELLIPSIS
  }

  lemma {:induction false} TrimEndIs(t: string) returns (k: nat)
    ensures k <= |t| && TrimEnd(t) == t[..k] && (k > 0 ==> !Blank(t[k - 1])) && forall i :: k <= i < |t| ==> Blank(t[i])
  {
    if t != "" && Blank(t[|t| - 1]) {
      k := TrimEndIs(t[..|t| - 1]);
      assert t[..|t| - 1][..k] == t[..k];
    } else {
      k := |t|;
      assert t[..|t|] == t;
    }
  }

  /** A longer text is cut to what comes before the bound, less the white space it then ends with, and marked. */
  lemma BoundedCuts(text: string, max: nat) returns (k: nat)
    requires 0 < max < |text|
    ensures k < max && Bounded(text, max) == text[..k] + "\U{2026}"
    ensures (k > 0 ==> !Blank(text[k - 1])) && forall i :: k <= i < max - 1 ==> Blank(text[i])
  {
    k := TrimEndIs(text[..max - 1]);
    assert text[..max - 1][..k] == text[..k];
  }

  function HitLine(hit: Hit, slug: string): string {
    "- " + (if hit.initiative == slug then "" else "[from `" + hit.initiative + "`] ") + hit.id
    + " \"" + Bounded(hit.title, TITLE_MAX) + "\""
    + (if hit.readIf == "" then "" else " (read if: " + Bounded(hit.readIf, READ_IF_MAX) + ")")
    + " " + hit.path
  }

  /** However long the title and the note, a line is no longer than its tag, its id and its path make it. */
  lemma LineLength(hit: Hit, slug: string)
    ensures |HitLine(hit, slug)| <=
              |hit.id| + |hit.path| + (if hit.initiative == slug then 0 else |hit.initiative| + 10)
              + (if hit.readIf == "" then 86 else 178)
  {
  }

  function Heading(count: nat): string {
    "## Related to this assignment (" + Decimal(count) + ", ranked; open with Read)\n\n"
  }

  function Lines(hits: seq<Hit>, slug: string): seq<string> {
    seq(|hits|, i requires 0 <= i < |hits| => HitLine(hits[i], slug))
  }

  function JoinLines(lines: seq<string>): string {
    if lines == [] then "" else if |lines| == 1 then lines[0] else JoinLines(lines[..|lines| - 1]) + "\n" + lines[|lines| - 1]
  }

  function Total(lines: seq<string>): nat {
    if lines == [] then 0 else Total(lines[..|lines| - 1]) + |lines[|lines| - 1]| + 1
  }

  lemma {:induction false} JoinedLength(lines: seq<string>)
    requires lines != []
    ensures |JoinLines(lines)| + 1 == Total(lines)
  {
    if |lines| > 1 { JoinedLength(lines[..|lines| - 1]); } else { assert lines[..0] == []; }
  }

  function Section(lines: seq<string>): string {
    if lines == [] then "" else Heading(|lines|) + JoinLines(lines)
  }

  /** The first `k` lines and no more fit the reserve, counting a newline after each. */
  ghost predicate Shown(all: seq<string>, k: nat) {
    && k <= |all| && k <= RELATED_LIMIT
    && |Heading(RELATED_LIMIT)| + Total(all[..k]) <= RELATED_RESERVE
    && (k < |all| && k < RELATED_LIMIT ==> |Heading(RELATED_LIMIT)| + Total(all[..k + 1]) > RELATED_RESERVE)
  }

  lemma OneMoreLine(all: seq<string>, k: nat)
    requires k < |all|
    ensures all[..k + 1] == all[..k] + [all[k]]
    ensures Total(all[..k + 1]) == Total(all[..k]) + |all[k]| + 1
  {
    assert all[..k + 1][..k] == all[..k];
  }

  /** `relatedSection`: a ranked prefix of the hits, as long as the reserve allows, and inside the reserve. */
  method RelatedSection(hits: seq<Hit>, slug: string) returns (text: string, lines: seq<string>)
    ensures exists k: nat :: Shown(Lines(hits, slug), k) && lines == Lines(hits, slug)[..k]
    ensures text == Section(lines)
    ensures |text| < RELATED_RESERVE
  {
    lines := [];
    var used := |Heading(RELATED_LIMIT)|;
    ghost var all := Lines(hits, slug);
    var i := 0;
    while i < |hits| && i < RELATED_LIMIT
      invariant 0 <= i <= |hits| && i <= RELATED_LIMIT
      invariant lines == all[..i]
      invariant used == |Heading(RELATED_LIMIT)| + Total(lines) <= RELATED_RESERVE
    {
      var line := HitLine(hits[i], slug);
      OneMoreLine(all, i);
      if used + |line| + 1 > RELATED_RESERVE {
        break;
      }
      lines := lines + [line];
      used := used + |line| + 1;
      i := i + 1;
    }
    assert Shown(all, i);
    if |lines| == 0 {
      return "", lines;
    }
    JoinedLength(lines);
    assert |Decimal(|lines|)| == |Decimal(RELATED_LIMIT)|;
    text := Heading(|lines|) + JoinLines(lines);
  }

  lemma {:induction false} TotalAtMost(lines: seq<string>, each: nat, most: nat)
    requires |lines| <= most && forall i :: 0 <= i < |lines| ==> |lines[i]| <= each
    ensures Total(lines) <= most * (each + 1)
  {
    if lines != [] {
      TotalAtMost(lines[..|lines| - 1], each, most - 1);
      assert most * (each + 1) == (most - 1) * (each + 1) + (each + 1);
    }
  }

  /** The reserve is sized for six lines of 420 characters: then none is left out. */
  lemma SixOrdinaryLinesFit(all: seq<string>, k: nat)
    requires forall i :: 0 <= i < |all| ==> |all[i]| <= 420
    requires Shown(all, k)
    ensures k == if |all| < RELATED_LIMIT then |all| else RELATED_LIMIT
  {
    if k < |all| && k < RELATED_LIMIT {
      TotalAtMost(all[..k + 1], 420, RELATED_LIMIT);
    }
  }

  lemma {:induction false} TotalGrows(all: seq<string>, j: nat, k: nat)
    requires j <= k <= |all|
    ensures Total(all[..j]) <= Total(all[..k])
  {
    if j < k {
      OneMoreLine(all, k - 1);
      TotalGrows(all, j, k - 1);
    }
  }

  /** No shorter prefix and no longer one would do. */
  lemma ShownIsUnique(all: seq<string>, j: nat, k: nat)
    requires Shown(all, j) && Shown(all, k)
    ensures j == k
  {
    if j < k {
      TotalGrows(all, j + 1, k);
    } else if k < j {
      TotalGrows(all, k + 1, j);
    }
  }

  // ----- reading a section back, line by line -----

  function Split(t: string): (lines: seq<string>)
    ensures lines != []
  {
    if t == "" then [""]
    else
      var (init, c) := (Split(t[..|t| - 1]), t[|t| - 1]);
      if c == '\n' then init + [""] else init[..|init| - 1] + [init[|init| - 1] + [c]]
  }

  predicate OneLine(t: string) { '\n' !in t }

  function OneMoreChar(lines: seq<string>, c: char): seq<string>
    requires lines != []
  {
    if c == '\n' then lines + [""] else lines[..|lines| - 1] + [lines[|lines| - 1] + [c]]
  }

  lemma {:induction false} SplitMore(t: string, c: char)
    ensures Split(t + [c]) == OneMoreChar(Split(t), c)
  {
    assert (t + [c])[..|t|] == t;
  }

  lemma OneMoreOfBoth(a: seq<string>, b: seq<string>, c: char)
    requires b != []
    ensures OneMoreChar(a + b, c) == a + OneMoreChar(b, c)
  {
    assert (a + b)[..|a + b| - 1] == a + b[..|b| - 1];
  }

  lemma {:induction false} SplitBoth(a: string, b: string)
    ensures Split(a + "\n" + b) == Split(a) + Split(b)
  {
    if b == "" {
      assert a + "\n" + b == a + ['\n'];
      SplitMore(a, '\n');
    } else {
      var (init, c) := (b[..|b| - 1], b[|b| - 1]);
      SplitBoth(a, init);
      assert b == init + [c] && a + "\n" + b == a + "\n" + init + [c];
      SplitMore(a + "\n" + init, c);
      SplitMore(init, c);
      OneMoreOfBoth(Split(a), Split(init), c);
    }
  }

  lemma {:induction false} Regroup(a: string, b: string, c: string)
    ensures a + b + c == a + (b + c)
  {
  }

  lemma {:induction false} SplitHeading(heading: string, rest: string)
    requires OneLine(heading)
    ensures Split(heading + "\n\n" + rest) == [heading, ""] + Split(rest)
  {
    var next := "\n" + rest;
    Regroup(heading, "\n\n", rest);
    Regroup("\n", "\n", rest);
    Regroup(heading, "\n", next);
    assert "\n" + "\n" == "\n\n" && "" + "\n" == "\n";
    SplitBoth(heading, next);
    SplitBoth("", rest);
    SplitOneLine(heading);
    SplitOneLine("");
  }

  lemma {:induction false} SplitOneLine(t: string)
    requires OneLine(t)
    ensures Split(t) == [t]
  {
    if t != "" {
      SplitOneLine(t[..|t| - 1]);
      assert t == t[..|t| - 1] + [t[|t| - 1]];
    }
  }

  lemma {:induction false} SplitJoined(lines: seq<string>)
    requires lines != [] && forall i :: 0 <= i < |lines| ==> OneLine(lines[i])
    ensures Split(JoinLines(lines)) == lines
  {
    var (init, last) := (lines[..|lines| - 1], lines[|lines| - 1]);
    SplitOneLine(last);
    if init != [] {
      SplitJoined(init);
      SplitBoth(JoinLines(init), last);
    }
    assert lines == init + [last];
  }

  /** The section reads as its heading, an empty line, and the hits shown, one line each in their order. */
  lemma {:induction false} SectionReads(hits: seq<Hit>, slug: string, k: nat)
    requires 0 < k <= |hits| && forall i :: 0 <= i < k ==> OneLine(HitLine(hits[i], slug))
    ensures Split(Section(Lines(hits, slug)[..k])) ==
              ["## Related to this assignment (" + Decimal(k) + ", ranked; open with Read)", ""] + Lines(hits[..k], slug)
  {
    var lines := Lines(hits, slug)[..k];
    var heading := "## Related to this assignment (" + Decimal(k) + ", ranked; open with Read)";
    assert lines == Lines(hits[..k], slug);
    SplitJoined(lines);
    HeadingIsOneLine(k);
    SplitHeading(heading, JoinLines(lines));
    SectionIs(lines, heading);
  }

  lemma SectionIs(lines: seq<string>, heading: string)
    requires lines != [] && heading == "## Related to this assignment (" + Decimal(|lines|) + ", ranked; open with Read)"
    ensures Section(lines) == heading + "\n\n" + JoinLines(lines)
  {
    assert ", ranked; open with Read)" + "\n\n" == ", ranked; open with Read)\n\n";
    Regroup("## Related to this assignment (" + Decimal(|lines|), ", ranked; open with Read)", "\n\n");
  }

  lemma HeadingIsOneLine(k: nat)
    ensures OneLine("## Related to this assignment (" + Decimal(k) + ", ranked; open with Read)")
  {
    assert OneLine("## Related to this assignment (") && OneLine(", ranked; open with Read)") && OneLine(Decimal(k));
  }

  /** A line names the hit and where it is: the tag of another initiative, its id, its title in quotes, what to read it
    * for, and its path. */
  lemma HitLineReads(hit: Hit, slug: string) returns (title: string, note: string)
    ensures HitLine(hit, slug) ==
              "- " + (if hit.initiative == slug then "" else "[from `" + hit.initiative + "`] ") + hit.id + " \"" + title + "\""
              + note + " " + hit.path
    ensures |title| <= 80 && (|hit.title| <= 80 ==> title == hit.title)
    ensures note == "" <==> hit.readIf == ""
    ensures 0 < |hit.readIf| <= 80 ==> note == " (read if: " + hit.readIf + ")"
  {
    title := Bounded(hit.title, TITLE_MAX);
    note := if hit.readIf == "" then "" else " (read if: " + Bounded(hit.readIf, READ_IF_MAX) + ")";
  }
}
