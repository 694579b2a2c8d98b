/** The orientation block of a spawned agent: tasks, then the session excerpt, shrink until the ranked Related
  * section fits whole. A character stands for one UTF-16 code unit. */
module Briefing {
  import opened Options
  import opened Decimals
  import opened Related

  const BRIEFING_MAX: nat := 9000
  const BRIEF_MAX: nat := 4000
  const SESSION_MAX: nat := 1500
  const MAX_TASKS: nat := 25
  const TRUNCATION_MARK := "\n\U{2026} (truncated)"

  datatype Task = Task(id: string, title: string)

  datatype Session = Session(name: string, body: string, older: seq<string>)

  function Truncated(body: string, max: nat): string { if |body| <= max then body else body[..max] + TRUNCATION_MARK }

  function Min(a: nat, b: nat): nat { if a < b then a else b }

  function TaskLines(tasks: seq<Task>): seq<string> {
    seq(|tasks|, i requires 0 <= i < |tasks| => "- " + tasks[i].id + ": " + tasks[i].title)
  }

  function TaskSection(tasks: seq<Task>, limit: nat): string {
    if tasks == [] then "## Open tasks" + "\n\n" + "None recorded."
    else
      "## Open tasks (" + Decimal(|tasks|) + ", highest priority first)\n\n"
      + JoinLines(TaskLines(tasks[..Min(limit, |tasks|)])
                  + if |tasks| > limit then ["- \U{2026} and " + Decimal(|tasks| - limit) + " more"] else [])
  }

  function JoinNames(names: seq<string>): string {
    if names == [] then "" else if |names| == 1 then names[0] else names[0] + ", " + JoinNames(names[1..])
  }

  function Earlier(older: seq<string>): string {
    if older == [] then "" else "\n\nEarlier sessions on disk: " + JoinNames(older)
  }

  function SessionSection(session: Option<Session>, max: nat): string {
    if session.None? then ""
    else
      "## Most recent session (" + session.value.name + ")\n\n" + Truncated(session.value.body, max)
      + Earlier(session.value.older)
  }

  /** The sections that say something, a blank line between them. */
  function Joined(sections: seq<string>): string {
    if sections == [] then ""
    else
      var rest := Joined(sections[1..]);
      if sections[0] == "" then rest else if rest == "" then sections[0] else sections[0] + "\n\n" + rest
  }

  function Size(sections: seq<string>): (size: nat)
    ensures size == 0 || size >= 3
  {
    if sections == [] then 0 else (if sections[0] == "" then 0 else |sections[0]| + 2) + Size(sections[1..])
  }

  lemma {:induction false} JoinedSize(sections: seq<string>)
    ensures |Joined(sections)| == if Size(sections) == 0 then 0 else Size(sections) - 2
  {
    if sections != [] { JoinedSize(sections[1..]); }
  }

  lemma {:induction false} SizeOfBoth(a: seq<string>, b: seq<string>)
    ensures Size(a + b) == Size(a) + Size(b)
  {
    if a == [] {
      assert a + b == b;
    } else {
      assert (a + b)[1..] == a[1..] + b;
      SizeOfBoth(a[1..], b);
    }
  }

  // ----- fitting -----

  datatype Parts = Parts(head: seq<string>, tasks: seq<Task>, session: Option<Session>, related: string)

  function Compose(p: Parts, taskLimit: nat, sessionMax: nat): string {
    Joined(p.head + [TaskSection(p.tasks, taskLimit), SessionSection(p.session, sessionMax), p.related])
  }

  /** What the fitting looks at: the block by task limit and excerpt length, the number of tasks, and the
    * length of the session's body, if there is a session. */
  datatype Shape = Shape(compose: (nat, nat) -> string, tasks: nat, body: Option<nat>)

  function ShapeOf(p: Parts): Shape {
    Shape((taskLimit: nat, sessionMax: nat) => Compose(p, taskLimit, sessionMax), |p.tasks|,
          if p.session.None? then None else Some(|p.session.value.body|))
  }

  predicate Fits(f: Shape, taskLimit: nat, sessionMax: nat) { |f.compose(taskLimit, sessionMax)| <= BRIEFING_MAX }

  /** The most task lines, up to 25, that fit with a whole session excerpt. */
  ghost predicate MostTasks(f: Shape, k: nat) {
    && k <= Min(f.tasks, MAX_TASKS) && Fits(f, k, SESSION_MAX)
    && forall j: nat :: k < j <= Min(f.tasks, MAX_TASKS) ==> !Fits(f, j, SESSION_MAX)
  }

  ghost predicate NoTasksFit(f: Shape) { forall j: nat :: j <= Min(f.tasks, MAX_TASKS) ==> !Fits(f, j, SESSION_MAX) }

  /** What the excerpt is cut to when even without task lines there is too much. */
  function CutTo(f: Shape): nat
    requires !Fits(f, 0, SESSION_MAX)
  {
    if f.body.None? then SESSION_MAX
    else
      var overflow := |f.compose(0, SESSION_MAX)| - BRIEFING_MAX;
      var left := Min(f.body.value, SESSION_MAX) - overflow - |TRUNCATION_MARK|;
      if left > 0 then left else 0
  }

  ghost predicate IsFitted(f: Shape, text: string) {
    if NoTasksFit(f) then !Fits(f, 0, SESSION_MAX) && text == f.compose(0, CutTo(f))
    else exists k :: MostTasks(f, k) && text == f.compose(k, SESSION_MAX)
  }

  /** `fitted`. */
  method Fitted(f: Shape) returns (text: string)
    ensures IsFitted(f, text)
  {
    var taskLimit := Min(f.tasks, MAX_TASKS);
    while taskLimit > 0 && |f.compose(taskLimit, SESSION_MAX)| > BRIEFING_MAX
      invariant 0 <= taskLimit <= Min(f.tasks, MAX_TASKS)
      invariant forall j: nat :: taskLimit < j <= Min(f.tasks, MAX_TASKS) ==> !Fits(f, j, SESSION_MAX)
    {
      taskLimit := taskLimit - 1;
    }
    text := f.compose(taskLimit, SESSION_MAX);
    var overflow := |text| - BRIEFING_MAX;
    if overflow <= 0 || f.body.None? {
      assert if overflow <= 0 then MostTasks(f, taskLimit) else !Fits(f, 0, SESSION_MAX);
      return;
    }
    var shown := Min(f.body.value, SESSION_MAX);
    var left := shown - overflow - |TRUNCATION_MARK|;
    text := f.compose(0, if left > 0 then left else 0);
  }

  /** What the rest of the block is, apart from the session's excerpt. */
  function Around(p: Parts, taskLimit: nat): nat {
    Size(p.head) + |TaskSection(p.tasks, taskLimit)|
    + (if p.session.None? then 0 else 29 + |p.session.value.name| + |Earlier(p.session.value.older)|)
    + (if p.related == "" then 0 else |p.related| + 2)
  }

  lemma ComposeLength(p: Parts, taskLimit: nat, sessionMax: nat)
    ensures |Compose(p, taskLimit, sessionMax)| ==
              Around(p, taskLimit) + if p.session.None? then 0 else |Truncated(p.session.value.body, sessionMax)|
  {
    var (t, s) := (TaskSection(p.tasks, taskLimit), SessionSection(p.session, sessionMax));
    JoinedSize(p.head + [t, s, p.related]);
    SizeOfBoth(p.head, [t, s, p.related]);
    ThreeSizes(t, s, p.related);
    assert |t| > 0;
  }

  lemma ThreeSizes(a: string, b: string, c: string)
    ensures Size([a, b, c]) ==
              (if a == "" then 0 else |a| + 2) + (if b == "" then 0 else |b| + 2) + if c == "" then 0 else |c| + 2
  {
    assert Size([c]) == if c == "" then 0 else |c| + 2 by { assert [c][1..] == []; }
    assert [a, b, c][1..] == [b, c] && [b, c][1..] == [c];
  }

  /** Cutting the excerpt makes room enough, unless it would have to be cut away. */
  lemma CutFits(p: Parts)
    requires p.session.Some? && !Fits(ShapeOf(p), 0, SESSION_MAX)
    ensures var f := ShapeOf(p); CutTo(f) > 0 ==> Fits(f, 0, CutTo(f)) && Fits(f, 0, 0)
  {
    ComposeLength(p, 0, SESSION_MAX);
    ComposeLength(p, 0, CutTo(ShapeOf(p)));
    ComposeLength(p, 0, 0);
  }

  /** The block fits exactly when it does with some number of task lines and the whole excerpt, or with
    * neither task lines nor an excerpt. */
  lemma FittedFits(p: Parts, text: string)
    requires IsFitted(ShapeOf(p), text)
    ensures |text| <= BRIEFING_MAX <==> !NoTasksFit(ShapeOf(p)) || Fits(ShapeOf(p), 0, 0)
  {
    var f := ShapeOf(p);
    if NoTasksFit(f) {
      assert !Fits(f, 0, SESSION_MAX);
      assert f.compose(0, CutTo(f)) == text;
      if p.session.Some? {
        CutFits(p);
      } else {
        ComposeLength(p, 0, SESSION_MAX);
        ComposeLength(p, 0, 0);
      }
    }
  }

  predicate EndsWith(text: string, end: string) { |end| <= |text| && text[|text| - |end|..] == end }

  lemma EndOfLonger(before: string, text: string, end: string)
    requires EndsWith(text, end)
    ensures EndsWith(before + text, end)
  {
    assert (before + text)[|before + text| - |end|..] == text[|text| - |end|..];
  }

  lemma {:induction false} EndsWithRelated(sections: seq<string>, related: string)
    ensures EndsWith(Joined(sections + [related]), related)
  {
    var s := sections + [related];
    if sections == [] {
      assert s[1..] == [];
    } else {
      EndsWithRelated(sections[1..], related);
      assert s[1..] == sections[1..] + [related] && s[0] == sections[0];
      EndOfLonger(s[0] + "\n\n", Joined(s[1..]), related);
    }
  }

  lemma ComposeEndsWithRelated(p: Parts, taskLimit: nat, sessionMax: nat)
    ensures EndsWith(Compose(p, taskLimit, sessionMax), p.related)
  {
    var sections := p.head + [TaskSection(p.tasks, taskLimit), SessionSection(p.session, sessionMax)];
    assert sections + [p.related] == p.head + [TaskSection(p.tasks, taskLimit), SessionSection(p.session, sessionMax), p.related];
    if p.related != "" { EndsWithRelated(sections, p.related); }
  }

  // ----- the whole block -----

  /** The sections before the tasks: the header, and the brief without its frontmatter, cut to 4,000. */
  function Head(header: string, brief: string): seq<string> {
    var b := Truncated(brief, BRIEF_MAX);
    [header, if b == "" then "" else "## Brief (brief.md)\n\n" + b]
  }

  /** The text of `briefingFor` for a full block. */
  method FullBriefing(header: string, brief: string, tasks: seq<Task>, session: Option<Session>, related: string)
    returns (text: string)
    ensures var f := ShapeOf(Parts(Head(header, brief), tasks, session, related));
            && (exists whole :: IsFitted(f, whole) && text == Truncated(whole, BRIEFING_MAX))
            && (!NoTasksFit(f) || Fits(f, 0, 0) ==> |text| <= BRIEFING_MAX && IsFitted(f, text) && EndsWith(text, related))
  {
    var p := Parts(Head(header, brief), tasks, session, related);
    var whole := Fitted(ShapeOf(p));
    FittedFits(p, whole);
    FittedEndsWithRelated(p, whole);
    text := Truncated(whole, BRIEFING_MAX);
  }

  lemma FittedEndsWithRelated(p: Parts, text: string)
    requires IsFitted(ShapeOf(p), text)
    ensures EndsWith(text, p.related)
  {
    var f := ShapeOf(p);
    if NoTasksFit(f) {
      assert !Fits(f, 0, SESSION_MAX);
      ComposeEndsWithRelated(p, 0, CutTo(f));
    } else {
      var k :| MostTasks(f, k) && text == f.compose(k, SESSION_MAX);
      ComposeEndsWithRelated(p, k, SESSION_MAX);
    }
  }

  /** The budgets add up: with a brief of any length, a Related section inside its reserve, any tasks and any
    * session, the block fits as long as the header, the session file names and two counts take 2,200. */
  lemma OrdinaryBriefingFits(header: string, brief: string, tasks: seq<Task>, session: Option<Session>, related: string)
    requires |related| <= RELATED_RESERVE
    requires |header| + 2 * |Decimal(|tasks|)| +
               (if session.None? then 0 else |session.value.name| + |JoinNames(session.value.older)|) <= 2200
    ensures Fits(ShapeOf(Parts(Head(header, brief), tasks, session, related)), 0, 0)
  {
    var p := Parts(Head(header, brief), tasks, session, related);
    ComposeLength(p, 0, 0);
    HeadSize(header, brief);
    EmptyTasks(tasks);
  }

  lemma HeadSize(header: string, brief: string)
    ensures Size(Head(header, brief)) <= |header| + 2 + 21 + BRIEF_MAX + 14 + 2
  {
    var h := Head(header, brief);
    ThreeSizes(h[0], h[1], "");
    SizeOfBoth(h, [""]);
    assert h + [""] == [h[0], h[1], ""];
  }

  lemma EmptyTasks(tasks: seq<Task>)
    ensures |TaskSection(tasks, 0)| <= 55 + 2 * |Decimal(|tasks|)|
  {
    if tasks != [] {
      var lines := TaskLines([]) + ["- \U{2026} and " + Decimal(|tasks|) + " more"];
      assert tasks[..0] == [] && TaskLines([]) == [];
      assert lines == ["- \U{2026} and " + Decimal(|tasks|) + " more"];
    }
  }

  // ----- reading the tasks back -----

  /** The section of the tasks reads as its heading, an empty line, the first tasks in their order, each with its id and
    * title, and, where some are left out, how many. */
  lemma {:induction false} TaskSectionReads(tasks: seq<Task>, limit: nat)
    requires forall i :: 0 <= i < |tasks| ==> OneLine(tasks[i].id) && OneLine(tasks[i].title)
    ensures var (lines, n) := (Split(TaskSection(tasks, limit)), Min(limit, |tasks|));
            if tasks == [] then lines == ["## Open tasks", "", "None recorded."]
            else
              && |lines| == 2 + n + (if limit < |tasks| then 1 else 0)
              && lines[0] == "## Open tasks (" + Decimal(|tasks|) + ", highest priority first)" && lines[1] == ""
              && (forall i :: 0 <= i < n ==> lines[2 + i] == "- " + tasks[i].id + ": " + tasks[i].title)
              && (limit < |tasks| ==> lines[2 + n] == "- \U{2026} and " + Decimal(|tasks| - limit) + " more")
  {
    if tasks == [] {
      NoTasksRead(limit);
    } else {
      var shown := TaskLines(tasks[..Min(limit, |tasks|)])
                   + if |tasks| > limit then ["- \U{2026} and " + Decimal(|tasks| - limit) + " more"] else [];
      ShownAreLines(tasks, limit, shown);
      TasksSplit(tasks, limit, shown);
      ShownAt(tasks, limit, shown);
    }
  }

  lemma {:induction false} ShownAt(tasks: seq<Task>, limit: nat, shown: seq<string>)
    requires tasks != []
    requires shown == TaskLines(tasks[..Min(limit, |tasks|)])
                      + if |tasks| > limit then ["- \U{2026} and " + Decimal(|tasks| - limit) + " more"] else []
    ensures var n := Min(limit, |tasks|);
            && |shown| == n + (if limit < |tasks| then 1 else 0)
            && (forall i :: 0 <= i < n ==> shown[i] == "- " + tasks[i].id + ": " + tasks[i].title)
            && (limit < |tasks| ==> shown[n] == "- \U{2026} and " + Decimal(|tasks| - limit) + " more")
  {
  }

  lemma {:induction false} NoTasksRead(limit: nat)
    ensures Split(TaskSection([], limit)) == ["## Open tasks", "", "None recorded."]
  {
    SplitHeading("## Open tasks", "None recorded.");
    SplitOneLine("None recorded.");
  }

  lemma {:induction false} TasksSplit(tasks: seq<Task>, limit: nat, shown: seq<string>)
    requires tasks != [] && shown != [] && forall i :: 0 <= i < |shown| ==> OneLine(shown[i])
    requires shown == TaskLines(tasks[..Min(limit, |tasks|)])
                      + if |tasks| > limit then ["- \U{2026} and " + Decimal(|tasks| - limit) + " more"] else []
    ensures Split(TaskSection(tasks, limit)) == ["## Open tasks (" + Decimal(|tasks|) + ", highest priority first)", ""] + shown
  {
    var heading := "## Open tasks (" + Decimal(|tasks|) + ", highest priority first)";
    SplitJoined(shown);
    TaskHeadingIsOneLine(|tasks|);
    SplitHeading(heading, JoinLines(shown));
    assert ", highest priority first)" + "\n\n" == ", highest priority first)\n\n";
    Regroup("## Open tasks (" + Decimal(|tasks|), ", highest priority first)", "\n\n");
  }

  lemma TaskHeadingIsOneLine(n: nat)
    ensures OneLine("## Open tasks (" + Decimal(n) + ", highest priority first)")
  {
    assert OneLine("## Open tasks (") && OneLine(", highest priority first)") && OneLine(Decimal(n));
  }

  lemma ShownAreLines(tasks: seq<Task>, limit: nat, shown: seq<string>)
    requires tasks != [] && forall i :: 0 <= i < |tasks| ==> OneLine(tasks[i].id) && OneLine(tasks[i].title)
    requires shown == TaskLines(tasks[..Min(limit, |tasks|)])
                      + if |tasks| > limit then ["- \U{2026} and " + Decimal(|tasks| - limit) + " more"] else []
    ensures shown != [] && forall i :: 0 <= i < |shown| ==> OneLine(shown[i])
  {
    forall i | 0 <= i < |shown| ensures OneLine(shown[i]) {
      if i < Min(limit, |tasks|) {
        assert shown[i] == "- " + tasks[i].id + ": " + tasks[i].title;
        assert OneLine("- ") && OneLine(": ");
      } else {
        assert OneLine("- \U{2026} and ") && OneLine(" more") && OneLine(Decimal(|tasks| - limit));
      }
    }
  }

  // ----- reading the session back -----

  /** The names are joined by a comma each, whichever end one starts from. */
  lemma {:induction false} JoinNamesMore(names: seq<string>, last: string)
    ensures JoinNames(names + [last]) == if names == [] then last else JoinNames(names) + ", " + last
  {
    if names != [] {
      assert (names + [last])[1..] == names[1..] + [last];
      JoinNamesMore(names[1..], last);
    }
  }

  /** What is cut keeps its beginning, whole, and says that it was cut. */
  lemma TruncatedKeeps(body: string, max: nat)
    ensures |body| <= max ==> Truncated(body, max) == body
    ensures |body| > max ==>
              Truncated(body, max)[..max] == body[..max] && Truncated(body, max)[max..] == "\n\U{2026} (truncated)"
  {
  }

  /** The section of the session reads as its heading, an empty line, the body, cut to `max`, and the names of the
    * earlier ones, if there are any. */
  lemma {:induction false} SessionSectionReads(name: string, body: string, older: seq<string>, max: nat)
    requires OneLine(name)
    ensures SessionSection(None, max) == ""
    ensures var text := SessionSection(Some(Session(name, body, older)), max);
            var rest := Truncated(body, max) + if older == [] then "" else "\n\nEarlier sessions on disk: " + JoinNames(older);
            Split(text) == ["## Most recent session (" + name + ")", ""] + Split(rest)
  {
    var heading := "## Most recent session (" + name + ")";
    var rest := Truncated(body, max) + if older == [] then "" else "\n\nEarlier sessions on disk: " + JoinNames(older);
    SessionHeadingIsOneLine(name);
    SplitHeading(heading, rest);
    assert ")" + "\n\n" == ")\n\n";
    Regroup("## Most recent session (" + name, ")", "\n\n");
    Regroup(heading + "\n\n", Truncated(body, max), Earlier(older));
  }

  lemma SessionHeadingIsOneLine(name: string)
    requires OneLine(name)
    ensures OneLine("## Most recent session (" + name + ")")
  {
    assert OneLine("## Most recent session (") && OneLine(")");
  }
}
