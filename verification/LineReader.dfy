/** Newline-delimited messages over a stream that arrives in arbitrary chunks. */
module LineReader {
  import opened Options
  import opened Whitespace

  datatype Outcome<M, E> = Parsed(value: M) | Malformed(error: E)

  /** `stringify` and `parse` are JSON's; `handle` is the receiver's callback, with the error it throws, if it does. */
  datatype Peer<!M, !E> = Peer(stringify: M -> string, parse: string -> Outcome<M, E>, handle: M -> Option<E>)

  datatype Call<M, E> = OnValue(value: M) | OnError(error: E)

  // ----- one line -----

  function Trim(t: string): string {
    if t == "" then t
    else if Blank(t[0]) then Trim(t[1..])
    else if Blank(t[|t| - 1]) then Trim(t[..|t| - 1])
    else t
  }

  predicate AllBlank(t: string) { forall i :: 0 <= i < |t| ==> Blank(t[i]) }

  lemma OneMoreBefore(c: char, before: string, t: string, after: string)
    requires AllBlank(before) && Blank(c)
    ensures [c] + (before + t + after) == [c] + before + t + after && AllBlank([c] + before)
  {
  }

  lemma OneMoreAfter(before: string, t: string, after: string, c: char)
    requires AllBlank(after) && Blank(c)
    ensures before + t + after + [c] == before + t + (after + [c]) && AllBlank(after + [c])
  {
  }

  /** Trimming takes the white space at both ends, and no more. */
  lemma {:induction false} TrimIs(t: string) returns (before: string, after: string)
    ensures t == before + Trim(t) + after && AllBlank(before) && AllBlank(after)
    ensures Trim(t) != "" ==> !Blank(Trim(t)[0]) && !Blank(Trim(t)[|Trim(t)| - 1])
    decreases |t|
  {
    before, after := "", "";
    if t != "" && Blank(t[0]) {
      before, after := TrimIs(t[1..]);
      assert t == [t[0]] + t[1..];
      OneMoreBefore(t[0], before, Trim(t[1..]), after);
      before := [t[0]] + before;
    } else if t != "" && Blank(t[|t| - 1]) {
      before, after := TrimIs(t[..|t| - 1]);
      assert t == t[..|t| - 1] + [t[|t| - 1]];
      OneMoreAfter(before, Trim(t[..|t| - 1]), after, t[|t| - 1]);
      after := after + [t[|t| - 1]];
    }
  }

  /** A value that the receiver throws on is reported too. */
  function LineCalls<M, E>(peer: Peer<M, E>, line: string): seq<Call<M, E>> {
    var t := Trim(line);
    if t == "" then []
    else match peer.parse(t)
      case Malformed(e) => [OnError(e)]
      case Parsed(m) => if peer.handle(m).Some? then [OnValue(m), OnError(peer.handle(m).value)] else [OnValue(m)]
  }

  // ----- a whole text -----

  function IndexOfNewline(t: string): (n: nat)
    ensures n <= |t|
  {
    if t == "" || t[0] == '\n' then 0 else IndexOfNewline(t[1..]) + 1
  }

  lemma {:induction false} IsFirstNewline(t: string)
    ensures var n := IndexOfNewline(t); '\n' !in t[..n] && (n < |t| ==> t[n] == '\n')
  {
    if t != "" && t[0] != '\n' {
      var n := IndexOfNewline(t[1..]);
      IsFirstNewline(t[1..]);
      assert t[..n + 1] == [t[0]] + t[1..][..n];
    }
  }

  function Calls<M, E>(peer: Peer<M, E>, t: string): seq<Call<M, E>>
    decreases |t|
  {
    var n := IndexOfNewline(t);
    if n == |t| then [] else LineCalls(peer, t[..n]) + Calls(peer, t[n + 1..])
  }

  /** The text after the last newline. */
  function Rest(t: string): string
    decreases |t|
  {
    var n := IndexOfNewline(t);
    if n == |t| then t else Rest(t[n + 1..])
  }

  /** `r` is the end of `t`, from its start or from behind a newline. */
  predicate LastPart(t: string, r: string) {
    |r| <= |t| && r == t[|t| - |r|..] && (r == t || t[|t| - |r| - 1] == '\n')
  }

  lemma {:induction false} RestIsUnfinished(t: string)
    ensures '\n' !in Rest(t) && LastPart(t, Rest(t))
    decreases |t|
  {
    var n := IndexOfNewline(t);
    IsFirstNewline(t);
    if n == |t| {
      assert t[..n] == t;
    } else {
      RestIsUnfinished(t[n + 1..]);
    }
  }

  lemma OneLine<M, E>(peer: Peer<M, E>, t: string)
    requires IndexOfNewline(t) < |t|
    ensures var n := IndexOfNewline(t);
            Calls(peer, t) == LineCalls(peer, t[..n]) + Calls(peer, t[n + 1..]) && Rest(t) == Rest(t[n + 1..])
  {
  }

  lemma NewlineAfter(a: string, b: string)
    ensures IndexOfNewline(a) < |a| ==> IndexOfNewline(a + b) == IndexOfNewline(a)
  {
    if IndexOfNewline(a) < |a| {
      IsFirstNewline(a);
      assert (a + b)[..IndexOfNewline(a)] == a[..IndexOfNewline(a)];
      FirstNewline(a + b, IndexOfNewline(a));
    }
  }

  lemma FirstNewline(t: string, n: nat)
    requires n < |t| && t[n] == '\n' && '\n' !in t[..n]
    ensures IndexOfNewline(t) == n
  {
    IsFirstNewline(t);
    NoneBefore(t, n);
    NoneBefore(t, IndexOfNewline(t));
  }

  lemma NoneBefore(t: string, n: nat)
    requires n <= |t| && '\n' !in t[..n]
    ensures forall i :: 0 <= i < n ==> t[i] != '\n'
  {
    forall i | 0 <= i < n
      ensures t[i] != '\n'
    {
      assert t[..n][i] in t[..n];
    }
  }

  /** Reading on from what was buffered is reading the whole text. */
  lemma {:induction false} ReadOn<M, E>(peer: Peer<M, E>, a: string, b: string)
    ensures Calls(peer, a + b) == Calls(peer, a) + Calls(peer, Rest(a) + b)
    ensures Rest(a + b) == Rest(Rest(a) + b)
    decreases |a|
  {
    var n := IndexOfNewline(a);
    if n < |a| {
      ReadOn(peer, a[n + 1..], b);
      ReadOnAfterLine(peer, a, b);
    } else {
      NoLineYet(peer, a);
      assert [] + Calls(peer, a + b) == Calls(peer, a + b);
    }
  }

  lemma NoLineYet<M, E>(peer: Peer<M, E>, t: string)
    requires IndexOfNewline(t) == |t|
    ensures Calls(peer, t) == [] && Rest(t) == t
  {
  }

  lemma ReadOnAfterLine<M, E>(peer: Peer<M, E>, a: string, b: string)
    requires IndexOfNewline(a) < |a|
    requires var more := a[IndexOfNewline(a) + 1..];
             Calls(peer, more + b) == Calls(peer, more) + Calls(peer, Rest(more) + b) && Rest(more + b) == Rest(Rest(more) + b)
    ensures Calls(peer, a + b) == Calls(peer, a) + Calls(peer, Rest(a) + b) && Rest(a + b) == Rest(Rest(a) + b)
  {
    var n := IndexOfNewline(a);
    FirstLineOfMore(peer, a, b);
    OneLine(peer, a);
    SeqAssoc(LineCalls(peer, a[..n]), Calls(peer, a[n + 1..]), Calls(peer, Rest(a) + b));
  }

  lemma FirstLineOfMore<M, E>(peer: Peer<M, E>, a: string, b: string)
    requires IndexOfNewline(a) < |a|
    ensures var n := IndexOfNewline(a);
            && Calls(peer, a + b) == LineCalls(peer, a[..n]) + Calls(peer, a[n + 1..] + b)
            && Rest(a + b) == Rest(a[n + 1..] + b)
  {
    SlicesOfMore(a, b);
    OneLine(peer, a + b);
  }

  lemma SlicesOfMore(a: string, b: string)
    requires IndexOfNewline(a) < |a|
    ensures var n := IndexOfNewline(a);
            IndexOfNewline(a + b) == n && (a + b)[..n] == a[..n] && (a + b)[n + 1..] == a[n + 1..] + b
  {
    NewlineAfter(a, b);
  }

  lemma SeqAssoc<T>(a: seq<T>, b: seq<T>, c: seq<T>)
    ensures a + (b + c) == a + b + c
  {
  }

  // ----- the reader -----

  class LineReader<M, E> {
    const peer: Peer<M, E>
    var buffer: string
    ghost var fed: string
    ghost var calls: seq<Call<M, E>>

    /** Whatever the chunks were, the calls are those of the whole text, and the buffer its unfinished line. */
    ghost predicate Valid()
      reads this
    {
      calls == Calls(peer, fed) && buffer == Rest(fed)
    }

    constructor (peer: Peer<M, E>)
      ensures Valid() && this.peer == peer && fed == ""
    {
      this.peer := peer;
      buffer, fed, calls := "", "", [];
    }

    method Feed(chunk: string)
      requires Valid()
      modifies this
      ensures Valid() && fed == old(fed) + chunk
    {
      ReadOn(peer, fed, chunk);
      buffer := buffer + chunk;
      fed := fed + chunk;
      Drain();
    }

    /** The loop: every whole line is handled, and the rest stays. */
    method Drain()
      modifies `buffer, `calls
      ensures calls == old(calls) + Calls(peer, old(buffer)) && buffer == Rest(old(buffer))
    {
      var newline := IndexOfNewline(buffer);
      while newline < |buffer|
        invariant newline == IndexOfNewline(buffer)
        invariant calls + Calls(peer, buffer) == old(calls) + Calls(peer, old(buffer))
        invariant Rest(buffer) == Rest(old(buffer))
        decreases |buffer|
      {
        ghost var (had, was) := (calls, buffer);
        OneLine(peer, was);
        TakeLine(newline);
        SeqAssoc(had, LineCalls(peer, was[..newline]), Calls(peer, buffer));
        newline := IndexOfNewline(buffer);
      }
    }

    /** The body of the loop. */
    method TakeLine(newline: nat)
      requires newline < |buffer|
      modifies `buffer, `calls
      ensures buffer == old(buffer)[newline + 1..]
      ensures calls == old(calls) + LineCalls(peer, old(buffer)[..newline])
    {
      var line := Trim(buffer[..newline]);
      buffer := buffer[newline + 1..];
      if line == "" {
        return;
      }
      match peer.parse(line)
      case Malformed(e) =>
        calls := calls + [OnError(e)];
      case Parsed(m) =>
        calls := calls + [OnValue(m)];
        var thrown := peer.handle(m);
        if thrown.Some? {
          calls := calls + [OnError(thrown.value)];
        }
    }
  }

  // ----- any chunking -----

  datatype State<M, E> = State(buffer: string, calls: seq<Call<M, E>>)

  function Fed<M, E>(peer: Peer<M, E>, chunks: seq<string>): State<M, E> {
    if chunks == [] then State("", [])
    else
      var s := Fed(peer, chunks[..|chunks| - 1]);
      var t := s.buffer + chunks[|chunks| - 1];
      State(Rest(t), s.calls + Calls(peer, t))
  }

  function Joined(parts: seq<string>): string {
    if parts == [] then "" else Joined(parts[..|parts| - 1]) + parts[|parts| - 1]
  }

  /** Chunk by chunk, the reader makes the calls of the joined text and buffers its last line. */
  lemma {:induction false} ChunksDoNotMatter<M, E>(peer: Peer<M, E>, chunks: seq<string>)
    ensures Fed(peer, chunks) == State(Rest(Joined(chunks)), Calls(peer, Joined(chunks)))
  {
    if chunks != [] {
      var init := chunks[..|chunks| - 1];
      ChunksDoNotMatter(peer, init);
      ReadOn(peer, Joined(init), chunks[|chunks| - 1]);
    }
  }

  lemma SameTextSameCalls<M, E>(peer: Peer<M, E>, chunks: seq<string>, others: seq<string>)
    requires Joined(chunks) == Joined(others)
    ensures Fed(peer, chunks) == Fed(peer, others)
  {
    ChunksDoNotMatter(peer, chunks);
    ChunksDoNotMatter(peer, others);
  }

  // ----- messages -----

  /** What JSON gives for an object: one line, braced, that parses back. */
  ghost predicate Json<M(!new), E>(peer: Peer<M, E>) {
    forall m: M ::
      && var t := peer.stringify(m);
      t != "" && '\n' !in t && !Blank(t[0]) && !Blank(t[|t| - 1]) && peer.parse(t) == Parsed(m)
  }

  function Encode<M, E>(peer: Peer<M, E>, m: M): string { peer.stringify(m) + "\n" }

  function Encoded<M, E>(peer: Peer<M, E>, ms: seq<M>): string {
    if ms == [] then "" else Encode(peer, ms[0]) + Encoded(peer, ms[1..])
  }

  /** One message, its value and the error its receiver throws. */
  function Delivery<M, E>(peer: Peer<M, E>, m: M): seq<Call<M, E>> {
    if peer.handle(m).Some? then [OnValue(m), OnError(peer.handle(m).value)] else [OnValue(m)]
  }

  function Deliveries<M, E>(peer: Peer<M, E>, ms: seq<M>): seq<Call<M, E>> {
    if ms == [] then [] else Delivery(peer, ms[0]) + Deliveries(peer, ms[1..])
  }

  /** A complete line is read on its own, whatever follows it. */
  lemma LineApart<M, E>(peer: Peer<M, E>, line: string, more: string)
    requires '\n' !in line
    ensures Calls(peer, line + "\n" + more) == LineCalls(peer, line) + Calls(peer, more)
    ensures Rest(line + "\n" + more) == Rest(more)
  {
    var t := line + "\n" + more;
    assert t[..|line|] == line && t[|line| + 1..] == more;
    FirstNewline(t, |line|);
  }

  lemma OneMessage<M(!new), E>(peer: Peer<M, E>, m: M, more: string)
    requires Json(peer)
    ensures Calls(peer, Encode(peer, m) + more) == Delivery(peer, m) + Calls(peer, more)
    ensures Rest(Encode(peer, m) + more) == Rest(more)
  {
    LineApart(peer, peer.stringify(m), more);
  }

  lemma {:induction false} EncodedReads<M(!new), E>(peer: Peer<M, E>, ms: seq<M>)
    requires Json(peer)
    ensures Calls(peer, Encoded(peer, ms)) == Deliveries(peer, ms) && Rest(Encoded(peer, ms)) == ""
  {
    if ms != [] {
      EncodedReads(peer, ms[1..]);
      OneMessage(peer, ms[0], Encoded(peer, ms[1..]));
    }
  }

  /** Encoded messages sent in any chunking arrive as exactly those messages, in order, with nothing left over. */
  lemma EveryMessageArrives<M(!new), E>(peer: Peer<M, E>, ms: seq<M>, chunks: seq<string>)
    requires Json(peer) && Joined(chunks) == Encoded(peer, ms)
    ensures Fed(peer, chunks) == State("", Deliveries(peer, ms))
  {
    ChunksDoNotMatter(peer, chunks);
    EncodedReads(peer, ms);
  }

  /** While they are still arriving, what was delivered is the start of that; nothing is taken back. */
  lemma ArrivesInOrder<M(!new), E>(peer: Peer<M, E>, ms: seq<M>, chunks: seq<string>)
    requires Json(peer) && Joined(chunks) <= Encoded(peer, ms)
    ensures Fed(peer, chunks).calls <= Deliveries(peer, ms)
  {
    var sent := Joined(chunks);
    var whole := Encoded(peer, ms);
    assert whole == sent + whole[|sent|..];
    ReadOn(peer, sent, whole[|sent|..]);
    ChunksDoNotMatter(peer, chunks);
    EncodedReads(peer, ms);
  }

  /** A line that is no message costs one report: the messages before and after it are delivered all the same. */
  lemma BadLineCostsOneReport<M(!new), E>(peer: Peer<M, E>, before: seq<M>, bad: string, after: seq<M>, chunks: seq<string>)
    requires Json(peer) && '\n' !in bad && Trim(bad) != "" && peer.parse(Trim(bad)).Malformed?
    requires Joined(chunks) == Encoded(peer, before) + (bad + "\n" + Encoded(peer, after))
    ensures Fed(peer, chunks) ==
              State("", Deliveries(peer, before) + ([OnError(peer.parse(Trim(bad)).error)] + Deliveries(peer, after)))
  {
    ChunksDoNotMatter(peer, chunks);
    EncodedReads(peer, before);
    EncodedReads(peer, after);
    ReadOn(peer, Encoded(peer, before), bad + "\n" + Encoded(peer, after));
    assert "" + (bad + "\n" + Encoded(peer, after)) == bad + "\n" + Encoded(peer, after);
    LineApart(peer, bad, Encoded(peer, after));
  }
}
