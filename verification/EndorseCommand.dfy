/** The two printers behind an endorsement request: a command line that a POSIX shell reads back as
  * the original words, and an escape form that shows control characters and can be undone. Texts are
  * sequences of code points. */
module EndorseCommand {
  import opened Options

  type Text = seq<nat>

  function Ascii(s: string): Text { seq(|s|, i requires 0 <= i < |s| => s[i] as int) }

  // ----- control characters -----

  /** General category Cf of the Unicode Character Database. */
  predicate Format(c: nat) {
    c == 0xAD || 0x600 <= c <= 0x605 || c == 0x61C || c == 0x6DD || c == 0x70F || 0x890 <= c <= 0x891 || c == 0x8E2
    || c == 0x180E || 0x200B <= c <= 0x200F || 0x202A <= c <= 0x202E || 0x2060 <= c <= 0x2064 || 0x2066 <= c <= 0x206F
    || c == 0xFEFF || 0xFFF9 <= c <= 0xFFFB || c == 0x110BD || c == 0x110CD || 0x13430 <= c <= 0x1343F
    || 0x1BCA0 <= c <= 0x1BCA3 || 0x1D173 <= c <= 0x1D17A || c == 0xE0001 || 0xE0020 <= c <= 0xE007F
  }

  /** C0 but newline, DEL, C1, and format characters. */
  predicate Control(c: nat) { c <= 0x09 || 0x0B <= c <= 0x1F || 0x7F <= c <= 0x9F || Format(c) }

  predicate HasControls(t: Text) { exists i :: 0 <= i < |t| && Control(t[i]) }

  // ----- the escape form -----

  function Digit(n: nat, upper: bool): nat
    requires n < 16
  {
    if n < 10 then 48 + n else if upper then 55 + n else 87 + n
  }

  /** `toString(16)`. */
  function Hex(n: nat, upper: bool): Text {
    if n < 16 then [Digit(n, upper)] else Hex(n / 16, upper) + [Digit(n % 16, upper)]
  }

  /** `padStart(width, '0')`. */
  function Padded(t: Text, width: nat): Text
    decreases width - |t|
  {
    if |t| >= width then t else Padded([48] + t, width)
  }

  function EscapeOne(c: nat): Text {
    if c == 9 then [92, 116]
    else if c == 13 then [92, 114]
    else if c == 92 then [92, 92]
    else if c <= 0xFF then [92, 120] + Padded(Hex(c, false), 2)
    else if c <= 0xFFFF then [92, 117] + Padded(Hex(c, true), 4)
    else [92, 117, 123] + Hex(c, true) + [125]
  }

  function Escaped(t: Text): Text {
    if t == [] then []
    else (if Control(t[0]) || t[0] == 92 then EscapeOne(t[0]) else [t[0]]) + Escaped(t[1..])
  }

  function Visible(t: Text): (Text, bool) { if !HasControls(t) then (t, false) else (Escaped(t), true) }

  // ----- undoing it -----

  function HexValue(c: nat): Option<nat> {
    if 48 <= c <= 57 then Some(c - 48) else if 65 <= c <= 70 then Some(c - 55) else if 97 <= c <= 102 then Some(c - 87) else None
  }

  predicate AllHex(t: Text) { forall i :: 0 <= i < |t| ==> HexValue(t[i]).Some? }

  function Number(t: Text): nat
    requires AllHex(t)
  {
    if t == [] then 0 else Number(t[..|t| - 1]) * 16 + HexValue(t[|t| - 1]).value
  }

  function LeadingHex(t: Text): (n: nat)
    ensures n <= |t| && AllHex(t[..n])
  {
    if t == [] || HexValue(t[0]).None? then 0 else 1 + LeadingHex(t[1..])
  }

  /** A reader of the escape form; None when the text is not one. */
  function Decode(t: Text): Option<Text> {
    if t == [] then Some([])
    else if t[0] != 92 then Then(t[0], Decode(t[1..]))
    else if |t| < 2 then None
    else if t[1] == 116 then Then(9, Decode(t[2..]))
    else if t[1] == 114 then Then(13, Decode(t[2..]))
    else if t[1] == 92 then Then(92, Decode(t[2..]))
    else if t[1] == 120 then
      (if |t| >= 4 && AllHex(t[2..4]) then Then(Number(t[2..4]), Decode(t[4..])) else None)
    else if t[1] != 117 then None
    else if |t| >= 6 && AllHex(t[2..6]) then Then(Number(t[2..6]), Decode(t[6..]))
    else if |t| >= 3 && t[2] == 123 then
      var n := LeadingHex(t[3..]);
      if 3 + n < |t| && t[3 + n] == 125 then Then(Number(t[3..][..n]), Decode(t[4 + n..])) else None
    else None
  }

  function Then(c: nat, rest: Option<Text>): Option<Text> { if rest.None? then None else Some([c] + rest.value) }

  predicate Printable(t: Text) { forall i :: 0 <= i < |t| ==> 0x20 <= t[i] <= 0x7E }

  lemma {:induction false} HexReads(n: nat, upper: bool)
    ensures AllHex(Hex(n, upper)) && Number(Hex(n, upper)) == n
    ensures Printable(Hex(n, upper))
  {
    if n >= 16 {
      HexReads(n / 16, upper);
      assert Hex(n, upper)[..|Hex(n, upper)| - 1] == Hex(n / 16, upper);
    } else {
      assert Hex(n, upper)[..0] == [];
    }
  }

  lemma HexWidth(n: nat, upper: bool)
    ensures n <= 0xFF ==> |Hex(n, upper)| <= 2
    ensures n <= 0xFFFF ==> |Hex(n, upper)| <= 4
  {
    if 16 <= n <= 0xFFFF {
      assert Hex(n, upper) == Hex(n / 16, upper) + [Digit(n % 16, upper)];
      if n / 16 >= 16 {
        assert Hex(n / 16, upper) == Hex(n / 16 / 16, upper) + [Digit(n / 16 % 16, upper)];
        assert n / 16 / 16 / 16 < 16;
      }
    }
  }

  lemma {:induction false} LeadingZero(t: Text)
    requires AllHex(t)
    ensures AllHex([48] + t) && Number([48] + t) == Number(t)
  {
    if t == [] {
      assert [48] + t == [48] && [48][..0] == [];
    } else {
      LeadingZero(t[..|t| - 1]);
      assert ([48] + t)[..|t|] == [48] + t[..|t| - 1];
    }
  }

  lemma {:induction false} PaddedReads(t: Text, width: nat)
    requires AllHex(t) && |t| <= width && Printable(t)
    ensures AllHex(Padded(t, width)) && Number(Padded(t, width)) == Number(t) && |Padded(t, width)| == width
    ensures Printable(Padded(t, width))
    decreases width - |t|
  {
    if |t| < width {
      LeadingZero(t);
      PaddedReads([48] + t, width);
    }
  }

  lemma {:induction false} LeadingHexStops(h: Text, rest: Text)
    requires AllHex(h) && (rest == [] || HexValue(rest[0]).None?)
    ensures LeadingHex(h + rest) == |h|
  {
    if h == [] {
      assert h + rest == rest;
    } else {
      assert (h + rest)[1..] == h[1..] + rest;
      LeadingHexStops(h[1..], rest);
    }
  }

  lemma DecodeByte(c: nat, rest: Text)
    requires c <= 0xFF && c != 9 && c != 13 && c != 92
    ensures Decode(EscapeOne(c) + rest) == Then(c, Decode(rest))
  {
    var h := Padded(Hex(c, false), 2);
    HexReads(c, false);
    HexWidth(c, false);
    PaddedReads(Hex(c, false), 2);
    var t := EscapeOne(c) + rest;
    assert t[2..4] == h && t[4..] == rest;
  }

  lemma DecodeUnit(c: nat, rest: Text)
    requires 0xFF < c <= 0xFFFF
    ensures Decode(EscapeOne(c) + rest) == Then(c, Decode(rest))
  {
    var h := Padded(Hex(c, true), 4);
    HexReads(c, true);
    HexWidth(c, true);
    PaddedReads(Hex(c, true), 4);
    var t := EscapeOne(c) + rest;
    assert t[2..6] == h && t[6..] == rest;
  }

  lemma DecodeAstral(c: nat, rest: Text)
    requires 0xFFFF < c
    ensures Decode(EscapeOne(c) + rest) == Then(c, Decode(rest))
  {
    var h := Hex(c, true);
    HexReads(c, true);
    LeadingHexStops(h, [125] + rest);
    Regrouped([92, 117, 123], h, [125], rest);
    DecodeBraced(h, rest);
  }

  lemma Regrouped(a: Text, b: Text, c: Text, d: Text)
    ensures a + b + c + d == a + (b + (c + d))
  {
  }

  /** A brace after `\\u` is no hexadecimal digit. */
  lemma BraceIsNoHex(t: Text)
    requires |t| >= 6 && t[2] == 123
    ensures !AllHex(t[2..6])
  {
    assert HexValue(t[2..6][0]).None?;
  }

  /** Decoding of a braced escape whose parts have been found. */
  lemma DecodeParts(t: Text, u: Text, h: Text, rest: Text)
    requires |t| == 3 + |u| && t[0] == 92 && t[1] == 117 && t[2] == 123 && t[3..] == u
    requires AllHex(h) && LeadingHex(u) == |h| < |u| && u[..|h|] == h && u[|h|] == 125
    requires t[4 + |h|..] == rest
    ensures Decode(t) == Then(Number(h), Decode(rest))
  {
    if |t| >= 6 { BraceIsNoHex(t); }
    assert t[3 + |h|] == u[|h|];
  }

  lemma DecodeBraced(h: Text, rest: Text)
    requires AllHex(h) && LeadingHex(h + ([125] + rest)) == |h|
    ensures Decode([92, 117, 123] + (h + ([125] + rest))) == Then(Number(h), Decode(rest))
  {
    var u := h + ([125] + rest);
    var t := [92, 117, 123] + u;
    assert t[3..] == u && u[..|h|] == h && u[|h|] == 125 && t[4 + |h|..] == rest;
    DecodeParts(t, u, h, rest);
  }

  lemma DecodeOne(c: nat, rest: Text)
    ensures Decode(EscapeOne(c) + rest) == Then(c, Decode(rest))
  {
    var t := EscapeOne(c) + rest;
    if c == 9 || c == 13 || c == 92 {
      assert t[2..] == rest;
    } else if c <= 0xFF {
      DecodeByte(c, rest);
    } else if c <= 0xFFFF {
      DecodeUnit(c, rest);
    } else {
      DecodeAstral(c, rest);
    }
  }

  /** Escaping loses nothing. */
  lemma {:induction false} DecodeEscaped(t: Text)
    ensures Decode(Escaped(t)) == Some(t)
  {
    if t != [] {
      var rest := Escaped(t[1..]);
      DecodeEscaped(t[1..]);
      if Control(t[0]) || t[0] == 92 {
        DecodeOne(t[0], rest);
      } else {
        assert ([t[0]] + rest)[1..] == rest;
      }
      assert t == [t[0]] + t[1..];
    }
  }

  lemma EscapeOneIsPlain(c: nat)
    ensures !HasControls(EscapeOne(c))
  {
    HexReads(c, c > 0xFF);
    HexWidth(c, c > 0xFF);
    if c <= 0xFF {
      PaddedReads(Hex(c, false), 2);
    } else if c <= 0xFFFF {
      PaddedReads(Hex(c, true), 4);
    }
    assert Printable(EscapeOne(c));
  }

  lemma {:induction false} EscapedIsPlain(t: Text)
    ensures !HasControls(Escaped(t))
  {
    if t != [] {
      EscapeOneIsPlain(t[0]);
      EscapedIsPlain(t[1..]);
    }
  }

  /** Nothing printed is a control character, and what is printed, with the flag, says what was stored. */
  lemma VisibleIsSafeAndFaithful(t: Text)
    ensures var (shown, escaped) := Visible(t);
            && !HasControls(shown)
            && (if escaped then Decode(shown) == Some(t) else shown == t)
  {
    EscapedIsPlain(t);
    DecodeEscaped(t);
  }

  lemma VisibleTellsTextsApart(a: Text, b: Text)
    requires Visible(a) == Visible(b)
    ensures a == b
  {
    VisibleIsSafeAndFaithful(a);
    VisibleIsSafeAndFaithful(b);
  }

  /** Without the flag it would not: a tab and a written-out `\\t` are shown alike. */
  lemma FlagIsNeeded()
    ensures Visible([9]).0 == Visible([92, 116]).0 && Visible([9]) != Visible([92, 116])
  {
    assert HasControls([9]) by { assert Control([9][0]); }
    assert Escaped([9]) == [92, 116] by { assert [9][1..] == []; }
  }

  // ----- the command line -----

  predicate PlainChar(c: nat) {
    48 <= c <= 57 || 65 <= c <= 90 || 97 <= c <= 122 || c == 95
    || c == 64 || c == 37 || c == 43 || c == 61 || c == 58 || c == 44 || c == 46 || c == 47 || c == 45
  }

  predicate PlainWord(w: Text) { w != [] && forall i :: 0 <= i < |w| ==> PlainChar(w[i]) }

  /** `replaceAll("'", "'\\''")`. */
  function Requoted(w: Text): Text {
    if w == [] then [] else (if w[0] == 39 then [39, 92, 39, 39] else [w[0]]) + Requoted(w[1..])
  }

  function ShellQuote(w: Text): Text { if PlainWord(w) then w else [39] + Requoted(w) + [39] }

  function Joined(words: seq<Text>): Text {
    if words == [] then [] else if |words| == 1 then ShellQuote(words[0]) else ShellQuote(words[0]) + [32] + Joined(words[1..])
  }

  function Endorse(msgId: Text, to: Text, text: Text): seq<Text> {
    [Ascii("agent-chat"), Ascii("endorse"), msgId, Ascii("--to"), to, Ascii("--text"), text]
  }

  function EndorseLine(msgId: Text, to: Text, text: Text): Option<Text> {
    var words := Endorse(msgId, to, text);
    if exists i :: 0 <= i < |words| && HasControls(words[i]) then None else Some(Joined(words))
  }

  /** Token recognition and quoting by sections 2.2.1, 2.2.2 and 2.3 of the POSIX Shell Command Language,
    * outside quotes, with `word` the word being built. None for any unquoted character that could mean
    * something else: an operator, an expansion, a pattern, a comment, double quotes, the end of the line. */
  function Words(t: Text, word: Option<Text>): Option<seq<Text>>
    decreases |t|
  {
    if t == [] then Some(if word.None? then [] else [word.value])
    else if t[0] == 32 || t[0] == 9 then
      (if word.None? then Words(t[1..], None)
       else
         var rest := Words(t[1..], None);
         if rest.None? then None else Some([word.value] + rest.value))
    else
      var w := if word.None? then [] else word.value;
      if t[0] == 39 then Quoted(t[1..], w)
      else if t[0] == 92 then
        (if |t| < 2 then None
         else if t[1] == 10 then Words(t[2..], word)
         else Words(t[2..], Some(w + [t[1]])))
      else if PlainChar(t[0]) || t[0] > 0x7F then Words(t[1..], Some(w + [t[0]]))
      else None
  }

  /** Inside single quotes, where every character but the closing quote is itself. */
  function Quoted(t: Text, word: Text): Option<seq<Text>>
    decreases |t|
  {
    if t == [] then None
    else if t[0] == 39 then Words(t[1..], Some(word))
    else Quoted(t[1..], word + [t[0]])
  }

  lemma {:induction false} PlainReads(w: Text, so: Text, rest: Text)
    requires forall i :: 0 <= i < |w| ==> PlainChar(w[i])
    ensures Words(w + rest, Some(so)) == Words(rest, Some(so + w))
    decreases |w|
  {
    if w == [] {
      assert w + rest == rest && so + w == so;
    } else {
      assert (w + rest)[1..] == w[1..] + rest;
      PlainReads(w[1..], so + [w[0]], rest);
      assert (so + [w[0]]) + w[1..] == so + w;
    }
  }

  lemma {:induction false} RequotedReads(w: Text, so: Text, rest: Text)
    ensures Quoted(Requoted(w) + [39] + rest, so) == Words(rest, Some(so + w))
    decreases |w|
  {
    if w == [] {
      assert Requoted(w) + [39] + rest == [39] + rest && ([39] + rest)[1..] == rest;
      assert so + w == so;
    } else {
      var tail := Requoted(w[1..]) + [39] + rest;
      RequotedReads(w[1..], so + [w[0]], rest);
      assert (so + [w[0]]) + w[1..] == so + w;
      if w[0] == 39 { QuoteReads(so, tail); }
      assert Requoted(w) + [39] + rest == (if w[0] == 39 then [39, 92, 39, 39] else [w[0]]) + tail;
      assert w[0] != 39 ==> ([w[0]] + tail)[1..] == tail;
    }
  }

  /** Leaving the quotes for one escaped quote and entering them again. */
  lemma QuoteReads(so: Text, tail: Text)
    ensures Quoted([39, 92, 39, 39] + tail, so) == Quoted(tail, so + [39])
  {
    var t := [39, 92, 39, 39] + tail;
    var u := [92, 39, 39] + tail;
    var v := [39] + tail;
    assert t[1..] == u && u[2..] == v && v[1..] == tail;
    assert Words(u, Some(so)) == Words(v, Some(so + [39]));
    assert Words(v, Some(so + [39])) == Quoted(tail, so + [39]);
  }

  lemma PlainStarts(c: nat, more: Text)
    requires PlainChar(c)
    ensures Words([c] + more, None) == Words(more, Some([c]))
  {
    assert ([c] + more)[1..] == more && [] + [c] == [c];
  }

  lemma QuoteOpens(more: Text)
    ensures Words([39] + more, None) == Quoted(more, [])
  {
    assert ([39] + more)[1..] == more;
  }

  lemma PlainWordReads(w: Text, rest: Text)
    requires PlainWord(w)
    ensures Words(w + rest, None) == Words(rest, Some(w))
  {
    var more := w[1..] + rest;
    assert w + rest == [w[0]] + more && [w[0]] + w[1..] == w;
    PlainStarts(w[0], more);
    PlainReads(w[1..], [w[0]], rest);
  }

  lemma QuotedWordReads(w: Text, rest: Text)
    ensures Words([39] + Requoted(w) + [39] + rest, None) == Words(rest, Some(w))
  {
    var more := Requoted(w) + [39] + rest;
    assert [39] + Requoted(w) + [39] + rest == [39] + more && [] + w == w;
    QuoteOpens(more);
    RequotedReads(w, [], rest);
  }

  lemma OneWordReads(w: Text, rest: Text)
    ensures Words(ShellQuote(w) + rest, None) == Words(rest, Some(w))
  {
    if PlainWord(w) {
      PlainWordReads(w, rest);
    } else {
      QuotedWordReads(w, rest);
    }
  }

  /** Any words at all, empty ones, quotes and newlines included, come back as they were. */
  lemma {:induction false} JoinedReads(words: seq<Text>)
    ensures Words(Joined(words), None) == Some(words)
  {
    if |words| == 1 {
      OneJoined(words[0]);
      assert words == [words[0]];
    } else if |words| > 1 {
      JoinedReads(words[1..]);
      MoreJoined(words[0], words[1..]);
      assert words == [words[0]] + words[1..];
    }
  }

  lemma OneJoined(word: Text)
    ensures Words(Joined([word]), None) == Some([word])
  {
    OneWordReads(word, []);
    assert ShellQuote(word) + [] == ShellQuote(word);
  }

  lemma MoreJoined(word: Text, words: seq<Text>)
    requires words != [] && Words(Joined(words), None) == Some(words)
    ensures Words(Joined([word] + words), None) == Some([word] + words)
  {
    var all := [word] + words;
    var rest := [32] + Joined(words);
    assert all[1..] == words && Joined(all) == ShellQuote(word) + rest;
    OneWordReads(word, rest);
  }

  lemma {:induction false} RequotedIsPlain(w: Text)
    requires !HasControls(w)
    ensures !HasControls(Requoted(w))
  {
    if w != [] {
      assert !HasControls(w[1..]) && !Control(w[0]);
      RequotedIsPlain(w[1..]);
    }
  }

  lemma {:induction false} JoinedIsPlain(words: seq<Text>)
    requires forall i :: 0 <= i < |words| ==> !HasControls(words[i])
    ensures !HasControls(Joined(words))
  {
    if words != [] {
      RequotedIsPlain(words[0]);
      assert !HasControls(ShellQuote(words[0]));
      JoinedIsPlain(words[1..]);
    }
  }

  /** The command is offered exactly when no control character would reach the terminal; it then shows
    * none, and a POSIX shell reads exactly the seven original words from it. */
  lemma EndorseLineRoundTrips(msgId: Text, to: Text, text: Text)
    ensures EndorseLine(msgId, to, text).Some? <==> !HasControls(msgId) && !HasControls(to) && !HasControls(text)
    ensures EndorseLine(msgId, to, text).Some? ==>
              && Words(EndorseLine(msgId, to, text).value, None) == Some(Endorse(msgId, to, text))
              && !HasControls(EndorseLine(msgId, to, text).value)
  {
    var words := Endorse(msgId, to, text);
    OfferedWhenPlain(msgId, to, text);
    JoinedReads(words);
    if EndorseLine(msgId, to, text).Some? { JoinedIsPlain(words); }
  }

  lemma OfferedWhenPlain(msgId: Text, to: Text, text: Text)
    ensures EndorseLine(msgId, to, text).Some? <==> !HasControls(msgId) && !HasControls(to) && !HasControls(text)
  {
    var words := Endorse(msgId, to, text);
    FixedWordsArePlain();
    assert words[2] == msgId && words[4] == to && words[6] == text;
  }

  lemma FixedWordsArePlain()
    ensures !HasControls(Ascii("agent-chat")) && !HasControls(Ascii("endorse"))
    ensures !HasControls(Ascii("--to")) && !HasControls(Ascii("--text"))
  {
  }
}
