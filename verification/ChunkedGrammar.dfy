/** What a chunked message is, written down without the decoder: size lines that spell a number, data, and
    trailers. The decoder accepts exactly the messages within its limits and gives their data. */
module ChunkedGrammar {
  import opened Options
  import opened Bytes
  import opened ChunkedBody

  // ---- numbers in a size line

  const LOWER: string := "0123456789abcdef"
  const UPPER: string := "0123456789ABCDEF"

  predicate IsDigit(b: Byte, v: nat) {
    v < 16 && (b as char == LOWER[v] || b as char == UPPER[v])
  }

  function Power(base: nat, n: nat): nat { if n == 0 then 1 else base * Power(base, n - 1) }

  /** The number whose hexadecimal places, most significant first, are `places`. */
  function Value(places: seq<nat>): nat {
    if places == [] then 0 else places[0] * Power(16, |places| - 1) + Value(places[1..])
  }

  ghost predicate SpelledBy(digits: seq<Byte>, places: seq<nat>) {
    |digits| == |places| && forall i :: 0 <= i < |digits| ==> IsDigit(digits[i], places[i])
  }

  /** A size line for `n`: one to fifteen digits of either case, leading zeros included, then nothing or an
      extension. */
  ghost predicate Spells(line: seq<Byte>, n: nat) {
    exists k: nat, places: seq<nat> :: SpellsAt(line, n, k, places)
  }

  ghost predicate SpellsAt(line: seq<Byte>, n: nat, k: nat, places: seq<nat>) {
    1 <= k <= 15 && k <= |line| && (k == |line| || line[k] == SEMICOLON) && SpelledBy(line[..k], places) && n == Value(places)
  }

  lemma DigitValue(b: Byte, v: nat)
    ensures IsDigit(b, v) <==> IsHex(b) && HexValue(b) == v
  {
  }

  lemma {:induction false} ValueOfLast(places: seq<nat>, last: nat)
    ensures Value(places + [last]) == 16 * Value(places) + last
  {
    var all := places + [last];
    if places == [] {
      assert all[1..] == [];
    } else {
      assert all[1..] == places[1..] + [last];
      ValueOfLast(places[1..], last);
    }
  }

  lemma {:induction false} SpelledValue(d: seq<Byte>, places: seq<nat>)
    requires SpelledBy(d, places)
    ensures AllHex(d) && ParseHex(d) == Value(places)
  {
    hide IsDigit, IsHex, HexValue;
    forall i | 0 <= i < |d| ensures IsHex(d[i]) && HexValue(d[i]) == places[i] { DigitValue(d[i], places[i]); }
    if d != [] {
      var n := |d| - 1;
      SpelledValue(d[..n], places[..n]);
      ValueOfLast(places[..n], places[n]);
      assert places == places[..n] + [places[n]];
    }
  }

  function Places(d: seq<Byte>): seq<nat>
    requires AllHex(d)
  {
    seq(|d|, i requires 0 <= i < |d| => HexValue(d[i]))
  }

  lemma PlacesSpell(d: seq<Byte>)
    requires AllHex(d)
    ensures SpelledBy(d, Places(d)) && Value(Places(d)) == ParseHex(d)
  {
    hide IsDigit, IsHex, HexValue;
    forall i | 0 <= i < |d| ensures IsDigit(d[i], Places(d)[i]) { DigitValue(d[i], Places(d)[i]); }
    SpelledValue(d, Places(d));
  }

  /** The digits end at the first semicolon. */
  lemma {:induction false} DigitsAre(line: seq<Byte>)
    ensures var k := |Digits(line)|;
      && Digits(line) == line[..k] && (k == |line| || line[k] == SEMICOLON)
      && forall i :: 0 <= i < k ==> line[i] != SEMICOLON
  {
    if line != [] && line[0] != SEMICOLON {
      DigitsAre(line[1..]);
      var k := |Digits(line[1..])|;
      assert Digits(line) == [line[0]] + line[1..][..k] == line[..k + 1];
    }
  }

  /** The size a line announces is the number it spells; a line that spells none is malformed. */
  lemma SizeIsSpelled(line: seq<Byte>, n: nat)
    ensures SizeOf(line) == Some(n) <==> Spells(line, n)
    ensures SizeOf(line).Some? ==> Spells(line, SizeOf(line).value)
  {
    hide IsDigit, HexValue, Value, ParseHex, Digits;
    DigitsAre(line);
    var d := Digits(line);
    if SizeOf(line).Some? {
      PlacesSpell(d);
      assert SpellsAt(line, SizeOf(line).value, |d|, Places(d));
    }
    if Spells(line, n) {
      var k: nat, places: seq<nat> :| SpellsAt(line, n, k, places);
      SpelledValue(line[..k], places);
      assert forall i :: 0 <= i < k ==> IsHex(line[..k][i]);
      assert |d| == k;
    }
  }

  // ---- lines

  const CRLF: seq<Byte> := [CR, LF]

  ghost predicate OneLine(line: seq<Byte>) { forall k: nat :: !CrlfAt(line, k) }

  lemma LineBreak(a: seq<Byte>, b: seq<Byte>)
    requires OneLine(a)
    ensures FindCrlf(a + CRLF + b) == Some(|a|)
    ensures (a + CRLF + b)[..|a|] == a && (a + CRLF + b)[|a| + 2..] == b
  {
    var s := a + CRLF + b;
    assert s[|a|] == CR && s[|a| + 1] == LF;
    forall k | 0 <= k < |a| ensures !CrlfAt(s, k) { assert !CrlfAt(a, k); }
    FirstCrlf(s, |a|);
  }

  /** A stream that has a line is that line, its end and the rest. */
  lemma LineFound(s: seq<Byte>, i: nat)
    requires FindCrlf(s) == Some(i)
    ensures i + 2 <= |s| && OneLine(s[..i]) && s == s[..i] + CRLF + s[i + 2..]
  {
    hide FindCrlf, CrlfAt;
    AroundCrlf(s, i);
    forall k: nat | k < i ensures !CrlfAt(s[..i], k) { SameCrlf(s, i, k); }
    forall k: nat | k >= i ensures !CrlfAt(s[..i], k) { SameCrlf(s, i, k); }
  }

  lemma AroundCrlf(s: seq<Byte>, i: nat)
    requires CrlfAt(s, i)
    ensures i + 2 <= |s| && s == s[..i] + CRLF + s[i + 2..]
  {
  }

  lemma SameCrlf(s: seq<Byte>, i: nat, k: nat)
    requires i <= |s|
    ensures CrlfAt(s[..i], k) ==> k < i && CrlfAt(s, k)
  {
  }

  // ---- one line of the one-shot reading

  /** The one-shot reading of a line and what follows it, by the number the line spells. */
  lemma LineParses(line: seq<Byte>, n: nat, after: seq<Byte>, body: seq<Byte>, lim: Limits, end: End)
    requires OneLine(line)
    ensures var d := Parse(line + CRLF + after, body, lim, end);
      && ((forall m: nat :: !Spells(line, m)) ==> d == Bad(MalformedSize))
      && (Spells(line, n) ==>
            d == if n == 0 then ParseTrailers(after, 0, body, lim, end)
                 else if |body| + n > lim.maxBody then Bad(BodyTooLarge)
                 else if |after| < n + 2 then Bad(Ended(end))
                 else if after[n] != CR || after[n + 1] != LF then Bad(BadChunkEnd)
                 else Parse(after[n + 2..], body + after[..n], lim, end))
  {
    hide FindCrlf, ParseTrailers, SizeOf, Spells;
    LineBreak(line, after);
    SizeIsSpelled(line, n);
  }

  /** A stream that ends within a line. */
  lemma UnfinishedParses(s: seq<Byte>, seen: nat, body: seq<Byte>, lim: Limits, end: End)
    requires OneLine(s)
    ensures var d := Bad(if |s| > lim.maxLine then LineTooLong else Ended(end));
      Parse(s, body, lim, end) == d && ParseTrailers(s, seen, body, lim, end) == d
  {
    hide FindCrlf;
    assert FindCrlf(s).None?;
  }

  lemma LineShort(line: seq<Byte>, n: nat, after: seq<Byte>, read: nat, lim: Limits)
    requires OneLine(line) && Spells(line, n)
    ensures ShortLines(line + CRLF + after, read, lim) <==>
      && |line| < lim.maxLine
      && (n == 0 ==> ShortTrailers(after, 0, lim))
      && (n > 0 && read + n <= lim.maxBody && |after| >= n + 2 && CrlfAt(after, n) ==>
            ShortLines(after[n + 2..], read + n, lim))
  {
    hide FindCrlf, ShortTrailers, SizeOf, Spells, OneLine, CrlfAt;
    LineBreak(line, after);
    SizeIsSpelled(line, n);
  }

  // ---- messages

  datatype Piece = Piece(line: seq<Byte>, data: seq<Byte>)

  /** Chunks, the last chunk's line and the trailers. */
  datatype Message = Message(chunks: seq<Piece>, last: seq<Byte>, trailers: seq<seq<Byte>>)

  ghost predicate PieceOk(p: Piece) { p.data != [] && OneLine(p.line) && Spells(p.line, |p.data|) }

  ghost predicate MessageOk(m: Message) {
    && (forall i :: 0 <= i < |m.chunks| ==> PieceOk(m.chunks[i]))
    && OneLine(m.last) && Spells(m.last, 0)
    && (forall i :: 0 <= i < |m.trailers| ==> m.trailers[i] != [] && OneLine(m.trailers[i]))
  }

  function ChunksText(chunks: seq<Piece>): seq<Byte> {
    if chunks == [] then [] else chunks[0].line + CRLF + (chunks[0].data + CRLF + ChunksText(chunks[1..]))
  }

  /** Every trailer on its line, then the empty line. */
  function TrailersText(trailers: seq<seq<Byte>>): seq<Byte> {
    if trailers == [] then CRLF else trailers[0] + CRLF + TrailersText(trailers[1..])
  }

  function MessageText(m: Message): seq<Byte> {
    ChunksText(m.chunks) + (m.last + CRLF + TrailersText(m.trailers))
  }

  function Data(chunks: seq<Piece>): seq<Byte> {
    if chunks == [] then [] else chunks[0].data + Data(chunks[1..])
  }

  /** Bytes of the trailer lines, their ends included. */
  function TrailerBytes(trailers: seq<seq<Byte>>): nat {
    if trailers == [] then 0 else |trailers[0]| + 2 + TrailerBytes(trailers[1..])
  }

  /** The chunk at the front is taken in. */
  lemma ChunkParses(p: Piece, rest: seq<Byte>, body: seq<Byte>, lim: Limits, end: End)
    requires PieceOk(p)
    ensures var s := p.line + CRLF + (p.data + CRLF + rest);
      && Parse(s, body, lim, end) == (if |body| + |p.data| > lim.maxBody then Bad(BodyTooLarge)
                                      else Parse(rest, body + p.data, lim, end))
      && (ShortLines(s, |body|, lim) <==>
            |p.line| < lim.maxLine && (|body| + |p.data| <= lim.maxBody ==> ShortLines(rest, |body| + |p.data|, lim)))
  {
    hide Parse, ShortLines, Spells, OneLine;
    var n, after := |p.data|, p.data + CRLF + rest;
    assert after[n] == CR && after[n + 1] == LF && after[..n] == p.data && after[n + 2..] == rest;
    LineParses(p.line, n, after, body, lim, end);
    LineShort(p.line, n, after, |body|, lim);
  }

  lemma ChunksStep(chunks: seq<Piece>, rest: seq<Byte>, body: seq<Byte>)
    ensures chunks == [] ==> ChunksText(chunks) + rest == rest && Data(chunks) == [] && body + Data(chunks) == body
    ensures chunks != [] ==>
      && ChunksText(chunks) + rest == chunks[0].line + CRLF + (chunks[0].data + CRLF + (ChunksText(chunks[1..]) + rest))
      && body + chunks[0].data + Data(chunks[1..]) == body + Data(chunks)
      && |Data(chunks)| == |chunks[0].data| + |Data(chunks[1..])|
  {
  }

  lemma TrailersStep(trailers: seq<seq<Byte>>, tail: seq<Byte>)
    ensures TrailersText(trailers) + tail ==
      if trailers == [] then [] + CRLF + tail else trailers[0] + CRLF + (TrailersText(trailers[1..]) + tail)
  {
  }

  lemma {:induction false} ChunksParse(chunks: seq<Piece>, rest: seq<Byte>, body: seq<Byte>, lim: Limits, end: End)
    requires |body| <= lim.maxBody && forall i :: 0 <= i < |chunks| ==> PieceOk(chunks[i])
    ensures Parse(ChunksText(chunks) + rest, body, lim, end) ==
      if |body| + |Data(chunks)| > lim.maxBody then Bad(BodyTooLarge) else Parse(rest, body + Data(chunks), lim, end)
    ensures (forall i :: 0 <= i < |chunks| ==> |chunks[i].line| < lim.maxLine) && ShortLines(rest, |body| + |Data(chunks)|, lim)
      ==> ShortLines(ChunksText(chunks) + rest, |body|, lim)
  {
    hide Parse, ShortLines, PieceOk, ChunksText, Data;
    ChunksStep(chunks, rest, body);
    if chunks != [] {
      var p := chunks[0];
      ChunkParses(p, ChunksText(chunks[1..]) + rest, body, lim, end);
      if |body| + |p.data| <= lim.maxBody {
        ChunksParse(chunks[1..], rest, body + p.data, lim, end);
      }
    }
  }

  lemma {:induction false} TrailersParse(trailers: seq<seq<Byte>>, seen: nat, tail: seq<Byte>, body: seq<Byte>,
                                         lim: Limits, end: End)
    requires seen <= lim.maxLine && forall i :: 0 <= i < |trailers| ==> trailers[i] != [] && OneLine(trailers[i])
    ensures ParseTrailers(TrailersText(trailers) + tail, seen, body, lim, end) ==
      if seen + TrailerBytes(trailers) > lim.maxLine then Bad(TrailersTooLarge) else Body(body)
    ensures 0 < lim.maxLine && (forall i :: 0 <= i < |trailers| ==> |trailers[i]| < lim.maxLine)
      ==> ShortTrailers(TrailersText(trailers) + tail, seen, lim)
  {
    hide FindCrlf, OneLine, TrailersText, ParseTrailers, ShortTrailers;
    TrailersStep(trailers, tail);
    if trailers == [] {
      TrailersEnd(tail, seen, body, lim, end);
    } else {
      var more := TrailersText(trailers[1..]) + tail;
      TrailerLine(trailers[0], more, seen, body, lim, end);
      if seen + |trailers[0]| + 2 <= lim.maxLine {
        TrailersParse(trailers[1..], seen + |trailers[0]| + 2, tail, body, lim, end);
      }
    }
  }

  lemma TrailersEnd(tail: seq<Byte>, seen: nat, body: seq<Byte>, lim: Limits, end: End)
    ensures ParseTrailers([] + CRLF + tail, seen, body, lim, end) == Body(body)
    ensures 0 < lim.maxLine ==> ShortTrailers([] + CRLF + tail, seen, lim)
  {
    hide FindCrlf;
    EmptyLine(tail);
  }

  lemma TrailerLine(line: seq<Byte>, more: seq<Byte>, seen: nat, body: seq<Byte>, lim: Limits, end: End)
    requires OneLine(line) && line != []
    ensures ParseTrailers(line + CRLF + more, seen, body, lim, end) ==
      if seen + |line| + 2 > lim.maxLine then Bad(TrailersTooLarge)
      else ParseTrailers(more, seen + |line| + 2, body, lim, end)
    ensures ShortTrailers(line + CRLF + more, seen, lim) <==>
      |line| < lim.maxLine && (seen + |line| + 2 <= lim.maxLine ==> ShortTrailers(more, seen + |line| + 2, lim))
  {
    hide FindCrlf, OneLine;
    LineBreak(line, more);
  }

  lemma EmptyLine(tail: seq<Byte>)
    ensures FindCrlf([] + CRLF + tail) == Some(0)
  {
    assert OneLine([]);
    LineBreak([], tail);
  }

  ghost predicate LinesBelow(m: Message, limit: nat) {
    && |m.last| < limit
    && (forall i :: 0 <= i < |m.chunks| ==> |m.chunks[i].line| < limit)
    && (forall i :: 0 <= i < |m.trailers| ==> |m.trailers[i]| < limit)
  }

  /** What a message is answered: its data, unless that or the trailers pass the limit. */
  function Answer(m: Message, lim: Limits): Decoded {
    if |Data(m.chunks)| > lim.maxBody then Bad(BodyTooLarge)
    else if TrailerBytes(m.trailers) > lim.maxLine then Bad(TrailersTooLarge)
    else Body(Data(m.chunks))
  }

  lemma MessageParses(m: Message, tail: seq<Byte>, lim: Limits, end: End)
    requires MessageOk(m)
    ensures Parse(MessageText(m) + tail, [], lim, end) == Answer(m, lim)
    ensures LinesBelow(m, lim.maxLine) ==> ShortLines(MessageText(m) + tail, 0, lim)
  {
    hide Parse, ShortLines, ParseTrailers, ShortTrailers, PieceOk, OneLine, Spells;
    var data, after := Data(m.chunks), TrailersText(m.trailers) + tail;
    assert MessageText(m) + tail == ChunksText(m.chunks) + (m.last + CRLF + after);
    ChunksParse(m.chunks, m.last + CRLF + after, [], lim, end);
    assert [] + data == data;
    LineParses(m.last, 0, after, data, lim, end);
    LineShort(m.last, 0, after, |data|, lim);
    TrailersParse(m.trailers, 0, tail, data, lim, end);
  }

  /** However it is cut into reads, a message whose lines are within the limit is answered with its data, or
      refused for the data or the trailers. What follows it is dropped. */
  lemma MessageDecodes(m: Message, tail: seq<Byte>, buf: seq<Byte>, pieces: seq<seq<Byte>>, lim: Limits, end: End)
    requires MessageOk(m) && LinesBelow(m, lim.maxLine) && buf + Flat(pieces) == MessageText(m) + tail
    ensures Decode(buf, pieces, [], lim, end) == Answer(m, lim)
  {
    hide Decode, Parse, ShortLines, MessageText, MessageOk, Answer;
    MessageParses(m, tail, lim, end);
    DecodeSplit(buf, pieces, [], lim, end);
  }

  // ---- nothing but messages is accepted

  lemma {:induction false} ParsedTrailers(s: seq<Byte>, seen: nat, body: seq<Byte>, lim: Limits, end: End)
    returns (trailers: seq<seq<Byte>>, tail: seq<Byte>)
    requires ParseTrailers(s, seen, body, lim, end).Body?
    ensures s == TrailersText(trailers) + tail
    ensures forall i :: 0 <= i < |trailers| ==> trailers[i] != [] && OneLine(trailers[i])
    decreases |s|
  {
    hide FindCrlf, OneLine;
    var i := FindCrlf(s).value;
    LineFound(s, i);
    if i == 0 {
      trailers, tail := [], s[2..];
    } else {
      var more;
      more, tail := ParsedTrailers(s[i + 2..], seen + i + 2, body, lim, end);
      trailers := [s[..i]] + more;
      assert trailers[1..] == more;
      assert s == s[..i] + CRLF + (TrailersText(more) + tail);
    }
  }

  lemma Prepended(p: Piece, more: Message, tail: seq<Byte>)
    requires PieceOk(p) && MessageOk(more)
    ensures var m := Message([p] + more.chunks, more.last, more.trailers);
      && MessageOk(m) && Data(m.chunks) == p.data + Data(more.chunks)
      && MessageText(m) + tail == p.line + CRLF + (p.data + CRLF + (MessageText(more) + tail))
  {
    hide PieceOk, OneLine, Spells;
    var m := Message([p] + more.chunks, more.last, more.trailers);
    assert m.chunks[1..] == more.chunks;
    assert ChunksText(m.chunks) == p.line + CRLF + (p.data + CRLF + ChunksText(more.chunks));
  }

  lemma OnlyLast(line: seq<Byte>, trailers: seq<seq<Byte>>, tail: seq<Byte>)
    ensures MessageText(Message([], line, trailers)) + tail == line + CRLF + (TrailersText(trailers) + tail)
  {
    assert ChunksText([]) == [];
  }

  lemma {:induction false} ParsedMessage(s: seq<Byte>, body: seq<Byte>, lim: Limits, end: End)
    returns (m: Message, tail: seq<Byte>)
    requires Parse(s, body, lim, end).Body?
    ensures MessageOk(m) && s == MessageText(m) + tail && Parse(s, body, lim, end) == Body(body + Data(m.chunks))
    decreases |s|
  {
    hide FindCrlf, OneLine, Spells, ParseTrailers, MessageText, MessageOk, TrailersText, HeadOf, CrlfAt, Data;
    var i := FindCrlf(s).value;
    LineFound(s, i);
    var line, rest := s[..i], s[i + 2..];
    HeadSpells(line, |body|, lim);
    match HeadOf(line, |body|, lim)
    case LastChunk =>
      m, tail := LastParsed(line, rest, body, lim, end);
    case Chunk(size) =>
      var data := rest[..size];
      var more;
      more, tail := ParsedMessage(rest[size + 2..], body + data, lim, end);
      Prepended(Piece(line, data), more, tail);
      m := Message([Piece(line, data)] + more.chunks, more.last, more.trailers);
      AroundCrlf(rest, size);
      assert body + data + Data(more.chunks) == body + Data(m.chunks);
  }

  lemma HeadSpells(line: seq<Byte>, read: nat, lim: Limits)
    ensures match HeadOf(line, read, lim)
      case LastChunk => Spells(line, 0)
      case Chunk(n) => n > 0 && Spells(line, n)
      case Refuse(_) => true
  {
    hide SizeOf, Spells;
    SizeIsSpelled(line, 0);
  }

  lemma LastParsed(line: seq<Byte>, rest: seq<Byte>, body: seq<Byte>, lim: Limits, end: End)
    returns (m: Message, tail: seq<Byte>)
    requires ParseTrailers(rest, 0, body, lim, end).Body? && OneLine(line) && Spells(line, 0)
    ensures MessageOk(m) && line + CRLF + rest == MessageText(m) + tail
    ensures ParseTrailers(rest, 0, body, lim, end) == Body(body + Data(m.chunks))
  {
    hide OneLine, Spells, ParseTrailers, MessageText, TrailersText;
    var trailers;
    trailers, tail := ParsedTrailers(rest, 0, body, lim, end);
    TrailersKeepBody(rest, 0, body, lim, end);
    m := Message([], line, trailers);
    OnlyLast(line, trailers, tail);
    assert body + [] == body;
  }

  /** A body is given only for a message, and it is the message's data. */
  lemma DecodedIsMessage(buf: seq<Byte>, pieces: seq<seq<Byte>>, lim: Limits, end: End)
    returns (m: Message, tail: seq<Byte>)
    requires Decode(buf, pieces, [], lim, end).Body?
    ensures MessageOk(m) && buf + Flat(pieces) == MessageText(m) + tail
    ensures Decode(buf, pieces, [], lim, end) == Answer(m, lim)
  {
    hide Decode, Parse, ShortLines, MessageText, MessageOk, Answer;
    DecodeSplit(buf, pieces, [], lim, end);
    m, tail := ParsedMessage(buf + Flat(pieces), [], lim, end);
    MessageParses(m, tail, lim, end);
  }

  /** The stream begins with this message. */
  ghost predicate Carries(s: seq<Byte>, m: Message) {
    MessageOk(m) && |MessageText(m)| <= |s| && s[..|MessageText(m)|] == MessageText(m)
  }

  /** `d` is the right reading of `s`: every message whose lines are within the limit is answered as it is due,
      and a body is given for a message alone. */
  ghost predicate ReadsMessages(s: seq<Byte>, lim: Limits, d: Decoded) {
    && (forall m :: Carries(s, m) && LinesBelow(m, lim.maxLine) ==> d == Answer(m, lim))
    && (d.Body? ==> exists m :: Carries(s, m) && d == Answer(m, lim))
  }

  lemma DecodeReadsMessages(buf: seq<Byte>, pieces: seq<seq<Byte>>, lim: Limits, end: End)
    ensures ReadsMessages(buf + Flat(pieces), lim, Decode(buf, pieces, [], lim, end))
  {
    hide Decode, MessageOk, MessageText, LinesBelow, Answer;
    var s, d := buf + Flat(pieces), Decode(buf, pieces, [], lim, end);
    forall m | Carries(s, m) && LinesBelow(m, lim.maxLine) ensures d == Answer(m, lim) {
      MessageDecodes(m, s[|MessageText(m)|..], buf, pieces, lim, end);
    }
    if d.Body? {
      var m, tail := DecodedIsMessage(buf, pieces, lim, end);
      assert Carries(s, m);
    }
  }
}
