/** The chunked transfer coding as the listener decodes it: a one-shot reading of the whole byte stream, the
    incremental reading of it in arbitrary socket pieces, and the encoder. */
module ChunkedBody {
  import opened Options
  import opened Bytes

  const CR: Byte := 13
  const LF: Byte := 10
  const SEMICOLON: Byte := 59
  /** Bytes one socket read may bring. */
  const READ_SIZE: nat := 4096

  /** Why the stream gave no more bytes. */
  datatype End = Closed | Timeout

  datatype Fault = MalformedSize | BadChunkEnd | LineTooLong | TrailersTooLarge | BodyTooLarge | Ended(why: End)

  datatype Decoded = Body(bytes: seq<Byte>) | Bad(fault: Fault)

  datatype Limits = Limits(maxBody: nat, maxLine: nat)

  // ---- lines and sizes

  predicate CrlfAt(s: seq<Byte>, i: nat) {
    i + 1 < |s| && s[i] == CR && s[i + 1] == LF
  }

  /** The first CRLF of `s`. */
  function FindCrlf(s: seq<Byte>): (r: Option<nat>)
    ensures r.Some? ==> CrlfAt(s, r.value) && forall k :: 0 <= k < r.value ==> !CrlfAt(s, k)
    ensures r.None? ==> forall k: nat :: !CrlfAt(s, k)
  {
    if |s| < 2 then None
    else if CrlfAt(s, 0) then Some(0)
    else
      var rest := FindCrlf(s[1..]);
      assert forall k: nat :: k > 0 ==> CrlfAt(s, k) == CrlfAt(s[1..], k - 1);
      match rest
      case None => None
      case Some(i) => Some(i + 1)
  }

  /** The line up to the first `;`, where an extension starts. */
  function Digits(line: seq<Byte>): (d: seq<Byte>)
    ensures |d| <= |line|
  {
    if line == [] || line[0] == SEMICOLON then [] else [line[0]] + Digits(line[1..])
  }

  predicate IsHex(b: Byte) {
    48 <= b <= 57 || 97 <= b <= 102 || 65 <= b <= 70
  }

  function HexValue(b: Byte): (v: nat)
    requires IsHex(b)
    ensures v < 16
  {
    if b <= 57 then b - 48 else if b >= 97 then b - 87 else b - 55
  }

  predicate AllHex(d: seq<Byte>) {
    forall i :: 0 <= i < |d| ==> IsHex(d[i])
  }

  function ParseHex(d: seq<Byte>): nat
    requires AllHex(d)
  {
    if d == [] then 0 else 16 * ParseHex(d[..|d|-1]) + HexValue(d[|d|-1])
  }

  /** The size a size line announces. */
  function SizeOf(line: seq<Byte>): Option<nat> {
    var d := Digits(line);
    if d == [] || |d| > 15 || !AllHex(d) then None else Some(ParseHex(d))
  }

  /** What a size line asks for, `read` body bytes in. */
  datatype Head = Refuse(fault: Fault) | LastChunk | Chunk(size: nat)

  function HeadOf(line: seq<Byte>, read: nat, lim: Limits): (h: Head)
    ensures h.Chunk? ==> h.size > 0 && read + h.size <= lim.maxBody
  {
    match SizeOf(line)
    case None => Refuse(MalformedSize)
    case Some(size) =>
      if size == 0 then LastChunk
      else if read + size > lim.maxBody then Refuse(BodyTooLarge)
      else Chunk(size)
  }

  // ---- the whole stream at once

  /** The trailers of `s`, `seen` bytes of them already counted. */
  function ParseTrailers(s: seq<Byte>, seen: nat, body: seq<Byte>, lim: Limits, end: End): Decoded
    decreases |s|
  {
    match FindCrlf(s)
    case None => Bad(if |s| > lim.maxLine then LineTooLong else Ended(end))
    case Some(i) =>
      if i == 0 then Body(body)
      else if seen + i + 2 > lim.maxLine then Bad(TrailersTooLarge)
      else ParseTrailers(s[i + 2..], seen + i + 2, body, lim, end)
  }

  /** What the stream `s`, ended by `end`, decodes to after `body`. */
  function Parse(s: seq<Byte>, body: seq<Byte>, lim: Limits, end: End): Decoded
    decreases |s|
  {
    match FindCrlf(s)
    case None => Bad(if |s| > lim.maxLine then LineTooLong else Ended(end))
    case Some(i) =>
      var rest := s[i + 2..];
      match HeadOf(s[..i], |body|, lim)
      case Refuse(f) => Bad(f)
      case LastChunk => ParseTrailers(rest, 0, body, lim, end)
      case Chunk(size) =>
        if |rest| < size + 2 then Bad(Ended(end))
        else if !CrlfAt(rest, size) then Bad(BadChunkEnd)
        else Parse(rest[size + 2..], body + rest[..size], lim, end)
  }

  // ---- in pieces

  /** Everything the reads bring, in order. */
  function Flat(pieces: seq<seq<Byte>>): seq<Byte> {
    if pieces == [] then [] else pieces[0] + Flat(pieces[1..])
  }

  datatype Took = Took(taken: seq<Byte>, buf: seq<Byte>, pieces: seq<seq<Byte>>) | Failed(fault: Fault)

  /** The next line, reading on while the buffer holds none and is within the limit. */
  function NextLine(buf: seq<Byte>, pieces: seq<seq<Byte>>, lim: Limits, end: End): Took
    decreases |pieces|
  {
    match FindCrlf(buf)
    case Some(i) => Took(buf[..i], buf[i + 2..], pieces)
    case None =>
      if |buf| > lim.maxLine then Failed(LineTooLong)
      else if pieces == [] then Failed(Ended(end))
      else NextLine(buf + pieces[0], pieces[1..], lim, end)
  }

  /** The next `n` bytes. */
  function NextBytes(buf: seq<Byte>, pieces: seq<seq<Byte>>, n: nat, end: End): Took
    decreases |pieces|
  {
    if |buf| >= n then Took(buf[..n], buf[n..], pieces)
    else if pieces == [] then Failed(Ended(end))
    else NextBytes(buf + pieces[0], pieces[1..], n, end)
  }

  lemma {:induction false} NextLineSplits(buf: seq<Byte>, pieces: seq<seq<Byte>>, lim: Limits, end: End)
    ensures var s := buf + Flat(pieces); var t := NextLine(buf, pieces, lim, end);
      match FindCrlf(s)
      case None => t == Failed(if |s| > lim.maxLine then LineTooLong else Ended(end))
      case Some(i) =>
        || (i >= lim.maxLine && t == Failed(LineTooLong))
        || (t.Took? && t.taken == s[..i] && t.buf + Flat(t.pieces) == s[i + 2..])
    decreases |pieces|
  {
    var s := buf + Flat(pieces);
    match FindCrlf(buf)
    case Some(i) =>
      assert forall k :: 0 <= k <= i ==> CrlfAt(s, k) == CrlfAt(buf, k);
      assert FindCrlf(s) == Some(i) by { FirstCrlf(s, i); }
      assert s[..i] == buf[..i] && s[i + 2..] == buf[i + 2..] + Flat(pieces);
    case None =>
      if |buf| > lim.maxLine {
        if FindCrlf(s).Some? {
          var i := FindCrlf(s).value;
          assert i + 1 >= |buf| by { assert !CrlfAt(buf, i); }
        }
      } else if pieces == [] {
        assert s == buf;
      } else {
        NextLineSplits(buf + pieces[0], pieces[1..], lim, end);
        assert buf + pieces[0] + Flat(pieces[1..]) == s;
      }
  }

  lemma FirstCrlf(s: seq<Byte>, i: nat)
    requires CrlfAt(s, i) && forall k :: 0 <= k < i ==> !CrlfAt(s, k)
    ensures FindCrlf(s) == Some(i)
  {
    assert FindCrlf(s).Some?;
  }

  lemma {:induction false} NextBytesSplits(buf: seq<Byte>, pieces: seq<seq<Byte>>, n: nat, end: End)
    ensures var s := buf + Flat(pieces); var t := NextBytes(buf, pieces, n, end);
      if |s| < n then t == Failed(Ended(end))
      else t.Took? && t.taken == s[..n] && t.buf + Flat(t.pieces) == s[n..]
    decreases |pieces|
  {
    var s := buf + Flat(pieces);
    if |buf| >= n {
      assert s[..n] == buf[..n] && s[n..] == buf[n..] + Flat(pieces);
    } else if pieces != [] {
      NextBytesSplits(buf + pieces[0], pieces[1..], n, end);
      assert buf + pieces[0] + Flat(pieces[1..]) == s;
    }
  }

  function DecodeTrailers(buf: seq<Byte>, pieces: seq<seq<Byte>>, seen: nat, body: seq<Byte>, lim: Limits,
                          end: End): Decoded
    decreases |buf + Flat(pieces)|
  {
    NextLineSplits(buf, pieces, lim, end);
    match NextLine(buf, pieces, lim, end)
    case Failed(f) => Bad(f)
    case Took(line, buf', pieces') =>
      if line == [] then Body(body)
      else if seen + |line| + 2 > lim.maxLine then Bad(TrailersTooLarge)
      else DecodeTrailers(buf', pieces', seen + |line| + 2, body, lim, end)
  }

  /** What the decoder makes of a buffer and the reads still to come, after `body`. */
  function Decode(buf: seq<Byte>, pieces: seq<seq<Byte>>, body: seq<Byte>, lim: Limits, end: End): Decoded
    decreases |buf + Flat(pieces)|
  {
    NextLineSplits(buf, pieces, lim, end);
    match NextLine(buf, pieces, lim, end)
    case Failed(f) => Bad(f)
    case Took(line, buf1, pieces1) =>
      match HeadOf(line, |body|, lim)
      case Refuse(f) => Bad(f)
      case LastChunk => DecodeTrailers(buf1, pieces1, 0, body, lim, end)
      case Chunk(size) =>
        NextBytesSplits(buf1, pieces1, size + 2, end);
        match NextBytes(buf1, pieces1, size + 2, end)
        case Failed(f) => Bad(f)
        case Took(chunk, buf2, pieces2) =>
          if !CrlfAt(chunk, size) then Bad(BadChunkEnd)
          else Decode(buf2, pieces2, body + chunk[..size], lim, end)
  }

  // ---- read-split independence

  /** Every trailer line a one-shot reading ends is shorter than the limit. */
  predicate ShortTrailers(s: seq<Byte>, seen: nat, lim: Limits)
    decreases |s|
  {
    match FindCrlf(s)
    case None => true
    case Some(i) =>
      && i < lim.maxLine
      && (i > 0 && seen + i + 2 <= lim.maxLine ==> ShortTrailers(s[i + 2..], seen + i + 2, lim))
  }

  /** Every size line and trailer line a one-shot reading ends is shorter than the limit. */
  predicate ShortLines(s: seq<Byte>, read: nat, lim: Limits)
    decreases |s|
  {
    match FindCrlf(s)
    case None => true
    case Some(i) =>
      && i < lim.maxLine
      && var rest := s[i + 2..];
         match HeadOf(s[..i], read, lim)
         case Refuse(f) => true
         case LastChunk => ShortTrailers(rest, 0, lim)
         case Chunk(size) =>
           |rest| >= size + 2 && CrlfAt(rest, size) ==> ShortLines(rest[size + 2..], read + size, lim)
  }

  lemma {:induction false} TrailersSplit(buf: seq<Byte>, pieces: seq<seq<Byte>>, seen: nat, body: seq<Byte>,
                                         lim: Limits, end: End)
    ensures var s := buf + Flat(pieces); var d := DecodeTrailers(buf, pieces, seen, body, lim, end);
      && (d == ParseTrailers(s, seen, body, lim, end) || d == Bad(LineTooLong))
      && (ShortTrailers(s, seen, lim) ==> d == ParseTrailers(s, seen, body, lim, end))
    decreases |buf + Flat(pieces)|
  {
    hide NextLine, FindCrlf, Flat;
    NextLineSplits(buf, pieces, lim, end);
    var t := NextLine(buf, pieces, lim, end);
    if t.Took? && t.taken != [] && seen + |t.taken| + 2 <= lim.maxLine {
      TrailersSplit(t.buf, t.pieces, seen + |t.taken| + 2, body, lim, end);
    }
  }

  /** However the stream is cut into reads, the decoder gives the one-shot result or calls a line too long,
      and the one-shot result when every line is shorter than the limit. */
  lemma {:induction false} DecodeSplit(buf: seq<Byte>, pieces: seq<seq<Byte>>, body: seq<Byte>, lim: Limits, end: End)
    ensures var s := buf + Flat(pieces); var d := Decode(buf, pieces, body, lim, end);
      && (d == Parse(s, body, lim, end) || d == Bad(LineTooLong))
      && (ShortLines(s, |body|, lim) ==> d == Parse(s, body, lim, end))
    decreases |buf + Flat(pieces)|
  {
    hide NextLine, NextBytes, FindCrlf, HeadOf, Flat, DecodeTrailers, ParseTrailers, ShortTrailers;
    NextLineSplits(buf, pieces, lim, end);
    var t := NextLine(buf, pieces, lim, end);
    if t.Took? {
      match HeadOf(t.taken, |body|, lim)
      case Refuse(_) =>
      case LastChunk => TrailersSplit(t.buf, t.pieces, 0, body, lim, end);
      case Chunk(size) =>
        NextBytesSplits(t.buf, t.pieces, size + 2, end);
        var rest, c := t.buf + Flat(t.pieces), NextBytes(t.buf, t.pieces, size + 2, end);
        if c.Took? {
          SameEnd(c.taken, rest, size);
          if CrlfAt(c.taken, size) {
            DecodeSplit(c.buf, c.pieces, body + c.taken[..size], lim, end);
          }
        }
    }
  }

  lemma SameEnd(chunk: seq<Byte>, rest: seq<Byte>, size: nat)
    requires size + 2 <= |rest| && chunk == rest[..size + 2]
    ensures CrlfAt(chunk, size) == CrlfAt(rest, size) && chunk[..size] == rest[..size]
  {
  }

  /** `s` arriving one byte at a time. */
  function OneByOne(s: seq<Byte>): (pieces: seq<seq<Byte>>)
    ensures forall r :: r in pieces ==> |r| <= READ_SIZE
    ensures Flat(pieces) == s
  {
    if s == [] then [] else
      var rest := OneByOne(s[1..]);
      assert ([s[..1]] + rest)[1..] == rest && s == s[..1] + s[1..];
      [s[..1]] + rest
  }

  lemma OneByOneTail(s: seq<Byte>)
    requires s != []
    ensures OneByOne(s) != [] && OneByOne(s)[0] == s[..1] && OneByOne(s)[1..] == OneByOne(s[1..])
  {
    assert ([s[..1]] + OneByOne(s[1..]))[1..] == OneByOne(s[1..]);
  }

  /** Byte by byte, a line is taken whole exactly when it is shorter than the limit. */
  lemma {:induction false} LineOneByOne(buf: seq<Byte>, s: seq<Byte>, lim: Limits, end: End)
    requires FindCrlf(buf).None? && FindCrlf(buf + s).Some? && |buf| <= FindCrlf(buf + s).value + 1
    ensures var i := FindCrlf(buf + s).value;
      NextLine(buf, OneByOne(s), lim, end) ==
      if |buf| <= lim.maxLine && i < lim.maxLine then Took((buf + s)[..i], [], OneByOne((buf + s)[i + 2..]))
      else Failed(LineTooLong)
    decreases |s|
  {
    hide Flat, OneByOne, FindCrlf;
    var i := FindCrlf(buf + s).value;
    assert s != [] by { assert buf + [] == buf; }
    OneByOneTail(s);
    var next := buf + s[..1];
    assert next + s[1..] == buf + s;
    if |buf| <= lim.maxLine {
      if |buf| == i + 1 {
        assert CrlfAt(next, i) && forall k :: 0 <= k < i ==> CrlfAt(next, k) == CrlfAt(buf + s, k);
        FirstCrlf(next, i);
        assert next[..i] == (buf + s)[..i] && next[i + 2..] == [] && s[1..] == (buf + s)[i + 2..];
      } else {
        assert forall k :: 0 <= k && CrlfAt(next, k) ==> CrlfAt(buf + s, k) && k < i;
        LineOneByOne(next, s[1..], lim, end);
      }
    }
  }

  lemma {:induction false} BytesOneByOne(buf: seq<Byte>, s: seq<Byte>, n: nat, end: End)
    requires |buf| <= n <= |buf + s|
    ensures NextBytes(buf, OneByOne(s), n, end) == Took((buf + s)[..n], [], OneByOne((buf + s)[n..]))
    decreases |s|
  {
    if |buf| == n {
      assert buf == (buf + s)[..n] && buf[n..] == [] && s == (buf + s)[n..];
    } else {
      OneByOneTail(s);
      assert buf + s[..1] + s[1..] == buf + s;
      BytesOneByOne(buf + s[..1], s[1..], n, end);
    }
  }

  lemma {:induction false} LongTrailerOneByOne(s: seq<Byte>, seen: nat, body: seq<Byte>, lim: Limits, end: End)
    requires !ShortTrailers(s, seen, lim)
    ensures DecodeTrailers([], OneByOne(s), seen, body, lim, end) == Bad(LineTooLong)
    decreases |s|
  {
    hide NextLine, FindCrlf, Flat, OneByOne;
    assert [] + s == s;
    LineOneByOne([], s, lim, end);
    var i := FindCrlf(s).value;
    if i < lim.maxLine {
      LongTrailerOneByOne(s[i + 2..], seen + i + 2, body, lim, end);
    }
  }

  /** One chunk of the decoding. */
  lemma DecodeChunk(buf: seq<Byte>, pieces: seq<seq<Byte>>, body: seq<Byte>, lim: Limits, end: End, line: Took, chunk: Took)
    requires line == NextLine(buf, pieces, lim, end) && line.Took?
    requires HeadOf(line.taken, |body|, lim).Chunk?
    requires chunk == NextBytes(line.buf, line.pieces, HeadOf(line.taken, |body|, lim).size + 2, end) && chunk.Took?
    requires CrlfAt(chunk.taken, HeadOf(line.taken, |body|, lim).size)
    ensures Decode(buf, pieces, body, lim, end) ==
      Decode(chunk.buf, chunk.pieces, body + chunk.taken[..HeadOf(line.taken, |body|, lim).size], lim, end)
  {
    hide NextLine, NextBytes, FindCrlf, HeadOf, Flat, DecodeTrailers;
  }

  /** The decoding where no chunk follows. */
  lemma DecodeEnds(buf: seq<Byte>, pieces: seq<seq<Byte>>, body: seq<Byte>, lim: Limits, end: End, line: Took)
    requires line == NextLine(buf, pieces, lim, end)
    ensures line.Failed? ==> Decode(buf, pieces, body, lim, end) == Bad(line.fault)
    ensures line.Took? ==>
      match HeadOf(line.taken, |body|, lim)
      case Refuse(f) => Decode(buf, pieces, body, lim, end) == Bad(f)
      case LastChunk =>
        Decode(buf, pieces, body, lim, end) == DecodeTrailers(line.buf, line.pieces, 0, body, lim, end)
      case Chunk(size) =>
        var chunk := NextBytes(line.buf, line.pieces, size + 2, end);
        && (chunk.Failed? ==> Decode(buf, pieces, body, lim, end) == Bad(chunk.fault))
        && (chunk.Took? && !CrlfAt(chunk.taken, size) ==> Decode(buf, pieces, body, lim, end) == Bad(BadChunkEnd))
  {
    hide NextLine, NextBytes, FindCrlf, HeadOf, Flat, DecodeTrailers;
  }

  /** Where the long line is. */
  lemma LongLineAhead(s: seq<Byte>, read: nat, lim: Limits)
    requires !ShortLines(s, read, lim)
    ensures FindCrlf(s).Some? && FindCrlf(s).value + 2 <= |s|
    ensures var i := FindCrlf(s).value;
      i < lim.maxLine ==>
        match HeadOf(s[..i], read, lim)
        case Refuse(_) => false
        case LastChunk => !ShortTrailers(s[i + 2..], 0, lim)
        case Chunk(size) =>
          var rest := s[i + 2..];
          |rest| >= size + 2 && CrlfAt(rest, size) && !ShortLines(rest[size + 2..], read + size, lim)
  {
    hide FindCrlf, HeadOf, ShortTrailers;
  }

  lemma LineFromEmpty(s: seq<Byte>, lim: Limits, end: End)
    requires FindCrlf(s).Some?
    ensures var i := FindCrlf(s).value;
      NextLine([], OneByOne(s), lim, end) ==
      if i < lim.maxLine then Took(s[..i], [], OneByOne(s[i + 2..])) else Failed(LineTooLong)
  {
    hide NextLine, OneByOne, Flat;
    assert [] + s == s;
    LineOneByOne([], s, lim, end);
  }

  lemma ChunkOneByOne(s: seq<Byte>, body: seq<Byte>, lim: Limits, end: End, line: Took, rest: seq<Byte>, size: nat)
    requires line == NextLine([], OneByOne(s), lim, end) && line.Took? && line.buf == [] && line.pieces == OneByOne(rest)
    requires HeadOf(line.taken, |body|, lim) == Chunk(size) && size + 2 <= |rest| && CrlfAt(rest, size)
    ensures Decode([], OneByOne(s), body, lim, end)
         == Decode([], OneByOne(rest[size + 2..]), body + rest[..size], lim, end)
  {
    hide NextLine, NextBytes, HeadOf, Flat, OneByOne, Decode;
    assert [] + rest == rest;
    BytesOneByOne([], rest, size + 2, end);
    var chunk := NextBytes([], OneByOne(rest), size + 2, end);
    assert chunk == Took(rest[..size + 2], [], OneByOne(rest[size + 2..]));
    SameEnd(chunk.taken, rest, size);
    DecodeChunk([], OneByOne(s), body, lim, end, line, chunk);
  }

  /** A stream with a long line is refused when it arrives byte by byte. */
  lemma {:induction false} LongLineOneByOne(s: seq<Byte>, body: seq<Byte>, lim: Limits, end: End)
    requires !ShortLines(s, |body|, lim)
    ensures Decode([], OneByOne(s), body, lim, end) == Bad(LineTooLong)
    decreases |s|
  {
    hide NextLine, NextBytes, FindCrlf, HeadOf, Flat, OneByOne, Decode, DecodeTrailers, ShortTrailers, ShortLines, CrlfAt;
    LongLineAhead(s, |body|, lim);
    LineFromEmpty(s, lim, end);
    var line := NextLine([], OneByOne(s), lim, end);
    DecodeEnds([], OneByOne(s), body, lim, end, line);
    var i := FindCrlf(s).value;
    if i < lim.maxLine {
      var rest := s[i + 2..];
      match HeadOf(s[..i], |body|, lim)
      case LastChunk => LongTrailerOneByOne(rest, 0, body, lim, end);
      case Chunk(size) =>
        ChunkOneByOne(s, body, lim, end, line, rest, size);
        LongLineOneByOne(rest[size + 2..], body + rest[..size], lim, end);
    }
  }

  /** The stream ends in an unfinished trailer line past the limit. */
  predicate LongTrailerTail(s: seq<Byte>, seen: nat, lim: Limits)
    decreases |s|
  {
    match FindCrlf(s)
    case None => |s| > lim.maxLine
    case Some(i) => i > 0 && seen + i + 2 <= lim.maxLine && LongTrailerTail(s[i + 2..], seen + i + 2, lim)
  }

  /** The stream ends, where a line is read, in an unfinished line past the limit. */
  predicate LongTail(s: seq<Byte>, read: nat, lim: Limits)
    decreases |s|
  {
    match FindCrlf(s)
    case None => |s| > lim.maxLine
    case Some(i) =>
      var rest := s[i + 2..];
      match HeadOf(s[..i], read, lim)
      case Refuse(_) => false
      case LastChunk => LongTrailerTail(rest, 0, lim)
      case Chunk(size) => |rest| >= size + 2 && CrlfAt(rest, size) && LongTail(rest[size + 2..], read + size, lim)
  }

  lemma {:induction false} LongTrailerTailParses(s: seq<Byte>, seen: nat, body: seq<Byte>, lim: Limits, end: End)
    ensures LongTrailerTail(s, seen, lim) <==> ParseTrailers(s, seen, body, lim, end) == Bad(LineTooLong)
    decreases |s|
  {
    hide FindCrlf;
    var r := FindCrlf(s);
    if r.Some? && r.value > 0 && seen + r.value + 2 <= lim.maxLine {
      LongTrailerTailParses(s[r.value + 2..], seen + r.value + 2, body, lim, end);
    }
  }

  /** The one-shot reading calls a line too long exactly for a long tail. */
  lemma {:induction false} LongTailParses(s: seq<Byte>, body: seq<Byte>, lim: Limits, end: End)
    ensures LongTail(s, |body|, lim) <==> Parse(s, body, lim, end) == Bad(LineTooLong)
    decreases |s|
  {
    hide FindCrlf, LongTrailerTail, ParseTrailers, HeadOf;
    var r := FindCrlf(s);
    if r.Some? {
      var rest := s[r.value + 2..];
      match HeadOf(s[..r.value], |body|, lim)
      case Refuse(f) => RefusalIsNotLength(s[..r.value], |body|, lim);
      case LastChunk => LongTrailerTailParses(rest, 0, body, lim, end);
      case Chunk(size) =>
        if |rest| >= size + 2 && CrlfAt(rest, size) {
          LongTailParses(rest[size + 2..], body + rest[..size], lim, end);
        }
    }
  }

  lemma RefusalIsNotLength(line: seq<Byte>, read: nat, lim: Limits)
    ensures HeadOf(line, read, lim) != Refuse(LineTooLong)
  {
  }

  /** A stream as it arrives: what came with the head, which is at most the rest of one read, then the reads. */
  ghost predicate Cuts(buf: seq<Byte>, pieces: seq<seq<Byte>>, s: seq<Byte>) {
    buf + Flat(pieces) == s && |buf| <= READ_SIZE && forall r :: r in pieces ==> |r| <= READ_SIZE
  }

  /** The decoder refines the one-shot reading: every way of cutting the stream gives the one-shot result,
      exactly when each line ended is shorter than the limit or the stream ends in an unfinished line past it. */
  lemma SplitIndependence(s: seq<Byte>, lim: Limits, end: End)
    ensures (forall buf, pieces :: Cuts(buf, pieces, s) ==> Decode(buf, pieces, [], lim, end) == Parse(s, [], lim, end))
       <==> ShortLines(s, 0, lim) || LongTail(s, 0, lim)
  {
    hide Decode, Parse, ShortLines, LongTail;
    LongTailParses(s, [], lim, end);
    if ShortLines(s, 0, lim) || Parse(s, [], lim, end) == Bad(LineTooLong) {
      forall buf, pieces | Cuts(buf, pieces, s)
        ensures Decode(buf, pieces, [], lim, end) == Parse(s, [], lim, end)
      {
        DecodeSplit(buf, pieces, [], lim, end);
      }
    } else {
      LongLineOneByOne(s, [], lim, end);
      assert Cuts([], OneByOne(s), s);
    }
  }

  /** A size line of one digit, before an extension or at its end. */
  lemma OneDigit(d: Byte, more: seq<Byte>)
    requires IsHex(d) && (more == [] || more[0] == SEMICOLON)
    ensures SizeOf([d] + more) == Some(HexValue(d))
  {
    var line := [d] + more;
    assert line[1..] == more;
    assert IsHex(d) ==> d != SEMICOLON;
    assert Digits(line) == [d];
    assert [d][..0] == [];
    assert ParseHex([d]) == HexValue(d);
  }

  // ---- bounds

  lemma {:induction false} TrailersKeepBody(s: seq<Byte>, seen: nat, body: seq<Byte>, lim: Limits, end: End)
    ensures ParseTrailers(s, seen, body, lim, end).Body? ==> ParseTrailers(s, seen, body, lim, end).bytes == body
    decreases |s|
  {
    var r := FindCrlf(s);
    if r.Some? && r.value > 0 && seen + r.value + 2 <= lim.maxLine {
      TrailersKeepBody(s[r.value + 2..], seen + r.value + 2, body, lim, end);
    }
  }

  lemma {:induction false} ParseBounded(s: seq<Byte>, body: seq<Byte>, lim: Limits, end: End)
    requires |body| <= lim.maxBody
    ensures Parse(s, body, lim, end).Body? ==> |Parse(s, body, lim, end).bytes| <= lim.maxBody
    decreases |s|
  {
    hide FindCrlf, ParseTrailers;
    var r := FindCrlf(s);
    if r.Some? {
      var rest := s[r.value + 2..];
      match HeadOf(s[..r.value], |body|, lim)
      case Refuse(_) =>
      case LastChunk => TrailersKeepBody(rest, 0, body, lim, end);
      case Chunk(size) =>
        if |rest| >= size + 2 && CrlfAt(rest, size) {
          ParseBounded(rest[size + 2..], body + rest[..size], lim, end);
        }
    }
  }

  /** No decoded body passes the cap, however it arrives. */
  lemma DecodedBodyIsBounded(buf: seq<Byte>, pieces: seq<seq<Byte>>, lim: Limits, end: End)
    ensures Decode(buf, pieces, [], lim, end).Body? ==> |Decode(buf, pieces, [], lim, end).bytes| <= lim.maxBody
  {
    DecodeSplit(buf, pieces, [], lim, end);
    ParseBounded(buf + Flat(pieces), [], lim, end);
  }
}
