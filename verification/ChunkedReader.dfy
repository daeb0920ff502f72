/** The decoder as the listener runs it, over a buffer that grows by socket reads and drains by lines and
    chunks, and the encoder its tests send with. */
module ChunkedReader {
  import opened Options
  import opened Bytes
  import opened ChunkedBody
  import opened ChunkedGrammar

  datatype Outcome<T> = Got(value: T) | Fails(fault: Fault)

  function Larger(a: nat, b: nat): nat { if a > b then a else b }

  /** A connection: what was read and not yet used, and the reads still to come before the stream ends. */
  class Connection {
    var buf: seq<Byte>
    var pending: seq<seq<Byte>>
    const end: End
    /** The most the buffer has held. */
    ghost var peak: nat

    ghost predicate Valid()
      reads this
    {
      |buf| <= peak && forall r :: r in pending ==> |r| <= READ_SIZE
    }

    constructor (start: seq<Byte>, reading: seq<seq<Byte>>, ending: End)
      requires forall r :: r in reading ==> |r| <= READ_SIZE
      ensures Valid() && buf == start && pending == reading && end == ending && peak == |start|
    {
      buf, pending, end, peak := start, reading, ending, |start|;
    }

    /** One read, appended to the buffer; the reason there is none otherwise. */
    method Fill() returns (ended: Option<End>)
      requires Valid()
      modifies this
      ensures Valid()
      ensures old(pending) == [] ==> ended == Some(end) && buf == old(buf) && pending == [] && peak == old(peak)
      ensures old(pending) != [] ==> ended.None? && buf == old(buf) + old(pending)[0] && pending == old(pending)[1..]
      ensures peak == Larger(old(peak), |buf|)
      ensures |buf| <= |old(buf)| + READ_SIZE
    {
      if pending == [] {
        return Some(end);
      }
      assert pending[0] in pending;
      assert forall r :: r in pending[1..] ==> r in pending;
      buf, pending, ended := buf + pending[0], pending[1..], None;
      peak := Larger(peak, |buf|);
    }

    /** Removes and returns the next line, reading more as needed, up to the line limit. */
    method TakeLine(lim: Limits) returns (line: Outcome<seq<Byte>>)
      requires Valid()
      modifies this
      ensures Valid() && peak <= Larger(old(peak), lim.maxLine + READ_SIZE)
      ensures match NextLine(old(buf), old(pending), lim, end)
        case Failed(f) => line == Fails(f)
        case Took(taken, rest, left) => line == Got(taken) && buf == rest && pending == left
    {
      hide FindCrlf;
      while true
        invariant Valid() && peak <= Larger(old(peak), lim.maxLine + READ_SIZE)
        invariant NextLine(buf, pending, lim, end) == NextLine(old(buf), old(pending), lim, end)
        decreases |pending|
      {
        var at := FindCrlf(buf);
        if at.Some? {
          line := Got(buf[..at.value]);
          buf := buf[at.value + 2..];
          return;
        }
        if |buf| > lim.maxLine {
          return Fails(LineTooLong);
        }
        var ended := Fill();
        if ended.Some? {
          return Fails(Ended(ended.value));
        }
      }
    }

    /** Removes and returns the next `n` bytes. */
    method TakeBytes(n: nat) returns (chunk: Outcome<seq<Byte>>)
      requires Valid() && n > 0
      modifies this
      ensures Valid() && peak <= Larger(old(peak), n - 1 + READ_SIZE)
      ensures match NextBytes(old(buf), old(pending), n, end)
        case Failed(f) => chunk == Fails(f)
        case Took(taken, rest, left) => chunk == Got(taken) && buf == rest && pending == left
    {
      while |buf| < n
        invariant Valid() && peak <= Larger(old(peak), n - 1 + READ_SIZE)
        invariant NextBytes(buf, pending, n, end) == NextBytes(old(buf), old(pending), n, end)
        decreases |pending|
      {
        var ended := Fill();
        if ended.Some? {
          return Fails(Ended(ended.value));
        }
      }
      chunk := Got(buf[..n]);
      buf := buf[n..];
    }

    /** Decodes a chunked body. The buffer never holds more than it started with, or one read past the line
        limit or the body cap. */
    method ReadChunked(lim: Limits) returns (result: Decoded)
      requires Valid()
      modifies this
      ensures result == Decode(old(buf), old(pending), [], lim, end)
      ensures ReadsMessages(old(buf + Flat(pending)), lim, result)
      ensures result.Body? ==> |result.bytes| <= lim.maxBody
      ensures peak <= Larger(old(peak), Larger(lim.maxLine, lim.maxBody + 1) + READ_SIZE)
    {
      hide NextLine, NextBytes, HeadOf, FindCrlf, Flat, Decode, DecodeTrailers, ReadsMessages;
      DecodeReadsMessages(buf, pending, lim, end);
      DecodedBodyIsBounded(buf, pending, lim, end);
      var body := [];
      while true
        invariant Valid() && |body| <= lim.maxBody
        invariant peak <= Larger(old(peak), Larger(lim.maxLine, lim.maxBody + 1) + READ_SIZE)
        invariant Decode(buf, pending, body, lim, end) == Decode(old(buf), old(pending), [], lim, end)
        decreases |buf + Flat(pending)|
      {
        NextLineSplits(buf, pending, lim, end);
        ghost var taken, buf0, pending0 := NextLine(buf, pending, lim, end), buf, pending;
        DecodeEnds(buf, pending, body, lim, end, taken);
        var line := TakeLine(lim);
        if line.Fails? {
          return Bad(line.fault);
        }
        match HeadOf(line.value, |body|, lim) {
          case Refuse(f) =>
            return Bad(f);
          case LastChunk =>
            result := ReadTrailers(body, lim);
            return;
          case Chunk(size) =>
            NextBytesSplits(buf, pending, size + 2, end);
            ghost var bytes := NextBytes(buf, pending, size + 2, end);
            var chunk := TakeBytes(size + 2);
            if chunk.Fails? {
              return Bad(chunk.fault);
            }
            if !CrlfAt(chunk.value, size) {
              return Bad(BadChunkEnd);
            }
            DecodeChunk(buf0, pending0, body, lim, end, taken, bytes);
            assert |buf + Flat(pending)| < |buf0 + Flat(pending0)|;
            body := body + chunk.value[..size];
        }
      }
    }

    /** Reads and drops the trailers. */
    method ReadTrailers(body: seq<Byte>, lim: Limits) returns (result: Decoded)
      requires Valid()
      modifies this
      ensures result == DecodeTrailers(old(buf), old(pending), 0, body, lim, end)
      ensures Valid() && peak <= Larger(old(peak), lim.maxLine + READ_SIZE)
    {
      hide NextLine, FindCrlf, Flat;
      var trailers: nat := 0;
      while true
        invariant Valid() && peak <= Larger(old(peak), lim.maxLine + READ_SIZE)
        invariant DecodeTrailers(buf, pending, trailers, body, lim, end)
               == DecodeTrailers(old(buf), old(pending), 0, body, lim, end)
        decreases |buf + Flat(pending)|
      {
        NextLineSplits(buf, pending, lim, end);
        var line := TakeLine(lim);
        if line.Fails? {
          return Bad(line.fault);
        }
        if line.value == [] {
          return Body(body);
        }
        trailers := trailers + |line.value| + 2;
        if trailers > lim.maxLine {
          return Bad(TrailersTooLarge);
        }
      }
    }
  }

  // ---- the encoder

  /** `n` in lower-case hex without leading zeros. */
  function Hex(n: nat): (d: seq<Byte>)
    ensures d != [] && AllHex(d) && CR !in d && SEMICOLON !in d
    ensures ParseHex(d) == n
  {
    var last: Byte := if n % 16 < 10 then 48 + n % 16 else 87 + n % 16;
    if n < 16 then
      assert [last][..0] == [];
      [last]
    else
      var init := Hex(n / 16);
      assert (init + [last])[..|init|] == init;
      init + [last]
  }

  /** A smaller number is not written longer. */
  lemma {:induction false} HexGrows(m: nat, n: nat)
    requires m <= n
    ensures |Hex(m)| <= |Hex(n)|
    decreases n
  {
    if m >= 16 {
      HexGrows(m / 16, n / 16);
    }
  }

  /** The last chunk and the empty trailer section. */
  const FINAL: seq<Byte> := [48, CR, LF, CR, LF]

  function Part(body: seq<Byte>, piece: nat): (n: nat)
    requires body != []
    ensures 0 < n <= |body|
  {
    var p := if piece == 0 then 1 else piece;
    if p < |body| then p else |body|
  }

  /** `body` in chunks of `piece` bytes (of one, when `piece` is 0). */
  function Encoded(body: seq<Byte>, piece: nat): seq<Byte> {
    if body == [] then FINAL
    else
      var n := Part(body, piece);
      Hex(n) + CRLF + (body[..n] + CRLF + Encoded(body[n..], piece))
  }

  method Encode(body: seq<Byte>, piece: nat) returns (out: seq<Byte>)
    ensures out == Encoded(body, piece)
  {
    out := [];
    var rest := body;
    while rest != []
      invariant out + Encoded(rest, piece) == Encoded(body, piece)
      decreases |rest|
    {
      var n := Part(rest, piece);
      ghost var left := Encoded(rest[n..], piece);
      assert out + (Hex(n) + CRLF + (rest[..n] + CRLF + left)) == out + Hex(n) + CRLF + rest[..n] + CRLF + left;
      out := out + Hex(n) + CRLF + rest[..n] + CRLF;
      rest := rest[n..];
    }
    out := out + FINAL;
  }

  lemma {:induction false} NoExtension(line: seq<Byte>)
    requires SEMICOLON !in line
    ensures Digits(line) == line
  {
    if line != [] {
      assert SEMICOLON !in line[1..] by { assert forall b :: b in line[1..] ==> b in line; }
      NoExtension(line[1..]);
    }
  }

  /** A number as written is a size line that spells it. */
  lemma HexSpells(n: nat)
    requires |Hex(n)| <= 15
    ensures Spells(Hex(n), n) && OneLine(Hex(n))
  {
    hide Spells, Hex;
    NoExtension(Hex(n));
    SizeIsSpelled(Hex(n), n);
    forall k | 0 <= k < |Hex(n)| ensures Hex(n)[k] != CR { assert Hex(n)[k] in Hex(n); }
  }

  lemma ZeroSpells()
    ensures Spells([48], 0) && OneLine([48])
  {
    hide Spells, OneLine;
    assert Hex(0) == [48];
    HexSpells(0);
  }

  // ---- the encoding is a message

  /** `chunks` are `body` cut every `piece` bytes, each under its size. */
  ghost predicate CutEvery(chunks: seq<Piece>, body: seq<Byte>, piece: nat) {
    && Data(chunks) == body
    && (forall i :: 0 <= i < |chunks| ==> chunks[i].line == Hex(|chunks[i].data|) && 0 < |chunks[i].data| <= Larger(piece, 1))
    && (forall i :: 0 <= i < |chunks| - 1 ==> |chunks[i].data| == Larger(piece, 1))
  }

  lemma {:induction false} EncodedIsMessage(body: seq<Byte>, piece: nat) returns (chunks: seq<Piece>)
    ensures CutEvery(chunks, body, piece)
    ensures Encoded(body, piece) == MessageText(Message(chunks, [48], []))
    decreases |body|
  {
    hide Hex, MessageText, CutEvery;
    if body == [] {
      chunks := [];
      NoChunks(piece);
    } else {
      var n := Part(body, piece);
      var more := EncodedIsMessage(body[n..], piece);
      chunks := [Piece(Hex(n), body[..n])] + more;
      CutOnce(body, piece, more);
      ConsText(Piece(Hex(n), body[..n]), more);
    }
  }

  lemma NoChunks(piece: nat)
    ensures CutEvery([], [], piece) && FINAL == MessageText(Message([], [48], []))
  {
    assert [48] + CRLF + CRLF == FINAL;
    OnlyLast([48], [], []);
  }

  lemma CutOnce(body: seq<Byte>, piece: nat, more: seq<Piece>)
    requires body != [] && CutEvery(more, body[Part(body, piece)..], piece)
    ensures var n := Part(body, piece); CutEvery([Piece(Hex(n), body[..n])] + more, body, piece)
  {
    hide Hex;
    var n := Part(body, piece);
    assert ([Piece(Hex(n), body[..n])] + more)[1..] == more;
    assert body == body[..n] + body[n..];
    if more == [] { assert body[n..] == []; }
  }

  lemma ConsText(p: Piece, more: seq<Piece>)
    ensures MessageText(Message([p] + more, [48], [])) == p.line + CRLF + (p.data + CRLF + MessageText(Message(more, [48], [])))
  {
    assert ([p] + more)[1..] == more;
  }

  /** No size line of the encoding is longer than `most`: the first is the longest. */
  predicate SizesFit(body: seq<Byte>, piece: nat, most: int) {
    body != [] ==> |Hex(Part(body, piece))| <= most
  }

  lemma MessageFits(chunks: seq<Piece>, body: seq<Byte>, piece: nat, lim: Limits)
    requires CutEvery(chunks, body, piece)
    requires SizesFit(body, piece, 15) && SizesFit(body, piece, lim.maxLine - 1) && lim.maxLine > 1
    ensures var m := Message(chunks, [48], []); MessageOk(m) && LinesBelow(m, lim.maxLine)
  {
    hide Hex, Spells, OneLine, Data;
    ZeroSpells();
    forall i | 0 <= i < |chunks| ensures PieceOk(chunks[i]) && |chunks[i].line| < lim.maxLine {
      var n := |chunks[i].data|;
      DataHolds(chunks, i);
      HexGrows(n, Part(body, piece));
      HexSpells(n);
    }
  }

  lemma {:induction false} DataHolds(chunks: seq<Piece>, i: nat)
    requires i < |chunks|
    ensures |chunks[i].data| <= |Data(chunks)|
  {
    if i > 0 { DataHolds(chunks[1..], i - 1); }
  }

  /** Chunked round trip: every body within the cap comes back from its encoding whole, for every chunk size
      and every way the stream is cut into reads, and a longer one is refused as too large. */
  lemma RoundTrip(body: seq<Byte>, piece: nat, tail: seq<Byte>, buf: seq<Byte>, pieces: seq<seq<Byte>>, lim: Limits,
                  end: End)
    requires buf + Flat(pieces) == Encoded(body, piece) + tail
    requires SizesFit(body, piece, 15) && SizesFit(body, piece, lim.maxLine - 1) && lim.maxLine > 1
    ensures Decode(buf, pieces, [], lim, end) == if |body| <= lim.maxBody then Body(body) else Bad(BodyTooLarge)
  {
    hide Decode, Encoded, MessageText, MessageOk, LinesBelow;
    var chunks := EncodedIsMessage(body, piece);
    MessageFits(chunks, body, piece, lim);
    MessageDecodes(Message(chunks, [48], []), tail, buf, pieces, lim, end);
  }
}
