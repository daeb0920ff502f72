/** When two ways of cutting one stream into reads can make the decoder answer differently. A line at or past the
    limit is taken if a single read brings its end, and refused if the buffer passes the limit first. */
module ChunkedCuts {
  import opened Options
  import opened Bytes
  import opened ChunkedBody

  // ---- streams that no cut saves

  /** A line of `i` bytes is further past the limit than one read reaches. */
  predicate OutOfReach(i: nat, lim: Limits) { i + 2 > lim.maxLine + READ_SIZE }

  predicate HopelessTrailers(s: seq<Byte>, seen: nat, lim: Limits)
    decreases |s|
  {
    match FindCrlf(s)
    case None => |s| > lim.maxLine
    case Some(i) =>
      OutOfReach(i, lim) || (i > 0 && seen + i + 2 <= lim.maxLine && HopelessTrailers(s[i + 2..], seen + i + 2, lim))
  }

  /** Reading on comes to a line out of reach, or to an unfinished one past the limit. */
  predicate Hopeless(s: seq<Byte>, read: nat, lim: Limits)
    decreases |s|
  {
    match FindCrlf(s)
    case None => |s| > lim.maxLine
    case Some(i) =>
      OutOfReach(i, lim) ||
      var rest := s[i + 2..];
      match HeadOf(s[..i], read, lim)
      case Refuse(_) => false
      case LastChunk => HopelessTrailers(rest, 0, lim)
      case Chunk(size) => |rest| >= size + 2 && CrlfAt(rest, size) && Hopeless(rest[size + 2..], read + size, lim)
  }

  /** Every read is within its size, and so is what is left over. */
  ghost predicate Sized(buf: seq<Byte>, pieces: seq<seq<Byte>>) {
    |buf| <= READ_SIZE && forall r :: r in pieces ==> |r| <= READ_SIZE
  }

  /** A line taken was in reach, and leaves less than a read. */
  lemma {:induction false} TakenLine(buf: seq<Byte>, pieces: seq<seq<Byte>>, lim: Limits, end: End)
    requires forall r :: r in pieces ==> |r| <= READ_SIZE
    requires |buf| <= READ_SIZE || FindCrlf(buf).None?
    ensures var t := NextLine(buf, pieces, lim, end);
      t.Took? ==> Sized(t.buf, t.pieces) && !OutOfReach(|t.taken|, lim)
    decreases |pieces|
  {
    match FindCrlf(buf)
    case Some(i) =>
    case None =>
      if |buf| <= lim.maxLine && pieces != [] {
        assert pieces[0] in pieces && forall r :: r in pieces[1..] ==> r in pieces;
        var more := buf + pieces[0];
        match FindCrlf(more)
        case Some(i) => assert i + 2 <= |buf| ==> CrlfAt(buf, i);
        case None => TakenLine(more, pieces[1..], lim, end);
      }
  }

  lemma {:induction false} TakenBytes(buf: seq<Byte>, pieces: seq<seq<Byte>>, n: nat, end: End)
    requires (forall r :: r in pieces ==> |r| <= READ_SIZE) && (|buf| <= READ_SIZE || |buf| < n)
    ensures var t := NextBytes(buf, pieces, n, end); t.Took? ==> Sized(t.buf, t.pieces)
    decreases |pieces|
  {
    if |buf| < n && pieces != [] {
      assert pieces[0] in pieces && forall r :: r in pieces[1..] ==> r in pieces;
      if |buf + pieces[0]| < n {
        TakenBytes(buf + pieces[0], pieces[1..], n, end);
      }
    }
  }

  lemma {:induction false} HopelessTrailersFail(buf: seq<Byte>, pieces: seq<seq<Byte>>, seen: nat, body: seq<Byte>,
                                                lim: Limits, end: End)
    requires Sized(buf, pieces) && HopelessTrailers(buf + Flat(pieces), seen, lim)
    ensures DecodeTrailers(buf, pieces, seen, body, lim, end) == Bad(LineTooLong)
    decreases |buf + Flat(pieces)|
  {
    hide NextLine, FindCrlf, Flat;
    NextLineSplits(buf, pieces, lim, end);
    TakenLine(buf, pieces, lim, end);
    var t := NextLine(buf, pieces, lim, end);
    if t.Took? {
      HopelessTrailersFail(t.buf, t.pieces, seen + |t.taken| + 2, body, lim, end);
    }
  }

  /** What a hopeless stream comes to when its first line is taken. */
  lemma HopelessAhead(s: seq<Byte>, read: nat, lim: Limits)
    requires Hopeless(s, read, lim)
    ensures FindCrlf(s).None? ==> |s| > lim.maxLine
    ensures FindCrlf(s).Some? ==> FindCrlf(s).value + 2 <= |s|
    ensures FindCrlf(s).Some? && !OutOfReach(FindCrlf(s).value, lim) ==>
      var i := FindCrlf(s).value;
      var rest := s[i + 2..];
      match HeadOf(s[..i], read, lim)
      case Refuse(_) => false
      case LastChunk => HopelessTrailers(rest, 0, lim)
      case Chunk(size) => |rest| >= size + 2 && CrlfAt(rest, size) && Hopeless(rest[size + 2..], read + size, lim)
  {
    hide FindCrlf, HeadOf, HopelessTrailers;
  }

  /** However it is cut, a hopeless stream is refused for a line too long. */
  lemma {:induction false} HopelessFails(buf: seq<Byte>, pieces: seq<seq<Byte>>, body: seq<Byte>, lim: Limits, end: End)
    requires Sized(buf, pieces) && Hopeless(buf + Flat(pieces), |body|, lim)
    ensures Decode(buf, pieces, body, lim, end) == Bad(LineTooLong)
    decreases |buf + Flat(pieces)|
  {
    hide NextLine, NextBytes, FindCrlf, HeadOf, Flat, Decode, DecodeTrailers, HopelessTrailers, Hopeless, CrlfAt;
    HopelessAhead(buf + Flat(pieces), |body|, lim);
    NextLineSplits(buf, pieces, lim, end);
    TakenLine(buf, pieces, lim, end);
    var t := NextLine(buf, pieces, lim, end);
    DecodeEnds(buf, pieces, body, lim, end, t);
    if t.Took? {
      match HeadOf(t.taken, |body|, lim)
      case LastChunk => HopelessTrailersFail(t.buf, t.pieces, 0, body, lim, end);
      case Chunk(size) =>
        NextBytesSplits(t.buf, t.pieces, size + 2, end);
        TakenBytes(t.buf, t.pieces, size + 2, end);
        var rest, c := t.buf + Flat(t.pieces), NextBytes(t.buf, t.pieces, size + 2, end);
        SameEnd(c.taken, rest, size);
        DecodeChunk(buf, pieces, body, lim, end, t, c);
        assert |body + c.taken[..size]| == |body| + size;
        HopelessFails(c.buf, c.pieces, body + c.taken[..size], lim, end);
    }
  }

  // ---- a cut that takes every line it can

  /** `s` in reads as large as they come. */
  function Chop(s: seq<Byte>): (pieces: seq<seq<Byte>>)
    ensures forall r :: r in pieces ==> |r| <= READ_SIZE
  {
    if s == [] then [] else if |s| <= READ_SIZE then [s] else [s[..READ_SIZE]] + Chop(s[READ_SIZE..])
  }

  lemma FlatNext(first: seq<Byte>, rest: seq<seq<Byte>>)
    ensures Flat([first] + rest) == first + Flat(rest) && Flat([]) == []
  {
    assert ([first] + rest)[1..] == rest;
  }

  lemma {:induction false} FlatJoins(a: seq<seq<Byte>>, b: seq<seq<Byte>>)
    ensures Flat(a + b) == Flat(a) + Flat(b)
  {
    hide Flat;
    if a == [] {
      assert a + b == b;
      FlatNext([], []);
    } else {
      var first, rest := a[0], a[1..];
      FlatJoins(rest, b);
      FlatNext(first, rest);
      FlatNext(first, rest + b);
      assert a == [first] + rest && a + b == [first] + (rest + b);
    }
  }

  lemma {:induction false} ChopIsWhole(s: seq<Byte>)
    ensures Flat(Chop(s)) == s
  {
    if s != [] {
      if |s| <= READ_SIZE {
        assert [s][1..] == [];
      } else {
        ChopIsWhole(s[READ_SIZE..]);
        assert ([s[..READ_SIZE]] + Chop(s[READ_SIZE..]))[1..] == Chop(s[READ_SIZE..]);
      }
    }
  }

  /** The reads of `s` one by one: a first one, then those of the rest. */
  lemma ChopNext(s: seq<Byte>, more: seq<seq<Byte>>) returns (k: nat)
    requires s != []
    ensures 0 < k <= |s| && Chop(s) + more != []
    ensures (Chop(s) + more)[0] == s[..k] && (Chop(s) + more)[1..] == Chop(s[k..]) + more
  {
    k := if |s| <= READ_SIZE then |s| else READ_SIZE;
    assert |s| <= READ_SIZE ==> s[..k] == s && s[k..] == [];
    assert Chop(s) == [s[..k]] + Chop(s[k..]);
  }

  lemma ChopOfNothing(more: seq<seq<Byte>>)
    ensures Chop([]) + more == more
  {
  }

  /** Bytes without the end of a line, within the limit, are read through. */
  lemma {:induction false} LineReadsOn(buf: seq<Byte>, s: seq<Byte>, more: seq<seq<Byte>>, lim: Limits, end: End)
    requires FindCrlf(buf + s).None? && |buf + s| <= lim.maxLine
    ensures NextLine(buf, Chop(s) + more, lim, end) == NextLine(buf + s, more, lim, end)
    decreases |s|
  {
    hide Chop, FindCrlf;
    if s == [] {
      assert buf + s == buf;
      ChopOfNothing(more);
    } else {
      var k := ChopNext(s, more);
      NoneInFront(buf, s);
      assert buf + s[..k] + s[k..] == buf + s;
      LineReadsOn(buf + s[..k], s[k..], more, lim, end);
    }
  }

  lemma NoneInFront(a: seq<Byte>, b: seq<Byte>)
    requires FindCrlf(a + b).None?
    ensures FindCrlf(a).None?
  {
    assert FindCrlf(a).Some? ==> CrlfAt(a + b, FindCrlf(a).value);
  }

  lemma {:induction false} BytesReadOn(buf: seq<Byte>, s: seq<Byte>, more: seq<seq<Byte>>, end: End)
    ensures NextBytes(buf, Chop(s) + more, |buf + s|, end) == Took(buf + s, [], more)
    decreases |s|
  {
    hide Chop;
    if s == [] {
      assert buf + s == buf && buf[..|buf|] == buf && buf[|buf|..] == [];
      ChopOfNothing(more);
    } else {
      var k := ChopNext(s, more);
      assert buf + s[..k] + s[k..] == buf + s;
      BytesReadOn(buf + s[..k], s[k..], more, end);
    }
  }

  /** A line and its end: up to the limit in any reads, and what is past it in one. */
  function LinePieces(line: seq<Byte>, lim: Limits): seq<seq<Byte>> {
    var k := if |line| < lim.maxLine then |line| else lim.maxLine;
    Chop(line[..k]) + [line[k..] + [CR, LF]]
  }

  lemma LinePiecesTake(line: seq<Byte>, after: seq<Byte>, more: seq<seq<Byte>>, lim: Limits, end: End)
    requires FindCrlf(line + [CR, LF] + after) == Some(|line|)
    ensures NextLine([], LinePieces(line, lim) + more, lim, end) == Took(line, [], more)
  {
    hide Chop, NextLine;
    var k := if |line| < lim.maxLine then |line| else lim.maxLine;
    var front, back := line[..k], line[k..] + [CR, LF];
    LineParts(line, after, k);
    hide FindCrlf;
    Regroup(Chop(front), back, more);
    var none: seq<Byte> := [];
    assert none + front == front;
    LineReadsOn([], front, [back] + more, lim, end);
    LastRead(front, back, more, lim, end);
    LineOf(line, k);
  }

  lemma LineOf(line: seq<Byte>, k: nat)
    requires k <= |line|
    ensures var whole := line[..k] + (line[k..] + [CR, LF]); whole[..|line|] == line && whole[|line| + 2..] == []
  {
    assert line[..k] + (line[k..] + [CR, LF]) == line + [CR, LF];
  }

  lemma Regroup(a: seq<seq<Byte>>, b: seq<Byte>, c: seq<seq<Byte>>)
    ensures a + [b] + c == a + ([b] + c)
  {
  }

  /** The read that brings the end of a line. */
  lemma LastRead(front: seq<Byte>, back: seq<Byte>, more: seq<seq<Byte>>, lim: Limits, end: End)
    requires FindCrlf(front).None? && |front| <= lim.maxLine && FindCrlf(front + back).Some?
    ensures var i := FindCrlf(front + back).value;
      NextLine(front, [back] + more, lim, end) == Took((front + back)[..i], (front + back)[i + 2..], more)
  {
    hide FindCrlf;
    var brought := [back] + more;
    assert brought[0] == back && brought[1..] == more;
  }

  /** The front of a line holds no end of it, and the whole of it ends it. */
  lemma LineParts(line: seq<Byte>, after: seq<Byte>, k: nat)
    requires k <= |line| && FindCrlf(line + [CR, LF] + after) == Some(|line|)
    ensures FindCrlf(line[..k]).None?
    ensures FindCrlf(line[..k] + (line[k..] + [CR, LF])) == Some(|line|)
  {
    var s, whole := line + [CR, LF] + after, line + [CR, LF];
    assert line[..k] + (line[k..] + [CR, LF]) == whole;
    assert forall i: nat :: CrlfAt(line[..k], i) ==> CrlfAt(s, i) && i < |line|;
    assert CrlfAt(whole, |line|) && forall i :: 0 <= i < |line| ==> CrlfAt(whole, i) == CrlfAt(s, i);
    FirstCrlf(whole, |line|);
  }

  lemma LinePiecesFlat(line: seq<Byte>, lim: Limits)
    ensures Flat(LinePieces(line, lim)) == line + [CR, LF]
    ensures !OutOfReach(|line|, lim) ==> forall r :: r in LinePieces(line, lim) ==> |r| <= READ_SIZE
  {
    hide Chop;
    var k := if |line| < lim.maxLine then |line| else lim.maxLine;
    var front, back := line[..k], line[k..] + [CR, LF];
    var only := [back];
    FlatJoins(Chop(front), only);
    ChopIsWhole(front);
    assert only[1..] == [] && Flat(only) == back;
    assert front + back == line + [CR, LF];
  }

  function KindTrailers(s: seq<Byte>, seen: nat, lim: Limits): seq<seq<Byte>>
    decreases |s|
  {
    match FindCrlf(s)
    case None => Chop(s)
    case Some(i) =>
      var rest := s[i + 2..];
      LinePieces(s[..i], lim) +
        if i > 0 && seen + i + 2 <= lim.maxLine then KindTrailers(rest, seen + i + 2, lim) else Chop(rest)
  }

  /** The cut that brings every line so that it is taken, if it is in reach. */
  function Kind(s: seq<Byte>, read: nat, lim: Limits): seq<seq<Byte>>
    decreases |s|
  {
    match FindCrlf(s)
    case None => Chop(s)
    case Some(i) => LinePieces(s[..i], lim) + KindRest(s[i + 2..], HeadOf(s[..i], read, lim), read, lim)
  }

  /** The same after a size line. */
  function KindRest(rest: seq<Byte>, head: Head, read: nat, lim: Limits): seq<seq<Byte>>
    decreases |rest|, 0
  {
    match head
    case Refuse(_) => Chop(rest)
    case LastChunk => KindTrailers(rest, 0, lim)
    case Chunk(size) =>
      if |rest| < size + 2 then Chop(rest)
      else
        Chop(rest[..size + 2]) +
          if CrlfAt(rest, size) then Kind(rest[size + 2..], read + size, lim) else Chop(rest[size + 2..])
  }

  /** The pieces make up the stream, each within a read. */
  ghost predicate Makes(pieces: seq<seq<Byte>>, s: seq<Byte>) {
    Flat(pieces) == s && forall r :: r in pieces ==> |r| <= READ_SIZE
  }

  lemma ChopMakes(s: seq<Byte>)
    ensures Makes(Chop(s), s)
  {
    hide Chop, Flat;
    ChopIsWhole(s);
  }

  lemma MakesBoth(a: seq<seq<Byte>>, s: seq<Byte>, b: seq<seq<Byte>>, t: seq<Byte>)
    requires Makes(a, s) && Makes(b, t)
    ensures Makes(a + b, s + t)
  {
    hide Flat;
    FlatJoins(a, b);
  }

  lemma LineMakes(s: seq<Byte>, lim: Limits)
    requires FindCrlf(s).Some? && !OutOfReach(FindCrlf(s).value, lim)
    ensures var i := FindCrlf(s).value; Makes(LinePieces(s[..i], lim), s[..i + 2]) && s == s[..i + 2] + s[i + 2..]
  {
    hide LinePieces, Flat;
    var i := FindCrlf(s).value;
    LinePiecesFlat(s[..i], lim);
    assert s[..i + 2] == s[..i] + [CR, LF];
  }

  lemma {:induction false} KindTrailersMake(s: seq<Byte>, seen: nat, lim: Limits)
    requires !HopelessTrailers(s, seen, lim)
    ensures Makes(KindTrailers(s, seen, lim), s)
    decreases |s|
  {
    hide FindCrlf, Chop, LinePieces, Makes, CrlfAt;
    match FindCrlf(s)
    case None => ChopMakes(s);
    case Some(i) =>
      LineFits(s);
      LineMakes(s, lim);
      var rest := s[i + 2..];
      if i > 0 && seen + i + 2 <= lim.maxLine {
        KindTrailersMake(rest, seen + i + 2, lim);
        MakesBoth(LinePieces(s[..i], lim), s[..i + 2], KindTrailers(rest, seen + i + 2, lim), rest);
      } else {
        ChopMakes(rest);
        MakesBoth(LinePieces(s[..i], lim), s[..i + 2], Chop(rest), rest);
      }
  }

  lemma {:induction false} KindMakes(s: seq<Byte>, read: nat, lim: Limits)
    requires !Hopeless(s, read, lim)
    ensures Makes(Kind(s, read, lim), s)
    decreases |s|
  {
    hide FindCrlf, HeadOf, Chop, LinePieces, Makes, KindTrailers, HopelessTrailers, CrlfAt;
    match FindCrlf(s)
    case None => ChopMakes(s);
    case Some(i) =>
      LineMakes(s, lim);
      LineFits(s);
      var rest, head := s[i + 2..], HeadOf(s[..i], read, lim);
      match head {
        case Refuse(_) => ChopMakes(rest);
        case LastChunk => KindTrailersMake(rest, 0, lim);
        case Chunk(size) =>
          if |rest| < size + 2 {
            ChopMakes(rest);
          } else {
            var next := rest[size + 2..];
            ChopMakes(rest[..size + 2]);
            if CrlfAt(rest, size) {
              KindMakes(next, read + size, lim);
              MakesBoth(Chop(rest[..size + 2]), rest[..size + 2], Kind(next, read + size, lim), next);
            } else {
              ChopMakes(next);
              MakesBoth(Chop(rest[..size + 2]), rest[..size + 2], Chop(next), next);
            }
            assert rest == rest[..size + 2] + next;
          }
      }
      MakesBoth(LinePieces(s[..i], lim), s[..i + 2], KindRest(rest, head, read, lim), rest);
  }

  lemma LineFits(s: seq<Byte>)
    requires FindCrlf(s).Some?
    ensures FindCrlf(s).value + 2 <= |s|
  {
  }

  // ---- and takes them

  /** A stream without the end of a line, within the limit, ends there. */
  lemma UnfinishedLine(s: seq<Byte>, lim: Limits, end: End)
    requires FindCrlf(s).None? && |s| <= lim.maxLine
    ensures NextLine([], Chop(s), lim, end) == Failed(Ended(end))
  {
    hide Chop, FindCrlf;
    var none: seq<Byte> := [];
    assert none + s == s && Chop(s) + [] == Chop(s);
    LineReadsOn([], s, [], lim, end);
  }

  lemma FirstLine(s: seq<Byte>, more: seq<seq<Byte>>, lim: Limits, end: End)
    requires FindCrlf(s).Some?
    ensures var i := FindCrlf(s).value; NextLine([], LinePieces(s[..i], lim) + more, lim, end) == Took(s[..i], [], more)
  {
    hide NextLine, LinePieces;
    var i := FindCrlf(s).value;
    assert s == s[..i] + [CR, LF] + s[i + 2..];
    LinePiecesTake(s[..i], s[i + 2..], more, lim, end);
  }

  lemma {:induction false} KindTrailersDecode(s: seq<Byte>, seen: nat, body: seq<Byte>, lim: Limits, end: End)
    requires !HopelessTrailers(s, seen, lim)
    ensures DecodeTrailers([], KindTrailers(s, seen, lim), seen, body, lim, end) == ParseTrailers(s, seen, body, lim, end)
    decreases |s|
  {
    hide NextLine, FindCrlf, Flat, Chop, LinePieces;
    match FindCrlf(s)
    case None => UnfinishedLine(s, lim, end);
    case Some(i) =>
      LineFits(s);
      var rest := s[i + 2..];
      if i > 0 && seen + i + 2 <= lim.maxLine {
        FirstLine(s, KindTrailers(rest, seen + i + 2, lim), lim, end);
        KindTrailersDecode(rest, seen + i + 2, body, lim, end);
      } else {
        FirstLine(s, Chop(rest), lim, end);
      }
  }

  /** On that cut the decoder gives what the one-shot reading gives. */
  lemma {:induction false} KindDecodes(s: seq<Byte>, body: seq<Byte>, lim: Limits, end: End)
    requires !Hopeless(s, |body|, lim)
    ensures Decode([], Kind(s, |body|, lim), body, lim, end) == Parse(s, body, lim, end)
    decreases |s|
  {
    hide NextLine, NextBytes, FindCrlf, HeadOf, Flat, Chop, LinePieces, Decode, DecodeTrailers, KindTrailers, ParseTrailers,
      HopelessTrailers, CrlfAt;
    var pieces := Kind(s, |body|, lim);
    match FindCrlf(s)
    case None =>
      UnfinishedLine(s, lim, end);
      DecodeEnds([], pieces, body, lim, end, NextLine([], pieces, lim, end));
    case Some(i) =>
      LineFits(s);
      var rest, head := s[i + 2..], HeadOf(s[..i], |body|, lim);
      var more := KindRest(rest, head, |body|, lim);
      FirstLine(s, more, lim, end);
      var line := NextLine([], pieces, lim, end);
      DecodeEnds([], pieces, body, lim, end, line);
      match head {
        case Refuse(_) =>
        case LastChunk => KindTrailersDecode(rest, 0, body, lim, end);
        case Chunk(size) =>
          KindChunk(rest, size, |body|, lim, end);
          if |rest| >= size + 2 && CrlfAt(rest, size) {
            var chunk := NextBytes([], more, size + 2, end);
            SameEnd(chunk.taken, rest, size);
            DecodeChunk([], pieces, body, lim, end, line, chunk);
            assert |body + rest[..size]| == |body| + size;
            KindDecodes(rest[size + 2..], body + rest[..size], lim, end);
          } else if |rest| >= size + 2 {
            SameEnd(rest[..size + 2], rest, size);
          }
      }
  }

  lemma KindChunk(rest: seq<Byte>, size: nat, read: nat, lim: Limits, end: End)
    ensures var t := NextBytes([], KindRest(rest, Chunk(size), read, lim), size + 2, end);
      if |rest| < size + 2 then t == Failed(Ended(end))
      else t == Took(rest[..size + 2], [],
                     if CrlfAt(rest, size) then Kind(rest[size + 2..], read + size, lim) else Chop(rest[size + 2..]))
  {
    hide NextBytes, Chop, Flat, Kind, CrlfAt;
    var none: seq<Byte> := [];
    if |rest| < size + 2 {
      ChopIsWhole(rest);
      NextBytesSplits([], Chop(rest), size + 2, end);
      assert none + rest == rest;
    } else {
      var more := if CrlfAt(rest, size) then Kind(rest[size + 2..], read + size, lim) else Chop(rest[size + 2..]);
      assert none + rest[..size + 2] == rest[..size + 2];
      BytesReadOn([], rest[..size + 2], more, end);
    }
  }

  // ---- the law

  /** A stream that is not hopeless does not end in an unfinished line past the limit. */
  lemma {:induction false} LongTrailerTailIsHopeless(s: seq<Byte>, seen: nat, lim: Limits)
    requires LongTrailerTail(s, seen, lim)
    ensures HopelessTrailers(s, seen, lim)
    decreases |s|
  {
    hide FindCrlf;
    match FindCrlf(s)
    case None =>
    case Some(i) => LineFits(s); LongTrailerTailIsHopeless(s[i + 2..], seen + i + 2, lim);
  }

  lemma {:induction false} LongTailIsHopeless(s: seq<Byte>, read: nat, lim: Limits)
    requires LongTail(s, read, lim)
    ensures Hopeless(s, read, lim)
    decreases |s|
  {
    hide FindCrlf, HeadOf, LongTrailerTail, HopelessTrailers;
    match FindCrlf(s)
    case None =>
    case Some(i) =>
      LineFits(s);
      match HeadOf(s[..i], read, lim)
      case LastChunk => LongTrailerTailIsHopeless(s[i + 2..], 0, lim);
      case Chunk(size) => LongTailIsHopeless(s[i + 2..][size + 2..], read + size, lim);
  }

  /** All cuts of the stream give one result. */
  ghost predicate CutsAgree(s: seq<Byte>, lim: Limits, end: End) {
    forall buf, pieces, buf', pieces' :: Cuts(buf, pieces, s) && Cuts(buf', pieces', s) ==>
      Decode(buf, pieces, [], lim, end) == Decode(buf', pieces', [], lim, end)
  }

  /** The law of cutting: all ways of cutting a stream give one result if and only if every line that ends is
      shorter than the limit, or the stream is hopeless. */
  lemma CutsAgreeIff(s: seq<Byte>, lim: Limits, end: End)
    ensures CutsAgree(s, lim, end) <==> ShortLines(s, 0, lim) || Hopeless(s, 0, lim)
  {
    hide Decode, Parse, ShortLines, Hopeless, Flat;
    if ShortLines(s, 0, lim) || Hopeless(s, 0, lim) {
      forall buf, pieces | Cuts(buf, pieces, s)
        ensures Decode(buf, pieces, [], lim, end) ==
          if Hopeless(s, 0, lim) then Bad(LineTooLong) else Parse(s, [], lim, end)
      {
        if Hopeless(s, 0, lim) {
          HopelessFails(buf, pieces, [], lim, end);
        } else {
          DecodeSplit(buf, pieces, [], lim, end);
        }
      }
    } else {
      CutsDiffer(s, lim, end);
    }
  }

  /** A stream with a line past the limit and in reach: byte by byte it is refused, and another cut gives what the
      one-shot reading gives. */
  lemma CutsDiffer(s: seq<Byte>, lim: Limits, end: End)
    requires !ShortLines(s, 0, lim) && !Hopeless(s, 0, lim)
    ensures Cuts([], OneByOne(s), s) && Decode([], OneByOne(s), [], lim, end) == Bad(LineTooLong)
    ensures Cuts([], Kind(s, 0, lim), s)
    ensures Decode([], Kind(s, 0, lim), [], lim, end) == Parse(s, [], lim, end) != Bad(LineTooLong)
  {
    hide Decode, Parse, ShortLines, Hopeless, Flat, Kind, LongTail, OneByOne;
    LongLineOneByOne(s, [], lim, end);
    KindMakes(s, 0, lim);
    KindDecodes(s, [], lim, end);
    LongTailParses(s, [], lim, end);
    if LongTail(s, 0, lim) {
      LongTailIsHopeless(s, 0, lim);
    }
    var none: seq<Byte> := [];
    assert none + s == s;
  }

  /** A size line of exactly `n` bytes: the digit one and an extension. */
  function LongSizeLine(n: nat): seq<Byte>
    requires n >= 2
  {
    [49, 59] + seq(n - 2, i => 101)
  }

  /** A chunk of one byte, then the last chunk. */
  const ONE_BYTE: seq<Byte> := [65, 13, 10, 48, 13, 10, 13, 10]

  /** Whatever the limits, a body of one byte under a size line as long as the limit is refused or taken by how it
      is cut. */
  lemma CutsDecide(lim: Limits, end: End)
    requires lim.maxLine >= 2 && lim.maxBody >= 1
    ensures var s := LongSizeLine(lim.maxLine) + [CR, LF] + ONE_BYTE;
      && Cuts([], OneByOne(s), s) && Decode([], OneByOne(s), [], lim, end) == Bad(LineTooLong)
      && Cuts([], Kind(s, 0, lim), s) && Decode([], Kind(s, 0, lim), [], lim, end) == Body([65])
  {
    hide Decode, Parse, ShortLines, Hopeless, Kind, OneByOne, LongSizeLine;
    LongSizeLineReads(lim, end);
    CutsDiffer(LongSizeLine(lim.maxLine) + [CR, LF] + ONE_BYTE, lim, end);
  }

  lemma LongSizeLineReads(lim: Limits, end: End)
    requires lim.maxLine >= 2 && lim.maxBody >= 1
    ensures var s := LongSizeLine(lim.maxLine) + [CR, LF] + ONE_BYTE;
      !ShortLines(s, 0, lim) && !Hopeless(s, 0, lim) && Parse(s, [], lim, end) == Body([65])
  {
    hide FindCrlf, HeadOf, ParseTrailers, HopelessTrailers;
    var line := LongSizeLine(lim.maxLine);
    var s := line + [CR, LF] + ONE_BYTE;
    SizeLineEnds(lim.maxLine, lim);
    assert s[..|line|] == line && s[|line| + 2..] == ONE_BYTE;
    var last: seq<Byte> := [48, 13, 10, 13, 10];
    assert ONE_BYTE[1 + 2..] == last && ONE_BYTE[..1] == [65] && CrlfAt(ONE_BYTE, 1);
    LastChunkReads([65], lim, end);
    var none: seq<Byte> := [];
    assert none + [65] == [65];
  }

  lemma SizeLineEnds(n: nat, lim: Limits)
    requires n >= 2 && lim.maxBody >= 1
    ensures |LongSizeLine(n)| == n && FindCrlf(LongSizeLine(n) + [CR, LF] + ONE_BYTE) == Some(n)
    ensures HeadOf(LongSizeLine(n), 0, lim) == Chunk(1)
  {
    var line := LongSizeLine(n);
    FirstCrlf(line + [CR, LF] + ONE_BYTE, n);
    assert line == [49] + line[1..] && line[1] == SEMICOLON;
    OneDigit(49, line[1..]);
  }

  lemma LastChunkReads(body: seq<Byte>, lim: Limits, end: End)
    requires lim.maxLine >= 2
    ensures var s: seq<Byte> := [48, 13, 10, 13, 10];
      !Hopeless(s, |body|, lim) && Parse(s, body, lim, end) == Body(body)
  {
    var s: seq<Byte>, blank: seq<Byte> := [48, 13, 10, 13, 10], [13, 10];
    FirstCrlf(s, 1);
    FirstCrlf(blank, 0);
    assert s[..1] == [48] && s[3..] == blank;
    OneDigit(48, []);
    assert [48] + [] == [48];
    assert !HopelessTrailers(blank, 0, lim);
  }
}
