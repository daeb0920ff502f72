/** A request body handed to a streaming handler: what arrived with the head, then the socket, up to the
    announced length. */
module BodyReader {
  import opened Bytes

  /** What the socket does when asked: brings up to `more + 1` bytes of what is left
      of the stream, fails to in time, or breaks. */
  datatype Attempt = Arrives(more: nat) | Stalls | Breaks

  datatype ReadResult = Read(n: nat) | TimedOut | UnexpectedEof | Broken

  function Least(a: nat, b: nat): nat { if a < b then a else b }

  class BodyReader {
    var prefix: seq<Byte>
    var left: nat
    /** Bytes the client will still send before it hangs up. */
    var stream: seq<Byte>
    var expectsContinue: bool
    /** How often the client was told to go on. */
    var continues: nat
    /** The announced length, all the client sends after the head, and what reads have delivered of it. */
    ghost const length: nat
    ghost const sent: seq<Byte>
    ghost var delivered: seq<Byte>

    /** What was delivered is what was sent, in order, and never beyond the length. */
    ghost predicate Valid()
      reads this
    {
      && |delivered| + left == length && |prefix| <= left
      && delivered + prefix <= sent
      && (|prefix| < left ==> sent == delivered + prefix + stream)
    }

    constructor (arrived: seq<Byte>, len: nat, rest: seq<Byte>, expects: bool)
      ensures Valid() && length == len && sent == arrived + rest && delivered == [] && expectsContinue == expects && continues == 0
      ensures left == len && stream == rest
    {
      prefix := if |arrived| < len then arrived else arrived[..len];
      left, stream, expectsContinue, continues := len, rest, expects, 0;
      length, sent, delivered := len, arrived + rest, [];
    }

    /** Fills the front of `buf`. A read brings nothing only when asked for nothing or when the body is whole,
        and meets the end of the stream only when all that was sent is delivered and more was announced. */
    method Read(buf: array<Byte>, attempt: Attempt) returns (r: ReadResult)
      requires Valid()
      modifies this, buf
      ensures Valid()
      ensures r.Read? ==> r.n <= buf.Length && delivered == old(delivered) + buf[..r.n]
      ensures r.Read? ==> forall i :: r.n <= i < buf.Length ==> buf[i] == old(buf[i])
      ensures !r.Read? ==> delivered == old(delivered) && buf[..] == old(buf[..])
      ensures r == ReadResult.Read(0) <==> buf.Length == 0 || |old(delivered)| == length
      ensures r.UnexpectedEof? ==> |delivered| < length && delivered == sent
      ensures buf.Length == 0 || old(left) == 0 || old(prefix) != [] ==>
        r.Read? && expectsContinue == old(expectsContinue) && continues == old(continues)
      ensures r.Read? && old(prefix) != [] ==> r.n == Least(buf.Length, |old(prefix)|)
      ensures buf.Length > 0 && old(left) > 0 && old(prefix) == [] ==>
        && !expectsContinue && continues == old(continues) + (if old(expectsContinue) then 1 else 0)
        && (match attempt
            case Stalls => r.TimedOut?
            case Breaks => r.Broken?
            case Arrives(more) =>
              if old(stream) == [] then r.UnexpectedEof?
              else r == ReadResult.Read(Least(Least(more + 1, buf.Length), Least(old(left), |old(stream)|))))
    {
      var want := if buf.Length < left then buf.Length else left;
      if want == 0 {
        return ReadResult.Read(0);
      }
      if prefix != [] {
        var n := Least(want, |prefix|);
        CopyIn(buf, prefix[..n]);
        TakePrefix(n);
        return ReadResult.Read(n);
      }
      r := FromSocket(buf, want, attempt);
    }

    /** Asks the socket for at most `want` bytes; a client that waits to be told is told to go on first. */
    method FromSocket(buf: array<Byte>, want: nat, attempt: Attempt) returns (r: ReadResult)
      requires Valid() && prefix == [] && 0 < want <= buf.Length && want <= left
      modifies this, buf
      ensures Valid() && !expectsContinue && continues == old(continues) + (if old(expectsContinue) then 1 else 0)
      ensures r.Read? ==> r.n <= buf.Length && delivered == old(delivered) + buf[..r.n]
      ensures r.Read? ==> forall i :: r.n <= i < buf.Length ==> buf[i] == old(buf[i])
      ensures !r.Read? ==> delivered == old(delivered) && buf[..] == old(buf[..])
      ensures match attempt
        case Stalls => r.TimedOut?
        case Breaks => r.Broken?
        case Arrives(more) =>
          if old(stream) == [] then r.UnexpectedEof? && delivered == sent
          else r == ReadResult.Read(Least(Least(more + 1, want), |old(stream)|)) && r.n > 0
    {
      if expectsContinue {
        expectsContinue, continues := false, continues + 1;
      }
      match attempt {
        case Stalls =>
          return TimedOut;
        case Breaks =>
          return Broken;
        case Arrives(more) =>
          if stream == [] {
            return UnexpectedEof;
          }
          var n := Least(Least(more + 1, want), |stream|);
          CopyIn(buf, stream[..n]);
          TakeStream(n);
          return ReadResult.Read(n);
      }
    }

    method TakePrefix(n: nat)
      requires Valid() && n <= |prefix|
      modifies this
      ensures Valid() && delivered == old(delivered) + old(prefix)[..n] && left == old(left) - n
      ensures expectsContinue == old(expectsContinue) && continues == old(continues)
    {
      assert prefix == prefix[..n] + prefix[n..];
      delivered := delivered + prefix[..n];
      prefix := prefix[n..];
      left := left - n;
      assert delivered + prefix == old(delivered + prefix);
    }

    method TakeStream(n: nat)
      requires Valid() && prefix == [] && n <= |stream| && n <= left
      modifies this
      ensures Valid() && delivered == old(delivered) + old(stream)[..n] && left == old(left) - n
      ensures expectsContinue == old(expectsContinue) && continues == old(continues)
    {
      assert stream == stream[..n] + stream[n..];
      delivered := delivered + stream[..n];
      stream := stream[n..];
      left := left - n;
      assert n > 0 ==> sent == delivered + stream;
      assert delivered + prefix == delivered;
    }
  }

  method CopyIn(buf: array<Byte>, bytes: seq<Byte>)
    requires |bytes| <= buf.Length
    modifies buf
    ensures buf[..|bytes|] == bytes
    ensures forall i :: |bytes| <= i < buf.Length ==> buf[i] == old(buf[i])
  {
    for k := 0 to |bytes|
      invariant buf[..k] == bytes[..k]
      invariant forall i :: k <= i < buf.Length ==> buf[i] == old(buf[i])
    {
      buf[k] := bytes[k];
    }
  }

  /** Whatever the reads, a body read to its end is the first `length` bytes the client sent. */
  lemma WholeBodyIsThePrefix(reader: BodyReader)
    requires reader.Valid() && |reader.delivered| == reader.length
    ensures reader.length <= |reader.sent| && reader.delivered == reader.sent[..reader.length]
  {
  }
}
