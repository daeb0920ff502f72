/** The URL-safe base 64 of section 5 of RFC 4648, in its canonical unpadded form only. A text and a byte
    string go together when the text's digits, read in base 64, are the bytes, read in base 256,
    followed by fewer than six zero bits. The decoder and the encoder are both proved against that. */
module Base64Url {
  import opened Options
  import opened Bytes

  /** The value of a character of the URL-safe alphabet. */
  function Sextet(c: char): (v: Option<nat>)
    ensures v.Some? ==> v.value < 64
  {
    if 'A' <= c <= 'Z' then Some(c as int - 'A' as int)
    else if 'a' <= c <= 'z' then Some(c as int - 'a' as int + 26)
    else if '0' <= c <= '9' then Some(c as int - '0' as int + 52)
    else if c == '-' then Some(62)
    else if c == '_' then Some(63)
    else None
  }

  /** The character of a value: the alphabet `A-Z a-z 0-9 - _` in order. */
  function Char(v: nat): (c: char)
    requires v < 64
    ensures Sextet(c) == Some(v)
  {
    if v < 26 then ('A' as int + v) as char
    else if v < 52 then ('a' as int + v - 26) as char
    else if v < 62 then ('0' as int + v - 52) as char
    else if v == 62 then '-' else '_'
  }

  lemma SextetInjective(c: char, d: char)
    requires Sextet(c).Some? && Sextet(c) == Sextet(d)
    ensures c == d
  {
  }

  predicate Valid(t: string) {
    forall i :: 0 <= i < |t| ==> Sextet(t[i]).Some?
  }

  function TextValue(t: string): nat
    requires Valid(t)
  {
    if t == "" then 0 else TextValue(t[..|t|-1]) * 64 + Sextet(t[|t|-1]).value
  }

  function ByteValue(b: seq<Byte>): nat {
    if b == [] then 0 else ByteValue(b[..|b|-1]) * 256 + b[|b|-1]
  }

  function Pow2(n: nat): (p: nat)
    ensures p > 0
  {
    if n == 0 then 1 else 2 * Pow2(n - 1)
  }

  /** `t` is the encoding of `b`: the pad is the zero bits after the last byte. */
  ghost predicate EncodesWith(t: string, b: seq<Byte>, pad: nat) {
    Valid(t) && pad < 6 && 6 * |t| == 8 * |b| + pad && TextValue(t) == ByteValue(b) * Pow2(pad)
  }

  ghost predicate Encodes(t: string, b: seq<Byte>) {
    exists pad :: EncodesWith(t, b, pad)
  }

  // ---- the relation is one to one

  lemma {:induction false} ByteValueInjective(a: seq<Byte>, b: seq<Byte>)
    requires |a| == |b| && ByteValue(a) == ByteValue(b)
    ensures a == b
  {
    if a != [] {
      var k := |a| - 1;
      DigitsEqual(ByteValue(a[..k]), a[k], ByteValue(b[..k]), b[k], 256);
      ByteValueInjective(a[..k], b[..k]);
      assert a == a[..k] + [a[k]] && b == b[..k] + [b[k]];
    }
  }

  lemma MulGrows(k: int, base: nat)
    ensures k >= 1 ==> k * base >= base
    ensures k <= -1 ==> k * base + base <= 0
  {
  }

  lemma DigitsEqual(x: nat, d: nat, y: nat, e: nat, base: nat)
    requires d < base && e < base && x * base + d == y * base + e
    ensures x == y && d == e
  {
    assert (x - y) * base == e - d;
    MulGrows(x - y, base);
  }

  lemma {:induction false} TextValueInjective(a: string, b: string)
    requires Valid(a) && Valid(b) && |a| == |b| && TextValue(a) == TextValue(b)
    ensures a == b
  {
    if a != "" {
      var k := |a| - 1;
      DigitsEqual(TextValue(a[..k]), Sextet(a[k]).value, TextValue(b[..k]), Sextet(b[k]).value, 64);
      TextValueInjective(a[..k], b[..k]);
      SextetInjective(a[k], b[k]);
      assert a == a[..k] + [a[k]] && b == b[..k] + [b[k]];
    }
  }

  /** No text encodes two byte strings, and no byte string has two encodings. */
  lemma EncodesIsOneToOne(t: string, b: seq<Byte>, u: string, c: seq<Byte>)
    requires Encodes(t, b) && Encodes(u, c)
    ensures t == u <==> b == c
  {
    var p :| EncodesWith(t, b, p);
    var q :| EncodesWith(u, c, q);
    if t == u {
      assert p == q;
      ScaleEqual(ByteValue(b), ByteValue(c), Pow2(p));
      ByteValueInjective(b, c);
    }
    if b == c {
      assert p == q;
      TextValueInjective(t, u);
    }
  }

  lemma ScaleEqual(x: nat, y: nat, m: nat)
    requires m > 0 && x * m == y * m
    ensures x == y
  {
  }

  // ---- decoding

  lemma TextValueNext(t: string, i: nat)
    requires i < |t| && Valid(t[..i + 1])
    ensures Valid(t[..i]) && TextValue(t[..i + 1]) == TextValue(t[..i]) * 64 + Sextet(t[i]).value
  {
    assert t[..i + 1][..i] == t[..i];
    assert forall k :: 0 <= k < i ==> t[..i][k] == t[..i + 1][k];
  }

  lemma ByteValueNext(b: seq<Byte>, x: Byte)
    ensures ByteValue(b + [x]) == ByteValue(b) * 256 + x
  {
    assert (b + [x])[..|b|] == b;
  }

  /** Six more bits: the accumulator takes them in. */
  lemma TakeSix(text: nat, bytes: nat, acc: nat, bits: nat, v: nat)
    requires text == Joined(bytes, Pow2(bits), acc) && acc < Pow2(bits) && v < 64
    ensures text * 64 + v == Joined(bytes, Pow2(bits + 6), acc * 64 + v)
    ensures acc * 64 + v < Pow2(bits + 6)
  {
    assert Pow2(bits + 6) == 64 * Pow2(bits) by {
      assert Pow2(bits + 6) == 2 * Pow2(bits + 5) && Pow2(bits + 5) == 2 * Pow2(bits + 4);
      assert Pow2(bits + 4) == 2 * Pow2(bits + 3) && Pow2(bits + 3) == 2 * Pow2(bits + 2);
      assert Pow2(bits + 2) == 2 * Pow2(bits + 1);
    }
    assert text * 64 == bytes * Pow2(bits) * 64 + acc * 64;
  }

  /** Eight bits out: the top of the accumulator is the next byte. */
  lemma GiveEight(text: nat, bytes: nat, acc: nat, bits: nat)
    requires text == Joined(bytes, Pow2(bits + 8), acc) && acc < Pow2(bits + 8)
    ensures Above(acc, Pow2(bits)) < 256 && Below(acc, Pow2(bits)) < Pow2(bits)
    ensures text == Joined(bytes * 256 + Above(acc, Pow2(bits)), Pow2(bits), Below(acc, Pow2(bits)))
  {
    var p := Pow2(bits);
    assert Pow2(bits + 8) == 256 * p by {
      assert Pow2(bits + 8) == 2 * Pow2(bits + 7) && Pow2(bits + 7) == 2 * Pow2(bits + 6);
      assert Pow2(bits + 6) == 2 * Pow2(bits + 5) && Pow2(bits + 5) == 2 * Pow2(bits + 4);
      assert Pow2(bits + 4) == 2 * Pow2(bits + 3) && Pow2(bits + 3) == 2 * Pow2(bits + 2);
      assert Pow2(bits + 2) == 2 * Pow2(bits + 1);
    }
    Divided(acc, p, 256);
    assert bytes * (256 * p) == bytes * 256 * p;
  }

  lemma Divided(n: nat, p: nat, m: nat)
    requires p > 0 && n < m * p
    ensures n / p < m && n == n / p * p + n % p
  {
    var q := n / p;
    assert (q - m) * p == q * p - m * p;
    MulGrows(q - m, p);
    assert q * p <= n;
  }

  /** A number by its digits above and below a place. */
  function Joined(hi: nat, place: nat, lo: nat): nat { hi * place + lo }

  function Above(n: nat, place: nat): nat
    requires place > 0
  {
    n / place
  }

  function Below(n: nat, place: nat): nat
    requires place > 0
  {
    n % place
  }

  /** `i` characters in: the bytes given out, and an accumulator of fewer than eight bits. */
  ghost predicate Progress(t: string, i: nat, out: seq<Byte>, acc: nat, bits: nat) {
    && i <= |t| && Valid(t[..i]) && bits < 8 && 6 * i == 8 * |out| + bits
    && acc < Pow2(bits) && TextValue(t[..i]) == Joined(ByteValue(out), Pow2(bits), acc)
  }

  lemma StepProgress(t: string, i: nat, out: seq<Byte>, acc: nat, bits: nat, v: nat)
    requires i < |t| && Progress(t, i, out, acc, bits) && Sextet(t[i]) == Some(v)
    ensures bits < 2 ==> Progress(t, i + 1, out, acc * 64 + v, bits + 6)
    ensures bits >= 2 ==>
      var n := acc * 64 + v; var p := Pow2(bits - 2);
      Above(n, p) < 256 && Progress(t, i + 1, out + [Above(n, p)], Below(n, p), bits - 2)
  {
    hide Pow2, Sextet, ByteValue, TextValue, Joined, Above, Below;
    assert Valid(t[..i + 1]);
    TextValueNext(t, i);
    TakeSix(TextValue(t[..i]), ByteValue(out), acc, bits, v);
    if bits >= 2 {
      var n := acc * 64 + v;
      GiveEight(TextValue(t[..i + 1]), ByteValue(out), n, bits - 2);
      ByteValueNext(out, Above(n, Pow2(bits - 2)));
    }
  }

  lemma StartProgress(t: string)
    ensures Progress(t, 0, [], 0, 0)
  {
  }

  /** The strict decoder: the bytes a text encodes, or nothing when it encodes none. */
  method Decode(t: string) returns (r: Option<seq<Byte>>)
    ensures r.Some? ==> Encodes(t, r.value)
    ensures r.None? ==> forall b :: !Encodes(t, b)
  {
    hide Progress, Sextet, Pow2, Encodes;
    if |t| % 4 == 1 {
      BadLength(t);
      return None;
    }
    var out: seq<Byte> := [];
    var acc: nat, bits: nat := 0, 0;
    StartProgress(t);
    for i := 0 to |t|
      invariant Progress(t, i, out, acc, bits)
    {
      var v := Sextet(t[i]);
      if v.None? {
        NotValid(t, i);
        return None;
      }
      StepProgress(t, i, out, acc, bits, v.value);
      acc := acc * 64 + v.value;
      bits := bits + 6;
      if bits >= 8 {
        bits := bits - 8;
        out := out + [Above(acc, Pow2(bits))];
        acc := Below(acc, Pow2(bits));
      }
    }
    if acc != 0 {
      StrayBits(t, out, acc, bits);
      return None;
    }
    AllBits(t, out, bits);
    r := Some(out);
  }

  lemma BadLength(t: string)
    requires |t| % 4 == 1
    ensures forall b :: !Encodes(t, b)
  {
    forall b ensures !Encodes(t, b) {
      if pad :| EncodesWith(t, b, pad) {
        SixAndEight(|t|, |b|, pad);
      }
    }
  }

  lemma SixAndEight(n: nat, m: nat, pad: nat)
    requires 6 * n == 8 * m + pad && pad < 6
    ensures n % 4 != 1
  {
    assert n == 4 * (n / 4) + n % 4;
    assert pad == 6 * (n % 4) - 8 * (m - 3 * (n / 4));
  }

  lemma NotValid(t: string, i: nat)
    requires i < |t| && Sextet(t[i]).None?
    ensures forall b :: !Encodes(t, b)
  {
  }

  lemma AllBits(t: string, out: seq<Byte>, bits: nat)
    requires Progress(t, |t|, out, 0, bits) && |t| % 4 != 1
    ensures Encodes(t, out)
  {
    assert t[..|t|] == t;
    assert EncodesWith(t, out, bits);
  }

  lemma EmptyValues()
    ensures Valid("") && TextValue("") == 0 && ByteValue([]) == 0 && Pow2(0) == 1
  {
  }

  /** A text that encodes something leaves nothing in the accumulator. */
  lemma NothingLeft(t: string, out: seq<Byte>, acc: nat, bits: nat, b: seq<Byte>, pad: nat)
    requires Progress(t, |t|, out, acc, bits) && EncodesWith(t, b, pad)
    ensures acc == 0
  {
    hide TextValue, ByteValue, Pow2, Valid;
    assert t[..|t|] == t;
    assert pad == bits;
    DigitsEqual(ByteValue(out), acc, ByteValue(b), 0, Pow2(bits));
  }

  lemma StrayBits(t: string, out: seq<Byte>, acc: nat, bits: nat)
    requires Progress(t, |t|, out, acc, bits) && acc > 0
    ensures forall b :: !Encodes(t, b)
  {
    hide Progress, EncodesWith;
    forall b ensures !Encodes(t, b) {
      if pad :| EncodesWith(t, b, pad) {
        NothingLeft(t, out, acc, bits, b, pad);
      }
    }
  }

  // ---- encoding

  /** Up to three bytes as one number of 24 bits, the missing ones zero. */
  function Packed(chunk: seq<Byte>): nat
    requires 1 <= |chunk| <= 3
  {
    var a: int, b: int, c: int := chunk[0], (if |chunk| > 1 then chunk[1] else 0), (if |chunk| > 2 then chunk[2] else 0);
    a * 65536 + b * 256 + c
  }

  /** The first `|chunk| + 1` six-bit digits of a packed chunk. */
  function ChunkText(chunk: seq<Byte>): (t: string)
    requires 1 <= |chunk| <= 3
    ensures |t| == |chunk| + 1 && Valid(t)
  {
    var n := Packed(chunk);
    var all := [Char(n / 262144 % 64), Char(n / 4096 % 64), Char(n / 64 % 64), Char(n % 64)];
    all[..|chunk| + 1]
  }

  lemma {:induction false} TextValueAppend(t: string, u: string)
    requires Valid(t) && Valid(u)
    ensures Valid(t + u) && TextValue(t + u) == TextValue(t) * Pow64(|u|) + TextValue(u)
  {
    if u == "" {
      assert t + u == t;
    } else {
      var k := |u| - 1;
      TextValueAppend(t, u[..k]);
      assert (t + u)[..|t + u| - 1] == t + u[..k];
      Regroup(TextValue(t), Pow64(k), TextValue(u[..k]), Sextet(u[k]).value, 64);
    }
  }

  lemma Regroup(hi: nat, power: nat, lo: nat, digit: nat, base: nat)
    ensures (hi * power + lo) * base + digit == hi * (base * power) + (lo * base + digit)
  {
  }

  function Pow64(n: nat): nat { if n == 0 then 1 else 64 * Pow64(n - 1) }

  lemma {:induction false} ByteValueAppend(a: seq<Byte>, b: seq<Byte>)
    ensures ByteValue(a + b) == ByteValue(a) * Pow256(|b|) + ByteValue(b)
  {
    if b == [] {
      assert a + b == a;
    } else {
      var k := |b| - 1;
      ByteValueAppend(a, b[..k]);
      assert (a + b)[..|a + b| - 1] == a + b[..k];
      Regroup(ByteValue(a), Pow256(k), ByteValue(b[..k]), b[k], 256);
    }
  }

  function Pow256(n: nat): nat { if n == 0 then 1 else 256 * Pow256(n - 1) }

  lemma Powers()
    ensures Pow2(0) == 1 && Pow2(2) == 4 && Pow2(4) == 16
    ensures Pow64(2) == 4096 && Pow64(3) == 262144 && Pow64(4) == 16777216
    ensures Pow256(1) == 256 && Pow256(2) == 65536 && Pow256(3) == 16777216
  {
    assert Pow2(1) == 2 && Pow2(3) == 8;
    assert Pow64(1) == 64;
  }

  lemma TextValueOf(t: string)
    requires Valid(t) && 2 <= |t| <= 4
    ensures var a, b := Sextet(t[0]).value, Sextet(t[1]).value;
      && (|t| == 2 ==> TextValue(t) == a * 64 + b)
      && (|t| == 3 ==> TextValue(t) == (a * 64 + b) * 64 + Sextet(t[2]).value)
      && (|t| == 4 ==> TextValue(t) == ((a * 64 + b) * 64 + Sextet(t[2]).value) * 64 + Sextet(t[3]).value)
  {
    hide Sextet;
    assert t[..0] == "" && t[..1][..0] == "";
    TextValueNext(t, 0);
    TextValueNext(t, 1);
    if |t| > 2 { TextValueNext(t, 2); }
    if |t| > 3 { TextValueNext(t, 3); }
    assert t[..|t|] == t;
  }

  lemma ByteValueOf(b: seq<Byte>)
    requires 1 <= |b| <= 3
    ensures ByteValue(b) * (if |b| == 1 then 65536 else if |b| == 2 then 256 else 1) == Packed(b)
  {
    assert b[..0] == [];
    ByteValueNext([], b[0]);
    assert [] + [b[0]] == b[..1];
    if |b| > 1 {
      ByteValueNext(b[..1], b[1]);
      assert b[..1] + [b[1]] == b[..2];
    }
    if |b| > 2 {
      ByteValueNext(b[..2], b[2]);
      assert b[..2] + [b[2]] == b[..3];
    }
    assert b[..|b|] == b;
  }

  /** A chunk's text is worth the chunk's bytes with the pad's zero bits after them. */
  lemma ChunkValue(chunk: seq<Byte>)
    requires 1 <= |chunk| <= 3
    ensures TextValue(ChunkText(chunk)) == ByteValue(chunk) * Pow2(6 - 2 * |chunk|)
    ensures Pow64(|chunk| + 1) == Pow256(|chunk|) * Pow2(6 - 2 * |chunk|)
  {
    hide TextValue, ByteValue, Pow2, Pow64, Pow256, Sextet, Packed;
    Powers();
    var n, t := Packed(chunk), ChunkText(chunk);
    TextValueOf(t);
    ByteValueOf(chunk);
    PackedBound(chunk);
    SplitDigits(n);
    assert Sextet(t[0]) == Some(n / 262144 % 64) && Sextet(t[1]) == Some(n / 4096 % 64);
    assert |chunk| > 1 ==> Sextet(t[2]) == Some(n / 64 % 64);
    assert |chunk| > 2 ==> Sextet(t[3]) == Some(n % 64);
  }

  lemma PackedBound(chunk: seq<Byte>)
    requires 1 <= |chunk| <= 3
    ensures Packed(chunk) < 16777216
  {
  }

  /** The six-bit digits of a 24-bit number, put together again. */
  lemma SplitDigits(n: nat)
    requires n < 16777216
    ensures n / 262144 % 64 * 64 + n / 4096 % 64 == n / 4096
    ensures n / 4096 * 64 + n / 64 % 64 == n / 64
    ensures n / 64 * 64 + n % 64 == n
  {
    assert n / 262144 < 64;
  }

  /** Three bytes at a time into four characters, a short last chunk into two or three. */
  method Encode(b: seq<Byte>) returns (t: string)
    ensures Encodes(t, b)
  {
    hide ByteValue, TextValue, Pow2, ChunkText;
    t := "";
    EmptyValues();
    var i := 0;
    while |b| - i >= 3
      invariant 0 <= i <= |b| && Valid(t) && 6 * |t| == 8 * i && TextValue(t) == ByteValue(b[..i])
    {
      AppendChunk(t, b, i, 3);
      t := t + ChunkText(b[i..i + 3]);
      i := i + 3;
    }
    if i < |b| {
      AppendChunk(t, b, i, |b| - i);
      t := t + ChunkText(b[i..]);
      assert b[i..i + (|b| - i)] == b[i..];
      assert b[..|b|] == b;
      assert EncodesWith(t, b, 6 - 2 * (|b| - i));
    } else {
      assert b[..i] == b;
      assert EncodesWith(t, b, 0);
    }
  }

  lemma AppendChunk(t: string, b: seq<Byte>, i: nat, n: nat)
    requires 1 <= n <= 3 && i + n <= |b| && Valid(t) && TextValue(t) == ByteValue(b[..i])
    ensures var u := t + ChunkText(b[i..i + n]);
      Valid(u) && TextValue(u) == ByteValue(b[..i + n]) * Pow2(6 - 2 * n)
    ensures Pow2(0) == 1
  {
    hide ByteValue, TextValue, ChunkText;
    var chunk := b[i..i + n];
    ChunkValue(chunk);
    TextValueAppend(t, ChunkText(chunk));
    ByteValueAppend(b[..i], chunk);
    assert b[..i] + chunk == b[..i + n];
    var x, y, p, q := ByteValue(b[..i]), ByteValue(chunk), Pow256(n), Pow2(6 - 2 * n);
    assert x * (p * q) + y * q == (x * p + y) * q;
    assert Pow2(0) == 1;
  }

  // ---- the bijection

  /** Decoding an encoding gives the bytes back. */
  method DecodeOfEncode(b: seq<Byte>) returns (r: Option<seq<Byte>>)
    ensures r == Some(b)
  {
    var t := Encode(b);
    r := Decode(t);
    EncodesIsOneToOne(t, b, t, r.value);
  }

  /** Re-encoding an accepted text gives the text back. */
  method EncodeOfDecode(t: string) returns (u: Option<string>)
    ensures u.Some? ==> u.value == t
    ensures u.None? ==> forall b :: !Encodes(t, b)
  {
    var r := Decode(t);
    if r.None? {
      return None;
    }
    var text := Encode(r.value);
    EncodesIsOneToOne(text, r.value, t, r.value);
    u := Some(text);
  }
}

/** The encoding bit by bit, as section 4 of RFC 4648 describes it, over the alphabet of section 5. */
module Base64Bits {
  import opened Options
  import opened Bytes
  import opened Base64Url

  const ALPHABET: string := "ABCDEFGHIJKLM" + "NOPQRSTUVWXYZ" + "abcdefghijklm" + "nopqrstuvwxyz" + "0123456789-_"

  lemma CharIsPlace(v: nat)
    requires v < |ALPHABET|
    ensures v < 64 && ALPHABET[v] == Char(v)
  {
    if v < 13 {} else if v < 26 {} else if v < 39 {} else if v < 52 {} else {}
  }

  /** The value of a character is its place in the alphabet. */
  lemma SextetIsPlace(c: char, v: nat)
    ensures Sextet(c) == Some(v) <==> v < |ALPHABET| && ALPHABET[v] == c
  {
    hide Sextet, Char;
    if v < |ALPHABET| { CharIsPlace(v); }
    if Sextet(c) == Some(v) { SextetInjective(c, Char(v)); }
  }

  /** The `n` low bits of a number, the highest first. */
  function Bits(v: nat, n: nat): (r: seq<nat>)
    ensures |r| == n && forall i :: 0 <= i < n ==> r[i] < 2
  {
    if n == 0 then [] else Bits(v / 2, n - 1) + [v % 2]
  }

  /** Six bits a character, in order. */
  function TextBits(t: string): (r: seq<nat>)
    requires Valid(t)
    ensures |r| == 6 * |t| && forall i :: 0 <= i < |r| ==> r[i] < 2
  {
    if t == "" then [] else TextBits(t[..|t|-1]) + Bits(Sextet(t[|t|-1]).value, 6)
  }

  /** Eight bits a byte, in order. */
  function ByteBits(b: seq<Byte>): (r: seq<nat>)
    ensures |r| == 8 * |b| && forall i :: 0 <= i < |r| ==> r[i] < 2
  {
    if b == [] then [] else ByteBits(b[..|b|-1]) + Bits(b[|b|-1], 8)
  }

  function Zeros(n: nat): (r: seq<nat>)
    ensures |r| == n && forall i :: 0 <= i < n ==> r[i] == 0
  {
    if n == 0 then [] else Zeros(n - 1) + [0]
  }

  function Worth(bits: seq<nat>): nat {
    if bits == [] then 0 else 2 * Worth(bits[..|bits|-1]) + bits[|bits|-1]
  }

  lemma {:induction false} WorthJoins(a: seq<nat>, b: seq<nat>)
    ensures Worth(a + b) == Worth(a) * Pow2(|b|) + Worth(b)
  {
    if b == [] {
      assert a + b == a;
    } else {
      var k := |b| - 1;
      WorthJoins(a, b[..k]);
      assert (a + b)[..|a + b| - 1] == a + b[..k];
      Doubled(Worth(a), Pow2(k));
    }
  }

  lemma Doubled(x: nat, p: nat)
    ensures 2 * (x * p) == x * (2 * p)
  {
  }

  lemma {:induction false} BitsWorth(v: nat, n: nat)
    requires v < Pow2(n)
    ensures Worth(Bits(v, n)) == v
  {
    if n > 0 {
      BitsWorth(v / 2, n - 1);
      assert Bits(v, n)[..n - 1] == Bits(v / 2, n - 1);
    }
  }

  lemma {:induction false} ZerosWorth(n: nat)
    ensures Worth(Zeros(n)) == 0
  {
    if n > 0 {
      ZerosWorth(n - 1);
      assert Zeros(n)[..n - 1] == Zeros(n - 1);
    }
  }

  lemma {:induction false} SameBits(a: seq<nat>, b: seq<nat>)
    requires |a| == |b| && Worth(a) == Worth(b)
    requires forall i :: 0 <= i < |a| ==> a[i] < 2 && b[i] < 2
    ensures a == b
  {
    if a != [] {
      var k := |a| - 1;
      assert a[k] == b[k];
      SameBits(a[..k], b[..k]);
      assert a == a[..k] + [a[k]] && b == b[..k] + [b[k]];
    }
  }

  lemma Widths()
    ensures Pow2(6) == 64 && Pow2(8) == 256
  {
    assert Pow2(1) == 2 && Pow2(2) == 4 && Pow2(3) == 8 && Pow2(4) == 16 && Pow2(5) == 32 && Pow2(7) == 128;
  }

  lemma {:induction false} TextWorth(t: string)
    requires Valid(t)
    ensures Worth(TextBits(t)) == TextValue(t)
  {
    hide Pow2, Worth, Bits, Sextet;
    if t == "" {
      NoBits();
    } else {
      var k := |t| - 1;
      var v := Sextet(t[k]).value;
      TextWorth(t[..k]);
      Widths();
      BitsWorth(v, 6);
      WorthJoins(TextBits(t[..k]), Bits(v, 6));
    }
  }

  lemma NoBits()
    ensures Worth([]) == 0
  {
  }

  lemma {:induction false} ByteWorth(b: seq<Byte>)
    ensures Worth(ByteBits(b)) == ByteValue(b)
  {
    hide Pow2, Worth, Bits;
    if b == [] {
      NoBits();
    } else {
      var k := |b| - 1;
      ByteWorth(b[..k]);
      Widths();
      BitsWorth(b[k], 8);
      WorthJoins(ByteBits(b[..k]), Bits(b[k], 8));
    }
  }

  /** The text's bits are the bytes' bits, then fewer than six zeros. */
  ghost predicate BitsMatch(t: string, b: seq<Byte>, pad: nat) {
    Valid(t) && pad < 6 && TextBits(t) == ByteBits(b) + Zeros(pad)
  }

  /** A text encodes a byte string exactly when its bits are the string's bits and fewer than six zeros. */
  lemma EncodesIsBits(t: string, b: seq<Byte>)
    ensures Encodes(t, b) <==> exists pad: nat :: BitsMatch(t, b, pad)
  {
    hide EncodesWith, BitsMatch;
    forall pad: nat ensures EncodesWith(t, b, pad) <==> BitsMatch(t, b, pad) { PadMatches(t, b, pad); }
  }

  lemma PadMatches(t: string, b: seq<Byte>, pad: nat)
    ensures EncodesWith(t, b, pad) <==> BitsMatch(t, b, pad)
  {
    hide TextBits, ByteBits, TextValue, ByteValue, Pow2, Worth, Zeros;
    if Valid(t) {
      TextWorth(t);
      ByteWorth(b);
      ZerosWorth(pad);
      WorthJoins(ByteBits(b), Zeros(pad));
      if EncodesWith(t, b, pad) { SameBits(TextBits(t), ByteBits(b) + Zeros(pad)); }
    }
  }
}
