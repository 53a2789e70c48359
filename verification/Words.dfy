/** Machine words as naturals, with their bit expansion (least significant bit first) and their
    little-endian byte expansion. Shared by the block codec and by the two file formats. */
module Words {
  type byte = x: int | 0 <= x < 256

  datatype Option<+T> = None | Some(value: T)

  /** A limit after n items; no limit stays none. */
  function Minus(remaining: Option<nat>, n: nat): Option<nat>
    requires remaining.Some? ==> remaining.value >= n
  {
    match remaining
    case None => None
    case Some(m) => var left: nat := m - n; Some(left)
  }

  lemma MinusAgain(remaining: Option<nat>, m: nat, n: nat)
    requires remaining.Some? ==> remaining.value >= m + n
    ensures Minus(remaining, 0) == remaining
    ensures Minus(remaining, m) == if remaining.Some? then Some(remaining.value - m) else None
    ensures Minus(Minus(remaining, m), n) == Minus(remaining, m + n)
  {
  }

  const TWO_31: int := 0x8000_0000
  const TWO_32: int := 0x1_0000_0000
  const TWO_63: int := 0x8000_0000_0000_0000
  const TWO_64: int := 0x1_0000_0000_0000_0000

  type int64 = x: int | -TWO_63 <= x < TWO_63
  type uint64 = x: int | 0 <= x < TWO_64

  /** The conversion of a signed 64-bit integer to an unsigned one. */
  function ToU64(t: int): uint64 {
    t % TWO_64
  }

  /** The conversion of an unsigned 64-bit integer to a signed one. */
  function FromU64(u: uint64): int64 {
    if u < TWO_63 then u else u - TWO_64
  }

  lemma SignedRoundTrip(t: int64)
    ensures FromU64(ToU64(t)) == t
  {
  }

  function Pow2(n: nat): (p: nat)
    ensures p >= 1
  {
    if n == 0 then 1 else 2 * Pow2(n - 1)
  }

  lemma Pow2Add(m: nat, n: nat)
    ensures Pow2(m + n) == Pow2(m) * Pow2(n)
  {
    if m == 0 {
    } else {
      Pow2Add(m - 1, n);
      assert Pow2(m + n) == 2 * Pow2(m - 1 + n);
      assert 2 * (Pow2(m - 1) * Pow2(n)) == (2 * Pow2(m - 1)) * Pow2(n);
    }
  }

  lemma Pow2Values()
    ensures Pow2(0) == 1 && Pow2(6) == 64 && Pow2(7) == 128 && Pow2(8) == 256 && Pow2(9) == 512 && Pow2(12) == 4096
    ensures Pow2(32) == TWO_32 && Pow2(64) == TWO_64
  {
    assert Pow2(0) == 1 && Pow2(1) == 2 && Pow2(2) == 4 && Pow2(3) == 8 && Pow2(4) == 16;
    hide Pow2;
    Pow2Add(2, 4);
    Pow2Add(3, 4);
    Pow2Add(4, 4);
    Pow2Add(4, 8);
    Pow2Add(1, 8);
    Pow2Add(8, 8);
    Pow2Add(16, 16);
    Pow2Add(32, 32);
  }

  lemma AppendConcat<T>(a: seq<T>, x: T, b: seq<T>)
    ensures a + ([x] + b) == (a + [x]) + b
  {
  }

  // ---- bits ----

  function ToBits(x: nat, n: nat): (bs: seq<bool>)
    ensures |bs| == n
  {
    if n == 0 then [] else [x % 2 == 1] + ToBits(x / 2, n - 1)
  }

  function FromBits(bs: seq<bool>): (x: nat)
    ensures x < Pow2(|bs|)
  {
    if |bs| == 0 then 0 else (if bs[0] then 1 else 0) + 2 * FromBits(bs[1..])
  }

  function Zeros(n: nat): (bs: seq<bool>)
    ensures |bs| == n
  {
    seq(n, _ => false)
  }

  lemma {:induction false} BitsOfValue(bs: seq<bool>)
    ensures ToBits(FromBits(bs), |bs|) == bs
  {
    if |bs| > 0 {
      BitsOfValue(bs[1..]);
      assert bs == [bs[0]] + bs[1..];
    }
  }

  lemma {:induction false} ValueOfBits(x: nat, n: nat)
    ensures FromBits(ToBits(x, n)) == x % Pow2(n)
  {
    if n > 0 {
      ValueOfBits(x / 2, n - 1);
      HalveMod(x, Pow2(n - 1));
      assert ToBits(x, n)[1..] == ToBits(x / 2, n - 1);
    }
  }

  lemma HalveMod(x: nat, p: nat)
    requires p >= 1
    ensures x % (2 * p) == x % 2 + 2 * ((x / 2) % p)
  {
    var q, r := (x / 2) / p, (x / 2) % p;
    assert x / 2 == q * p + r;
    assert x == q * (2 * p) + (x % 2 + 2 * r);
    RemainderUnique(x, 2 * p, q, x % 2 + 2 * r);
  }

  lemma RemainderUnique(x: int, m: int, q: int, r: int)
    requires m > 0 && 0 <= r < m && x == q * m + r
    ensures x / m == q && x % m == r
  {
    var d := x / m - q;
    assert x == (x / m) * m + x % m;
    assert d * m == r - x % m;
    assert d >= 1 ==> d * m >= m;
    assert d <= -1 ==> d * m <= -m;
  }

  /** A value that fits is recovered from its bits. */
  lemma BitsRoundTrip(x: nat, n: nat)
    requires x < Pow2(n)
    ensures FromBits(ToBits(x, n)) == x
  {
  }

  lemma {:induction false} BitAt(x: nat, n: nat, i: nat)
    requires i < n
    ensures ToBits(x, n)[i] == ((x / Pow2(i)) % 2 == 1)
  {
    if i > 0 {
      BitAt(x / 2, n - 1, i - 1);
      DivDiv(x, 2, Pow2(i - 1));
    }
  }

  lemma DivDiv(x: nat, a: nat, b: nat)
    requires a > 0 && b > 0
    ensures a * b > 0 && x / a / b == x / (a * b)
  {
    var d, m := x / a, x % a;
    var q, r := d / b, d % b;
    QuotientTwice(x, a, b, d, m, q, r);
    RemainderUnique(x, a * b, q, a * r + m);
  }

  lemma QuotientTwice(x: nat, a: nat, b: nat, d: nat, m: nat, q: nat, r: nat)
    requires x == a * d + m && m < a && d == q * b + r && r < b
    ensures x == q * (a * b) + (a * r + m) && 0 <= a * r + m < a * b
  {
    Distribute(a, q * b, r);
    Exchange(a, q, b);
    Distribute(a, b - 1 - r, r);
    Distribute(a, b - 1, 1);
  }

  lemma Distribute(a: nat, x: int, y: int)
    ensures a * (x + y) == a * x + a * y
    ensures x >= 0 ==> a * x >= 0
  {
  }

  lemma Exchange(a: nat, q: nat, b: nat)
    ensures a * (q * b) == q * (a * b)
  {
  }

  lemma {:induction false} ValueOfSnoc(bs: seq<bool>, b: bool)
    ensures FromBits(bs + [b]) == FromBits(bs) + if b then Pow2(|bs|) else 0
  {
    if |bs| == 0 {
      assert bs + [b] == [b];
    } else {
      ValueOfSnoc(bs[1..], b);
      assert (bs + [b])[1..] == bs[1..] + [b];
    }
  }

  // ---- little-endian bytes ----

  function ToBytes(x: nat, n: nat): (bs: seq<byte>)
    ensures |bs| == n
  {
    if n == 0 then [] else [x % 256] + ToBytes(x / 256, n - 1)
  }

  function FromBytes(bs: seq<byte>): (x: nat)
  {
    if |bs| == 0 then 0 else bs[0] + 256 * FromBytes(bs[1..])
  }

  /** A word stored in n bytes and read back is the word modulo 2^(8n). */
  lemma {:induction false} BytesRoundTrip(x: nat, n: nat)
    ensures FromBytes(ToBytes(x, n)) == x % Pow2(8 * n)
  {
    if n > 0 {
      BytesRoundTrip(x / 256, n - 1);
      Pow2Add(8, 8 * (n - 1));
      Pow2Values();
      assert 8 + 8 * (n - 1) == 8 * n;
      assert ToBytes(x, n)[1..] == ToBytes(x / 256, n - 1);
      ByteMod(x, Pow2(8 * (n - 1)));
    }
  }

  lemma ByteMod(x: nat, p: nat)
    requires p >= 1
    ensures x % (256 * p) == x % 256 + 256 * ((x / 256) % p)
  {
    var q, r := (x / 256) / p, (x / 256) % p;
    assert x / 256 == q * p + r;
    assert x == q * (256 * p) + (x % 256 + 256 * r);
    RemainderUnique(x, 256 * p, q, x % 256 + 256 * r);
  }

  lemma WordBytes(x: nat, n: nat)
    requires x < Pow2(8 * n)
    ensures FromBytes(ToBytes(x, n)) == x
  {
    BytesRoundTrip(x, n);
    RemainderUnique(x, Pow2(8 * n), 0, x);
  }

  // ---- a byte sequence as one bit string ----

  function Unpack(bytes: seq<byte>): (bs: seq<bool>)
    ensures |bs| == 8 * |bytes|
  {
    if |bytes| == 0 then [] else ToBits(bytes[0], 8) + Unpack(bytes[1..])
  }

  lemma {:induction false} UnpackConcat(a: seq<byte>, b: seq<byte>)
    ensures Unpack(a + b) == Unpack(a) + Unpack(b)
  {
    hide ToBits;
    if |a| == 0 {
      assert a + b == b;
    } else {
      assert (a + b)[0] == a[0];
      UnpackConcat(a[1..], b);
      assert (a + b)[1..] == a[1..] + b;
    }
  }

  lemma UnpackAt(bytes: seq<byte>, i: nat)
    requires i < |bytes|
    ensures Unpack(bytes)
         == Unpack(bytes[..i]) + ToBits(bytes[i], 8) + Unpack(bytes[i + 1..])
  {
    hide ToBits;
    var rest := bytes[i..];
    assert bytes == bytes[..i] + rest;
    UnpackConcat(bytes[..i], rest);
    assert rest[1..] == bytes[i + 1..];
  }
}
