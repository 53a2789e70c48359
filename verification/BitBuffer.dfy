/** The bit buffer under both encoders, and the bit cursor under both decoders.

    A buffer holds a bit string when its bytes, unpacked least significant bit first, are that
    string padded with zeros to a whole byte. */
module BitBuffer {
  import opened Words

  function PadLength(n: nat): (p: nat)
    ensures p < 8 && (n + p) % 8 == 0
  {
    (8 - n % 8) % 8
  }

  ghost predicate Holds(buf: seq<byte>, bytePos: nat, bitPos: nat, bits: seq<bool>) {
    && bitPos < 8
    && |bits| == 8 * bytePos + bitPos
    && Unpack(buf) == bits + Zeros(PadLength(|bits|))
  }

  lemma {:induction false} SetBitKeepsOthers(x: nat, n: nat, k: nat)
    requires k < n && x < Pow2(n) && !ToBits(x, n)[k]
    ensures x + Pow2(k) < Pow2(n)
    ensures ToBits(x + Pow2(k), n) == ToBits(x, n)[k := true]
  {
    if k > 0 {
      SetBitKeepsOthers(x / 2, n - 1, k - 1);
      assert (x + Pow2(k)) / 2 == x / 2 + Pow2(k - 1);
    } else {
      assert (x + 1) / 2 == x / 2;
    }
  }

  /** `b |= 1 << k` */
  function SetBit(b: byte, k: nat): (r: byte)
    requires k < 8
    ensures ToBits(r, 8) == ToBits(b, 8)[k := true]
  {
    if (b / Pow2(k)) % 2 == 1 then
      SetBitInByte(b, k);
      b
    else
      SetBitInByte(b, k);
      b + Pow2(k)
  }

  lemma SetBitInByte(b: byte, k: nat)
    requires k < 8
    ensures if (b / Pow2(k)) % 2 == 1 then ToBits(b, 8)[k]
            else b + Pow2(k) < 256 && ToBits(b + Pow2(k), 8) == ToBits(b, 8)[k := true]
  {
    hide ToBits, Pow2;
    BitAt(b, 8, k);
    Pow2Values();
    if !ToBits(b, 8)[k] {
      SetBitKeepsOthers(b, 8, k);
    }
  }

  lemma UnpackUpdate(buf: seq<byte>, i: nat, b: byte)
    requires i < |buf|
    ensures Unpack(buf[i := b])
         == Unpack(buf[..i]) + ToBits(b, 8) + Unpack(buf[i + 1..])
  {
    var buf' := buf[i := b];
    UnpackAt(buf', i);
    assert buf'[..i] == buf[..i] && buf'[i + 1..] == buf[i + 1..];
  }

  /** Setting bit k of byte i sets bit 8 i + k of the whole string. */
  lemma UnpackSetBit(buf: seq<byte>, i: nat, k: nat)
    requires i < |buf| && k < 8
    ensures Unpack(buf[i := SetBit(buf[i], k)]) == Unpack(buf)[8 * i + k := true]
  {
    UnpackAt(buf, i);
    UnpackUpdate(buf, i, SetBit(buf[i], k));
  }

  lemma StoreNextBit(buf: seq<byte>, bit: bool, bytePos: nat, bitPos: nat, bits: seq<bool>)
    requires bitPos < 8 && |bits| == 8 * bytePos + bitPos
    requires Unpack(buf) == bits + Zeros(8 - bitPos)
    ensures bytePos < |buf|
    ensures var buf' := if bit then buf[bytePos := SetBit(buf[bytePos], bitPos)] else buf;
            Unpack(buf') == (bits + [bit]) + Zeros(7 - bitPos)
  {
    assert 8 * |buf| == |bits| + (8 - bitPos);
    if bit {
      UnpackSetBit(buf, bytePos, bitPos);
    }
  }

  lemma AppendZeroByte(buf: seq<byte>)
    ensures Unpack(buf + [0]) == Unpack(buf) + Zeros(8)
  {
    UnpackConcat(buf, [0]);
    assert Unpack([0]) == ToBits(0, 8) == Zeros(8);
  }

  method AppendBit(buf: seq<byte>, bit: bool, bytePos: nat, bitPos: nat, ghost bits: seq<bool>)
    returns (buf': seq<byte>, bytePos': nat, bitPos': nat)
    requires Holds(buf, bytePos, bitPos, bits)
    ensures Holds(buf', bytePos', bitPos', bits + [bit])
  {
    hide Unpack, SetBit;
    buf' := buf;
    if bytePos >= |buf'| {
      AppendZeroByte(buf');
      buf' := buf' + [0];
    }
    assert Unpack(buf') == bits + Zeros(8 - bitPos);
    StoreNextBit(buf', bit, bytePos, bitPos, bits);
    if bit {
      buf' := buf'[bytePos := SetBit(buf'[bytePos], bitPos)];
    }
    assert Unpack(buf') == (bits + [bit]) + Zeros(7 - bitPos);
    bytePos', bitPos' := bytePos, bitPos + 1;
    if bitPos' == 8 {
      bitPos' := 0;
      bytePos' := bytePos' + 1;
    }
  }

  method AppendBits(buf: seq<byte>, value: nat, n: nat, bytePos: nat, bitPos: nat, ghost bits: seq<bool>)
    returns (buf': seq<byte>, bytePos': nat, bitPos': nat)
    requires Holds(buf, bytePos, bitPos, bits)
    ensures Holds(buf', bytePos', bitPos', bits + ToBits(value, n))
  {
    buf', bytePos', bitPos' := buf, bytePos, bitPos;
    assert bits + ToBits(value, n)[..0] == bits;
    for i := 0 to n
      invariant Holds(buf', bytePos', bitPos', bits + ToBits(value, n)[..i])
    {
      BitAt(value, n, i);
      var bit := (value / Pow2(i)) % 2 == 1;
      buf', bytePos', bitPos' := AppendBit(buf', bit, bytePos', bitPos', bits + ToBits(value, n)[..i]);
      assert bits + ToBits(value, n)[..i] + [bit] == bits + ToBits(value, n)[..i + 1];
    }
    assert ToBits(value, n)[..n] == ToBits(value, n);
  }

  // ---- reading ----

  /** The bits a cursor has not consumed. */
  ghost function Unread(data: seq<byte>, bytePos: nat, bitPos: nat): seq<bool>
    requires 8 * bytePos + bitPos <= 8 * |data|
  {
    Unpack(data)[8 * bytePos + bitPos..]
  }

  ghost predicate Cursor(data: seq<byte>, bytePos: nat, bitPos: nat) {
    bitPos < 8 && 8 * bytePos + bitPos <= 8 * |data|
  }

  /** Reading past the end yields zeros. */
  function First(s: seq<bool>): bool {
    s != [] && s[0]
  }

  function Rest(s: seq<bool>): (r: seq<bool>)
    ensures |r| <= |s| && (s != [] ==> |r| < |s|)
  {
    if s == [] then [] else s[1..]
  }

  function Take(s: seq<bool>, n: nat): (r: seq<bool>)
    ensures |r| == n
  {
    if n <= |s| then s[..n] else s + Zeros(n - |s|)
  }

  function Drop(s: seq<bool>, n: nat): (r: seq<bool>)
    ensures |r| <= |s|
  {
    if n <= |s| then s[n..] else []
  }

  lemma TakeDropConcat(a: seq<bool>, b: seq<bool>)
    ensures Take(a + b, |a|) == a && Drop(a + b, |a|) == b
  {
  }

  method ReadBit(data: seq<byte>, bytePos: nat, bitPos: nat)
    returns (bit: bool, bytePos': nat, bitPos': nat)
    requires Cursor(data, bytePos, bitPos)
    ensures Cursor(data, bytePos', bitPos')
    ensures bit == First(Unread(data, bytePos, bitPos))
    ensures Unread(data, bytePos', bitPos') == Rest(Unread(data, bytePos, bitPos))
    ensures bytePos' < |data| <==> Unread(data, bytePos', bitPos') != []
  {
    if bytePos >= |data| {
      return false, bytePos, bitPos;
    }
    UnpackAt(data, bytePos);
    BitAt(data[bytePos], 8, bitPos);
    bit := (data[bytePos] / Pow2(bitPos)) % 2 == 1;
    bytePos', bitPos' := bytePos, bitPos + 1;
    if bitPos' == 8 {
      bitPos' := 0;
      bytePos' := bytePos' + 1;
    }
  }

  lemma NoBits(s: seq<bool>)
    ensures FromBits(Take(s, 0)) == 0 && Drop(s, 0) == s
  {
  }

  lemma TakeNext(s: seq<bool>, i: nat)
    ensures Take(s, i + 1) == Take(s, i) + [First(Drop(s, i))]
    ensures Rest(Drop(s, i)) == Drop(s, i + 1)
  {
  }

  method ReadBits(data: seq<byte>, bytePos: nat, bitPos: nat, n: nat)
    returns (v: nat, bytePos': nat, bitPos': nat)
    requires Cursor(data, bytePos, bitPos)
    ensures Cursor(data, bytePos', bitPos')
    ensures v == FromBits(Take(Unread(data, bytePos, bitPos), n))
    ensures Unread(data, bytePos', bitPos') == Drop(Unread(data, bytePos, bitPos), n)
    ensures bytePos' < |data| <==> Unread(data, bytePos', bitPos') != []
  {
    hide Unpack, FromBits;
    ghost var s := Unread(data, bytePos, bitPos);
    NoBits(s);
    v, bytePos', bitPos' := 0, bytePos, bitPos;
    for i := 0 to n
      invariant Cursor(data, bytePos', bitPos')
      invariant v == FromBits(Take(s, i))
      invariant Unread(data, bytePos', bitPos') == Drop(s, i)
    {
      var bit;
      bit, bytePos', bitPos' := ReadBit(data, bytePos', bitPos');
      TakeNext(s, i);
      ValueOfSnoc(Take(s, i), bit);
      v := v + if bit then Pow2(i) else 0;
    }
  }

  /** The next 64 bits as a word. */
  function Word64(s: seq<bool>): uint64 {
    Pow2Values();
    FromBits(Take(s, 64))
  }

  method ReadWord64(data: seq<byte>, bytePos: nat, bitPos: nat)
    returns (v: uint64, bytePos': nat, bitPos': nat)
    requires Cursor(data, bytePos, bitPos)
    ensures Cursor(data, bytePos', bitPos')
    ensures v == Word64(Unread(data, bytePos, bitPos))
    ensures Unread(data, bytePos', bitPos') == Drop(Unread(data, bytePos, bitPos), 64)
    ensures bytePos' < |data| <==> Unread(data, bytePos', bitPos') != []
  {
    Pow2Values();
    v, bytePos', bitPos' := ReadBits(data, bytePos, bitPos, 64);
  }
}
