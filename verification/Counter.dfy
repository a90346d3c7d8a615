/** Big-endian byte strings as numbers, and the counter blocks of SP 800-38A. */
module Counter {
  import opened Bytes

  const TWO_64: nat := 0x1_0000_0000_0000_0000
  const TWO_128: nat := 0x1_0000_0000_0000_0000_0000_0000_0000_0000

  function Pow256(k: nat): (p: nat)
    ensures 0 < p
  {
    if k == 0 then 1 else 256 * Pow256(k - 1)
  }

  /** The big-endian value of a byte string. */
  function Val(s: seq<byte>): nat {
    if s == [] then 0 else Val(s[..|s| - 1]) * 256 + s[|s| - 1] as nat
  }

  /** The k-byte big-endian string of n modulo 256^k. */
  function ToBytes(n: nat, k: nat): (s: seq<byte>)
    ensures |s| == k
  {
    if k == 0 then [] else ToBytes(n / 256, k - 1) + [ToByte(n % 256)]
  }

  /** The 16-byte counter block n steps of the standard incrementing function after iv (SP 800-38A appendix B.1). */
  function Advance(iv: seq<byte>, n: nat): (r: seq<byte>)
    requires |iv| == 16
    ensures |r| == 16
  {
    ToBytes((Val(iv) + n) % TWO_128, 16)
  }

  lemma {:induction false} ValBound(s: seq<byte>)
    ensures Val(s) < Pow256(|s|)
  {
    hide ToByte, ToNat;
    if s != [] {
      ValBound(s[..|s| - 1]);
      ByteOfNat(s[|s| - 1]);
    }
  }

  lemma {:induction false} ValOfBytes(n: nat, k: nat)
    requires n < Pow256(k)
    ensures Val(ToBytes(n, k)) == n
  {
    hide ToByte;
    if k != 0 {
      ValOfBytes(n / 256, k - 1);
      NatOfByte(n % 256);
      var s := ToBytes(n, k);
      assert s[..k - 1] == ToBytes(n / 256, k - 1) && s[k - 1] == ToByte(n % 256);
    }
  }

  lemma {:induction false} BytesOfVal(s: seq<byte>)
    ensures ToBytes(Val(s), |s|) == s
  {
    hide ToByte;
    if s != [] {
      var v, d := Val(s[..|s| - 1]), ToNat(s[|s| - 1]);
      BytesOfVal(s[..|s| - 1]);
      ByteOfNat(s[|s| - 1]);
      assert Val(s) / 256 == v && Val(s) % 256 == d;
      assert s == s[..|s| - 1] + [s[|s| - 1]];
    }
  }

  lemma {:induction false} PowAdd(j: nat, k: nat)
    ensures Pow256(j + k) == Pow256(j) * Pow256(k)
  {
    if k != 0 {
      PowAdd(j, k - 1);
      MulThird(Pow256(j), 256, Pow256(k - 1));
    }
  }

  lemma MulThird(a: int, b: int, c: int)
    ensures a * (b * c) == b * (a * c)
  {}

  lemma {:induction false} ValConcat(a: seq<byte>, b: seq<byte>)
    ensures Val(a + b) == Val(a) * Pow256(|b|) + Val(b)
  {
    hide ToByte, ToNat;
    if b == [] {
      assert a + b == a;
    } else {
      var c := b[..|b| - 1];
      ValConcat(a, c);
      assert (a + b)[..|a + b| - 1] == a + c;
      MulThird(Val(a), 256, Pow256(|c|));
    }
  }

  lemma ValSingle(b: byte)
    ensures Val([b]) == ToNat(b)
  {
    assert [b][..0] == [];
  }

  lemma PowValues()
    ensures Pow256(1) == 256 && Pow256(4) == 0x1_0000_0000 && Pow256(8) == TWO_64 && Pow256(16) == TWO_128
  {
    assert Pow256(2) == 0x1_0000;
    assert Pow256(4) == 0x1_0000_0000;
    PowAdd(4, 4);
    PowAdd(8, 8);
  }

  lemma AdvanceValue(iv: seq<byte>, n: nat)
    requires |iv| == 16
    ensures Val(Advance(iv, n)) == (Val(iv) + n) % TWO_128
  {
    hide ToByte, ToNat, ToBytes;
    PowValues();
    ValOfBytes((Val(iv) + n) % TWO_128, 16);
  }

  /** A 16-byte block with the right value is the right block. */
  lemma AdvanceUnique(iv: seq<byte>, n: nat, block: seq<byte>)
    requires |iv| == |block| == 16
    ensures block == Advance(iv, n) <==> Val(block) == (Val(iv) + n) % TWO_128
  {
    hide ToByte, ToNat, ToBytes;
    AdvanceValue(iv, n);
    BytesOfVal(block);
  }

  lemma AdvanceZero(iv: seq<byte>)
    requires |iv| == 16
    ensures Advance(iv, 0) == iv
  {
    hide ToByte, ToNat, ToBytes;
    PowValues();
    ValBound(iv);
    AdvanceUnique(iv, 0, iv);
  }

  /** Advancing by a and then by b is advancing by a + b. */
  lemma AdvanceAdd(iv: seq<byte>, a: nat, b: nat)
    requires |iv| == 16
    ensures Advance(Advance(iv, a), b) == Advance(iv, a + b)
  {
    hide ToByte, ToNat, ToBytes;
    AdvanceValue(iv, a);
    assert (Val(iv) + a) % TWO_128 + b == Val(iv) + (a + b) - (Val(iv) + a) / TWO_128 * TWO_128;
    ModMultiple(Val(iv) + (a + b), (Val(iv) + a) / TWO_128);
  }

  lemma ModMultiple(x: nat, q: nat)
    requires q * TWO_128 <= x
    ensures (x - q * TWO_128) % TWO_128 == x % TWO_128
    decreases q
  {
    if q != 0 {
      ModMultiple(x - TWO_128, q - 1);
    }
  }

  /** Two blocks of one stream coincide only when their indices agree modulo 2^128. */
  lemma AdvanceInjective(iv: seq<byte>, a: nat, b: nat)
    requires |iv| == 16 && a <= b
    ensures Advance(iv, a) == Advance(iv, b) <==> (b - a) % TWO_128 == 0
  {
    hide ToByte, ToNat, ToBytes;
    AdvanceValue(iv, a);
    AdvanceValue(iv, b);
    var x, y := Val(iv) + a, Val(iv) + b;
    if x % TWO_128 == y % TWO_128 {
      assert b - a == (y / TWO_128 - x / TWO_128) * TWO_128;
    }
    if (b - a) % TWO_128 == 0 {
      ModMultiple(y, (b - a) / TWO_128);
    }
    AdvanceUnique(iv, a, Advance(iv, b));
  }

  function Repeated(b: byte, k: nat): (s: seq<byte>)
    ensures |s| == k
  {
    if k == 0 then [] else Repeated(b, k - 1) + [b]
  }

  lemma {:induction false} RepeatedValue(k: nat)
    ensures Val(Repeated(0xFF, k)) == Pow256(k) - 1 && Val(Repeated(0, k)) == 0
  {
    if k != 0 {
      RepeatedValue(k - 1);
      assert Repeated(0xFF, k)[..k - 1] == Repeated(0xFF, k - 1) && Repeated(0, k)[..k - 1] == Repeated(0, k - 1);
      assert (0xFF as byte) as nat == 255 && (0 as byte) as nat == 0;
    }
  }

  /** One step of the standard incrementing function, on the bytes: the last byte that is not 0xFF goes up by one, those
      behind it become zero, and those before it stay; a block of 0xFF bytes becomes zero. */
  lemma IncrementBytes(upper: seq<byte>, b: byte, k: nat)
    requires |upper| + 1 + k == 16 && b != 0xFF
    ensures Advance(upper + [b] + Repeated(0xFF, k), 1) == upper + [b + 1] + Repeated(0, k)
    ensures Advance(Repeated(0xFF, 16), 1) == Repeated(0, 16)
  {
    hide ToByte, ToNat, ToBytes, Val, Pow256, Advance;
    PowValues();
    RepeatedValue(16);
    AdvanceUnique(Repeated(0xFF, 16), 1, Repeated(0, 16));
    var now, next := upper + [b] + Repeated(0xFF, k), upper + [b + 1] + Repeated(0, k);
    RepeatedValue(k);
    NextByte(b);
    ValOfParts(upper, b, Repeated(0xFF, k));
    ValOfParts(upper, b + 1, Repeated(0, k));
    ValBound(next);
    NextValue(Val(upper), ToNat(b), Pow256(k), Val(now), Val(next));
    AdvanceUnique(now, 1, next);
  }

  lemma ValOfParts(upper: seq<byte>, b: byte, low: seq<byte>)
    ensures Val(upper + [b] + low) == (Val(upper) * 256 + ToNat(b)) * Pow256(|low|) + Val(low)
  {
    hide ToNat, Val;
    ValConcat(upper + [b], low);
    ValConcat(upper, [b]);
    ValSingle(b);
    PowValues();
  }

  lemma NextValue(upper: nat, b: nat, p: nat, now: nat, next: nat)
    requires now == (upper * 256 + b) * p + (p - 1) && next == (upper * 256 + (b + 1)) * p
    ensures next == now + 1
  {
    assert (upper * 256 + b + 1) * p == (upper * 256 + b) * p + p;
  }

  /** The provider's in-place counter update: adds any 64-bit block count, stopping as soon as nothing is left to
      add. */
  method Inc128Counter(counter: array<byte>, blockCount: nat)
    requires counter.Length == 16 && blockCount < TWO_64
    modifies counter
    ensures counter[..] == Advance(old(counter[..]), blockCount)
  {
    hide Val, Pow256, Advance, Adding;
    ghost var was := counter[..];
    StartAdding(was, blockCount);
    var blocks: nat := blockCount;
    var i: int := 15;
    while i >= 0
      invariant -1 <= i <= 15 && blocks < TWO_64
      invariant Adding(was, counter[..], i + 1, blocks, blockCount)
    {
      var sum := ToNat(counter[i]) + blocks % 256;
      CounterStep(was, counter[..], i, blocks, blockCount, sum);
      counter[i] := ToByte(sum % 256);
      blocks := blocks / 256;
      blocks := blocks + sum / 256;
      i := i - 1;
      if blocks == 0 {
        break;
      }
    }
    AddedUp(was, counter[..], i + 1, blocks, blockCount);
  }

  // Bytes i.. have been added; `blocks` is still to be added at byte i - 1.
  ghost predicate Adding(was: seq<byte>, now: seq<byte>, i: nat, blocks: nat, blockCount: nat) {
    && |was| == |now| == 16 && i <= 16
    && now[..i] == was[..i]
    && Val(was[i..]) + blockCount == blocks * Pow256(16 - i) + Val(now[i..])
  }

  lemma StartAdding(was: seq<byte>, blockCount: nat)
    requires |was| == 16
    ensures Adding(was, was, 16, blockCount, blockCount)
  {
    assert was[16..] == [];
  }

  // One byte of the addition, with its carry.
  lemma CounterStep(was: seq<byte>, now: seq<byte>, i: nat, blocks: nat, blockCount: nat, sum: nat)
    requires i < 16 && Adding(was, now, i + 1, blocks, blockCount)
    requires |now| == 16 && sum == ToNat(now[i]) + blocks % 256
    ensures Adding(was, now[i := ToByte(sum % 256)], i, blocks / 256 + sum / 256, blockCount)
  {
    hide ToByte, ToNat, ToBytes;
    var p, d, low := Pow256(15 - i), ToByte(sum % 256), now[i + 1..];
    assert now[i] == now[..i + 1][i] == was[i];
    assert now[i := d][..i] == now[..i + 1][..i] == was[..i];
    assert was[i..] == [was[i]] + was[i + 1..];
    assert now[i := d][i..] == [d] + low;
    ValConcat([was[i]], was[i + 1..]);
    ValConcat([d], low);
    ValSingle(was[i]);
    ValSingle(d);
    NatOfByte(sum % 256);
    CarrySplit(ToNat(was[i]), blocks, ToNat(d), blocks / 256 + sum / 256, p);
  }

  lemma CarrySplit(b: nat, blocks: nat, d: nat, carry: nat, p: nat)
    requires b + blocks == 256 * carry + d
    ensures b * p + blocks * p == carry * (256 * p) + d * p
  {
    assert (b + blocks) * p == (256 * carry + d) * p;
    MulThird(carry, 256, p);
  }

  lemma AddedUp(was: seq<byte>, now: seq<byte>, i: nat, blocks: nat, blockCount: nat)
    requires Adding(was, now, i, blocks, blockCount)
    requires i == 0 || blocks == 0
    ensures now == Advance(was, blockCount)
  {
    PowValues();
    assert was == was[..i] + was[i..] && now == now[..i] + now[i..];
    ValConcat(was[..i], was[i..]);
    ValConcat(now[..i], now[i..]);
    ValBound(now);
    SumSplit(Val(was), Val(now), blockCount, if i == 0 then blocks else 0);
    AdvanceUnique(was, blockCount, now);
  }

  lemma SumSplit(was: nat, now: nat, blockCount: nat, carry: nat)
    requires was + blockCount == carry * TWO_128 + now && now < TWO_128
    ensures now == (was + blockCount) % TWO_128
  {
    ModMultiple(was + blockCount, carry);
  }
}
