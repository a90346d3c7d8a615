/** Unsigned 32-bit addition as arithmetic on numbers. */
module Words {
  import opened Bytes

  const TWO_32: nat := 0x1_0000_0000

  function WordNat(w: word): nat {
    w as nat
  }

  // Addition of two `uint`s, modulo 2^32.
  function Add32(x: word, y: word): word {
    x + y
  }

  // The shader's test for a wrapped sum.
  predicate Below(sum: word, x: word) {
    sum < x
  }

  lemma WordNatBound(w: word)
    ensures 0 <= WordNat(w) < TWO_32
    ensures WordNat(1) == 1
    ensures w != 0 ==> 0 < WordNat(w)
  {
    assert w != 0 ==> (w as nat) as word == w;
  }

  // ---- The sum in 64 bits, where it cannot wrap ----

  function WideSum(x: word, y: word): bv64 { (x as bv64) + (y as bv64) }
  function Wide(z: word): bv64 { z as bv64 }
  function WideNat(s: bv64): nat { s as nat }

  lemma SumValue(x: word, y: word)
    ensures ((x as bv64) + (y as bv64)) as nat == x as nat + y as nat
  {}

  lemma ZeroExtended(z: word)
    ensures (z as bv64) as nat == z as nat
  {}

  lemma LowBitsNoWrap(x: word, y: word, z: word)
    requires z == x + y && x <= z
    ensures (x as bv64) + (y as bv64) == z as bv64
  {}

  lemma WideSumValue(x: word, y: word)
    ensures WideNat(WideSum(x, y)) == WordNat(x) + WordNat(y)
  {
    SumValue(x, y);
  }

  lemma WideValue(z: word)
    ensures WideNat(Wide(z)) == WordNat(z)
  {
    ZeroExtended(z);
  }

  lemma NoWrap(x: word, y: word, z: word)
    requires z == x + y && x <= z
    ensures WideSum(x, y) == Wide(z)
  {
    LowBitsNoWrap(x, y, z);
  }

  lemma NoWrapAdd(x: word, y: word, z: word)
    requires z == Add32(x, y) && x <= z
    ensures WordNat(z) == WordNat(x) + WordNat(y)
  {
    hide WideSum, Wide, WideNat, WordNat;
    NoWrap(x, y, z);
    WideSumValue(x, y);
    WideValue(z);
  }

  // ---- Adding what wraps is subtracting the complement ----

  lemma Complement(y: word)
    ensures Add32(y, !y) == 0xFFFF_FFFF
  {}

  lemma Negated(y: word)
    ensures y != 0 ==> !y <= Add32(!y, 1)
  {}

  lemma TakenBack(x: word, y: word)
    ensures Add32(Add32(x, y), Add32(!y, 1)) == x
    ensures y == 0 ==> Add32(x, y) == x
  {}

  lemma AllOnes()
    ensures WordNat(0xFFFF_FFFF) == TWO_32 - 1
  {}

  lemma WrapAdd(x: word, y: word, z: word)
    requires z == Add32(x, y) && z < x
    ensures WordNat(x) + WordNat(y) == WordNat(z) + TWO_32
  {
    var m, n := !y, Add32(!y, 1);
    Complement(y);
    Negated(y);
    TakenBack(x, y);
    AllOnes();
    WordNatBound(y);
    hide WordNat, Add32;
    NoWrapAdd(y, m, 0xFFFF_FFFF);
    NoWrapAdd(m, 1, n);
    NoWrapAdd(z, n, x);
  }

  /** A 32-bit addition wraps exactly when its result is below an operand. */
  lemma WordAdd(x: word, y: word)
    ensures WordNat(x) + WordNat(y) == WordNat(Add32(x, y)) + (if Below(Add32(x, y), x) then TWO_32 else 0)
  {
    hide WordNat, Add32;
    var z := Add32(x, y);
    if Below(z, x) {
      WrapAdd(x, y, z);
    } else {
      NoWrapAdd(x, y, z);
    }
  }

  // ---- Indices and lengths stored in 32-bit words ----

  // The word with these bytes, highest first.
  function Joined(a: byte, b: byte, c: byte, d: byte): word {
    ((a as word) << 24) | ((b as word) << 16) | ((c as word) << 8) | (d as word)
  }

  lemma NatOfBytes(a: byte, b: byte, c: byte, d: byte)
    ensures WordNat(Joined(a, b, c, d)) == ((ToNat(a) * 256 + ToNat(b)) * 256 + ToNat(c)) * 256 + ToNat(d)
  {}

  /** The word that a conversion of n to `uint` gives: n modulo 2^32. */
  function WordOfNat(n: nat): word {
    var n0 := n % TWO_32;
    var n1 := n0 / 256;
    var n2 := n1 / 256;
    Joined(ToByte(n2 / 256), ToByte(n2 % 256), ToByte(n1 % 256), ToByte(n0 % 256))
  }

  lemma WordOfNatMod(n: nat)
    ensures WordNat(WordOfNat(n)) == n % TWO_32
  {
    hide WordNat, Joined, ToByte, ToNat;
    var n0 := n % TWO_32;
    var n1 := n0 / 256;
    var n2 := n1 / 256;
    NatOfByte(n2 / 256);
    NatOfByte(n2 % 256);
    NatOfByte(n1 % 256);
    NatOfByte(n0 % 256);
    NatOfBytes(ToByte(n2 / 256), ToByte(n2 % 256), ToByte(n1 % 256), ToByte(n0 % 256));
  }

  lemma WordOfNatValue(n: nat)
    requires n < TWO_32
    ensures WordNat(WordOfNat(n)) == n
  {
    hide WordNat, WordOfNat;
    WordOfNatMod(n);
  }

  lemma WordNatInjective(a: word, b: word)
    requires WordNat(a) == WordNat(b)
    ensures a == b
  {
    assert (a as nat) as word == a && (b as nat) as word == b;
  }

  lemma AddMod(x: word, y: word)
    ensures WordNat(Add32(x, y)) == (WordNat(x) + WordNat(y)) % TWO_32
  {
    hide WordNat, Add32, Below;
    WordAdd(x, y);
    WordNatBound(Add32(x, y));
    WordNatBound(x);
    WordNatBound(y);
  }

  /** Adding a and then b to a word is adding a + b, whatever wraps. */
  lemma AddNats(x: word, a: nat, b: nat)
    ensures Add32(Add32(x, WordOfNat(a)), WordOfNat(b)) == Add32(x, WordOfNat(a + b))
  {
    hide WordNat, Add32, WordOfNat;
    var l, r := Add32(Add32(x, WordOfNat(a)), WordOfNat(b)), Add32(x, WordOfNat(a + b));
    AddMod(x, WordOfNat(a));
    AddMod(Add32(x, WordOfNat(a)), WordOfNat(b));
    AddMod(x, WordOfNat(a + b));
    WordOfNatMod(a);
    WordOfNatMod(b);
    WordOfNatMod(a + b);
    WordNatBound(x);
    ModSums(WordNat(x), a, b);
    WordNatInjective(l, r);
  }

  lemma ModSums(x: nat, a: nat, b: nat)
    ensures ((x + a % TWO_32) % TWO_32 + b % TWO_32) % TWO_32 == (x + (a + b) % TWO_32) % TWO_32
  {}

  lemma AddZero(x: word)
    ensures Add32(x, WordOfNat(0)) == x
  {
    hide WordOfNat;
    WordOfNatMod(0);
    WordNatInjective(WordOfNat(0), 0);
  }
}
