/** Unsigned machine words of any width as bit sequences, least significant bit first. */
module Words {

  type Word = seq<bool>

  function Zeros(n: nat): (r: Word)
    ensures |r| == n
  {
    seq(n, _ => false)
  }

  function Xor(x: Word, y: Word): (r: Word)
    requires |x| == |y|
    ensures |r| == |x|
  {
    seq(|x|, i requires 0 <= i < |x| => x[i] != y[i])
  }

  /** `x >> k`. */
  function ShiftRight(x: Word, k: nat): (r: Word)
    requires k <= |x|
    ensures |r| == |x|
  {
    x[k..] + Zeros(k)
  }

  /** The number written in `w` bits; higher bits are cut off. */
  function FromNat(n: nat, w: nat): (r: Word)
    ensures |r| == w
  {
    if w == 0 then [] else [n % 2 == 1] + FromNat(n / 2, w - 1)
  }

  function ToNat(x: Word): nat {
    if x == [] then 0 else (if x[0] then 1 else 0) + 2 * ToNat(x[1..])
  }

  /** Zero extension. */
  function Extend(x: Word, w: nat): (r: Word)
    requires |x| <= w
    ensures |r| == w
  {
    x + Zeros(w - |x|)
  }

  lemma {:induction false} FromToNat(x: Word)
    ensures FromNat(ToNat(x), |x|) == x
  {
    if x != [] {
      FromToNat(x[1..]);
      assert ToNat(x) / 2 == ToNat(x[1..]);
    }
  }

  ghost function Pow2(n: nat): nat {
    if n == 0 then 1 else 2 * Pow2(n - 1)
  }

  lemma {:induction false} ToNatBound(x: Word)
    ensures ToNat(x) < Pow2(|x|)
  {
    if x != [] {
      ToNatBound(x[1..]);
    }
  }

  lemma {:induction false} ToFromNat(n: nat, w: nat)
    requires n < Pow2(w)
    ensures ToNat(FromNat(n, w)) == n
  {
    if w > 0 {
      ToFromNat(n / 2, w - 1);
      assert FromNat(n, w)[1..] == FromNat(n / 2, w - 1);
    }
  }

  /** A number that fits in `v` bits has zeros above them. */
  lemma {:induction false} FromNatExtends(n: nat, v: nat, w: nat)
    requires n < Pow2(v) && v <= w
    ensures FromNat(n, w) == Extend(FromNat(n, v), w)
    decreases w
  {
    if v == 0 {
      FromZero(w);
    } else {
      FromNatExtends(n / 2, v - 1, w - 1);
    }
  }

  lemma {:induction false} FromZero(w: nat)
    ensures FromNat(0, w) == Zeros(w)
  {
    if w > 0 {
      FromZero(w - 1);
    }
  }

  lemma XorSelf(x: Word, y: Word)
    requires |x| == |y|
    ensures Xor(x, Zeros(|x|)) == x
    ensures Xor(x, y) == Xor(y, x)
  {
  }

  lemma XorAssociates(x: Word, y: Word, z: Word)
    requires |x| == |y| == |z|
    ensures Xor(Xor(x, y), z) == Xor(x, Xor(y, z))
  {
  }

  lemma XorInjective(x: Word, y: Word, z: Word)
    requires |x| == |y| == |z| && Xor(x, y) == Xor(x, z)
    ensures y == z
  {
    forall i | 0 <= i < |y| ensures y[i] == z[i] {
      assert Xor(x, y)[i] == Xor(x, z)[i];
    }
  }
}
