/** Powers of two, as the sizes of tables (ceil_power_of_2 in hashtable.h). */
module Powers {

  predicate IsPowerOfTwo(n: nat) {
    n == 1 || (n > 1 && n % 2 == 0 && IsPowerOfTwo(n / 2))
  }

  lemma {:induction false} PowersBelow(n: nat, k: nat)
    requires IsPowerOfTwo(n) && IsPowerOfTwo(k) && n < k
    ensures 2 * n <= k
  {
    if n > 1 {
      PowersBelow(n / 2, k / 2);
    }
  }

  /** 1 << n. */
  function Shifted(n: nat): (r: nat)
    ensures IsPowerOfTwo(r)
  {
    if n == 0 then 1 else 2 * Shifted(n - 1)
  }

  /** The bits of n: what is left of the word without the leading zeros of n. */
  function Bits(n: nat): nat { if n == 0 then 0 else 1 + Bits(n / 2) }

  lemma {:induction false} BitsBound(n: nat)
    requires n > 0
    ensures n < Shifted(Bits(n)) <= 2 * n
  {
    if n > 1 {
      BitsBound(n / 2);
    } else {
      assert Bits(1) == 1 + Bits(0) && Shifted(1) == 2 * Shifted(0);
    }
  }

  /** ceil_power_of_2: the least power of two not below n, for positive n. */
  function CeilPowerOfTwo(n: nat): (p: nat)
    ensures n > 0 ==> IsPowerOfTwo(p) && n <= p < 2 * n
    ensures n == 0 ==> p == 0
  {
    if n < 2 then n
    else
      BitsBound(n - 1);
      Shifted(Bits(n - 1))
  }

  lemma CeilIsExact(n: nat)
    requires n > 0
    ensures CeilPowerOfTwo(n) == n <==> IsPowerOfTwo(n)
  {
    if IsPowerOfTwo(n) && n < CeilPowerOfTwo(n) {
      PowersBelow(n, CeilPowerOfTwo(n));
    }
  }
}
