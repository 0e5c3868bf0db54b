/**
 * The hash codes of the Java library types the assignment record hashes:
 * String.hashCode, Set.hashCode and the arithmetic of Java's 32-bit int.
 * An int is kept as its bit pattern read as an unsigned number, so every
 * `+` and `*` of Java is followed here by Wrap, the reduction modulo 2^32.
 */
module JavaHash {

  const TwoTo32: int := 0x1_0000_0000

  /** The bit pattern of a Java int. */
  type Int32 = x: int | 0 <= x < TwoTo32

  /** Java's wrap-around of an int result. */
  function Wrap(x: int): (r: Int32)
  {
    x % TwoTo32
  }

  /**
   * Bitwise exclusive or of the low bits of a and b, as many bits as the
   * power of two p has zeros.
   */
  function XorBits(a: nat, b: nat, p: nat): (r: nat)
    ensures p >= 1 ==> r < p
  {
    if p <= 1 then 0
    else 2 * XorBits(a / 2, b / 2, p / 2) + (if a % 2 == b % 2 then 0 else 1)
  }

  /** Java's `^` on two ints. */
  function Xor(a: Int32, b: Int32): (r: Int32)
  {
    XorBits(a, b, TwoTo32)
  }

  /** The code of one character as String.hashCode adds it. */
  function CharCode(c: char): (r: Int32)
  {
    c as int
  }

  /**
   * String.hashCode: s[0]*31^(n-1) + s[1]*31^(n-2) + ... + s[n-1], the
   * Horner evaluation `h = 31 * h + c` over the characters in order.
   */
  function StringHash(s: string): (r: Int32)
  {
    if |s| == 0 then 0 else Wrap(31 * StringHash(s[..|s| - 1]) + CharCode(s[|s| - 1]))
  }

  /** One element of a non-empty set, chosen arbitrarily. */
  ghost function Pick<T>(s: set<T>): (x: T)
    requires s != {}
    ensures x in s
  {
    var x :| x in s; x
  }

  /**
   * The exact sum of f over a finite set. The element taken first is
   * chosen arbitrarily; SumRemove shows that the choice does not matter.
   */
  ghost function Sum<T>(s: set<T>, f: T -> Int32): (r: int)
  {
    if s == {} then 0 else var x := Pick(s); f(x) + Sum(s - {x}, f)
  }

  /** Any element can be taken out of the sum first: the sum does not depend on an order. */
  lemma {:induction false} SumRemove<T>(s: set<T>, f: T -> Int32, x: T)
    requires x in s
    ensures Sum(s, f) == f(x) + Sum(s - {x}, f)
    decreases |s|
  {
    var y := Pick(s);
    if y != x {
      assert s - {y} - {x} == s - {x} - {y};
      SumRemove(s - {y}, f, x);
      SumRemove(s - {x}, f, y);
    }
  }

  /** Reducing an addend first does not change the wrapped sum. */
  lemma WrapAdd(a: int, b: int)
    ensures Wrap(a + Wrap(b)) == Wrap(a + b)
  {
    var q := b / TwoTo32;
    assert b == q * TwoTo32 + Wrap(b);
    assert a + b == (a + Wrap(b)) + q * TwoTo32;
  }

  /** The wrapped sum of f grows by f(x), with wrap-around, when x joins the set. */
  lemma WrappedSumInsert<T>(s: set<T>, f: T -> Int32, x: T)
    requires x !in s
    ensures Wrap(Sum(s + {x}, f)) == Wrap(f(x) + Wrap(Sum(s, f)))
  {
    SumRemove(s + {x}, f, x);
    assert s + {x} - {x} == s;
    WrapAdd(f(x), Sum(s, f));
  }

  /**
   * Set.hashCode (AbstractSet): the sum of the hash codes of the elements,
   * accumulated in an int, so taken modulo 2^32.
   */
  ghost function SetHash(s: set<string>): (r: Int32)
  {
    Wrap(Sum(s, StringHash))
  }

}
