/** The few `java.lang` operations the services use, with Java's semantics:
    case-sensitive `String.startsWith` and `String.contains`, string
    concatenation of a possibly-null reference, and 64-bit `long` and 32-bit
    `int` addition with two's-complement wrap-around. */
module JavaLang {
  import opened Wrappers

  /** `s.startsWith(p)`: exact, case-sensitive prefix test. */
  predicate StartsWith(s: string, p: string) {
    |p| <= |s| && s[..|p|] == p
  }

  /** `p` occurs in `s` starting at index `i`. */
  predicate OccursAt(s: string, p: string, i: nat) {
    i + |p| <= |s| && s[i..i + |p|] == p
  }

  /** `s.contains(p)`, scanning the start positions from the left. */
  predicate Contains(s: string, p: string)
    decreases |s|
  {
    StartsWith(s, p) || (|s| > 0 && Contains(s[1..], p))
  }

  /** The scan finds `p` exactly when `p` occurs somewhere in `s`. */
  lemma {:induction false} ContainsIff(s: string, p: string)
    ensures Contains(s, p) <==> exists i: nat :: OccursAt(s, p, i)
    decreases |s|
  {
    if StartsWith(s, p) {
      assert OccursAt(s, p, 0);
    } else if |s| > 0 {
      ContainsIff(s[1..], p);
      if Contains(s[1..], p) {
        var j: nat :| OccursAt(s[1..], p, j);
        assert s[1..][j..j + |p|] == s[j + 1..j + 1 + |p|];
        assert OccursAt(s, p, j + 1);
      }
      if i: nat :| OccursAt(s, p, i) {
        assert i != 0;
        assert s[1..][i - 1..i - 1 + |p|] == s[i..i + |p|];
        assert OccursAt(s[1..], p, i - 1);
      }
    }
  }

  /** The text Java's `+` appends for a possibly-null `String`. */
  function Text(s: Option<string>): string {
    match s
    case None => "null"
    case Some(v) => v
  }

  const TwoTo31: int := 0x8000_0000
  const TwoTo32: int := 0x1_0000_0000
  const TwoTo63: int := 0x8000_0000_0000_0000
  const TwoTo64: int := 0x1_0000_0000_0000_0000

  predicate IsLong(x: int) {
    -TwoTo63 <= x < TwoTo63
  }

  predicate IsInt(x: int) {
    -TwoTo31 <= x < TwoTo31
  }

  /** Java `long` addition: the sum modulo 2^64, in the signed range. */
  function LongAdd(a: int, b: int): (r: int)
    ensures IsLong(r)
    ensures (r - (a + b)) % TwoTo64 == 0
    ensures IsLong(a + b) ==> r == a + b
  {
    (a + b + TwoTo63) % TwoTo64 - TwoTo63
  }

  /** Java's `(int)` narrowing of a 32-bit pattern read as unsigned. */
  function IntOfBits(low: bv32): (r: int)
    ensures IsInt(r)
  {
    var u := low as int;
    if u < TwoTo31 then u else u - TwoTo32
  }

  /** Java `int` addition: the sum modulo 2^32, in the signed range. */
  function IntAdd(a: int, b: int): (r: int)
    ensures IsInt(r)
    ensures (r - (a + b)) % TwoTo32 == 0
    ensures IsInt(a + b) ==> r == a + b
  {
    (a + b + TwoTo31) % TwoTo32 - TwoTo31
  }

  /** `Long.hashCode(v)`: `(int)(v ^ (v >>> 32))`, i.e. the low half of the
      pattern XOR its high half. */
  function LongHashCode(v: int): int
    requires IsLong(v)
  {
    var unsigned := (v + TwoTo64) % TwoTo64;
    var low := (unsigned % TwoTo32) as bv32;
    var high := (unsigned / TwoTo32) as bv32;
    IntOfBits(low ^ high)
  }
}
