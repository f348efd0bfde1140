/** Small facts about strings used by the scanner and the printer. */
module Strings {

  /** Number of occurrences of `c` in `s`. */
  function Count(c: char, s: string): (n: nat)
    ensures n <= |s|
  {
    if s == [] then 0 else (if s[0] == c then 1 else 0) + Count(c, s[1..])
  }

  /** A string without `c` counts none. */
  lemma {:induction false} CountAbsent(c: char, s: string)
    requires c !in s
    ensures Count(c, s) == 0
  {
    if s != [] {
      assert c !in s[1..];
      CountAbsent(c, s[1..]);
    }
  }

  lemma {:induction false} CountConcat(c: char, a: string, b: string)
    ensures Count(c, a + b) == Count(c, a) + Count(c, b)
  {
    if a == [] {
      assert a + b == b;
    } else {
      assert (a + b)[1..] == a[1..] + b;
      CountConcat(c, a[1..], b);
    }
  }

  /** Appending one character adds one to the count exactly when it is `c`. */
  lemma CountSnoc(c: char, s: string, x: char)
    ensures Count(c, s + [x]) == Count(c, s) + (if x == c then 1 else 0)
  {
    CountConcat(c, s, [x]);
  }

  /** Extending a slice by one character adds one to the count exactly when that character is `c`. */
  lemma CountExtend(c: char, s: string, a: nat, b: nat)
    requires a <= b < |s|
    ensures Count(c, s[a..b + 1]) == Count(c, s[a..b]) + (if s[b] == c then 1 else 0)
  {
    assert s[a..b + 1] == s[a..b] + [s[b]];
    CountSnoc(c, s[a..b], s[b]);
  }

  predicate EndsWith(s: string, suffix: string) {
    |suffix| <= |s| && s[|s| - |suffix|..] == suffix
  }
}
