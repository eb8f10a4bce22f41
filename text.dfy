/**
 * The JavaScript string operations the widgets use: `toLowerCase`,
 * `includes`, `indexOf`, `replace` with a string pattern, and the decimal
 * rendering of a non-negative integer in a template literal.
 */
module Text {
  import opened Wrappers

  /** ASCII letters only; the full Unicode mapping of `toLowerCase` is not modelled. */
  function LowerChar(c: char): char
  {
    if 'A' <= c <= 'Z' then (c as int + 32) as char else c
  }

  /** `s.toLowerCase()`: every capital becomes its small letter, every other character stays. */
  function Lower(s: string): (r: string)
    ensures |r| == |s|
    ensures forall i :: 0 <= i < |r| ==> !('A' <= r[i] <= 'Z')
    ensures forall i :: 0 <= i < |s| && 'A' <= s[i] <= 'Z' ==> r[i] as int == s[i] as int + 32
    ensures forall i :: 0 <= i < |s| && !('A' <= s[i] <= 'Z') ==> r[i] == s[i]
  {
    seq(|s|, i requires 0 <= i < |s| => LowerChar(s[i]))
  }

  /** `sub` occurs in `s` starting at position `i`. */
  predicate OccursAt(s: string, sub: string, i: nat)
  {
    i + |sub| <= |s| && s[i..i + |sub|] == sub
  }

  /** `s.indexOf(sub, k)`: the least position at or after `k` where `sub` occurs. */
  function IndexFrom(s: string, sub: string, k: nat): (r: Option<nat>)
    ensures r.Some? ==> k <= r.value && OccursAt(s, sub, r.value)
    ensures r.Some? ==> forall j :: k <= j < r.value ==> !OccursAt(s, sub, j)
    ensures r.None? ==> forall j :: k <= j ==> !OccursAt(s, sub, j)
    decreases |s| - k
  {
    if k + |sub| > |s| then None
    else if OccursAt(s, sub, k) then Some(k)
    else IndexFrom(s, sub, k + 1)
  }

  /** `s.indexOf(sub)`, with `None` for JavaScript's -1. */
  function IndexOf(s: string, sub: string): (r: Option<nat>)
    ensures r.Some? ==> OccursAt(s, sub, r.value) && forall j: nat :: j < r.value ==> !OccursAt(s, sub, j)
    ensures r.None? ==> forall j: nat :: !OccursAt(s, sub, j)
  {
    IndexFrom(s, sub, 0)
  }

  /** `s.includes(sub)`. */
  predicate Includes(s: string, sub: string)
    ensures Includes(s, sub) <==> exists i: nat :: OccursAt(s, sub, i)
    ensures sub == "" ==> Includes(s, sub)
  {
    IndexOf(s, sub).Some?
  }

  /** `s.replace(pat, "")` with a string pattern: deletes the first occurrence of `pat` only. */
  function RemoveFirst(s: string, pat: string): (r: string)
    ensures |r| == if Includes(s, pat) then |s| - |pat| else |s|
    ensures !Includes(s, pat) ==> r == s
  {
    match IndexOf(s, pat)
    case None => s
    case Some(i) => s[..i] + s[i + |pat|..]
  }

  predicate IsDigit(c: char)
  {
    '0' <= c <= '9'
  }

  predicate AllDigits(s: string)
  {
    forall i :: 0 <= i < |s| ==> IsDigit(s[i])
  }

  /** The decimal value of a string of digits, most significant first. */
  function ParseDigits(s: string): int
    decreases |s|
  {
    if s == [] then 0 else ParseDigits(s[..|s| - 1]) * 10 + (s[|s| - 1] as int - '0' as int)
  }

  /** `String(n)` for a non-negative integer: its canonical decimal digits. */
  function NatToString(n: nat): (r: string)
    ensures |r| >= 1 && AllDigits(r)
    ensures ParseDigits(r) == n
    ensures r[0] == '0' ==> n == 0
    ensures n < 10 ==> |r| == 1
    ensures |r| > 1 ==> r[0] != '0'
    decreases n
  {
    var last := [('0' as int + n % 10) as char];
    if n < 10 then last
    else
      var init := NatToString(n / 10);
      assert (init + last)[..|init|] == init;
      init + last
  }

  // ----- Case-insensitive search -----

  lemma LowerSlice(s: string, i: nat, j: nat)
    requires i <= j <= |s|
    ensures Lower(s)[i..j] == Lower(s[i..j])
  {
  }

  /** An exact occurrence is also an occurrence once both sides are lower-cased. */
  lemma LowerKeepsOccurrence(s: string, sub: string, i: nat)
    requires OccursAt(s, sub, i)
    ensures OccursAt(Lower(s), Lower(sub), i)
  {
    LowerSlice(s, i, i + |sub|);
  }

  // ----- replace -----

  /** The deleted occurrence is the first one, and it lies at the index `indexOf` reports. */
  lemma RemoveFirstSplits(s: string, pat: string)
    requires Includes(s, pat)
    ensures var i := IndexOf(s, pat).value;
      && s == s[..i] + pat + s[i + |pat|..]
      && RemoveFirst(s, pat) == s[..i] + s[i + |pat|..]
      && forall j: nat :: j < i ==> !OccursAt(s, pat, j)
  {
    var i := IndexOf(s, pat).value;
    assert s == s[..i] + s[i..i + |pat|] + s[i + |pat|..];
  }

  /** Later occurrences survive the deletion, shifted left by the pattern's length. */
  lemma RemoveFirstKeepsLater(s: string, pat: string, j: nat)
    requires Includes(s, pat)
    requires OccursAt(s, pat, j) && j >= IndexOf(s, pat).value + |pat|
    ensures OccursAt(RemoveFirst(s, pat), pat, j - |pat|)
  {
    var i := IndexOf(s, pat).value;
    var r := RemoveFirst(s, pat);
    assert r == s[..i] + s[i + |pat|..];
    assert r[j - |pat|..j] == s[j..j + |pat|];
  }

  // ----- Decimal rendering -----

  lemma NatToStringInjective(m: nat, n: nat)
    requires NatToString(m) == NatToString(n)
    ensures m == n
  {
  }

  /**
   * When two strings both end in a separator followed by a separator-free
   * tail, the tails agree: the split at the last separator is unique.
   */
  lemma {:induction false} LastSeparatorSplit(a: string, t1: string, b: string, t2: string, sep: char)
    requires forall i :: 0 <= i < |t1| ==> t1[i] != sep
    requires forall i :: 0 <= i < |t2| ==> t2[i] != sep
    requires a + [sep] + t1 == b + [sep] + t2
    ensures t1 == t2
  {
    var s := a + [sep] + t1;
    assert s[|s| - 1 - |t1|] == sep && s[|s| - 1 - |t2|] == sep;
    forall p | |s| - |t1| <= p < |s| ensures s[p] != sep {
      assert s[p] == t1[p - (|s| - |t1|)];
    }
    forall p | |s| - |t2| <= p < |s| ensures s[p] != sep {
      assert s[p] == t2[p - (|s| - |t2|)];
    }
    assert t1 == s[|s| - |t1|..];
    assert t2 == s[|s| - |t2|..];
  }

}
