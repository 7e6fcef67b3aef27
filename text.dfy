/** The pieces of Go's `strings`, `bytes` and `strconv` packages that the proxy and the DSN builder
    rely on, written over sequences so that they serve for both `string` and `[]byte`. */
module Text {
  import opened Base

  /** `strings.HasPrefix`. */
  predicate HasPrefix<T(==)>(s: seq<T>, p: seq<T>) {
    |p| <= |s| && s[..|p|] == p
  }

  /** `strings.TrimPrefix`: at most one leading copy of `p` is removed. */
  function TrimPrefix<T(==)>(s: seq<T>, p: seq<T>): (r: seq<T>)
    ensures HasPrefix(s, p) ==> p + r == s
    ensures !HasPrefix(s, p) ==> r == s
  {
    if HasPrefix(s, p) then s[|p|..] else s
  }

  /** `strings.Join(parts, string(sep))`. */
  function Join<T>(parts: seq<seq<T>>, sep: T): (r: seq<T>)
  {
    if |parts| == 0 then []
    else if |parts| == 1 then parts[0]
    else parts[0] + [sep] + Join(parts[1..], sep)
  }

  /** `strings.Split(s, string(sep))`: the pieces between the separators, never none. */
  function Split<T(==)>(s: seq<T>, sep: T): (r: seq<seq<T>>)
    ensures |r| > 0
    decreases |s|
  {
    var i := IndexOf(s, sep);
    if i == |s| then [s] else [s[..i]] + Split(s[i + 1..], sep)
  }

  /** Splitting undoes joining when no piece holds the separator. */
  lemma {:induction false} SplitJoin<T>(parts: seq<seq<T>>, sep: T)
    requires |parts| > 0
    requires forall k :: 0 <= k < |parts| ==> sep !in parts[k]
    ensures Split(Join(parts, sep), sep) == parts
    decreases |parts|
  {
    if |parts| > 1 {
      var rest := Join(parts[1..], sep);
      IndexOfFirst(parts[0], sep, rest);
      SplitJoin(parts[1..], sep);
      assert parts == [parts[0]] + parts[1..];
    }
  }

  /** `pat` starts at position `i` of `s`. */
  predicate OccursAt(s: Bytes, pat: Bytes, i: nat) {
    i + |pat| <= |s| && s[i..i + |pat|] == pat
  }

  /** `bytes.Replace(s, pat, rep, -1)` for a non-empty `pat`: every occurrence, taken leftmost first
      and without overlap, is replaced by `rep`. */
  function ReplaceAll(s: Bytes, pat: Bytes, rep: Bytes): (r: Bytes)
    requires |pat| > 0
    decreases |s|
  {
    if |s| < |pat| then s
    else if s[..|pat|] == pat then rep + ReplaceAll(s[|pat|..], pat, rep)
    else [s[0]] + ReplaceAll(s[1..], pat, rep)
  }

  /** Dropping the first element moves every occurrence one place to the left. */
  lemma {:induction false} OccursShift(s: Bytes, pat: Bytes, i: nat)
    requires |s| > 0
    ensures OccursAt(s, pat, i + 1) == OccursAt(s[1..], pat, i)
  {
    if i + 1 + |pat| <= |s| {
      assert s[1..][i..i + |pat|] == s[i + 1..i + 1 + |pat|];
    }
  }

  /** Text with no occurrence of the pattern is left as it is. */
  lemma {:induction false} ReplaceAbsent(s: Bytes, pat: Bytes, rep: Bytes)
    requires |pat| > 0
    requires forall i: nat :: !OccursAt(s, pat, i)
    ensures ReplaceAll(s, pat, rep) == s
    decreases |s|
  {
    if |s| >= |pat| {
      assert !OccursAt(s, pat, 0);
      forall i: nat
        ensures !OccursAt(s[1..], pat, i)
      {
        OccursShift(s, pat, i);
      }
      ReplaceAbsent(s[1..], pat, rep);
      assert s == [s[0]] + s[1..];
    }
  }

  /** An element where the pattern does not start is copied through. */
  lemma {:induction false} ReplaceSkip(s: Bytes, pat: Bytes, rep: Bytes)
    requires |pat| > 0 && |s| > 0
    requires !OccursAt(s, pat, 0)
    ensures ReplaceAll(s, pat, rep) == [s[0]] + ReplaceAll(s[1..], pat, rep)
  {
  }

  /** `pat` starts at none of the first `n` positions of `s`. */
  predicate NoneBefore(s: Bytes, pat: Bytes, n: nat)
    decreases n
  {
    n == 0 || (0 < |s| && !OccursAt(s, pat, 0) && NoneBefore(s[1..], pat, n - 1))
  }

  /** The positional statement of `NoneBefore`. */
  lemma {:induction false} NoneBeforeFromAll(s: Bytes, pat: Bytes, n: nat)
    requires n <= |s|
    requires forall i: nat :: i < n ==> !OccursAt(s, pat, i)
    ensures NoneBefore(s, pat, n)
    decreases n
  {
    if n > 0 {
      assert !OccursAt(s, pat, 0);
      forall i: nat | i < n - 1
        ensures !OccursAt(s[1..], pat, i)
      {
        OccursShift(s, pat, i);
      }
      NoneBeforeFromAll(s[1..], pat, n - 1);
    }
  }

  /** Text in which the pattern starts nowhere is copied through, whatever follows it. */
  lemma {:induction false} ReplaceCopies(a: Bytes, t: Bytes, pat: Bytes, rep: Bytes)
    requires |pat| > 0
    requires NoneBefore(a + t, pat, |a|)
    ensures ReplaceAll(a + t, pat, rep) == a + ReplaceAll(t, pat, rep)
    decreases |a|
  {
    if |a| > 0 {
      var s := a + t;
      assert s[1..] == a[1..] + t;
      ReplaceSkip(s, pat, rep);
      ReplaceCopies(a[1..], t, pat, rep);
      assert a == [a[0]] + a[1..];
    } else {
      assert a + t == t;
    }
  }

  /** An occurrence at the start is replaced. */
  lemma {:induction false} ReplaceAtStart(pat: Bytes, rep: Bytes, b: Bytes)
    requires |pat| > 0
    ensures ReplaceAll(pat + b, pat, rep) == rep + ReplaceAll(b, pat, rep)
  {
    var s := pat + b;
    assert s[..|pat|] == pat;
    assert s[|pat|..] == b;
  }

  /** A text holding the pattern exactly once gets `rep` in its place and nothing else changes. */
  lemma {:induction false} ReplaceOnce(a: Bytes, pat: Bytes, rep: Bytes, b: Bytes)
    requires |pat| > 0
    requires forall i: nat :: i < |a| ==> !OccursAt(a + pat + b, pat, i)
    requires forall i: nat :: !OccursAt(b, pat, i)
    ensures ReplaceAll(a + pat + b, pat, rep) == a + rep + b
  {
    var t := pat + b;
    assert a + pat + b == a + t;
    NoneBeforeFromAll(a + t, pat, |a|);
    ReplaceCopies(a, t, pat, rep);
    ReplaceAtStart(pat, rep, b);
    ReplaceAbsent(b, pat, rep);
  }

  /** The ASCII digit for `d`. */
  function Digit(d: nat): (c: char)
    requires d < 10
    ensures '0' <= c <= '9' && (c as int) - ('0' as int) == d
  {
    ['0', '1', '2', '3', '4', '5', '6', '7', '8', '9'][d]
  }

  predicate IsDigits(s: string) {
    forall i :: 0 <= i < |s| ==> '0' <= s[i] <= '9'
  }

  /** `strconv.Itoa` on a non-negative value: decimal, without leading zeros. */
  function NatToString(n: nat): (r: string)
    ensures |r| > 0 && IsDigits(r)
    ensures |r| > 1 ==> r[0] != '0'
    decreases n
  {
    if n < 10 then [Digit(n)] else NatToString(n / 10) + [Digit(n % 10)]
  }

  /** The value of a string of decimal digits, as `strconv.Atoi` reads it. */
  function DigitsValue(s: string): (v: nat)
    requires IsDigits(s)
    decreases |s|
  {
    if |s| == 0 then 0
    else 10 * DigitsValue(s[..|s| - 1]) + ((s[|s| - 1] as int) - ('0' as int))
  }

  /** Reading back what `NatToString` wrote gives the number. */
  lemma {:induction false} DigitsRoundTrip(n: nat)
    ensures DigitsValue(NatToString(n)) == n
    decreases n
  {
    if n >= 10 {
      var r := NatToString(n);
      assert r[..|r| - 1] == NatToString(n / 10);
      DigitsRoundTrip(n / 10);
    }
  }
}
