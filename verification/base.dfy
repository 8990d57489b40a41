/**
 Shared vocabulary: optional values, identifiers, Go's 64-bit arithmetic and a few
 facts about sequences that the other modules need.
 */
module Base {
  datatype Option<+T> = None | Some(value: T)

  /** A UUID. Zero plays the part of uuid.Nil. */
  type Id = nat

  /** Clock readings and durations are nanoseconds, as in Go's time package. */
  const MILLISECOND := 1_000_000
  const SECOND := 1_000_000_000
  const DAY := 24 * 60 * 60 * SECOND

  const MIN_INT64 := -0x8000_0000_0000_0000
  const MAX_INT64 := 0x7FFF_FFFF_FFFF_FFFF

  /** Two's-complement wrap-around of a 64-bit signed integer. */
  function Wrap64(x: int): int {
    (x - MIN_INT64) % 0x1_0000_0000_0000_0000 + MIN_INT64
  }

  lemma WrapFits(x: int)
    requires MIN_INT64 <= x <= MAX_INT64
    ensures Wrap64(x) == x
  {
  }

  /** time.Duration(ms) * time.Millisecond, which wraps for very large ms. */
  function Millis(ms: int): int {
    Wrap64(ms * MILLISECOND)
  }

  /** One millisecond is a million nanoseconds; nothing wraps for delays below about 292 years. */
  lemma MillisExact(ms: int)
    requires -9_223_372_036_854 <= ms <= 9_223_372_036_854
    ensures Millis(ms) == ms * 1_000_000
  {
  }

  function Min(a: int, b: int): int {
    if a <= b then a else b
  }

  function Max(a: int, b: int): int {
    if a <= b then b else a
  }

  /** s without its element at index i. */
  function Without<T>(s: seq<T>, i: nat): seq<T>
    requires i < |s|
    ensures |Without(s, i)| == |s| - 1
  {
    var n := |s| - 1;
    if i == n then s[..n] else Without(s[..n], i) + [s[n]]
  }

  /** How often x occurs in s. */
  function Occurrences<T(==)>(s: seq<T>, x: T): nat {
    if s == [] then 0
    else Occurrences(s[..|s| - 1], x) + if s[|s| - 1] == x then 1 else 0
  }

  lemma OccurrencesAppend<T>(s: seq<T>, y: T, x: T)
    ensures Occurrences(s + [y], x) == Occurrences(s, x) + if x == y then 1 else 0
  {
    assert (s + [y])[..|s|] == s;
  }

  lemma {:induction false} OccurrencesWithout<T>(s: seq<T>, i: nat, x: T)
    requires i < |s|
    ensures Occurrences(s, x) == Occurrences(Without(s, i), x) + if x == s[i] then 1 else 0
  {
    var n := |s| - 1;
    if i < n {
      OccurrencesWithout(s[..n], i, x);
      OccurrencesAppend(Without(s[..n], i), s[n], x);
    }
  }

  lemma {:induction false} OccurrencesHead<T>(s: seq<T>, x: T)
    requires s != []
    ensures Occurrences(s, x) == Occurrences(s[1..], x) + if x == s[0] then 1 else 0
  {
    var n := |s| - 1;
    if n > 0 {
      OccurrencesHead(s[..n], x);
      assert s[1..][..n - 1] == s[..n][1..];
    }
  }

  /** How many elements of s satisfy p. */
  function CountIf<T>(s: seq<T>, p: T -> bool): nat {
    if s == [] then 0 else CountIf(s[..|s| - 1], p) + if p(s[|s| - 1]) then 1 else 0
  }

  lemma CountIfAppend<T>(s: seq<T>, x: T, p: T -> bool)
    ensures CountIf(s + [x], p) == CountIf(s, p) + if p(x) then 1 else 0
  {
    assert (s + [x])[..|s|] == s;
  }

  lemma {:induction false} CountIfWithout<T>(s: seq<T>, i: nat, p: T -> bool)
    requires i < |s|
    ensures CountIf(s, p) == CountIf(Without(s, i), p) + if p(s[i]) then 1 else 0
  {
    var n := |s| - 1;
    if i < n {
      CountIfWithout(s[..n], i, p);
      CountIfAppend(Without(s[..n], i), s[n], p);
    }
  }

  lemma {:induction false} CountIfAtMost<T>(s: seq<T>, p: T -> bool)
    ensures CountIf(s, p) <= |s|
  {
    if s != [] { CountIfAtMost(s[..|s| - 1], p); }
  }

  /** The last n elements of s, or all of it when it is shorter. */
  function LastN<T>(s: seq<T>, n: int): seq<T> {
    if n <= 0 then [] else if n >= |s| then s else s[|s| - n..]
  }

  /** Byte order of strings. */
  predicate Less(s: string, t: string) {
    t != [] && (s == [] || s[0] < t[0] || (s[0] == t[0] && Less(s[1..], t[1..])))
  }

  /** That is: at the first place where they differ s has the smaller byte, or ends. */
  lemma {:induction false} LessIff(s: string, t: string)
    ensures Less(s, t) <==> exists k: nat :: FirstDifference(s, t, k) && (k == |s| || s[k] < t[k])
  {
    if s != [] && t != [] && s[0] == t[0] {
      LessIff(s[1..], t[1..]);
      if k: nat :| FirstDifference(s[1..], t[1..], k) && (k == |s[1..]| || s[1..][k] < t[1..][k]) {
        assert s[..k + 1] == [s[0]] + s[1..][..k] && t[..k + 1] == [t[0]] + t[1..][..k];
        assert FirstDifference(s, t, k + 1);
      }
      if k: nat :| FirstDifference(s, t, k) && (k == |s| || s[k] < t[k]) {
        assert s[1..][..k - 1] == s[..k][1..] && t[1..][..k - 1] == t[..k][1..];
        assert FirstDifference(s[1..], t[1..], k - 1);
      }
    } else if t != [] {
      assert FirstDifference(s, t, 0);
    }
  }

  predicate FirstDifference(s: string, t: string, k: nat) {
    k <= |s| && k < |t| && s[..k] == t[..k]
  }

  lemma {:induction false} LessTotal(s: string, t: string)
    ensures s == t || Less(s, t) || Less(t, s)
    ensures Less(s, t) ==> s != t && !Less(t, s)
  {
    if s != [] && t != [] {
      LessTotal(s[1..], t[1..]);
      assert s == [s[0]] + s[1..] && t == [t[0]] + t[1..];
    }
  }

  lemma {:induction false} LessTransitive(s: string, t: string, u: string)
    requires Less(s, t) && Less(t, u)
    ensures Less(s, u)
  {
    if s != [] && s[0] == t[0] == u[0] { LessTransitive(s[1..], t[1..], u[1..]); }
  }
}
