/** Cleaning an uploaded file's name. A name is a sequence of bytes. */
module Filename {
  newtype Byte = x: int | 0 <= x < 256

  type Bytes = seq<Byte>

  const DOT: Byte := 46
  const SLASH: Byte := 47
  const BACKSLASH: Byte := 92
  const LIMIT := 255

  /** One pass from the left that drops every non-overlapping occurrence of `pattern`. */
  function RemoveAll(s: Bytes, pattern: Bytes): Bytes
    requires pattern != []
  {
    if s == [] then []
    else if pattern <= s then RemoveAll(s[|pattern|..], pattern)
    else [s[0]] + RemoveAll(s[1..], pattern)
  }

  predicate Contains(s: Bytes, pattern: Bytes) {
    exists i :: 0 <= i <= |s| && pattern <= s[i..]
  }

  predicate Clean(s: Bytes) {
    SLASH !in s && BACKSLASH !in s && !Contains(s, [DOT, DOT]) && |s| <= LIMIT
  }

  /** The name before it is cut to length. */
  function Stripped(name: Bytes): Bytes {
    RemoveAll(RemoveAll(RemoveAll(name, [SLASH]), [BACKSLASH]), [DOT, DOT])
  }

  function SanitizeFilename(name: Bytes): (r: Bytes)
    ensures Clean(r)
    ensures r <= Stripped(name) && (|r| < LIMIT ==> r == Stripped(name))
  {
    StrippedIsClean(name);
    var stripped := Stripped(name);
    if |stripped| > LIMIT then
      PrefixStaysClean(stripped, LIMIT);
      stripped[..LIMIT]
    else stripped
  }

  // ---------- Patterns for which one pass is enough ----------

  /** `n` copies of a byte. */
  function Copies(c: Byte, n: nat): (s: Bytes)
    ensures |s| == n && forall i :: 0 <= i < n ==> s[i] == c
  {
    if n == 0 then [] else [c] + Copies(c, n - 1)
  }

  /** How many times `c` is repeated at the start. */
  function Lead(s: Bytes, c: Byte): (n: nat)
    ensures n <= |s| && forall i :: 0 <= i < n ==> s[i] == c
    ensures n < |s| ==> s[n] != c
  {
    if s == [] || s[0] != c then 0
    else
      var rest := Lead(s[1..], c);
      assert forall i :: 1 <= i < rest + 1 ==> s[i] == s[1..][i - 1];
      rest + 1
  }

  lemma LeadIsPrefix(s: Bytes, c: Byte, k: nat)
    ensures Copies(c, k) <= s <==> Lead(s, c) >= k
  {
    if Lead(s, c) >= k {
      assert s[..k] == Copies(c, k);
    } else {
      assert Copies(c, k)[Lead(s, c)] == c;
    }
  }

  lemma {:induction false} LeadSplits(s: Bytes, c: Byte, k: nat)
    requires k <= Lead(s, c)
    ensures Lead(s, c) == k + Lead(s[k..], c)
  {
    if k == 0 {
      assert s[0..] == s;
    } else {
      LeadSplits(s[1..], c, k - 1);
      assert s[1..][k - 1..] == s[k..];
    }
  }

  lemma Multiple(q: int, k: nat)
    requires q > 0
    ensures q * k >= k
  {
  }

  lemma RemainderIs(n: int, k: nat, q: int, r: nat)
    requires r < k && n == q * k + r
    ensures n % k == r
  {
    var d := n / k;
    assert (d - q) * k == r - n % k && (q - d) * k == n % k - r;
    if d > q {
      Multiple(d - q, k);
    } else if d < q {
      Multiple(q - d, k);
    }
  }

  lemma RemainderOfMore(n: nat, k: nat)
    requires k > 0
    ensures (k + n) % k == n % k
    ensures n < k ==> n % k == n
  {
    assert k + n == (n / k + 1) * k + n % k;
    RemainderIs(k + n, k, n / k + 1, n % k);
  }

  /** A run of `c` at the start shrinks to its remainder. */
  lemma {:induction false} LeadAfterRemoval(s: Bytes, c: Byte, k: nat)
    requires k > 0
    ensures Lead(RemoveAll(s, Copies(c, k)), c) == Lead(s, c) % k
  {
    var pattern := Copies(c, k);
    LeadIsPrefix(s, c, k);
    if s == [] {
    } else if pattern <= s {
      LeadSplits(s, c, k);
      LeadAfterRemoval(s[k..], c, k);
      RemainderOfMore(Lead(s[k..], c), k);
    } else {
      var rest := RemoveAll(s[1..], pattern);
      LeadAfterRemoval(s[1..], c, k);
      RemainderOfMore(Lead(s, c), k);
      RemainderOfMore(Lead(s[1..], c), k);
      assert ([s[0]] + rest)[1..] == rest;
    }
  }

  lemma ContainedInTail(s: Bytes, pattern: Bytes)
    requires s != []
    ensures Contains(s, pattern) <==> pattern <= s || Contains(s[1..], pattern)
  {
    assert s[0..] == s;
    assert forall i :: 1 <= i <= |s| ==> s[i..] == s[1..][i - 1..];
    assert forall i :: 0 <= i <= |s[1..]| ==> s[1..][i..] == s[i + 1..];
  }

  lemma {:induction false} CopiesAreGone(s: Bytes, c: Byte, k: nat)
    requires k > 0
    ensures !Contains(RemoveAll(s, Copies(c, k)), Copies(c, k))
  {
    var pattern := Copies(c, k);
    var r := RemoveAll(s, pattern);
    if s != [] {
      if pattern <= s {
        CopiesAreGone(s[k..], c, k);
      } else {
        CopiesAreGone(s[1..], c, k);
        LeadAfterRemoval(s, c, k);
        LeadIsPrefix(r, c, k);
        ContainedInTail(r, pattern);
      }
    }
  }

  predicate OneByteRepeated(pattern: Bytes) {
    forall i :: 0 <= i < |pattern| ==> pattern[i] == pattern[0]
  }

  lemma RepeatedIsCopies(pattern: Bytes)
    requires pattern != [] && OneByteRepeated(pattern)
    ensures pattern == Copies(pattern[0], |pattern|)
  {
  }

  lemma {:induction false} ShortStays(s: Bytes, pattern: Bytes)
    requires |s| < |pattern|
    ensures RemoveAll(s, pattern) == s
  {
    if s != [] {
      ShortStays(s[1..], pattern);
    }
  }

  lemma RemovalAtStart(pattern: Bytes, rest: Bytes)
    requires pattern != []
    ensures RemoveAll(pattern + rest, pattern) == RemoveAll(rest, pattern)
  {
    assert (pattern + rest)[|pattern|..] == rest;
  }

  /** A pattern put inside a copy of itself, after its first byte, survives one pass unless it is one
      byte repeated. */
  lemma NestedSurvives(pattern: Bytes)
    requires pattern != [] && !OneByteRepeated(pattern)
    ensures RemoveAll([pattern[0]] + (pattern + pattern[1..]), pattern) == pattern
  {
    var inner := pattern + pattern[1..];
    var s := [pattern[0]] + inner;
    assert !(pattern <= s) by {
      if pattern <= s {
        RepeatsItself(pattern, s);
      }
    }
    assert s[1..] == inner;
    RemovalAtStart(pattern, pattern[1..]);
    ShortStays(pattern[1..], pattern);
  }

  lemma RepeatsItself(pattern: Bytes, s: Bytes)
    requires pattern != [] && pattern <= s && [pattern[0]] + pattern <= s
    ensures OneByteRepeated(pattern)
  {
    forall i | 0 <= i < |pattern| ensures pattern[i] == pattern[0] {
      AllAlike(pattern, s, i);
    }
  }

  lemma {:induction false} AllAlike(pattern: Bytes, s: Bytes, i: nat)
    requires i < |pattern| && pattern <= s && [pattern[0]] + pattern <= s
    ensures pattern[i] == pattern[0]
  {
    if i > 0 {
      AllAlike(pattern, s, i - 1);
      assert s[i] == ([pattern[0]] + pattern)[i] == pattern[i - 1];
    }
  }

  /** One pass removes a pattern for good, whatever the input, exactly when the pattern repeats a single
      byte; the sanitiser's three patterns all do. */
  lemma OnePassIsEnough(pattern: Bytes)
    requires pattern != []
    ensures (forall s :: !Contains(RemoveAll(s, pattern), pattern)) <==> OneByteRepeated(pattern)
  {
    if OneByteRepeated(pattern) {
      RepeatedIsCopies(pattern);
      forall s ensures !Contains(RemoveAll(s, pattern), pattern) {
        CopiesAreGone(s, pattern[0], |pattern|);
      }
    } else {
      NestedSurvives(pattern);
      var s := [pattern[0]] + (pattern + pattern[1..]);
      assert pattern[0..] == pattern;
      assert Contains(RemoveAll(s, pattern), pattern);
    }
  }

  // ---------- What the passes leave ----------

  lemma {:induction false} RemovalAddsNothing(s: Bytes, pattern: Bytes, c: Byte)
    requires pattern != [] && c !in s
    ensures c !in RemoveAll(s, pattern)
  {
    if s != [] {
      if pattern <= s {
        RemovalAddsNothing(s[|pattern|..], pattern, c);
      } else {
        RemovalAddsNothing(s[1..], pattern, c);
      }
    }
  }

  lemma {:induction false} ContainsByte(s: Bytes, c: Byte)
    ensures Contains(s, [c]) <==> c in s
  {
    if s != [] {
      ContainsByte(s[1..], c);
      ContainedInTail(s, [c]);
      assert s == [s[0]] + s[1..];
      assert [c] <= s <==> s[0] == c;
    }
  }

  lemma ByteIsGone(s: Bytes, c: Byte)
    ensures c !in RemoveAll(s, [c])
  {
    OnePassIsEnough([c]);
    ContainsByte(RemoveAll(s, [c]), c);
  }

  lemma StrippedIsClean(name: Bytes)
    ensures var r := Stripped(name);
      SLASH !in r && BACKSLASH !in r && !Contains(r, [DOT, DOT])
  {
    var a := RemoveAll(name, [SLASH]);
    var b := RemoveAll(a, [BACKSLASH]);
    ByteIsGone(name, SLASH);
    ByteIsGone(a, BACKSLASH);
    RemovalAddsNothing(a, [BACKSLASH], SLASH);
    RemovalAddsNothing(b, [DOT, DOT], SLASH);
    RemovalAddsNothing(b, [DOT, DOT], BACKSLASH);
    OnePassIsEnough([DOT, DOT]);
  }

  lemma PrefixStaysClean(s: Bytes, n: nat)
    requires n <= |s| && n <= LIMIT
    requires SLASH !in s && BACKSLASH !in s && !Contains(s, [DOT, DOT])
    ensures Clean(s[..n])
  {
    assert forall i :: 0 <= i <= n ==> s[..n][i..] <= s[i..];
  }

  lemma {:induction false} AbsentStays(s: Bytes, pattern: Bytes)
    requires pattern != [] && !Contains(s, pattern)
    ensures RemoveAll(s, pattern) == s
  {
    if s != [] {
      ContainedInTail(s, pattern);
      AbsentStays(s[1..], pattern);
    }
  }

  /** Sanitising leaves a name alone exactly when it is clean already; so sanitising twice is sanitising
      once. */
  lemma CleanIsFixed(name: Bytes)
    ensures SanitizeFilename(name) == name <==> Clean(name)
    ensures SanitizeFilename(SanitizeFilename(name)) == SanitizeFilename(name)
  {
    if Clean(name) {
      CleanStays(name);
    }
    CleanStays(SanitizeFilename(name));
  }

  lemma CleanStays(name: Bytes)
    requires Clean(name)
    ensures SanitizeFilename(name) == name
  {
    ContainsByte(name, SLASH);
    ContainsByte(name, BACKSLASH);
    AbsentStays(name, [SLASH]);
    AbsentStays(name, [BACKSLASH]);
    AbsentStays(name, [DOT, DOT]);
  }

  // ---------- Which bytes survive ----------

  function Except(s: Bytes, c: Byte): Bytes {
    if s == [] then [] else (if s[0] == c then [] else [s[0]]) + Except(s[1..], c)
  }

  /** Removing a single byte keeps all others in order. */
  lemma {:induction false} RemovingAByteFilters(s: Bytes, c: Byte)
    ensures RemoveAll(s, [c]) == Except(s, c)
  {
    if s != [] {
      RemovingAByteFilters(s[1..], c);
      assert [c] <= s <==> s[0] == c;
    }
  }

  /** A pattern of bytes `c` found at the start cannot reach past another byte. */
  lemma PatternEndsBefore(before: Bytes, rest: Bytes, pattern: Bytes, c: Byte)
    requires before != [] && before[|before| - 1] != c && forall i :: 0 <= i < |pattern| ==> pattern[i] == c
    ensures pattern <= before + rest <==> pattern <= before
  {
    var s, k := before + rest, |pattern|;
    assert s[|before| - 1] != c;
    if pattern <= s {
      assert forall i :: 0 <= i < k ==> s[i] == pattern[i] == c;
      assert before[..k] == s[..k];
    }
  }

  lemma RemovalSkips(b: Byte, rest: Bytes, pattern: Bytes)
    requires pattern != [] && !(pattern <= [b] + rest)
    ensures RemoveAll([b] + rest, pattern) == [b] + RemoveAll(rest, pattern)
  {
    assert ([b] + rest)[1..] == rest;
  }

  /** Where no run of `c` reaches across the border, the two sides are treated on their own. */
  lemma {:induction false} SidesAreSeparate(before: Bytes, rest: Bytes, pattern: Bytes, c: Byte)
    requires pattern != [] && forall i :: 0 <= i < |pattern| ==> pattern[i] == c
    requires before != [] ==> before[|before| - 1] != c
    ensures RemoveAll(before + rest, pattern) == RemoveAll(before, pattern) + RemoveAll(rest, pattern)
    decreases |before|
  {
    if before == [] {
      assert before + rest == rest;
    } else {
      PatternEndsBefore(before, rest, pattern, c);
      if pattern <= before {
        var tail := before[|pattern|..];
        assert before == pattern + tail && before + rest == pattern + (tail + rest);
        RemovalAtStart(pattern, tail);
        RemovalAtStart(pattern, tail + rest);
        SidesAreSeparate(tail, rest, pattern, c);
      } else {
        var tail := before[1..];
        assert before == [before[0]] + tail && before + rest == [before[0]] + (tail + rest);
        RemovalSkips(before[0], tail, pattern);
        RemovalSkips(before[0], tail + rest, pattern);
        SidesAreSeparate(tail, rest, pattern, c);
      }
    }
  }

  /** A run of n bytes `c` between other bytes keeps n modulo k of them when runs of k are removed, and
      its surroundings are treated on their own. */
  lemma RunKeepsRemainder(before: Bytes, n: nat, after: Bytes, c: Byte, k: nat)
    requires k > 0 && (before != [] ==> before[|before| - 1] != c) && (after != [] ==> after[0] != c)
    ensures RemoveAll(before + (Copies(c, n) + after), Copies(c, k))
            == RemoveAll(before, Copies(c, k)) + (Copies(c, n % k) + RemoveAll(after, Copies(c, k)))
  {
    SidesAreSeparate(before, Copies(c, n) + after, Copies(c, k), c);
    LeadingRun(n, after, c, k);
  }

  lemma {:induction false} ShortRun(n: nat, after: Bytes, c: Byte, k: nat)
    requires n < k && (after != [] ==> after[0] != c)
    ensures RemoveAll(Copies(c, n) + after, Copies(c, k)) == Copies(c, n) + RemoveAll(after, Copies(c, k))
  {
    var s, pattern := Copies(c, n) + after, Copies(c, k);
    if n == 0 {
      assert s == after;
    } else {
      assert s[1..] == Copies(c, n - 1) + after;
      assert !(pattern <= s) by {
        assert |s| > n ==> s[n] == after[0];
        assert pattern[n] == c;
      }
      ShortRun(n - 1, after, c, k);
    }
  }

  lemma {:induction false} LeadingRun(n: nat, after: Bytes, c: Byte, k: nat)
    requires k > 0 && (after != [] ==> after[0] != c)
    ensures RemoveAll(Copies(c, n) + after, Copies(c, k)) == Copies(c, n % k) + RemoveAll(after, Copies(c, k))
  {
    if n < k {
      RemainderOfMore(n, k);
      ShortRun(n, after, c, k);
    } else {
      assert Copies(c, n) + after == Copies(c, k) + (Copies(c, n - k) + after);
      RemovalAtStart(Copies(c, k), Copies(c, n - k) + after);
      LeadingRun(n - k, after, c, k);
      RemainderOfMore(n - k, k);
    }
  }

  predicate IsOrdinary(c: Byte) {
    c != SLASH && c != BACKSLASH && c != DOT
  }

  function Ordinary(s: Bytes): Bytes {
    if s == [] then [] else (if IsOrdinary(s[0]) then [s[0]] else []) + Ordinary(s[1..])
  }

  lemma {:induction false} OrdinaryAppends(a: Bytes, b: Bytes)
    ensures Ordinary(a + b) == Ordinary(a) + Ordinary(b)
  {
    if a == [] {
      assert a + b == b;
    } else {
      var first := if IsOrdinary(a[0]) then [a[0]] else [];
      assert (a + b)[1..] == a[1..] + b;
      OrdinaryAppends(a[1..], b);
      assert Ordinary(a + b) == first + (Ordinary(a[1..]) + Ordinary(b)) == (first + Ordinary(a[1..])) + Ordinary(b);
    }
  }

  lemma {:induction false} RemovalKeepsOrdinary(s: Bytes, pattern: Bytes)
    requires pattern != [] && Ordinary(pattern) == []
    ensures Ordinary(RemoveAll(s, pattern)) == Ordinary(s)
  {
    if s == [] {
    } else if pattern <= s {
      assert s == pattern + s[|pattern|..];
      OrdinaryAppends(pattern, s[|pattern|..]);
      RemovalKeepsOrdinary(s[|pattern|..], pattern);
    } else {
      RemovalKeepsOrdinary(s[1..], pattern);
      OrdinaryAppends([s[0]], RemoveAll(s[1..], pattern));
      assert [s[0]] + s[1..] == s;
      OrdinaryAppends([s[0]], s[1..]);
    }
  }

  /** Every byte other than a separator or a dot survives the passes, in order. */
  lemma OrdinaryBytesSurvive(name: Bytes)
    ensures Ordinary(Stripped(name)) == Ordinary(name)
  {
    var a := RemoveAll(name, [SLASH]);
    assert Ordinary([DOT, DOT][1..]) == [];
    RemovalKeepsOrdinary(name, [SLASH]);
    RemovalKeepsOrdinary(a, [BACKSLASH]);
    RemovalKeepsOrdinary(RemoveAll(a, [BACKSLASH]), [DOT, DOT]);
  }

  /** Dots first and separators afterwards would bring a pair of dots back together. */
  lemma SeparatorsComeFirst()
    ensures var name := [DOT, SLASH, DOT];
      RemoveAll(RemoveAll(name, [DOT, DOT]), [SLASH]) == [DOT, DOT] && Stripped(name) == []
  {
    var name, dots := [DOT, SLASH, DOT], [DOT, DOT];
    assert name[1..] == [SLASH, DOT] && name[1..][1..] == [DOT] && name[1..][1..][1..] == [];
    assert RemoveAll([DOT], dots) == [DOT];
    assert [SLASH, DOT][1..] == [DOT] && [SLASH, DOT][0] != dots[0];
    assert RemoveAll([SLASH, DOT], dots) == [SLASH, DOT];
    assert RemoveAll(name, dots) == name;
    RemovingAByteFilters(name, SLASH);
    assert Except([DOT], SLASH) == [DOT];
    assert Except([SLASH, DOT], SLASH) == [DOT];
    assert RemoveAll(name, [SLASH]) == dots;
    assert BACKSLASH !in dots;
    ContainsByte(dots, BACKSLASH);
    AbsentStays(dots, [BACKSLASH]);
    assert dots[2..] == [];
  }
}
