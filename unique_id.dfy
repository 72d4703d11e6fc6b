/**
 * UniqueIdProvider: the installation identifier a peripheral advertises.
 * The first request draws three distinct letters and three distinct digits,
 * mixes them and stores the result; every later request returns what is
 * stored.
 *
 * Randomness enters through `shuffled()`, which on the JVM is
 * java.util.Collections.shuffle: for i from the size down to 2 it swaps
 * position i - 1 with a position drawn uniformly from [0, i). The model
 * takes the drawn positions as parameters, so every outcome of the random
 * generator is covered and none is preferred.
 */
module InstallationId {
  import opened Ble

  /** The draws one shuffle of an n-element list consumes: one per step, each below the step's bound. */
  ghost predicate ValidDraws(n: nat, draws: seq<nat>) {
    && |draws| == StepCount(n)
    && forall k :: 0 <= k < |draws| ==> draws[k] + k < n
  }

  /** The number of swaps Collections.shuffle performs on an n-element list. */
  function StepCount(n: nat): (c: nat)
    ensures c < n || n == 0
  {
    if n > 1 then n - 1 else 0
  }

  function Swap<T>(s: seq<T>, i: nat, j: nat): (r: seq<T>)
    requires i < |s| && j < |s|
    ensures |r| == |s| && r[i] == s[j] && r[j] == s[i]
    ensures forall k :: 0 <= k < |s| && k != i && k != j ==> r[k] == s[k]
  {
    s[i := s[j]][j := s[i]]
  }

  /**
   * The loop of Collections.shuffle from step `i` down: the first `i`
   * positions are still to be settled; `draws` holds the remaining draws.
   */
  function ShuffleFrom<T>(s: seq<T>, i: nat, draws: seq<nat>): (r: seq<T>)
    requires i <= |s| && ValidDraws(i, draws)
    ensures |r| == |s|
    ensures forall k :: 0 <= k < |r| ==> r[k] in s
    ensures Distinct(s) ==> Distinct(r)
    decreases i
  {
    if i <= 1 then s
    else
      ShuffleFrom(Swap(s, i - 1, draws[0]), i - 1, draws[1..])
  }

  /** Each step of the shuffle only exchanges two elements. */
  lemma {:induction false} ShuffleFromPermutes<T>(s: seq<T>, i: nat, draws: seq<nat>)
    requires i <= |s| && ValidDraws(i, draws)
    ensures multiset(ShuffleFrom(s, i, draws)) == multiset(s)
    decreases i
  {
    if i > 1 {
      var t := Swap(s, i - 1, draws[0]);
      assert t == s[i - 1 := s[draws[0]]][draws[0] := s[i - 1]];
      ShuffleFromPermutes(t, i - 1, draws[1..]);
    }
  }

  /** `shuffled()`: a permutation of `s` chosen by the draws. */
  function Shuffle<T>(s: seq<T>, draws: seq<nat>): (r: seq<T>)
    requires ValidDraws(|s|, draws)
    ensures |r| == |s|
    ensures forall k :: 0 <= k < |r| ==> r[k] in s
    ensures Distinct(s) ==> Distinct(r)
  {
    ShuffleFrom(s, |s|, draws)
  }

  predicate IsUpper(c: char) { 'A' <= c <= 'Z' }
  predicate IsDigit(c: char) { '0' <= c <= '9' }

  /** `'A'..'Z'` */
  const ALPHABET: string := CharRange('A', 26)

  /** `n` consecutive characters from `first` on. */
  function CharRange(first: char, n: nat): (r: string)
    requires first as int + n <= 0xD800
    ensures |r| == n && forall k :: 0 <= k < n ==> r[k] == (first as int + k) as char
  {
    if n == 0 then [] else CharRange(first, n - 1) + [(first as int + n - 1) as char]
  }

  /** `0..9` */
  const DIGITS: seq<nat> := Range(10)

  /** `0 until n` */
  function Range(n: nat): (r: seq<nat>)
    ensures |r| == n && forall k :: 0 <= k < n ==> r[k] == k
  {
    if n == 0 then [] else Range(n - 1) + [n - 1]
  }

  /** How `joinToString` writes a single decimal digit. */
  function DigitChar(d: nat): (c: char)
    requires d < 10
    ensures IsDigit(c)
  {
    ('0' as int + d) as char
  }

  /** `('A'..'Z').shuffled().take(3).joinToString("")` */
  function PickLetters(draws: seq<nat>): (r: string)
    requires ValidDraws(26, draws)
    ensures |r| == 3 && Distinct(r) && forall k :: 0 <= k < 3 ==> IsUpper(r[k])
  {
    ShuffleTakeThree(ALPHABET, draws, IsUpper);
    Shuffle(ALPHABET, draws)[..3]
  }

  /** `(0..9).shuffled().take(3).joinToString("")` */
  function PickDigits(draws: seq<nat>): (r: string)
    requires ValidDraws(10, draws)
    ensures |r| == 3 && Distinct(r) && forall k :: 0 <= k < 3 ==> IsDigit(r[k])
  {
    ShuffledDigitsShape(draws);
    JoinDigitsDistinct(Shuffle(DIGITS, draws)[..3]);
    JoinDigits(Shuffle(DIGITS, draws)[..3])
  }

  /** `shuffled()` returns a permutation of its input. */
  lemma {:induction false} ShufflePermutes<T>(s: seq<T>, draws: seq<nat>)
    requires ValidDraws(|s|, draws)
    ensures multiset(Shuffle(s, draws)) == multiset(s)
  {
    ShuffleFromPermutes(s, |s|, draws);
  }

  /** `joinToString("")` over single decimal digits. */
  function JoinDigits(ds: seq<nat>): (r: string)
    requires forall k :: 0 <= k < |ds| ==> ds[k] < 10
    ensures |r| == |ds| && forall k :: 0 <= k < |ds| ==> r[k] == DigitChar(ds[k])
  {
    if ds == [] then [] else [DigitChar(ds[0])] + JoinDigits(ds[1..])
  }

  /** The number of elements of `s` that satisfy `p`. */
  function CountIf<T>(s: seq<T>, p: T -> bool): (n: nat)
    ensures n <= |s|
  {
    if s == [] then 0 else (if p(s[0]) then 1 else 0) + CountIf(s[1..], p)
  }

  /** The shape of a generated identifier. */
  ghost predicate IsInstallationId(id: string) {
    && |id| == 6
    && Distinct(id)
    && (forall i :: 0 <= i < |id| ==> IsUpper(id[i]) || IsDigit(id[i]))
    && CountIf(id, IsUpper) == 3
    && CountIf(id, IsDigit) == 3
  }

  /** `getRandomString`: three letters and three digits, mixed by a final shuffle. */
  /**
   * Every generated identifier has six characters, all different: three
   * capital letters and three decimal digits, in any order.
   */
  function GetRandomString(letterDraws: seq<nat>, digitDraws: seq<nat>, mixDraws: seq<nat>): (id: string)
    requires ValidDraws(26, letterDraws) && ValidDraws(10, digitDraws) && ValidDraws(6, mixDraws)
    ensures IsInstallationId(id)
    ensures multiset(id) == multiset(PickLetters(letterDraws) + PickDigits(digitDraws))
  {
    var parts := PickLetters(letterDraws) + PickDigits(digitDraws);
    MixShape(PickLetters(letterDraws), PickDigits(digitDraws), mixDraws);
    ShufflePermutes(parts, mixDraws);
    Shuffle(parts, mixDraws)
  }

  lemma {:induction false} CountIfAppend<T>(a: seq<T>, b: seq<T>, p: T -> bool)
    ensures CountIf(a + b, p) == CountIf(a, p) + CountIf(b, p)
    decreases |a|
  {
    if a == [] {
      assert a + b == b;
    } else {
      assert (a + b)[1..] == a[1..] + b;
      CountIfAppend(a[1..], b, p);
    }
  }

  lemma {:induction false} CountIfAll<T>(s: seq<T>, p: T -> bool)
    requires forall k :: 0 <= k < |s| ==> p(s[k])
    ensures CountIf(s, p) == |s|
    decreases |s|
  {
    if s != [] {
      CountIfAll(s[1..], p);
    }
  }

  lemma {:induction false} CountIfNone<T>(s: seq<T>, p: T -> bool)
    requires forall k :: 0 <= k < |s| ==> !p(s[k])
    ensures CountIf(s, p) == 0
    decreases |s|
  {
    if s != [] {
      CountIfNone(s[1..], p);
    }
  }

  /** A count depends only on which elements occur how often, not on their order. */
  lemma {:induction false} CountIfPermutation<T>(a: seq<T>, b: seq<T>, p: T -> bool)
    requires multiset(a) == multiset(b)
    ensures CountIf(a, p) == CountIf(b, p)
    decreases |a|
  {
    if a == [] {
      assert |multiset(b)| == |b|;
    } else {
      var x := a[0];
      assert x in multiset(b);
      var k :| 0 <= k < |b| && b[k] == x;
      assert a == [x] + a[1..];
      assert multiset(a[1..]) == multiset(a) - multiset{x};
      MultisetRemove(b, k);
      CountIfPermutation(a[1..], b[..k] + b[k + 1..], p);
      CountIfRemove(b, k, p);
    }
  }

  /** Dropping the element at `k` drops one copy of it from the multiset. */
  lemma {:induction false} MultisetRemove<T>(b: seq<T>, k: nat)
    requires k < |b|
    ensures multiset(b[..k] + b[k + 1..]) == multiset(b) - multiset{b[k]}
  {
    assert b == b[..k] + [b[k]] + b[k + 1..];
  }

  /** Dropping the element at `k` lowers the count by one exactly when it satisfies `p`. */
  lemma {:induction false} CountIfRemove<T>(b: seq<T>, k: nat, p: T -> bool)
    requires k < |b|
    ensures CountIf(b, p) == CountIf(b[..k] + b[k + 1..], p) + (if p(b[k]) then 1 else 0)
  {
    var pre, post := b[..k], b[k + 1..];
    var mid := [b[k]] + post;
    assert CountIf(b, p) == CountIf(pre, p) + CountIf(mid, p) by {
      assert b == pre + mid;
      CountIfAppend(pre, mid, p);
    }
    assert CountIf(mid, p) == (if p(b[k]) then 1 else 0) + CountIf(post, p) by {
      assert mid[1..] == post;
    }
    CountIfAppend(pre, post, p);
  }

  /** The first three elements of a shuffle of distinct elements that all satisfy `p`. */
  lemma {:induction false} ShuffleTakeThree<T>(s: seq<T>, draws: seq<nat>, p: T -> bool)
    requires |s| >= 3 && ValidDraws(|s|, draws)
    requires Distinct(s) && forall k :: 0 <= k < |s| ==> p(s[k])
    ensures var t := Shuffle(s, draws)[..3];
      Distinct(t) && forall k :: 0 <= k < 3 ==> p(t[k])
  {
    var r := Shuffle(s, draws);
    forall k | 0 <= k < 3
      ensures p(r[k])
    {
      assert r[k] in s;
    }
  }

  /** The three digits taken from a shuffle of `0..9` are different decimal digits. */
  lemma {:induction false} ShuffledDigitsShape(draws: seq<nat>)
    requires ValidDraws(10, draws)
    ensures var ds := Shuffle(DIGITS, draws)[..3];
      Distinct(ds) && forall k :: 0 <= k < |ds| ==> ds[k] < 10
  {
    RangeDistinct(10);
    ShuffleTakeThree(DIGITS, draws, IsDecimal);
  }

  /** A number `joinToString` writes as one decimal digit. */
  predicate IsDecimal(n: nat) { n < 10 }

  /** `0 until n` holds no number twice. */
  lemma {:induction false} RangeDistinct(n: nat)
    ensures Distinct(Range(n))
  {
    var r := Range(n);
    forall i, j | 0 <= i < j < n
      ensures r[i] != r[j]
    {
    }
  }

  /** Different digits are written as different characters. */
  lemma {:induction false} JoinDigitsDistinct(ds: seq<nat>)
    requires forall k :: 0 <= k < |ds| ==> ds[k] < 10
    requires Distinct(ds)
    ensures Distinct(JoinDigits(ds))
  {
    var d := JoinDigits(ds);
    forall i, j | 0 <= i < j < |d|
      ensures d[i] != d[j]
    {
      assert d[i] == DigitChar(ds[i]) && d[j] == DigitChar(ds[j]);
    }
  }

  /** Three letters followed by three digits, all distinct. */
  lemma {:induction false} ConcatDistinct(l: string, d: string)
    requires |l| == 3 && Distinct(l) && forall k :: 0 <= k < 3 ==> IsUpper(l[k])
    requires |d| == 3 && Distinct(d) && forall k :: 0 <= k < 3 ==> IsDigit(d[k])
    ensures Distinct(l + d)
  {
    var m := l + d;
    forall i, j | 0 <= i < j < 6
      ensures m[i] != m[j]
    {
      if j < 3 {
        assert m[i] == l[i] && m[j] == l[j];
      } else if i >= 3 {
        assert m[i] == d[i - 3] && m[j] == d[j - 3];
      } else {
        assert IsUpper(m[i]) && IsDigit(m[j]);
      }
    }
  }

  /** The final shuffle keeps the three-and-three shape. */
  lemma {:induction false} MixShape(l: string, d: string, draws: seq<nat>)
    requires |l| == 3 && Distinct(l) && forall k :: 0 <= k < 3 ==> IsUpper(l[k])
    requires |d| == 3 && Distinct(d) && forall k :: 0 <= k < 3 ==> IsDigit(d[k])
    requires ValidDraws(6, draws)
    ensures IsInstallationId(Shuffle(l + d, draws))
  {
    var m := l + d;
    ConcatDistinct(l, d);
    var id := Shuffle(m, draws);
    forall k | 0 <= k < 6
      ensures IsUpper(id[k]) || IsDigit(id[k])
    {
      assert id[k] in m;
    }
    MixCounts(l, d, draws);
  }

  /** The final shuffle keeps three letters and three digits. */
  lemma {:induction false} MixCounts(l: string, d: string, draws: seq<nat>)
    requires |l| == 3 && forall k :: 0 <= k < 3 ==> IsUpper(l[k])
    requires |d| == 3 && forall k :: 0 <= k < 3 ==> IsDigit(d[k])
    requires ValidDraws(6, draws)
    ensures CountIf(Shuffle(l + d, draws), IsUpper) == 3
    ensures CountIf(Shuffle(l + d, draws), IsDigit) == 3
  {
    var m := l + d;
    assert CountIf(m, IsUpper) == 3 && CountIf(m, IsDigit) == 3 by {
      CountIfAppend(l, d, IsUpper);
      CountIfAppend(l, d, IsDigit);
      CountIfAll(l, IsUpper);
      CountIfNone(d, IsUpper);
      CountIfNone(l, IsDigit);
      CountIfAll(d, IsDigit);
    }
    ShufflePermutes(m, draws);
    CountIfPermutation(Shuffle(m, draws), m, IsUpper);
    CountIfPermutation(Shuffle(m, draws), m, IsDigit);
  }

  /**
   * `UniqueIdProvider.getOrCreateId`. The preference store is the one field
   * `storedId` (the value under "unique_ble_device_id"), and the draws of the
   * three shuffles are parameters.
   */
  class UniqueIdProvider {
    var storedId: Option<string>

    constructor(stored: Option<string>)
      ensures storedId == stored
    {
      storedId := stored;
    }

    method GetOrCreateId(letterDraws: seq<nat>, digitDraws: seq<nat>, mixDraws: seq<nat>) returns (id: string)
      requires ValidDraws(26, letterDraws) && ValidDraws(10, digitDraws) && ValidDraws(6, mixDraws)
      modifies this
      ensures storedId == Some(id)
      ensures old(storedId).Some? ==> id == old(storedId).value
      ensures old(storedId).None? ==> IsInstallationId(id)
    {
      if storedId.Some? {
        id := storedId.value;
      } else {
        id := GetRandomString(letterDraws, digitDraws, mixDraws);
        storedId := Some(id);
      }
    }
  }

  /** Once an identifier exists, every later request returns it, whatever the generator draws. */
  method GetOrCreateIdIsStable(p: UniqueIdProvider, a1: seq<nat>, b1: seq<nat>, c1: seq<nat>,
                               a2: seq<nat>, b2: seq<nat>, c2: seq<nat>)
    returns (first: string, second: string)
    requires ValidDraws(26, a1) && ValidDraws(10, b1) && ValidDraws(6, c1)
    requires ValidDraws(26, a2) && ValidDraws(10, b2) && ValidDraws(6, c2)
    modifies p
    ensures first == second && p.storedId == Some(first)
  {
    first := p.GetOrCreateId(a1, b1, c1);
    second := p.GetOrCreateId(a2, b2, c2);
  }
}
