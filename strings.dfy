/**
 * String operations the server relies on: the ascending key order of a
 * `std::map<std::string, _>` (and of a JSON object), `std::string::find`,
 * and the find-and-replace loop used for `{name}` placeholders.
 */
module Strings {

  /** Strict lexicographic order on strings, character by character. */
  predicate Less(a: string, b: string)
    decreases |a|
  {
    |b| > 0 && (|a| == 0 || a[0] < b[0] || (a[0] == b[0] && Less(a[1..], b[1..])))
  }

  lemma {:induction false} LessIrreflexive(a: string)
    ensures !Less(a, a)
    decreases |a|
  {
    if |a| > 0 {
      LessIrreflexive(a[1..]);
    }
  }

  lemma {:induction false} LessAsymmetric(a: string, b: string)
    ensures Less(a, b) ==> !Less(b, a)
    decreases |a|
  {
    if |a| > 0 && |b| > 0 && a[0] == b[0] {
      LessAsymmetric(a[1..], b[1..]);
    }
  }

  lemma {:induction false} LessTransitive(a: string, b: string, c: string)
    requires Less(a, b) && Less(b, c)
    ensures Less(a, c)
    decreases |a|
  {
    if |a| > 0 && a[0] == b[0] && b[0] == c[0] {
      LessTransitive(a[1..], b[1..], c[1..]);
    }
  }

  lemma {:induction false} LessTotal(a: string, b: string)
    ensures a == b || Less(a, b) || Less(b, a)
    decreases |a|
  {
    if |a| > 0 && |b| > 0 && a[0] == b[0] {
      LessTotal(a[1..], b[1..]);
      if a[1..] == b[1..] {
        assert a == [a[0]] + a[1..] && b == [b[0]] + b[1..];
      }
    }
  }

  /** `k` is the smallest element of `s`. */
  predicate IsLeast(k: string, s: set<string>)
  {
    k in s && forall x :: x in s ==> x == k || Less(k, x)
  }

  lemma {:induction false} LeastExists(s: set<string>)
    requires s != {}
    ensures exists k :: IsLeast(k, s)
    decreases |s|
  {
    var y :| y in s;
    if s == {y} {
      assert IsLeast(y, s);
    } else {
      LeastExists(s - {y});
      var m :| IsLeast(m, s - {y});
      LessTotal(y, m);
      if Less(y, m) {
        forall x | x in s
          ensures x == y || Less(y, x)
        {
          if x != y && x != m {
            LessTransitive(y, m, x);
          }
        }
        assert IsLeast(y, s);
      } else {
        assert IsLeast(m, s);
      }
    }
  }

  lemma LeastUnique(s: set<string>)
    ensures forall a, b :: IsLeast(a, s) && IsLeast(b, s) ==> a == b
  {
    forall a, b | IsLeast(a, s) && IsLeast(b, s)
      ensures a == b
    {
      LessAsymmetric(a, b);
    }
  }

  /** The smallest element of a non-empty set of strings. */
  function Least(s: set<string>): (k: string)
    requires s != {}
    ensures IsLeast(k, s)
  {
    LeastExists(s);
    LeastUnique(s);
    var k :| IsLeast(k, s);
    k
  }

  /** The elements of `s` in ascending order: the iteration order of a `std::map` with these keys. */
  function SortedKeys(s: set<string>): (r: seq<string>)
    ensures |r| == |s|
    ensures forall x :: x in r <==> x in s
    decreases |s|
  {
    if s == {} then []
    else
      var k := Least(s);
      [k] + SortedKeys(s - {k})
  }

  /** The entries of a map with string keys in ascending key order: what iterating a `std::map` visits. */
  function Items<V>(m: map<string, V>): (r: seq<(string, V)>)
    ensures |r| == |m|
    ensures forall i :: 0 <= i < |r| ==> r[i].0 in m && r[i].1 == m[r[i].0]
    ensures forall k :: k in m ==> exists i :: 0 <= i < |r| && r[i].0 == k
  {
    var keys := SortedKeys(m.Keys);
    var r := seq(|keys|, i requires 0 <= i < |keys| => (keys[i], m[keys[i]]));
    assert forall k :: k in m ==> exists i :: 0 <= i < |r| && r[i].0 == k by {
      forall k | k in m
        ensures exists i :: 0 <= i < |r| && r[i].0 == k
      {
        assert k in keys;
        var i :| 0 <= i < |keys| && keys[i] == k;
        assert r[i].0 == k;
      }
    }
    r
  }

  /** The entries come in the order of `SortedKeys`, so each key occurs once. */
  lemma ItemsKeys<V>(m: map<string, V>)
    ensures forall i :: 0 <= i < |Items(m)| ==> Items(m)[i].0 == SortedKeys(m.Keys)[i]
  {
  }

  /** Each element strictly below every later one. */
  predicate Ascending(r: seq<string>)
  {
    forall i, j :: 0 <= i < j < |r| ==> Less(r[i], r[j])
  }

  /** `SortedKeys` lists the set in strictly ascending order. */
  lemma {:induction false} SortedKeysAscending(s: set<string>)
    ensures Ascending(SortedKeys(s))
    decreases |s|
  {
    if s != {} {
      var k := Least(s);
      var rest := SortedKeys(s - {k});
      SortedKeysAscending(s - {k});
      var r := SortedKeys(s);
      assert r == [k] + rest;
      forall i, j | 0 <= i < j < |r|
        ensures Less(r[i], r[j])
      {
        if i == 0 {
          assert r[j] == rest[j - 1] && rest[j - 1] in s - {k};
        } else {
          assert r[i] == rest[i - 1] && r[j] == rest[j - 1];
        }
      }
    }
  }

  /** Strictly ascending sequences have no repeated element. */
  lemma AscendingDistinct(r: seq<string>)
    requires Ascending(r)
    ensures forall i, j :: 0 <= i < j < |r| ==> r[i] != r[j]
  {
    forall i, j | 0 <= i < j < |r|
      ensures r[i] != r[j]
    {
      LessIrreflexive(r[i]);
    }
  }

  /** `pat` occurs in `s` starting at index `i`. */
  predicate OccursAt(s: string, pat: string, i: nat)
  {
    i + |pat| <= |s| && s[i..i + |pat|] == pat
  }

  /** `std::string::find(pat, from)` for a non-empty `pat`: the first occurrence at or after `from`, or -1 (npos). */
  function Find(s: string, pat: string, from: nat): (r: int)
    requires |pat| > 0
    ensures r == -1 || (from <= r && OccursAt(s, pat, r))
    ensures r == -1 ==> forall i: nat :: from <= i ==> !OccursAt(s, pat, i)
    ensures r != -1 ==> forall i: nat :: from <= i < r ==> !OccursAt(s, pat, i)
    decreases |s| - from
  {
    if from + |pat| > |s| then -1
    else if OccursAt(s, pat, from) then from
    else Find(s, pat, from + 1)
  }

  /** `s` contains `pat` somewhere (`s.find(pat) != npos`). */
  predicate Contains(s: string, pat: string)
  {
    exists i: nat :: i <= |s| && OccursAt(s, pat, i)
  }

  /**
   * Every occurrence of `pat` replaced by `rep`, scanning left to right and
   * resuming after each inserted `rep`, as the `find`/`replace` loops do.
   */
  function ReplaceAll(s: string, pat: string, rep: string): string
    requires |pat| > 0
    decreases |s|
  {
    if |s| < |pat| then s
    else if s[..|pat|] == pat then rep + ReplaceAll(s[|pat|..], pat, rep)
    else [s[0]] + ReplaceAll(s[1..], pat, rep)
  }

  /** A string without `pat` is left as it is. */
  lemma {:induction false} ReplaceAllAbsent(s: string, pat: string, rep: string)
    requires |pat| > 0
    requires forall i: nat :: !OccursAt(s, pat, i)
    ensures ReplaceAll(s, pat, rep) == s
    decreases |s|
  {
    if |s| >= |pat| {
      assert !OccursAt(s, pat, 0);
      forall i: nat
        ensures !OccursAt(s[1..], pat, i)
      {
        assert !OccursAt(s, pat, i + 1);
        if i + |pat| <= |s[1..]| {
          assert s[1..][i..i + |pat|] == s[i + 1..i + 1 + |pat|];
        }
      }
      ReplaceAllAbsent(s[1..], pat, rep);
    }
  }

  /** Positions before the first occurrence are copied: the scan may skip ahead to it. */
  lemma {:induction false} ReplaceAllSkip(s: string, pat: string, rep: string, k: nat)
    requires |pat| > 0 && k <= |s|
    requires forall i: nat :: i < k ==> !OccursAt(s, pat, i)
    ensures ReplaceAll(s, pat, rep) == s[..k] + ReplaceAll(s[k..], pat, rep)
    decreases k
  {
    if k > 0 {
      assert !OccursAt(s, pat, 0);
      if |s| < |pat| {
        ReplaceAllShort(s[k..], pat, rep);
        assert s[..k] + s[k..] == s;
      } else {
        forall i: nat | i < k - 1
          ensures !OccursAt(s[1..], pat, i)
        {
          assert !OccursAt(s, pat, i + 1);
          if i + |pat| <= |s[1..]| {
            assert s[1..][i..i + |pat|] == s[i + 1..i + 1 + |pat|];
          }
        }
        ReplaceAllSkip(s[1..], pat, rep, k - 1);
        assert s[1..][k - 1..] == s[k..];
        assert [s[0]] + s[1..][..k - 1] == s[..k];
      }
    }
  }

  lemma ReplaceAllShort(s: string, pat: string, rep: string)
    requires |pat| > 0 && |s| < |pat|
    ensures ReplaceAll(s, pat, rep) == s
  {
  }

  /**
   * The first occurrence is replaced and the scan resumes after it: if the
   * leftmost occurrence of `pat` in `s` is at `k`, the result is the text
   * before it, then `rep`, then the rest processed in the same way.
   */
  lemma ReplaceAllFirst(s: string, pat: string, rep: string, k: nat)
    requires |pat| > 0
    requires OccursAt(s, pat, k)
    requires forall i: nat :: i < k ==> !OccursAt(s, pat, i)
    ensures ReplaceAll(s, pat, rep) == s[..k] + rep + ReplaceAll(s[k + |pat|..], pat, rep)
  {
    ReplaceAllSkip(s, pat, rep, k);
    var t := s[k..];
    assert |t| >= |pat| && t[..|pat|] == s[k..k + |pat|] == pat;
    assert t[|pat|..] == s[k + |pat|..];
    calc {
      ReplaceAll(s, pat, rep);
      s[..k] + ReplaceAll(t, pat, rep);
      s[..k] + (rep + ReplaceAll(s[k + |pat|..], pat, rep));
    }
  }

  /** Text inserted by a replacement is never scanned again, even if it contains `pat`. */
  lemma ReplacementNotRescanned(pat: string, rep: string, t: string)
    requires |pat| > 0
    ensures ReplaceAll(pat + t, pat, rep) == rep + ReplaceAll(t, pat, rep)
  {
    assert (pat + t)[..|pat|] == pat;
    assert (pat + t)[|pat|..] == t;
  }

  /** An occurrence in a suffix is an occurrence in the whole string, shifted. */
  lemma OccursAtShift(s: string, pat: string, from: nat, i: nat)
    requires from <= |s|
    ensures OccursAt(s[from..], pat, i) <==> OccursAt(s, pat, from + i)
  {
    if i + |pat| <= |s[from..]| {
      assert s[from..][i..i + |pat|] == s[from + i..from + i + |pat|];
    }
  }

  /** `std::to_string` of a non-negative count: its decimal digits, most significant first. */
  function NatToString(n: nat): (r: string)
    ensures |r| >= 1
    ensures forall i :: 0 <= i < |r| ==> '0' <= r[i] <= '9'
    ensures r[0] == '0' ==> n == 0
  {
    if n < 10 then [Digit(n)] else NatToString(n / 10) + [Digit(n % 10)]
  }

  function Digit(d: nat): (c: char)
    requires d < 10
    ensures '0' <= c <= '9'
  {
    ['0', '1', '2', '3', '4', '5', '6', '7', '8', '9'][d]
  }

  /** The number a string of decimal digits denotes. */
  function DigitsValue(s: string): nat
    requires forall i :: 0 <= i < |s| ==> '0' <= s[i] <= '9'
  {
    if s == [] then 0 else DigitsValue(s[..|s| - 1]) * 10 + (s[|s| - 1] as int - '0' as int)
  }

  /** Reading the digits back gives the number: the rendering loses nothing. */
  lemma {:induction false} NatToStringValue(n: nat)
    ensures DigitsValue(NatToString(n)) == n
  {
    if n >= 10 {
      NatToStringValue(n / 10);
      var r := NatToString(n);
      assert r[..|r| - 1] == NatToString(n / 10);
    }
  }
}
