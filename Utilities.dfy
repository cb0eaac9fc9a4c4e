/**
 * The string and value predicates of utils/Utilities.js.
 *
 * `toLowerCase` is modelled on ASCII letters only; `String.prototype.includes`
 * and `indexOf` are modelled by one first-occurrence search, `IndexOf`, so the
 * containment test and the template substitution of the locator reader agree
 * on what "occurs" means.
 */
module Utilities {
  import opened Js

  /** `isUndefined(x)`: `x === null || x === undefined`. */
  predicate IsUndefined(v: Value) {
    v == Null || v == Undefined
  }

  /** `isEmpty(x)`: `x === ""`, a strict comparison, so only the empty string. */
  predicate IsEmpty(v: Value) {
    v == Str("")
  }

  /** The two guards name disjoint sets of values. */
  lemma UndefinedAndEmptyExclusive(v: Value)
    ensures !(IsUndefined(v) && IsEmpty(v))
    ensures IsUndefined(v) ==> !IsEmpty(v)
  {
  }

  function LowerChar(c: char): char {
    if 'A' <= c <= 'Z' then (c as int + 32) as char else c
  }

  /** `s.toLowerCase()` on ASCII. */
  function Lower(s: string): string {
    seq(|s|, i requires 0 <= i < |s| => LowerChar(s[i]))
  }

  /** `p` occurs in `s` starting at index `i`. */
  predicate OccursAt(s: string, p: string, i: int) {
    0 <= i && i + |p| <= |s| && s[i..i + |p|] == p
  }

  /**
   * `s.indexOf(p)`: the first index at which `p` occurs, or -1.
   */
  function IndexOf(s: string, p: string): (r: int)
    ensures r == -1 || 0 <= r <= |s| - |p|
    ensures r >= 0 ==> OccursAt(s, p, r)
    ensures forall j :: 0 <= j && (r < 0 || j < r) ==> !OccursAt(s, p, j)
    decreases |s|
  {
    if |s| < |p| then -1
    else if s[..|p|] == p then 0
    else
      var k := IndexOf(s[1..], p);
      assert forall j :: 1 <= j && OccursAt(s, p, j) ==> OccursAt(s[1..], p, j - 1) by {
        forall j | 1 <= j && OccursAt(s, p, j) ensures OccursAt(s[1..], p, j - 1) {
          assert s[1..][j - 1..j - 1 + |p|] == s[j..j + |p|];
        }
      }
      if k < 0 then -1
      else
        assert s[1..][k..k + |p|] == s[k + 1..k + 1 + |p|];
        k + 1
  }

  /** `s.includes(p)`. */
  predicate Includes(s: string, p: string) {
    IndexOf(s, p) >= 0
  }

  lemma IncludesIffOccurs(s: string, p: string)
    ensures Includes(s, p) <==> exists i :: OccursAt(s, p, i)
  {
    if !Includes(s, p) {
      forall i ensures !OccursAt(s, p, i) {
        if 0 <= i {
          assert !OccursAt(s, p, i);
        }
      }
    }
  }

  /**
   * `s.replace(p, rep)` with a string pattern: only the first occurrence is
   * replaced, and no occurrence starts before it.
   */
  function ReplaceFirst(s: string, p: string, rep: string): (r: string)
    ensures IndexOf(s, p) < 0 ==> r == s
    ensures IndexOf(s, p) >= 0 ==>
              var i := IndexOf(s, p);
              r == s[..i] + rep + s[i + |p|..] && forall j :: 0 <= j < i ==> !OccursAt(s, p, j)
  {
    var i := IndexOf(s, p);
    if i < 0 then s else s[..i] + rep + s[i + |p|..]
  }

  /** `isContain(actual, expected)`: `actual.toLowerCase().includes(expected.toLowerCase())`. */
  function IsContain(actual: string, expected: string): (r: bool)
    ensures r <==> exists i :: OccursAt(Lower(actual), Lower(expected), i)
  {
    IncludesIffOccurs(Lower(actual), Lower(expected));
    Includes(Lower(actual), Lower(expected))
  }

  /** `isNotContain(actual, expected)`: the negated containment test. */
  function IsNotContain(actual: string, expected: string): (r: bool)
    ensures r <==> !IsContain(actual, expected)
    ensures r <==> forall i :: !OccursAt(Lower(actual), Lower(expected), i)
  {
    !Includes(Lower(actual), Lower(expected))
  }

  /** `isEqual(actual, expected)`: equality after lower-casing both sides. */
  function IsEqual(actual: string, expected: string): (r: bool)
    ensures r <==> |actual| == |expected| &&
                   forall i :: 0 <= i < |actual| ==> LowerChar(actual[i]) == LowerChar(expected[i])
  {
    if Lower(actual) == Lower(expected) then
      assert |actual| == |Lower(actual)| == |Lower(expected)| == |expected|;
      assert forall i :: 0 <= i < |actual| ==> LowerChar(actual[i]) == Lower(actual)[i] == Lower(expected)[i] == LowerChar(expected[i]);
      true
    else
      assert |actual| == |expected| ==>
               exists i :: 0 <= i < |actual| && Lower(actual)[i] != Lower(expected)[i];
      false
  }

  /** `isNotEqual(actual, expected)`: the negated comparison. */
  function IsNotEqual(actual: string, expected: string): (r: bool)
    ensures r <==> !IsEqual(actual, expected)
  {
    Lower(actual) != Lower(expected)
  }

  lemma IsEqualReflexive(a: string)
    ensures IsEqual(a, a)
  {
  }

  lemma IsEqualSymmetric(a: string, b: string)
    ensures IsEqual(a, b) == IsEqual(b, a)
  {
  }

  /** Case-folded equality implies case-folded containment. */
  lemma IsEqualImpliesIsContain(a: string, b: string)
    requires IsEqual(a, b)
    ensures IsContain(a, b)
  {
    assert Lower(a) == Lower(b);
    assert Lower(a)[0..|Lower(b)|] == Lower(b);
    assert OccursAt(Lower(a), Lower(b), 0);
  }

  /** Every string contains the empty string. */
  lemma IsContainEmpty(a: string)
    ensures IsContain(a, "")
  {
    assert Lower("") == "";
    assert OccursAt(Lower(a), "", 0);
  }

  /** Containment ignores case on both sides. */
  lemma IsContainIgnoresCase(a: string, b: string)
    ensures IsContain(a, b) == IsContain(Lower(a), Lower(b))
  {
    LowerIdempotent(a);
    LowerIdempotent(b);
  }

  lemma LowerIdempotent(s: string)
    ensures Lower(Lower(s)) == Lower(s)
  {
  }
}
