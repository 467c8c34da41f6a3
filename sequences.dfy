/** Sequence and string helpers shared by the handlers: filtering in store order,
    ASCII case folding and substring search. */
module Sequences {

  /** The elements of `s` that satisfy `p`, in the order of `s`: what a
      query with a condition, or a list comprehension with one, yields. */
  function Filter<T(!new)>(s: seq<T>, p: T -> bool): (r: seq<T>)
    ensures |r| <= |s|
    ensures forall x :: x in r <==> x in s && p(x)
  {
    if s == [] then [] else (if p(s[0]) then [s[0]] else []) + Filter(s[1..], p)
  }

  /** Filtering keeps each element that passes as often as `s` holds it, and
      drops every other one: the result is the sub-multiset of passing rows. */
  lemma {:induction false} FilterMultiset<T(!new)>(s: seq<T>, p: T -> bool)
    ensures forall x :: multiset(Filter(s, p))[x] == if p(x) then multiset(s)[x] else 0
  {
    if s != [] {
      FilterMultiset(s[1..], p);
      assert s == [s[0]] + s[1..];
    }
  }

  /** Filtering one more element at the end extends the result by that element
      exactly when it is kept: filtering is the loop that appends survivors. */
  lemma {:induction false} FilterSnoc<T(!new)>(s: seq<T>, x: T, p: T -> bool)
    ensures Filter(s + [x], p) == Filter(s, p) + (if p(x) then [x] else [])
  {
    if s == [] {
      assert [x][1..] == [];
    } else {
      assert (s + [x])[1..] == s[1..] + [x];
      FilterSnoc(s[1..], x, p);
    }
  }

  /** Two predicates that agree everywhere filter alike. */
  lemma {:induction false} FilterCongruent<T(!new)>(s: seq<T>, p: T -> bool, q: T -> bool)
    requires forall x :: p(x) == q(x)
    ensures Filter(s, p) == Filter(s, q)
  {
    if s != [] {
      FilterCongruent(s[1..], p, q);
    }
  }

  function FoldChar(c: char): char
  {
    if 'A' <= c <= 'Z' then (c as int + 32) as char else c
  }

  /** ASCII lower-casing, character by character. */
  function FoldCase(s: string): (r: string)
    ensures |r| == |s|
    ensures forall i :: 0 <= i < |s| ==> !('A' <= r[i] <= 'Z')
  {
    seq(|s|, i requires 0 <= i < |s| => FoldChar(s[i]))
  }

  /** `pat` sits in `text` at position `i`. */
  predicate OccursAt(pat: string, text: string, i: int)
  {
    0 <= i <= |text| - |pat| && text[i..i + |pat|] == pat
  }

  /** `pat` occurs in `text`, found by scanning from the left. */
  function Occurs(pat: string, text: string): (b: bool)
    ensures b <==> exists i :: OccursAt(pat, text, i)
    decreases |text|
  {
    if |text| < |pat| then false
    else if text[..|pat|] == pat then assert OccursAt(pat, text, 0); true
    else
      var rest := Occurs(pat, text[1..]);
      OccursShift(pat, text);
      assert !OccursAt(pat, text, 0);
      assert forall i :: OccursAt(pat, text, i) ==> i == 0 || OccursAt(pat, text[1..], i - 1);
      rest
  }

  /** An occurrence in the tail of `text` is one in `text`, one place later. */
  lemma OccursShift(pat: string, text: string)
    requires |text| > 0
    ensures forall i :: 0 <= i ==> (OccursAt(pat, text[1..], i) <==> OccursAt(pat, text, i + 1))
  {
    forall i | 0 <= i ensures OccursAt(pat, text[1..], i) <==> OccursAt(pat, text, i + 1) {
      if 0 <= i <= |text| - 1 - |pat| {
        assert text[1..][i..i + |pat|] == text[i + 1..i + 1 + |pat|];
      }
    }
  }
}
