/** Sequence helpers shared by the affect model: occurrence counts, the
    first-occurrence de-duplication that Python's dict and Counter perform,
    filtering against a list of excluded values, repetition and subsequences.
    Every recursive definition peels the LAST element, so that inductions over
    a list that grows by appending line up with the definitions. */
module Seqs {

  /** Number of occurrences of x in s. */
  function Count<T(==)>(s: seq<T>, x: T): nat
  {
    multiset(s)[x]
  }

  /** No element occurs twice. */
  predicate NoDups<T(==)>(s: seq<T>)
  {
    forall i, j :: 0 <= i < j < |s| ==> s[i] != s[j]
  }

  /** In a sequence without duplicates, no element occurs before its own
      position. */
  lemma NoDupsFresh<T>(s: seq<T>, i: nat)
    requires NoDups(s) && i < |s|
    ensures s[i] !in s[..i]
  {
  }

  /** s without its last element. */
  function Init<T>(s: seq<T>): seq<T>
    requires |s| > 0
  {
    s[..|s| - 1]
  }

  function Last<T>(s: seq<T>): T
    requires |s| > 0
  {
    s[|s| - 1]
  }

  lemma InitLast<T>(s: seq<T>)
    requires |s| > 0
    ensures s == Init(s) + [Last(s)]
  {
  }

  /** The distinct elements of s, each at the place of its first occurrence
      (the key order of a Python dict or Counter built by scanning s). */
  function Unique<T(==)>(s: seq<T>): seq<T>
  {
    if s == [] then []
    else
      var d := Unique(Init(s));
      if Last(s) in d then d else d + [Last(s)]
  }

  /** The de-duplicated list has no repetition and the same members as s. */
  lemma {:induction false} UniqueSpec<T>(s: seq<T>)
    ensures NoDups(Unique(s))
    ensures forall x :: x in Unique(s) <==> x in s
  {
    if s != [] {
      InitLast(s);
      UniqueSpec(Init(s));
    }
  }

  /** The elements of s that do not occur in excl, in their order in s. */
  function Outside<T(==)>(s: seq<T>, excl: seq<T>): seq<T>
  {
    if s == [] then []
    else Outside(Init(s), excl) + (if Last(s) in excl then [] else [Last(s)])
  }

  /** Outside keeps exactly the members of s that are not excluded, and
      keeps a duplicate-free list duplicate-free. */
  lemma {:induction false} OutsideSpec<T>(s: seq<T>, excl: seq<T>)
    ensures forall x :: x in Outside(s, excl) <==> x in s && x !in excl
    ensures NoDups(s) ==> NoDups(Outside(s, excl))
  {
    if s != [] {
      InitLast(s);
      OutsideSpec(Init(s), excl);
    }
  }

  /** Nothing is left when every element is excluded. */
  lemma {:induction false} OutsideAllExcluded<T>(s: seq<T>, excl: seq<T>)
    requires forall x :: x in s ==> x in excl
    ensures Outside(s, excl) == []
  {
    if s != [] {
      InitLast(s);
      OutsideAllExcluded(Init(s), excl);
    }
  }

  lemma OutsideSnoc<T>(s: seq<T>, x: T, excl: seq<T>)
    ensures x in excl ==> Outside(s + [x], excl) == Outside(s, excl)
    ensures x !in excl ==> Outside(s + [x], excl) == Outside(s, excl) + [x]
  {
    assert Init(s + [x]) == s && Last(s + [x]) == x;
  }

  /** n copies of x. */
  function Repeat<T>(x: T, n: nat): (r: seq<T>)
    ensures |r| == n
  {
    if n == 0 then [] else Repeat(x, n - 1) + [x]
  }

  /** a is obtained from b by deleting elements: order and repetitions kept. */
  predicate IsSubsequence<T(==)>(a: seq<T>, b: seq<T>)
    decreases |b|
  {
    if a == [] then true
    else if b == [] then false
    else (Last(a) == Last(b) && IsSubsequence(Init(a), Init(b))) || IsSubsequence(a, Init(b))
  }

  /** Counting the members of a duplicate-free list that equal x gives 1 when
      x is listed and 0 when it is not. */
  lemma {:induction false} CountNoDups<T>(s: seq<T>, x: T)
    requires NoDups(s)
    ensures Count(s, x) == if x in s then 1 else 0
  {
    if s != [] {
      InitLast(s);
      CountNoDups(Init(s), x);
    }
  }

  lemma CountAppend<T>(a: seq<T>, b: seq<T>, x: T)
    ensures Count(a + b, x) == Count(a, x) + Count(b, x)
  {
  }

  /** Two duplicate-free lists with no common element concatenate to a
      duplicate-free list. */
  lemma NoDupsAppend<T>(a: seq<T>, b: seq<T>)
    requires NoDups(a) && NoDups(b)
    requires forall x :: x in a ==> x !in b
    ensures NoDups(a + b)
  {
    forall i, j | 0 <= i < j < |a + b| ensures (a + b)[i] != (a + b)[j] {
      if j >= |a| && i < |a| {
        assert (a + b)[i] in a && (a + b)[j] in b;
      }
    }
  }

  /** No value occurs more often than the list is long. */
  lemma {:induction false} CountBound<T>(s: seq<T>, x: T)
    ensures Count(s, x) <= |s|
  {
    if s != [] {
      InitLast(s);
      CountBound(Init(s), x);
    }
  }
}
