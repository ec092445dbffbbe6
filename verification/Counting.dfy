// How often something occurs in a sequence.
module Counting {

  function Count<T(==)>(s: seq<T>, x: T): (n: nat)
    ensures n > 0 <==> x in s
  {
    if s == [] then 0 else (if s[0] == x then 1 else 0) + Count(s[1..], x)
  }

  predicate Distinct<T(==)>(s: seq<T>) {
    forall i, j :: 0 <= i < j < |s| ==> s[i] != s[j]
  }

  lemma {:induction false} CountAppend<T>(s: seq<T>, t: seq<T>, x: T)
    ensures Count(s + t, x) == Count(s, x) + Count(t, x)
    decreases |s|
  {
    if s == [] {
      assert s + t == t;
    } else {
      assert (s + t)[1..] == s[1..] + t;
      CountAppend(s[1..], t, x);
    }
  }

  lemma CountOne<T>(x: T, y: T)
    ensures Count([x], y) == if x == y then 1 else 0
  {
  }

  lemma CountNil<T>(x: T)
    ensures Count([], x) == 0
  {
  }

  lemma CountCons<T>(s: seq<T>, x: T)
    requires s != []
    ensures Count(s, x) == Count([s[0]], x) + Count(s[1..], x)
  {
  }

  lemma CountMiddle<T>(front: seq<T>, y: T, back: seq<T>, x: T)
    ensures Count(front + ([y] + back), x) == Count([y], x) + Count(front + back, x)
  {
    hide Count;
    CountAppend(front, [y] + back, x);
    CountAppend([y], back, x);
    CountAppend(front, back, x);
  }

  lemma SplitAt<T>(s: seq<T>, i: nat)
    requires i < |s|
    ensures s[..i] + ([s[i]] + s[i + 1..]) == s
  {
  }

  // One element of s taken out.
  lemma CountTakeOut<T>(s: seq<T>, i: nat, x: T)
    requires i < |s|
    ensures Count(s, x) == Count([s[i]], x) + Count(s[..i] + s[i + 1..], x)
  {
    hide Count;
    SplitAt(s, i);
    CountMiddle(s[..i], s[i], s[i + 1..], x);
  }

  lemma {:induction false} CountTwice<T>(s: seq<T>, i: nat, j: nat)
    requires i < j < |s| && s[i] == s[j]
    ensures Count(s, s[i]) >= 2
    decreases i
  {
    if i > 0 {
      CountTwice(s[1..], i - 1, j - 1);
    } else {
      assert s[j] == s[1..][j - 1];
    }
  }

  lemma OnceIsDistinct<T(!new)>(s: seq<T>)
    requires forall x :: Count(s, x) <= 1
    ensures Distinct(s)
  {
    forall i, j | 0 <= i < j < |s| ensures s[i] != s[j] {
      if s[i] == s[j] {
        CountTwice(s, i, j);
      }
    }
  }
}
