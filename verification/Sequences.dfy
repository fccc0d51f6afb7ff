// Small facts about sequences and finite sets, stated once so that proofs about large
// structures need not rediscover them.
module Sequences {

  lemma TakeOneMore<T>(s: seq<T>, i: nat)
    requires i < |s|
    ensures s[..i + 1] == s[..i] + [s[i]] && s[..i + 1][..i] == s[..i]
  {
  }

  lemma TakeAll<T>(s: seq<T>)
    ensures s[..|s|] == s
  {
  }

  lemma FrontLast<T>(s: seq<T>)
    requires s != []
    ensures s == s[..|s| - 1] + [s[|s| - 1]]
  {
  }

  lemma Appended<T>(a: seq<T>, b: seq<T>, c: seq<T>)
    ensures a + b + c == a + (b + c)
  {
  }

  lemma PrefixParts<T>(p: seq<T>, e: T, whole: seq<T>)
    requires p + [e] <= whole
    ensures |p| < |whole| && whole[..|p|] == p && whole[|p|] == e
  {
    assert whole[..|p| + 1] == p + [e];
    assert whole[|p|] == whole[..|p| + 1][|p|];
    assert whole[..|p|] == whole[..|p| + 1][..|p|];
  }

  lemma {:induction false} SubsetSize<T>(a: set<T>, b: set<T>)
    requires a <= b
    ensures |a| <= |b|
    decreases |a|
  {
    if a != {} {
      var x :| x in a;
      SubsetSize(a - {x}, b - {x});
    }
  }

  lemma ProperSubsetSize<T>(a: set<T>, b: set<T>)
    requires a < b
    ensures |a| < |b|
  {
    var x :| x in b && x !in a;
    assert a <= b - {x};
    SubsetSize(a, b - {x});
  }

  lemma UnionSize<T>(a: set<T>, b: set<T>)
    ensures |a + b| <= |a| + |b|
  {
    assert a + b == a + (b - a) && a !! b - a;
    SubsetSize(b - a, b);
  }

  // One step of a loop that works through a set.
  lemma MoveOne<T>(done: set<T>, pending: set<T>, x: T)
    requires done !! pending && x in pending
    ensures done + {x} !! pending - {x} && done + {x} + (pending - {x}) == done + pending
    ensures |pending - {x}| < |pending|
  {
  }
}
