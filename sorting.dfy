/** An insertion sort by a comparison `le` ("may come before"), as
    `Array.prototype.sort` with a comparator and Mongo's `.sort()` order
    lists. What is proved of it: it permutes and orders its input, returns
    an ordered list unchanged, and moves a strict minimum to the front
    without reordering the rest. */
module Sorting {
  /** `le` is total and transitive. */
  ghost predicate TotalPreorder<T(!new)>(le: (T, T) -> bool) {
    (forall a, b :: le(a, b) || le(b, a)) &&
    (forall a, b, c :: le(a, b) && le(b, c) ==> le(a, c))
  }

  predicate Sorted<T>(s: seq<T>, le: (T, T) -> bool) {
    forall i, j :: 0 <= i < j < |s| ==> le(s[i], s[j])
  }

  /** Puts `x` before the first element it may precede, so that `x` stays
      ahead of the elements it ties with. */
  function Insert<T>(x: T, s: seq<T>, le: (T, T) -> bool): (r: seq<T>)
    ensures |r| == |s| + 1
  {
    if s == [] || le(x, s[0]) then [x] + s
    else [s[0]] + Insert(x, s[1..], le)
  }

  /** Insertion sort from the back: each element is inserted ahead of the ties
      that follow it, which keeps equal elements in their original order. */
  function Sort<T>(s: seq<T>, le: (T, T) -> bool): (r: seq<T>)
    ensures |r| == |s|
  {
    if s == [] then []
    else Insert(s[0], Sort(s[1..], le), le)
  }

  lemma {:induction false} InsertPermutes<T>(x: T, s: seq<T>, le: (T, T) -> bool)
    ensures multiset(Insert(x, s, le)) == multiset(s) + multiset{x}
    decreases |s|
  {
    if s != [] && !le(x, s[0]) {
      InsertPermutes(x, s[1..], le);
      assert s == [s[0]] + s[1..];
    }
  }

  /** The sort is a permutation of its input. */
  lemma {:induction false} SortPermutes<T>(s: seq<T>, le: (T, T) -> bool)
    ensures multiset(Sort(s, le)) == multiset(s)
    decreases |s|
  {
    if s != [] {
      SortPermutes(s[1..], le);
      InsertPermutes(s[0], Sort(s[1..], le), le);
      assert s == [s[0]] + s[1..];
    }
  }

  lemma {:induction false} InsertSorted<T(!new)>(x: T, s: seq<T>, le: (T, T) -> bool)
    requires TotalPreorder(le) && Sorted(s, le)
    ensures Sorted(Insert(x, s, le), le)
    decreases |s|
  {
    if s == [] || le(x, s[0]) {
      forall y | y in s ensures le(x, y) {
        var k :| 0 <= k < |s| && s[k] == y;
        if k > 0 {
          assert le(s[0], s[k]);
        }
      }
      ConsSorted(x, s, le);
    } else {
      var rest := Insert(x, s[1..], le);
      SortedTail(s, le);
      InsertSorted(x, s[1..], le);
      InsertPermutes(x, s[1..], le);
      forall y | y in rest ensures le(s[0], y) {
        assert y in multiset(s[1..]) + multiset{x};
        if y != x {
          var k :| 0 <= k < |s[1..]| && s[1..][k] == y;
          assert s[k + 1] == y;
        }
      }
      ConsSorted(s[0], rest, le);
    }
  }

  /** A head that may precede every element of a sorted tail keeps the list sorted. */
  lemma ConsSorted<T>(h: T, t: seq<T>, le: (T, T) -> bool)
    requires Sorted(t, le) && forall y :: y in t ==> le(h, y)
    ensures Sorted([h] + t, le)
  {
    var r := [h] + t;
    forall i, j | 0 <= i < j < |r| ensures le(r[i], r[j]) {
      assert r[j] == t[j - 1];
      if i > 0 {
        assert r[i] == t[i - 1];
      }
    }
  }

  /** The sort orders its input (and, by its contract, is a permutation of it). */
  lemma {:induction false} SortSorted<T(!new)>(s: seq<T>, le: (T, T) -> bool)
    requires TotalPreorder(le)
    ensures Sorted(Sort(s, le), le)
    decreases |s|
  {
    if s != [] {
      SortSorted(s[1..], le);
      InsertSorted(s[0], Sort(s[1..], le), le);
    }
  }

  lemma SortedTail<T>(s: seq<T>, le: (T, T) -> bool)
    requires s != [] && Sorted(s, le)
    ensures Sorted(s[1..], le)
  {
    forall i, j | 0 <= i < j < |s| - 1 ensures le(s[1..][i], s[1..][j]) {
      assert s[1..][i] == s[i + 1] && s[1..][j] == s[j + 1];
    }
  }

  /** A list that is already in order is returned unchanged. */
  lemma {:induction false} SortOfSorted<T>(s: seq<T>, le: (T, T) -> bool)
    requires Sorted(s, le)
    ensures Sort(s, le) == s
    decreases |s|
  {
    if s != [] {
      SortedTail(s, le);
      SortOfSorted(s[1..], le);
      if |s| > 1 {
        assert le(s[0], s[1]);
      }
      assert s == [s[0]] + s[1..];
    }
  }

  lemma SortCons<T>(y: T, s: seq<T>, le: (T, T) -> bool)
    ensures Sort([y] + s, le) == Insert(y, Sort(s, le), le)
  {
    assert ([y] + s)[0] == y && ([y] + s)[1..] == s;
  }

  lemma InsertAhead<T>(y: T, s: seq<T>, le: (T, T) -> bool)
    requires s == [] || le(y, s[0])
    ensures Insert(y, s, le) == [y] + s
  {
  }

  lemma InsertPast<T>(y: T, x: T, t: seq<T>, le: (T, T) -> bool)
    requires !le(y, x)
    ensures Insert(y, [x] + t, le) == [x] + Insert(y, t, le)
  {
    assert ([x] + t)[0] == x && ([x] + t)[1..] == t;
  }

  /** A sorted list split in two: each half sorted, and the first half ahead of the second. */
  lemma SortedSplit<T>(p: seq<T>, q: seq<T>, le: (T, T) -> bool)
    requires Sorted(p + q, le)
    ensures Sorted(p, le) && Sorted(q, le)
    ensures forall i, j :: 0 <= i < |p| && 0 <= j < |q| ==> le(p[i], q[j])
  {
    forall i, j | 0 <= i < |p| && 0 <= j < |q| ensures le(p[i], q[j]) {
      assert (p + q)[i] == p[i] && (p + q)[|p| + j] == q[j];
    }
    forall i, j | 0 <= i < j < |q| ensures le(q[i], q[j]) {
      assert (p + q)[|p| + i] == q[i] && (p + q)[|p| + j] == q[j];
    }
    forall i, j | 0 <= i < j < |p| ensures le(p[i], p[j]) {
      assert (p + q)[i] == p[i] && (p + q)[j] == p[j];
    }
  }

  /** One step of `MovesToFront`: the head is inserted past the front element. */
  lemma StepPast<T>(y: T, x: T, u: seq<T>, t: seq<T>, le: (T, T) -> bool)
    requires Sort(u, le) == [x] + t && !le(y, x) && (t == [] || le(y, t[0]))
    ensures Sort([y] + u, le) == [x] + ([y] + t)
  {
    SortCons(y, u, le);
    InsertPast(y, x, t, le);
    InsertAhead(y, t, le);
  }

  lemma MovesToFrontBase<T>(x: T, q: seq<T>, le: (T, T) -> bool)
    requires Sorted(q, le)
    requires forall i :: 0 <= i < |q| ==> le(x, q[i])
    ensures Sort([x] + q, le) == [x] + q
  {
    SortOfSorted(q, le);
    SortCons(x, q, le);
    InsertAhead(x, q, le);
  }

  lemma MovesToFrontStep<T>(p: seq<T>, x: T, q: seq<T>, le: (T, T) -> bool)
    requires p != [] && !le(p[0], x)
    requires p[1..] + q != [] ==> le(p[0], (p[1..] + q)[0])
    requires Sort(p[1..] + [x] + q, le) == [x] + p[1..] + q
    ensures Sort(p + [x] + q, le) == [x] + p + q
  {
    assert [x] + p[1..] + q == [x] + (p[1..] + q);
    StepPast(p[0], x, p[1..] + [x] + q, p[1..] + q, le);
    HeadShapes(p, x, q);
  }

  /** The head of `p` may precede whatever follows it in `p + q`. */
  lemma NextHead<T>(p: seq<T>, q: seq<T>, le: (T, T) -> bool)
    requires p != [] && Sorted(p, le)
    requires forall j :: 0 <= j < |q| ==> le(p[0], q[j])
    ensures p[1..] + q != [] ==> le(p[0], (p[1..] + q)[0])
  {
    if |p| > 1 {
      assert (p[1..] + q)[0] == p[1];
    } else if q != [] {
      assert (p[1..] + q)[0] == q[0];
    }
  }

  lemma HeadShapes<T>(p: seq<T>, x: T, q: seq<T>)
    requires p != []
    ensures p + [x] + q == [p[0]] + (p[1..] + [x] + q)
    ensures [x] + ([p[0]] + (p[1..] + q)) == [x] + p + q
  {
    assert p == [p[0]] + p[1..];
  }

  lemma {:induction false} MovesToFrontSplit<T>(p: seq<T>, x: T, q: seq<T>, le: (T, T) -> bool)
    requires Sorted(p, le) && Sorted(q, le)
    requires forall i, j :: 0 <= i < |p| && 0 <= j < |q| ==> le(p[i], q[j])
    requires forall i :: 0 <= i < |p| ==> !le(p[i], x)
    requires forall i :: 0 <= i < |q| ==> le(x, q[i])
    ensures Sort(p + [x] + q, le) == [x] + p + q
    decreases |p|
  {
    if p == [] {
      assert p + [x] + q == [x] + q && [x] + p + q == [x] + q;
      MovesToFrontBase(x, q, le);
    } else {
      var p' := p[1..];
      assert Sorted(p', le) by {
        forall i, j | 0 <= i < j < |p'| ensures le(p'[i], p'[j]) {
          assert p'[i] == p[i + 1] && p'[j] == p[j + 1];
        }
      }
      assert forall i :: 0 <= i < |p'| ==> p'[i] == p[i + 1];
      MovesToFrontSplit(p', x, q, le);
      NextHead(p, q, le);
      MovesToFrontStep(p, x, q, le);
    }
  }

  /** An element that strictly precedes everything moves to the front, and the
      others keep their order: the re-sort after a chat's last message changes. */
  lemma MovesToFront<T>(p: seq<T>, x: T, q: seq<T>, le: (T, T) -> bool)
    requires Sorted(p + q, le)
    requires forall i :: 0 <= i < |p| ==> !le(p[i], x)
    requires forall i :: 0 <= i < |q| ==> le(x, q[i])
    ensures Sort(p + [x] + q, le) == [x] + p + q
  {
    SortedSplit(p, q, le);
    MovesToFrontSplit(p, x, q, le);
  }

  /** No two elements share a key. */
  predicate KeysDistinct<T, K(==)>(s: seq<T>, key: T -> K) {
    forall i, j :: 0 <= i < j < |s| ==> key(s[i]) != key(s[j])
  }

  lemma {:induction false} InsertKeepsKeysDistinct<T, K>(x: T, s: seq<T>, le: (T, T) -> bool, key: T -> K)
    requires KeysDistinct(s, key)
    requires forall i :: 0 <= i < |s| ==> key(s[i]) != key(x)
    ensures KeysDistinct(Insert(x, s, le), key)
    decreases |s|
  {
    if s == [] || le(x, s[0]) {
      ConsKeysDistinct(x, s, key);
    } else {
      var rest := Insert(x, s[1..], le);
      TailKeysDistinct(s, key);
      InsertKeepsKeysDistinct(x, s[1..], le, key);
      InsertPermutes(x, s[1..], le);
      forall j | 0 <= j < |rest| ensures key(rest[j]) != key(s[0]) {
        assert rest[j] in multiset(rest);
        if rest[j] != x {
          assert rest[j] in multiset(s[1..]);
          var k :| 0 <= k < |s[1..]| && s[1..][k] == rest[j];
          assert s[k + 1] == rest[j];
        }
      }
      ConsKeysDistinct(s[0], rest, key);
    }
  }

  /** A head whose key no element of the tail shares keeps the keys distinct. */
  lemma ConsKeysDistinct<T, K>(h: T, t: seq<T>, key: T -> K)
    requires KeysDistinct(t, key)
    requires forall j :: 0 <= j < |t| ==> key(t[j]) != key(h)
    ensures KeysDistinct([h] + t, key)
  {
    var r := [h] + t;
    forall i, j | 0 <= i < j < |r| ensures key(r[i]) != key(r[j]) {
      if i == 0 {
        assert r[j] == t[j - 1];
      } else {
        assert r[i] == t[i - 1] && r[j] == t[j - 1];
      }
    }
  }

  lemma TailKeysDistinct<T, K>(s: seq<T>, key: T -> K)
    requires s != [] && KeysDistinct(s, key)
    ensures KeysDistinct(s[1..], key)
  {
    forall i, j | 0 <= i < j < |s| - 1 ensures key(s[1..][i]) != key(s[1..][j]) {
      assert s[1..][i] == s[i + 1] && s[1..][j] == s[j + 1];
    }
  }

  /** Sorting never makes two elements share a key. */
  lemma {:induction false} SortKeepsKeysDistinct<T, K>(s: seq<T>, le: (T, T) -> bool, key: T -> K)
    requires KeysDistinct(s, key)
    ensures KeysDistinct(Sort(s, le), key)
    decreases |s|
  {
    if s != [] {
      TailKeysDistinct(s, key);
      SortKeepsKeysDistinct(s[1..], le, key);
      SortPermutes(s[1..], le);
      var t := Sort(s[1..], le);
      forall i | 0 <= i < |t| ensures key(t[i]) != key(s[0]) {
        assert t[i] in multiset(s[1..]);
        var k :| 0 <= k < |s[1..]| && s[1..][k] == t[i];
        assert s[k + 1] == t[i];
      }
      InsertKeepsKeysDistinct(s[0], t, le, key);
    }
  }
}
