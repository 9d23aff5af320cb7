/**
 * `list.sort(key=lambda x: x[1], reverse=True)` on a list of (item, score)
 * pairs: Python's sort is stable also with `reverse=True`, so the result is in
 * non-increasing score order and items with equal scores keep their order.
 */
module ScoreSort {

  datatype Scored<T> = Scored(item: T, score: real)

  predicate SortedDesc<T>(s: seq<Scored<T>>) {
    forall i, j :: 0 <= i < j < |s| ==> s[i].score >= s[j].score
  }

  /** Puts `x` in front of the first element whose score is not above its own. */
  function Insert<T>(x: Scored<T>, s: seq<Scored<T>>): (r: seq<Scored<T>>)
    ensures |r| == |s| + 1
  {
    if s == [] then [x]
    else if x.score >= s[0].score then [x] + s
    else [s[0]] + Insert(x, s[1..])
  }

  /** The stable descending sort. */
  function SortByScore<T>(s: seq<Scored<T>>): (r: seq<Scored<T>>)
    ensures |r| == |s|
  {
    if s == [] then [] else Insert(s[0], SortByScore(s[1..]))
  }

  /** The elements of `s` whose score is `v`, in their order in `s`. */
  function WithScore<T>(s: seq<Scored<T>>, v: real): seq<Scored<T>>
  {
    if s == [] then []
    else (if s[0].score == v then [s[0]] else []) + WithScore(s[1..], v)
  }

  lemma {:induction false} InsertPermutation<T>(x: Scored<T>, s: seq<Scored<T>>)
    ensures multiset(Insert(x, s)) == multiset(s) + multiset{x}
    ensures |Insert(x, s)| == |s| + 1
  {
    if s != [] && x.score < s[0].score {
      InsertPermutation(x, s[1..]);
      assert s == [s[0]] + s[1..];
    }
  }

  lemma {:induction false} InsertSortedPermutation<T>(x: Scored<T>, s: seq<Scored<T>>)
    requires SortedDesc(s)
    ensures SortedDesc(Insert(x, s))
    ensures multiset(Insert(x, s)) == multiset(s) + multiset{x}
    ensures |Insert(x, s)| == |s| + 1
  {
    InsertPermutation(x, s);
    if s != [] && x.score < s[0].score {
      var rest := Insert(x, s[1..]);
      InsertSortedPermutation(x, s[1..]);
      forall k | 0 <= k < |rest| ensures s[0].score >= rest[k].score {
        assert rest[k] in multiset(rest);
        if rest[k] != x {
          assert rest[k] in multiset(s[1..]);
          var m :| 0 <= m < |s[1..]| && s[1..][m] == rest[k];
          assert s[m + 1] == rest[k];
        }
      }
      assert Insert(x, s) == [s[0]] + rest;
    }
  }

  /** The sort returns a permutation of its input in non-increasing score order. */
  lemma {:induction false} SortSortedPermutation<T>(s: seq<Scored<T>>)
    ensures SortedDesc(SortByScore(s))
    ensures multiset(SortByScore(s)) == multiset(s)
    ensures |SortByScore(s)| == |s|
  {
    if s != [] {
      SortSortedPermutation(s[1..]);
      InsertSortedPermutation(s[0], SortByScore(s[1..]));
      assert s == [s[0]] + s[1..];
    }
  }

  lemma WithScoreCons<T>(y: Scored<T>, t: seq<Scored<T>>, v: real)
    ensures WithScore([y] + t, v) == (if y.score == v then [y] + WithScore(t, v) else WithScore(t, v))
  {
    assert ([y] + t)[0] == y && ([y] + t)[1..] == t;
  }

  /** Inserting `x` puts it in front of every element of its own score, whatever the order of `s`. */
  lemma {:induction false} InsertWithScore<T>(x: Scored<T>, s: seq<Scored<T>>, v: real)
    ensures WithScore(Insert(x, s), v) == (if x.score == v then [x] + WithScore(s, v) else WithScore(s, v))
  {
    if s == [] {
      WithScoreCons(x, [], v);
    } else if x.score >= s[0].score {
      WithScoreCons(x, s, v);
    } else {
      var rest := Insert(x, s[1..]);
      InsertWithScore(x, s[1..], v);
      assert Insert(x, s) == [s[0]] + rest;
      WithScoreCons(s[0], rest, v);
      WithScoreCons(s[0], s[1..], v);
      assert s == [s[0]] + s[1..];
    }
  }

  /** Stability: for every score, the elements with that score come out in their input order. */
  lemma {:induction false} SortStable<T>(s: seq<Scored<T>>, v: real)
    ensures WithScore(SortByScore(s), v) == WithScore(s, v)
  {
    if s != [] {
      InsertWithScore(s[0], SortByScore(s[1..]), v);
      SortStable(s[1..], v);
    }
  }

  /** How many elements of score `v` come before position `i`. */
  function CountBefore<T>(s: seq<Scored<T>>, v: real, i: nat): nat
    requires i <= |s|
  {
    |WithScore(s[..i], v)|
  }

  lemma {:induction false} WithScoreAppend<T>(a: seq<Scored<T>>, b: seq<Scored<T>>, v: real)
    ensures WithScore(a + b, v) == WithScore(a, v) + WithScore(b, v)
  {
    if a != [] {
      assert (a + b)[0] == a[0];
      assert (a + b)[1..] == a[1..] + b;
      WithScoreAppend(a[1..], b, v);
    } else {
      assert a + b == b;
    }
  }

  /** The element at position `i` of score `v` sits at position CountBefore(s, v, i) of the filtered list. */
  lemma WithScoreAt<T>(s: seq<Scored<T>>, v: real, i: nat)
    requires i < |s| && s[i].score == v
    ensures CountBefore(s, v, i) < |WithScore(s, v)|
    ensures WithScore(s, v)[CountBefore(s, v, i)] == s[i]
  {
    assert s == s[..i] + [s[i]] + s[i + 1..];
    WithScoreAppend(s[..i] + [s[i]], s[i + 1..], v);
    WithScoreAppend(s[..i], [s[i]], v);
    assert WithScore([s[i]], v) == [s[i]];
  }

  /** Counting is monotone in the prefix length, and strictly so past an element of score `v`. */
  lemma CountBeforeMonotone<T>(s: seq<Scored<T>>, v: real, i: nat, j: nat)
    requires i <= j <= |s|
    ensures CountBefore(s, v, i) <= CountBefore(s, v, j)
    ensures i < j && s[i].score == v ==> CountBefore(s, v, i) < CountBefore(s, v, j)
  {
    assert s[..j] == s[..i] + s[i..j];
    WithScoreAppend(s[..i], s[i..j], v);
    if i < j {
      assert s[i..j] == [s[i]] + s[i + 1..j];
      WithScoreAppend([s[i]], s[i + 1..j], v);
    }
  }

  /** Every position of the filtered list comes from a position of `s` with as many earlier matches. */
  lemma {:induction false} WithScoreSource<T>(s: seq<Scored<T>>, v: real, a: nat)
    requires a < |WithScore(s, v)|
    ensures exists p :: 0 <= p < |s| && s[p].score == v && CountBefore(s, v, p) == a && s[p] == WithScore(s, v)[a]
  {
    var w := WithScore(s, v);
    if s[0].score == v && a == 0 {
      assert CountBefore(s, v, 0) == 0;
    } else {
      var a' := if s[0].score == v then a - 1 else a;
      WithScoreSource(s[1..], v, a');
      var p' :| 0 <= p' < |s[1..]| && s[1..][p'].score == v && CountBefore(s[1..], v, p') == a' && s[1..][p'] == WithScore(s[1..], v)[a'];
      assert s[..p' + 1] == [s[0]] + s[1..][..p'];
      WithScoreAppend([s[0]], s[1..][..p'], v);
      assert CountBefore(s, v, p' + 1) == a;
    }
  }

  /**
   * Ties keep their input order: if two elements of the sorted list have the
   * same score, the earlier one also comes earlier in the input.
   */
  lemma SortKeepsTieOrder<T>(s: seq<Scored<T>>, i: nat, j: nat)
    requires i < j < |SortByScore(s)|
    requires SortByScore(s)[i].score == SortByScore(s)[j].score
    ensures exists p, q :: 0 <= p < q < |s| && s[p] == SortByScore(s)[i] && s[q] == SortByScore(s)[j]
  {
    var r := SortByScore(s);
    var v := r[i].score;
    SortStable(s, v);
    SortSortedPermutation(s);
    WithScoreAt(r, v, i);
    WithScoreAt(r, v, j);
    CountBeforeMonotone(r, v, i, j);
    var a, b := CountBefore(r, v, i), CountBefore(r, v, j);
    WithScoreSource(s, v, a);
    WithScoreSource(s, v, b);
    var p :| 0 <= p < |s| && s[p].score == v && CountBefore(s, v, p) == a && s[p] == WithScore(s, v)[a];
    var q :| 0 <= q < |s| && s[q].score == v && CountBefore(s, v, q) == b && s[q] == WithScore(s, v)[b];
    if q <= p {
      CountBeforeMonotone(s, v, q, p);
      assert false;
    }
  }

  /** Replaces each item by `f` of it, keeping the scores. */
  function MapItems<T, U>(s: seq<Scored<T>>, f: T -> U): (r: seq<Scored<U>>)
    ensures |r| == |s|
    ensures forall k :: 0 <= k < |s| ==> r[k] == Scored(f(s[k].item), s[k].score)
  {
    if s == [] then [] else [Scored(f(s[0].item), s[0].score)] + MapItems(s[1..], f)
  }

  /** The sort looks at scores only, so changing the items commutes with it. */
  lemma {:induction false} SortMapItems<T, U>(s: seq<Scored<T>>, f: T -> U)
    ensures SortByScore(MapItems(s, f)) == MapItems(SortByScore(s), f)
  {
    if s != [] {
      SortMapItems(s[1..], f);
      assert MapItems(s, f)[1..] == MapItems(s[1..], f);
      InsertMapItems(s[0], SortByScore(s[1..]), f);
    }
  }

  lemma {:induction false} InsertMapItems<T, U>(x: Scored<T>, s: seq<Scored<T>>, f: T -> U)
    ensures Insert(Scored(f(x.item), x.score), MapItems(s, f)) == MapItems(Insert(x, s), f)
  {
    if s != [] && x.score < s[0].score {
      InsertMapItems(x, s[1..], f);
      assert MapItems(s, f)[1..] == MapItems(s[1..], f);
    }
  }
}
