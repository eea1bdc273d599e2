/** Collection helpers shared by every component: an optional value for the
    JavaScript `null`/`undefined`, the order-preserving `Array.prototype.filter`,
    and a sort by key, which is how this model orders the rows an `ORDER BY`
    query returns (SQL itself leaves rows with equal keys in no fixed order). */
module Common {

  /** A value that may be missing (JavaScript `null` or `undefined`). */
  datatype Option<+T> = None | Some(value: T)

  /** `r` is `s` with some elements left out, the rest in their original order. */
  predicate IsSubsequence<T(==)>(r: seq<T>, s: seq<T>)
    decreases |s|
  {
    if r == [] then true
    else if s == [] then false
    else if r[0] == s[0] then IsSubsequence(r[1..], s[1..])
    else IsSubsequence(r, s[1..])
  }

  /** `Array.prototype.filter`: the elements of `s` that `keep` accepts, in order.
      An element `keep` accepts occurs as often as in `s`; any other not at all. */
  function Filter<T(==,!new)>(s: seq<T>, keep: T -> bool): (r: seq<T>)
    ensures |r| <= |s|
    ensures forall x :: x in r <==> x in s && keep(x)
    ensures forall x :: multiset(r)[x] == if keep(x) then multiset(s)[x] else 0
    ensures IsSubsequence(r, s)
  {
    if s == [] then []
    else
      var rest := Filter(s[1..], keep);
      assert s == [s[0]] + s[1..];
      if keep(s[0]) then [s[0]] + rest
      else
        assert rest != [] ==> rest[0] in rest && rest[0] != s[0];
        rest
  }

  /** When `keep` accepts every element, filtering changes nothing. */
  lemma {:induction false} FilterAll<T(!new)>(s: seq<T>, keep: T -> bool)
    requires forall x :: x in s ==> keep(x)
    ensures Filter(s, keep) == s
  {
    if s != [] {
      assert forall x :: x in s[1..] ==> x in s;
      FilterAll(s[1..], keep);
    }
  }

  /** `seq.map(f)`. */
  function MapSeq<A, B>(s: seq<A>, f: A -> B): (r: seq<B>)
    ensures |r| == |s|
    ensures forall i :: 0 <= i < |s| ==> r[i] == f(s[i])
  {
    seq(|s|, i requires 0 <= i < |s| => f(s[i]))
  }

  /** `s` is in ascending order of `key`. */
  predicate Ascending<T>(s: seq<T>, key: T -> int)
  {
    forall i, j :: 0 <= i < j < |s| ==> key(s[i]) <= key(s[j])
  }

  /** The first element of an ascending sequence has the least key. */
  lemma HeadIsLeast<T>(s: seq<T>, key: T -> int, y: T)
    requires Ascending(s, key) && y in s
    ensures key(s[0]) <= key(y)
  {
  }

  /** Places `x` after every element whose key is at most its own, so that
      elements with equal keys stay in the order they were inserted. */
  function Insert<T>(x: T, s: seq<T>, key: T -> int): (r: seq<T>)
    ensures |r| == |s| + 1
    ensures multiset(r) == multiset(s) + multiset{x}
  {
    if s == [] then [x]
    else if key(x) < key(s[0]) then [x] + s
    else
      assert s == [s[0]] + s[1..];
      [s[0]] + Insert(x, s[1..], key)
  }

  /** Inserting into an ascending sequence keeps it ascending. */
  lemma {:induction false} InsertAscending<T>(x: T, s: seq<T>, key: T -> int)
    requires Ascending(s, key)
    ensures Ascending(Insert(x, s, key), key)
  {
    if s == [] {
    } else if key(x) < key(s[0]) {
      ConsAscending(x, s, key);
    } else {
      var rest := Insert(x, s[1..], key);
      InsertAscending(x, s[1..], key);
      forall i | 0 <= i < |rest| ensures key(s[0]) <= key(rest[i]) {
        assert rest[i] in multiset(rest);
        if rest[i] != x {
          assert rest[i] in multiset(s[1..]);
          assert s == [s[0]] + s[1..];
          HeadIsLeast(s, key, rest[i]);
        }
      }
      ConsAscending(s[0], rest, key);
    }
  }

  /** An element whose key is at least every other goes at the end. */
  lemma {:induction false} InsertAfterAll<T>(x: T, s: seq<T>, key: T -> int)
    requires forall i :: 0 <= i < |s| ==> key(s[i]) <= key(x)
    ensures Insert(x, s, key) == s + [x]
  {
    if s != [] {
      InsertAfterAll(x, s[1..], key);
      assert s == [s[0]] + s[1..];
    }
  }

  /** An element at most every key of an ascending sequence can go first. */
  lemma ConsAscending<T>(h: T, s: seq<T>, key: T -> int)
    requires Ascending(s, key)
    requires forall i :: 0 <= i < |s| ==> key(h) <= key(s[i])
    ensures Ascending([h] + s, key)
  {
    var r := [h] + s;
    forall i, j | 0 <= i < j < |r| ensures key(r[i]) <= key(r[j]) {
      assert r[j] == s[j - 1];
      if i > 0 {
        assert r[i] == s[i - 1];
      }
    }
  }

  /** A sort of `s` by ascending `key`: the order in which rows sharing
      a key come back from an `ORDER BY` query is left open by SQL, and this
      model returns them in the order they are stored. */
  function SortBy<T>(s: seq<T>, key: T -> int): (r: seq<T>)
    ensures |r| == |s|
    ensures multiset(r) == multiset(s)
    ensures Ascending(r, key)
  {
    if s == [] then []
    else
      assert s == s[..|s| - 1] + [s[|s| - 1]];
      InsertAscending(s[|s| - 1], SortBy(s[..|s| - 1], key), key);
      Insert(s[|s| - 1], SortBy(s[..|s| - 1], key), key)
  }

  /** Sorting a sequence that is already in order changes nothing. */
  lemma {:induction false} SortBySorted<T>(s: seq<T>, key: T -> int)
    requires Ascending(s, key)
    ensures SortBy(s, key) == s
  {
    if s != [] {
      var init := s[..|s| - 1];
      assert Ascending(init, key);
      SortBySorted(init, key);
      assert forall i :: 0 <= i < |init| ==> key(init[i]) <= key(s[|s| - 1]);
      InsertAfterAll(s[|s| - 1], init, key);
      assert init + [s[|s| - 1]] == s;
    }
  }
}
