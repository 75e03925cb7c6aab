// Sequence operations shared by the stores and views: the JavaScript array
// idioms `filter`, `filter(...).length`, `map` over matching ids,
// `[...new Set(xs)]` and `Math.max(...ids, 0) + 1`.
module Lists {
  import opened Optional

  /** r can be obtained from s by deleting elements: r keeps the order of s. */
  predicate IsSubsequence<T(==)>(r: seq<T>, s: seq<T>)
    decreases |s|
  {
    r == [] ||
    (s != [] &&
     ((r[0] == s[0] && IsSubsequence(r[1..], s[1..])) || IsSubsequence(r, s[1..])))
  }

  lemma {:induction false} SubsequenceRefl<T>(s: seq<T>)
    ensures IsSubsequence(s, s)
    decreases |s|
  {
    if s != [] {
      SubsequenceRefl(s[1..]);
    }
  }

  /** `s.filter(p)`: the elements satisfying p, in their original order. */
  function Filter<T(==, !new)>(s: seq<T>, p: T -> bool): (r: seq<T>)
    ensures |r| <= |s|
    ensures forall x :: x in r <==> x in s && p(x)
    ensures IsSubsequence(r, s)
    decreases |s|
  {
    if s == [] then []
    else if p(s[0]) then [s[0]] + Filter(s[1..], p)
    else Filter(s[1..], p)
  }

  /** A filter whose predicate holds everywhere returns its input unchanged. */
  lemma {:induction false} FilterKeepsAll<T(!new)>(s: seq<T>, p: T -> bool)
    requires forall x :: x in s ==> p(x)
    ensures Filter(s, p) == s
    decreases |s|
  {
    if s != [] {
      FilterKeepsAll(s[1..], p);
    }
  }

  /** A filter whose predicate holds nowhere returns nothing. */
  lemma {:induction false} FilterKeepsNone<T(!new)>(s: seq<T>, p: T -> bool)
    requires forall x :: x in s ==> !p(x)
    ensures Filter(s, p) == []
    decreases |s|
  {
    if s != [] {
      FilterKeepsNone(s[1..], p);
    }
  }

  /** `s.filter(p).length`. */
  function Count<T(==, !new)>(s: seq<T>, p: T -> bool): nat
  {
    |Filter(s, p)|
  }

  /** The count is the whole length exactly when every element satisfies the predicate. */
  lemma {:induction false} CountAll<T(!new)>(s: seq<T>, p: T -> bool)
    ensures Count(s, p) == |s| <==> forall x :: x in s ==> p(x)
    decreases |s|
  {
    if s != [] {
      CountAll(s[1..], p);
      assert forall x :: x in s ==> x == s[0] || x in s[1..];
    }
  }

  /** Counts of two predicates that never hold together add up to at most |s|. */
  lemma {:induction false} CountDisjoint<T(!new)>(s: seq<T>, p: T -> bool, q: T -> bool)
    requires forall x :: x in s ==> !(p(x) && q(x))
    ensures Count(s, p) + Count(s, q) <= |s|
    decreases |s|
  {
    if s != [] {
      CountDisjoint(s[1..], p, q);
    }
  }

  /** Three pairwise disjoint counts cover s exactly when every element satisfies one of them. */
  lemma {:induction false} CountPartition<T(!new)>(s: seq<T>, p: T -> bool, q: T -> bool, r: T -> bool)
    requires forall x :: x in s ==> !(p(x) && q(x)) && !(p(x) && r(x)) && !(q(x) && r(x))
    ensures Count(s, p) + Count(s, q) + Count(s, r) <= |s|
    ensures Count(s, p) + Count(s, q) + Count(s, r) == |s| <==>
            forall x :: x in s ==> p(x) || q(x) || r(x)
    decreases |s|
  {
    if s != [] {
      CountPartition(s[1..], p, q, r);
      assert forall x :: x in s[1..] ==> x in s;
      if !(p(s[0]) || q(s[0]) || r(s[0])) {
        assert s[0] in s;
      }
    }
  }

  /** `s.find(p)`: the first element satisfying p, if any. */
  function Find<T(==)>(s: seq<T>, p: T -> bool): (r: Option<T>)
    ensures r.None? <==> forall x :: x in s ==> !p(x)
    ensures r.Some? ==> exists i :: (0 <= i < |s| && s[i] == r.value && p(r.value) &&
      forall j :: 0 <= j < i ==> !p(s[j]))
    decreases |s|
  {
    if s == [] then None
    else if p(s[0]) then Some(s[0])
    else
      var r := Find(s[1..], p);
      assert forall x :: x in s ==> x == s[0] || x in s[1..];
      if r.Some? then
        var i :| 0 <= i < |s[1..]| && s[1..][i] == r.value && p(r.value) &&
          forall j :: 0 <= j < i ==> !p(s[1..][j]);
        assert s[i + 1] == r.value;
        r
      else r
  }

  /** When nothing in s satisfies p, finding in s followed by x finds x, if x satisfies p. */
  lemma {:induction false} FindAppend<T>(s: seq<T>, p: T -> bool, x: T)
    requires forall y :: y in s ==> !p(y)
    requires p(x)
    ensures Find(s + [x], p) == Some(x)
    decreases |s|
  {
    if s == [] {
      assert [x][0] == x;
    } else {
      assert (s + [x])[1..] == s[1..] + [x];
      FindAppend(s[1..], p, x);
    }
  }

  /** `xs.indexOf(x)`: the first position of x. */
  function IndexOf<T(==)>(s: seq<T>, x: T): (i: nat)
    requires x in s
    ensures i < |s| && s[i] == x && x !in s[..i]
  {
    if s[0] == x then 0
    else
      var j := IndexOf(s[1..], x);
      assert s[..j + 1] == [s[0]] + s[1..][..j];
      j + 1
  }

  /** A position holding x with no x before it is the position `indexOf` finds. */
  lemma IndexOfFirst<T>(s: seq<T>, x: T, i: nat)
    requires i < |s| && s[i] == x && x !in s[..i]
    ensures x in s && IndexOf(s, x) == i
  {
    var f := IndexOf(s, x);
    assert forall j :: 0 <= j < f ==> s[..f][j] != x;
    assert forall j :: 0 <= j < i ==> s[..i][j] != x;
  }

  lemma {:induction false} IndexOfPrefix<T>(s: seq<T>, x: T, n: nat)
    requires n <= |s| && x in s[..n]
    ensures x in s && IndexOf(s, x) == IndexOf(s[..n], x)
  {
    var i := IndexOf(s[..n], x);
    assert s[..n][..i] == s[..i];
    var k := IndexOf(s, x);
    assert forall j :: 0 <= j < i ==> s[..i][j] != x;
    assert forall j :: 0 <= j < k ==> s[..k][j] != x;
  }

  predicate NoDuplicates<T(==)>(s: seq<T>)
  {
    forall i, j :: 0 <= i < j < |s| ==> s[i] != s[j]
  }

  lemma {:induction false} SubsequenceSnoc<T>(r: seq<T>, s: seq<T>, x: T)
    requires IsSubsequence(r, s)
    ensures IsSubsequence(r, s + [x]) && IsSubsequence(r + [x], s + [x])
    decreases |s|
  {
    if s == [] {
      assert r == [];
      assert (r + [x])[1..] == [];
      assert (s + [x])[1..] == [];
    } else if r == [] {
      SubsequenceSnoc(r, s[1..], x);
      assert (s + [x])[1..] == s[1..] + [x];
      assert [x][1..] == [];
    } else {
      assert (s + [x])[1..] == s[1..] + [x];
      assert (r + [x])[1..] == r[1..] + [x];
      if r[0] == s[0] && IsSubsequence(r[1..], s[1..]) {
        SubsequenceSnoc(r[1..], s[1..], x);
      } else {
        SubsequenceSnoc(r, s[1..], x);
      }
    }
  }

  /** `[...new Set(s)]`: each value once, in order of first occurrence. */
  function Dedup<T(==, !new)>(s: seq<T>): (r: seq<T>)
    ensures NoDuplicates(r)
    ensures forall x :: x in r <==> x in s
    ensures IsSubsequence(r, s)
    ensures forall i, j :: 0 <= i < j < |r| ==> IndexOf(s, r[i]) < IndexOf(s, r[j])
    decreases |s|
  {
    if s == [] then []
    else
      var init := s[..|s| - 1];
      var last := s[|s| - 1];
      assert s == init + [last];
      var d := Dedup(init);
      SubsequenceSnoc(d, init, last);
      forall x | x in d
        ensures IndexOf(s, x) == IndexOf(init, x)
      {
        IndexOfPrefix(s, x, |s| - 1);
      }
      if last in d then d
      else
        assert IndexOf(s, last) == |s| - 1 by {
          assert last !in init;
        }
        d + [last]
  }

  /** `Math.max(...s.map(key), 0)`: the largest key, or 0. */
  function MaxKey<T>(s: seq<T>, key: T -> int): (m: int)
    ensures m >= 0
    ensures forall x :: x in s ==> key(x) <= m
    ensures m == 0 || exists x :: x in s && key(x) == m
    decreases |s|
  {
    if s == [] then 0
    else
      var rest := MaxKey(s[1..], key);
      assert forall x :: x in s[1..] ==> x in s;
      if key(s[0]) > rest then key(s[0]) else rest
  }

  /** `Math.max(...s.map(key), 0) + 1`: the id the stores give a new record. */
  function NextKey<T>(s: seq<T>, key: T -> int): int
  {
    MaxKey(s, key) + 1
  }

  /** The new id is positive, above every existing id, and 1 for an empty list. */
  lemma NextKeyFresh<T>(s: seq<T>, key: T -> int)
    ensures NextKey(s, key) >= 1
    ensures forall x :: x in s ==> key(x) < NextKey(s, key)
    ensures s == [] ==> NextKey(s, key) == 1
  {
  }

  /** No two elements share a key. */
  predicate DistinctKeys<T>(s: seq<T>, key: T -> int)
  {
    forall i, j :: 0 <= i < j < |s| ==> key(s[i]) != key(s[j])
  }

  /** Prepending an element that carries the next key keeps the keys distinct. */
  lemma PrependNextKeyDistinct<T>(s: seq<T>, key: T -> int, x: T)
    requires DistinctKeys(s, key) && key(x) == NextKey(s, key)
    ensures DistinctKeys([x] + s, key)
  {
    var r := [x] + s;
    forall i, j | 0 <= i < j < |r|
      ensures key(r[i]) != key(r[j])
    {
      if i == 0 {
        assert r[j] == s[j - 1] && s[j - 1] in s;
      } else {
        assert r[i] == s[i - 1] && r[j] == s[j - 1];
      }
    }
  }

  /** `s.filter(x => x.id !== id)`. */
  function RemoveKey<T(==, !new)>(s: seq<T>, key: T -> int, id: int): (r: seq<T>)
  {
    Filter(s, x => key(x) != id)
  }

  /** Removing an id keeps exactly the other elements, in order, and is a no-op when the id is absent. */
  lemma RemoveKeyExact<T(!new)>(s: seq<T>, key: T -> int, id: int)
    ensures forall x :: x in RemoveKey(s, key, id) <==> x in s && key(x) != id
    ensures IsSubsequence(RemoveKey(s, key, id), s)
    ensures (forall x :: x in s ==> key(x) != id) ==> RemoveKey(s, key, id) == s
  {
    if forall x :: x in s ==> key(x) != id {
      FilterKeepsAll(s, x => key(x) != id);
    }
  }

  /** Removing by key keeps the remaining keys distinct. */
  lemma {:induction false} RemoveKeyDistinct<T(!new)>(s: seq<T>, key: T -> int, id: int)
    requires DistinctKeys(s, key)
    ensures DistinctKeys(RemoveKey(s, key, id), key)
    decreases |s|
  {
    if s != [] {
      assert DistinctKeys(s[1..], key) by {
        forall i, j | 0 <= i < j < |s[1..]|
          ensures key(s[1..][i]) != key(s[1..][j])
        {
          assert s[1..][i] == s[i + 1] && s[1..][j] == s[j + 1];
        }
      }
      RemoveKeyDistinct(s[1..], key, id);
      var rest := RemoveKey(s[1..], key, id);
      assert rest == Filter(s[1..], x => key(x) != id);
      if key(s[0]) != id {
        var r := [s[0]] + rest;
        forall i, j | 0 <= i < j < |r|
          ensures key(r[i]) != key(r[j])
        {
          if i == 0 {
            assert r[j] in s[1..];
            var k :| 0 <= k < |s[1..]| && s[1..][k] == r[j];
            assert s[k + 1] == r[j];
          } else {
            assert r[i] == rest[i - 1] && r[j] == rest[j - 1];
          }
        }
      }
    }
  }

  /** `s.map(x => x.id === id ? f(x) : x)`. */
  function UpdateKey<T>(s: seq<T>, key: T -> int, id: int, f: T -> T): (r: seq<T>)
    decreases |s|
  {
    if s == [] then []
    else [if key(s[0]) == id then f(s[0]) else s[0]] + UpdateKey(s[1..], key, id, f)
  }

  /** Only the elements with the given id are changed, and only by f; length and order are kept. */
  lemma {:induction false} UpdateKeyAt<T>(s: seq<T>, key: T -> int, id: int, f: T -> T)
    ensures |UpdateKey(s, key, id, f)| == |s|
    ensures forall i :: 0 <= i < |s| ==>
      UpdateKey(s, key, id, f)[i] == if key(s[i]) == id then f(s[i]) else s[i]
    decreases |s|
  {
    if s != [] {
      UpdateKeyAt(s[1..], key, id, f);
    }
  }

  /** An update that keeps every key keeps the keys distinct. */
  lemma UpdateKeyDistinct<T>(s: seq<T>, key: T -> int, id: int, f: T -> T)
    requires DistinctKeys(s, key)
    requires forall x :: key(f(x)) == key(x)
    ensures DistinctKeys(UpdateKey(s, key, id, f), key)
  {
    UpdateKeyAt(s, key, id, f);
    var r := UpdateKey(s, key, id, f);
    forall i, j | 0 <= i < j < |r|
      ensures key(r[i]) != key(r[j])
    {
      assert key(r[i]) == key(s[i]) && key(r[j]) == key(s[j]);
    }
  }

  /** `s.map(f)`. */
  function Map<T, U>(s: seq<T>, f: T -> U): (r: seq<U>)
    ensures |r| == |s|
    ensures forall i :: 0 <= i < |s| ==> r[i] == f(s[i])
  {
    seq(|s|, i requires 0 <= i < |s| => f(s[i]))
  }

  /** The image of every element is in the mapped sequence. */
  lemma MapHas<T, U>(s: seq<T>, f: T -> U)
    ensures forall x :: x in s ==> f(x) in Map(s, f)
  {
    var r := Map(s, f);
    forall x | x in s
      ensures f(x) in r
    {
      var k :| 0 <= k < |s| && s[k] == x;
      assert r[k] == f(x);
    }
  }

  /** `s.flatMap(f)` where f yields a sequence. */
  function FlatMap<T, U(!new)>(s: seq<T>, f: T -> seq<U>): (r: seq<U>)
    ensures forall y :: y in r <==> exists x :: x in s && y in f(x)
    decreases |s|
  {
    if s == [] then []
    else
      var rest := FlatMap(s[1..], f);
      assert forall x :: x in s[1..] ==> x in s;
      assert forall y :: y in f(s[0]) + rest <==> y in f(s[0]) || y in rest;
      f(s[0]) + rest
  }
}
