/** List operations shared by the views: `Array.prototype.filter`, and the
    "keep the first occurrence" de-duplication used both as `[...new Set(xs)]`
    and as `xs.filter((v, i, a) => a.findIndex(same key as v) === i)`.
    Everything is defined from the END of the list, the way the source's
    results grow by `push`. */
module Lists {
  import opened Wrappers

  /** `s` is an order-preserving sub-list of `t` (greedy match from the end). */
  predicate IsSubsequence<T(==)>(s: seq<T>, t: seq<T>)
    decreases |t|
  {
    if s == [] then true
    else if t == [] then false
    else if s[|s| - 1] == t[|t| - 1] then IsSubsequence(s[..|s| - 1], t[..|t| - 1])
    else IsSubsequence(s, t[..|t| - 1])
  }

  lemma {:induction false} SubsequenceExtend<T>(s: seq<T>, t: seq<T>, x: T)
    requires IsSubsequence(s, t)
    ensures IsSubsequence(s, t + [x])
    decreases |t|, 1
  {
    var t' := t + [x];
    assert t'[..|t'| - 1] == t;
    if s != [] && s[|s| - 1] == x {
      SubsequenceDropLast(s, t);
    }
  }

  lemma {:induction false} SubsequenceDropLast<T>(s: seq<T>, t: seq<T>)
    requires s != [] && IsSubsequence(s, t)
    ensures IsSubsequence(s[..|s| - 1], t)
    decreases |t|, 0
  {
    var t' := t[..|t| - 1];
    assert t == t' + [t[|t| - 1]];
    if s[|s| - 1] == t[|t| - 1] {
      SubsequenceExtend(s[..|s| - 1], t', t[|t| - 1]);
    } else {
      SubsequenceDropLast(s, t');
      SubsequenceExtend(s[..|s| - 1], t', t[|t| - 1]);
    }
  }

  lemma {:induction false} SubsequenceReflexive<T>(s: seq<T>)
    ensures IsSubsequence(s, s)
    decreases |s|
  {
    if s != [] {
      SubsequenceReflexive(s[..|s| - 1]);
    }
  }

  lemma {:induction false} SubsequenceTransitive<T>(a: seq<T>, b: seq<T>, c: seq<T>)
    requires IsSubsequence(a, b) && IsSubsequence(b, c)
    ensures IsSubsequence(a, c)
    decreases |c|
  {
    if a != [] {
      var b', c' := b[..|b| - 1], c[..|c| - 1];
      assert c == c' + [c[|c| - 1]];
      if b[|b| - 1] == c[|c| - 1] {
        if a[|a| - 1] == b[|b| - 1] {
          SubsequenceTransitive(a[..|a| - 1], b', c');
        } else {
          SubsequenceTransitive(a, b', c');
          SubsequenceExtend(a, c', c[|c| - 1]);
        }
      } else {
        SubsequenceTransitive(a, b, c');
        SubsequenceExtend(a, c', c[|c| - 1]);
      }
    }
  }

  /** `Array.prototype.filter`: the elements satisfying `p`, in order. */
  function Filter<T>(s: seq<T>, p: T -> bool): (r: seq<T>)
    ensures |r| <= |s|
    ensures forall i :: 0 <= i < |r| ==> p(r[i])
    decreases |s|
  {
    if s == [] then []
    else Filter(s[..|s| - 1], p) + (if p(s[|s| - 1]) then [s[|s| - 1]] else [])
  }

  /** The filtered list holds exactly the elements of `s` that satisfy `p`. */
  lemma {:induction false} FilterMembers<T>(s: seq<T>, p: T -> bool, x: T)
    ensures x in Filter(s, p) <==> x in s && p(x)
    decreases |s|
  {
    if s != [] {
      var s' := s[..|s| - 1];
      FilterMembers(s', p, x);
      assert s == s' + [s[|s| - 1]];
    }
  }

  /** Filtering never reorders or duplicates: the result is a sub-list of `s`. */
  lemma {:induction false} FilterIsSubsequence<T>(s: seq<T>, p: T -> bool)
    ensures IsSubsequence(Filter(s, p), s)
    decreases |s|
  {
    if s != [] {
      var s', x := s[..|s| - 1], s[|s| - 1];
      FilterIsSubsequence(s', p);
      var r' := Filter(s', p);
      if p(x) {
        assert (r' + [x])[..|r' + [x]| - 1] == r';
      } else {
        assert Filter(s, p) == r';
        SubsequenceExtend(r', s', x);
        assert s' + [x] == s;
      }
    }
  }

  /** When every element passes, filtering gives back the whole list. */
  lemma {:induction false} FilterAll<T>(s: seq<T>, p: T -> bool)
    requires forall i :: 0 <= i < |s| ==> p(s[i])
    ensures Filter(s, p) == s
    decreases |s|
  {
    if s != [] {
      FilterAll(s[..|s| - 1], p);
      assert s == s[..|s| - 1] + [s[|s| - 1]];
    }
  }

  /** When no element passes, nothing is left. */
  lemma {:induction false} FilterNone<T>(s: seq<T>, p: T -> bool)
    requires forall i :: 0 <= i < |s| ==> !p(s[i])
    ensures Filter(s, p) == []
    decreases |s|
  {
    if s != [] {
      FilterNone(s[..|s| - 1], p);
    }
  }

  /** Filtering by a conjunction is filtering by each conjunct in turn. */
  lemma {:induction false} FilterConjunction<T>(s: seq<T>, p: T -> bool, q: T -> bool, pq: T -> bool)
    requires forall x :: pq(x) == (p(x) && q(x))
    ensures Filter(s, pq) == Filter(Filter(s, p), q)
    decreases |s|
  {
    if s != [] {
      var s', x := s[..|s| - 1], s[|s| - 1];
      FilterConjunction(s', p, q, pq);
      var fp := Filter(s', p);
      if p(x) {
        assert Filter(s, p) == fp + [x];
        assert (fp + [x])[..|fp + [x]| - 1] == fp;
      } else {
        assert Filter(s, p) == fp;
      }
    }
  }

  /** Two predicates that agree on every value select the same elements. */
  lemma {:induction false} FilterExtensional<T>(s: seq<T>, p: T -> bool, q: T -> bool)
    requires forall x :: p(x) == q(x)
    ensures Filter(s, p) == Filter(s, q)
    decreases |s|
  {
    if s != [] {
      FilterExtensional(s[..|s| - 1], p, q);
    }
  }

  /** `Array.prototype.findIndex`, absent for -1: the first index whose
      element satisfies `p`. */
  function FirstIndex<T>(s: seq<T>, p: T -> bool): (r: Option<nat>)
    ensures r.Some? ==> r.value < |s| && p(s[r.value])
    ensures r.Some? ==> forall j :: 0 <= j < r.value ==> !p(s[j])
    ensures r.None? <==> forall j :: 0 <= j < |s| ==> !p(s[j])
    decreases |s|
  {
    if s == [] then None
    else if p(s[0]) then Some(0)
    else match FirstIndex(s[1..], p)
         case None => None
         case Some(i) => Some(i + 1)
  }

  /** The set of keys of the elements of `s`. */
  function Keys<T, K(==)>(s: seq<T>, key: T -> K): set<K>
    decreases |s|
  {
    if s == [] then {} else Keys(s[..|s| - 1], key) + {key(s[|s| - 1])}
  }

  /** A key is in the set exactly when some element has it. */
  lemma {:induction false} KeysMembers<T, K>(s: seq<T>, key: T -> K)
    ensures forall i :: 0 <= i < |s| ==> key(s[i]) in Keys(s, key)
    ensures forall k :: k in Keys(s, key) ==> exists i :: 0 <= i < |s| && key(s[i]) == k
    decreases |s|
  {
    if s != [] {
      var s' := s[..|s| - 1];
      KeysMembers(s', key);
      assert forall i :: 0 <= i < |s'| ==> s'[i] == s[i];
    }
  }

  /** No two elements of `s` share a key. */
  predicate DistinctKeys<T, K(==)>(s: seq<T>, key: T -> K) {
    forall i, j :: 0 <= i < j < |s| ==> key(s[i]) != key(s[j])
  }

  /** Keep element i exactly when no earlier element has the same key. */
  function DedupBy<T, K(==)>(s: seq<T>, key: T -> K): (r: seq<T>)
    ensures |r| <= |s|
    ensures Keys(r, key) == Keys(s, key)
    ensures DistinctKeys(r, key)
    decreases |s|
  {
    if s == [] then []
    else
      var s', x := s[..|s| - 1], s[|s| - 1];
      var r' := DedupBy(s', key);
      if key(x) in Keys(s', key) then r'
      else
        KeysMembers(r', key);
        assert (r' + [x])[..|r'|] == r';
        r' + [x]
  }

  /** The de-duplicated list keeps the first-occurrence order. */
  lemma {:induction false} DedupIsSubsequence<T, K>(s: seq<T>, key: T -> K)
    ensures IsSubsequence(DedupBy(s, key), s)
    decreases |s|
  {
    if s != [] {
      var s', x := s[..|s| - 1], s[|s| - 1];
      DedupIsSubsequence(s', key);
      var r' := DedupBy(s', key);
      if key(x) in Keys(s', key) {
        SubsequenceExtend(r', s', x);
        assert s' + [x] == s;
      } else {
        assert (r' + [x])[..|r' + [x]| - 1] == r';
      }
    }
  }

  /** A list whose keys are already distinct is left unchanged. */
  lemma {:induction false} DedupOfDistinct<T, K>(s: seq<T>, key: T -> K)
    requires DistinctKeys(s, key)
    ensures DedupBy(s, key) == s
    decreases |s|
  {
    if s != [] {
      var s', x := s[..|s| - 1], s[|s| - 1];
      assert DistinctKeys(s', key);
      DedupOfDistinct(s', key);
      KeysMembers(s', key);
      assert forall i :: 0 <= i < |s'| ==> key(s'[i]) != key(x);
      assert s' + [x] == s;
    }
  }

  /** The element kept for index `i` is `s[i]` itself when no earlier element
      shares its key, and otherwise index `i` is dropped. */
  lemma {:induction false} DedupKeepsFirst<T, K>(s: seq<T>, key: T -> K, i: nat)
    requires i < |s|
    requires forall j :: 0 <= j < i ==> key(s[j]) != key(s[i])
    ensures s[i] in DedupBy(s, key)
    decreases |s|
  {
    var s', x := s[..|s| - 1], s[|s| - 1];
    if i < |s| - 1 {
      DedupKeepsFirst(s', key, i);
    } else {
      KeysMembers(s', key);
      assert forall j :: 0 <= j < |s'| ==> key(s'[j]) != key(x);
    }
  }

  /** When `p` depends on the key alone, an element passing `p` has its key
      among the filtered keys exactly when it has it among all keys. */
  lemma KeysFilter<T, K>(s: seq<T>, key: T -> K, p: T -> bool, x: T)
    requires forall a, b :: key(a) == key(b) ==> p(a) == p(b)
    requires p(x)
    ensures key(x) in Keys(Filter(s, p), key) <==> key(x) in Keys(s, key)
  {
    var f := Filter(s, p);
    KeysMembers(s, key);
    KeysMembers(f, key);
    if key(x) in Keys(s, key) {
      var i :| 0 <= i < |s| && key(s[i]) == key(x);
      FilterMembers(s, p, s[i]);
      var j :| 0 <= j < |f| && f[j] == s[i];
    }
    if key(x) in Keys(f, key) {
      var j :| 0 <= j < |f| && key(f[j]) == key(x);
      FilterMembers(s, p, f[j]);
      var i :| 0 <= i < |s| && s[i] == f[j];
    }
  }

  /** Removing duplicates and filtering by a property of the key commute:
      `[...new Set(xs)].filter(p)` is `[...new Set(xs.filter(p))]`. */
  lemma {:induction false} DedupFilterCommute<T, K>(s: seq<T>, key: T -> K, p: T -> bool)
    requires forall a, b :: key(a) == key(b) ==> p(a) == p(b)
    ensures Filter(DedupBy(s, key), p) == DedupBy(Filter(s, p), key)
    decreases |s|
  {
    if s != [] {
      var s', x := s[..|s| - 1], s[|s| - 1];
      DedupFilterCommute(s', key, p);
      var d' := DedupBy(s', key);
      var f' := Filter(s', p);
      if p(x) {
        KeysFilter(s', key, p, x);
        assert Filter(s, p) == f' + [x];
        assert (f' + [x])[..|f' + [x]| - 1] == f';
        if key(x) !in Keys(s', key) {
          assert (d' + [x])[..|d' + [x]| - 1] == d';
        }
      } else {
        assert Filter(s, p) == f';
        if key(x) !in Keys(s', key) {
          assert (d' + [x])[..|d' + [x]| - 1] == d';
        }
      }
    }
  }

  /** The index `Array.prototype.slice` starts or ends at for argument `k` on a
      list of length `n`: negative arguments count from the end. */
  function SliceIndex(k: int, n: nat): (r: nat)
    ensures r <= n
  {
    if k < 0 then (if n + k < 0 then 0 else n + k) else if k < n then k else n
  }

  /** `s.slice(start, end)`. */
  function Slice<T>(s: seq<T>, start: int, end: int): seq<T> {
    var from, to := SliceIndex(start, |s|), SliceIndex(end, |s|);
    if from < to then s[from..to] else []
  }
}
