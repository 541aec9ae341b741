/**
 * The JavaScript array operations the handlers are built from:
 * `Array.prototype.filter`, `map`, `findIndex`, and dnd-kit's `arrayMove`
 * (remove the element at `from`, then insert it at `to`).
 */
module ListOps {
  import opened Wrappers

  /** `a` is obtained from `b` by deleting elements; the rest keep their order. */
  ghost predicate Subseq<T>(a: seq<T>, b: seq<T>)
    decreases |b|
  {
    if a == [] then true
    else if b == [] then false
    else (a[0] == b[0] && Subseq(a[1..], b[1..])) || Subseq(a, b[1..])
  }

  /** `s.filter(keep)`. */
  function Filter<T(!new)>(s: seq<T>, keep: T -> bool): (r: seq<T>)
    ensures |r| <= |s|
    ensures forall x :: x in r <==> x in s && keep(x)
    ensures Subseq(r, s)
  {
    if s == [] then []
    else
      var rest := Filter(s[1..], keep);
      assert s == [s[0]] + s[1..];
      if keep(s[0]) then
        var r := [s[0]] + rest;
        assert r[1..] == rest;
        r
      else
        rest
  }

  /** `filter` keeps every copy of an element it accepts and no copy of one it rejects. */
  lemma {:induction false} FilterMultiset<T(!new)>(s: seq<T>, keep: T -> bool, x: T)
    ensures multiset(Filter(s, keep))[x] == if keep(x) then multiset(s)[x] else 0
  {
    if s != [] {
      FilterMultiset(s[1..], keep, x);
      FilterCons(s, keep);
      assert s == [s[0]] + s[1..];
    }
  }

  /** `Filter` takes the first element, if kept, in front of what it keeps from the rest. */
  lemma FilterCons<T(!new)>(s: seq<T>, keep: T -> bool)
    requires s != []
    ensures Filter(s, keep) == (if keep(s[0]) then [s[0]] else []) + Filter(s[1..], keep)
  {
  }

  /** A prefix of `s` one longer than a prefix of `s[1..]` keeps the first element in front. */
  lemma FilterPrefixCons<T(!new)>(s: seq<T>, keep: T -> bool, j: nat)
    requires j < |s|
    ensures |Filter(s[..j + 1], keep)| == (if keep(s[0]) then 1 else 0) + |Filter(s[1..][..j], keep)|
  {
    var p := s[..j + 1];
    assert p[1..] == s[1..][..j];
    FilterCons(p, keep);
  }

  /** The position in `s` of the `k`-th element that `Filter(s, keep)` keeps. */
  function FilterIndex<T(!new)>(s: seq<T>, keep: T -> bool, k: nat): (i: nat)
    requires k < |Filter(s, keep)|
    ensures i < |s| && s[i] == Filter(s, keep)[k]
    ensures |Filter(s[..i], keep)| == k
  {
    FilterCons(s, keep);
    if keep(s[0]) && k == 0 then
      assert s[..0] == [];
      0
    else
      var j := FilterIndex(s[1..], keep, if keep(s[0]) then k - 1 else k);
      FilterPrefixCons(s, keep, j);
      j + 1
  }

  /** Keeping what one predicate keeps and what its complement keeps accounts for every element. */
  lemma {:induction false} FilterPartition<T(!new)>(s: seq<T>, keep: T -> bool, drop: T -> bool)
    requires forall x :: drop(x) == !keep(x)
    ensures |Filter(s, keep)| + |Filter(s, drop)| == |s|
  {
    if s != [] {
      FilterPartition(s[1..], keep, drop);
    }
  }

  /** A filter that every element passes returns the array as it was. */
  lemma {:induction false} FilterKeepsAll<T(!new)>(s: seq<T>, keep: T -> bool)
    requires forall i :: 0 <= i < |s| ==> keep(s[i])
    ensures Filter(s, keep) == s
  {
    if s != [] {
      FilterKeepsAll(s[1..], keep);
    }
  }

  /** `s.map(x => sel(x) ? f(x) : x)`: the shape of every "update by id" in the handlers. */
  function MapWhere<T>(s: seq<T>, sel: T -> bool, f: T -> T): (r: seq<T>)
    ensures |r| == |s|
    ensures forall i :: 0 <= i < |s| ==> r[i] == if sel(s[i]) then f(s[i]) else s[i]
  {
    if s == [] then []
    else [if sel(s[0]) then f(s[0]) else s[0]] + MapWhere(s[1..], sel, f)
  }

  /** An update whose selector matches nothing leaves the array unchanged. */
  lemma MapWhereNoMatch<T>(s: seq<T>, sel: T -> bool, f: T -> T)
    requires forall i :: 0 <= i < |s| ==> !sel(s[i])
    ensures MapWhere(s, sel, f) == s
  {
    var r := MapWhere(s, sel, f);
    assert forall i :: 0 <= i < |s| ==> r[i] == s[i];
  }

  /** An update that is its own inverse and keeps the selector's verdict undoes itself when applied twice. */
  lemma MapWhereTwice<T>(s: seq<T>, sel: T -> bool, f: T -> T)
    requires forall x :: sel(x) ==> sel(f(x)) && f(f(x)) == x
    ensures MapWhere(MapWhere(s, sel, f), sel, f) == s
  {
    var r := MapWhere(s, sel, f);
    var rr := MapWhere(r, sel, f);
    forall i | 0 <= i < |s|
      ensures rr[i] == s[i]
    {
      if sel(s[i]) {
        assert r[i] == f(s[i]) && sel(r[i]);
      }
    }
  }

  /** `s.map(f)`. */
  function Map<T, U>(s: seq<T>, f: T -> U): (r: seq<U>)
    ensures |r| == |s|
    ensures forall i :: 0 <= i < |s| ==> r[i] == f(s[i])
  {
    if s == [] then [] else [f(s[0])] + Map(s[1..], f)
  }

  /** `s.findIndex(p)`, with `None` for JavaScript's -1. */
  function FindIndex<T>(s: seq<T>, p: T -> bool): (r: Option<nat>)
    ensures r.Some? ==> r.value < |s| && p(s[r.value])
    ensures r.Some? ==> forall j :: 0 <= j < r.value ==> !p(s[j])
    ensures r.None? ==> forall j :: 0 <= j < |s| ==> !p(s[j])
  {
    if s == [] then None
    else if p(s[0]) then Some(0)
    else
      match FindIndex(s[1..], p)
      case None => None
      case Some(i) => Some(i + 1)
  }

  /** `s` with the element at `i` taken out. */
  function RemoveAt<T>(s: seq<T>, i: nat): (r: seq<T>)
    requires i < |s|
    ensures |r| == |s| - 1
    ensures forall j :: 0 <= j < i ==> r[j] == s[j]
    ensures forall j :: i <= j < |r| ==> r[j] == s[j + 1]
    ensures multiset(r) + multiset{s[i]} == multiset(s)
  {
    assert s == s[..i] + [s[i]] + s[i + 1..];
    s[..i] + s[i + 1..]
  }

  /** dnd-kit's `arrayMove(s, from, to)`: remove the element at `from`, insert it at `to`. */
  function ArrayMove<T>(s: seq<T>, from: nat, to: nat): (r: seq<T>)
    requires from < |s| && to < |s|
    ensures |r| == |s|
    ensures r[to] == s[from]
    ensures RemoveAt(r, to) == RemoveAt(s, from)
    ensures multiset(r) == multiset(s)
  {
    var rest := RemoveAt(s, from);
    var r := rest[..to] + [s[from]] + rest[to..];
    assert rest == rest[..to] + rest[to..];
    assert s == s[..from] + [s[from]] + s[from + 1..];
    assert r[..to] == rest[..to] && r[to + 1..] == rest[to..];
    calc {
      multiset(r);
      multiset(rest[..to]) + multiset{s[from]} + multiset(rest[to..]);
      multiset(rest) + multiset{s[from]};
      multiset(s[..from]) + multiset(s[from + 1..]) + multiset{s[from]};
      multiset(s);
    }
    r
  }

  /** Moving an element back to where it came from restores the order. */
  lemma ArrayMoveBack<T>(s: seq<T>, from: nat, to: nat)
    requires from < |s| && to < |s|
    ensures ArrayMove(ArrayMove(s, from, to), to, from) == s
  {
    var r := ArrayMove(s, from, to);
    var rest := RemoveAt(r, to);
    assert rest == RemoveAt(s, from);
    var back := rest[..from] + [r[to]] + rest[from..];
    assert back[..from] == s[..from];
    assert back[from + 1..] == s[from + 1..];
    assert back == s[..from] + [s[from]] + s[from + 1..];
  }

  /** Every position outside the moved span keeps its element; inside it, elements shift by one toward `from`. */
  lemma ArrayMoveAt<T>(s: seq<T>, from: nat, to: nat, k: nat)
    requires from < |s| && to < |s| && k < |s|
    ensures k < from && k < to ==> ArrayMove(s, from, to)[k] == s[k]
    ensures k > from && k > to ==> ArrayMove(s, from, to)[k] == s[k]
    ensures from < to && from <= k < to ==> ArrayMove(s, from, to)[k] == s[k + 1]
    ensures to < from && to < k <= from ==> ArrayMove(s, from, to)[k] == s[k - 1]
  {
    var r := ArrayMove(s, from, to);
    var rest := RemoveAt(s, from);
    assert RemoveAt(r, to) == rest;
    if k < to {
      assert r[k] == RemoveAt(r, to)[k];
    } else if k > to {
      assert r[k] == RemoveAt(r, to)[k - 1];
    }
  }

  /** Mapping then moving is moving then mapping. */
  lemma MapArrayMove<T, U>(s: seq<T>, f: T -> U, from: nat, to: nat)
    requires from < |s| && to < |s|
    ensures Map(ArrayMove(s, from, to), f) == ArrayMove(Map(s, f), from, to)
  {
    var l, r := Map(ArrayMove(s, from, to), f), ArrayMove(Map(s, f), from, to);
    forall k | 0 <= k < |s|
      ensures l[k] == r[k]
    {
      ArrayMoveAt(s, from, to, k);
      ArrayMoveAt(Map(s, f), from, to, k);
    }
  }
}
