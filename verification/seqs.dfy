/**
 Order-preserving selection and counting over sequences: the model of
 JavaScript's `Array.prototype.filter`, `map` and `filter(...).length`.
 */
module Seqs {

  /** `s.filter(p)`: the elements satisfying `p`, in their original order. */
  function Filter<T>(p: T -> bool, s: seq<T>): (r: seq<T>)
    ensures |r| <= |s|
    ensures forall i :: 0 <= i < |r| ==> p(r[i])
    decreases |s|
  {
    if |s| == 0 then []
    else if p(s[0]) then [s[0]] + Filter(p, s[1..])
    else Filter(p, s[1..])
  }

  /** `s.map(f)`. */
  function Map<A, B>(f: A -> B, s: seq<A>): (r: seq<B>)
    ensures |r| == |s|
    ensures forall i :: 0 <= i < |s| ==> r[i] == f(s[i])
  {
    seq(|s|, i requires 0 <= i < |s| => f(s[i]))
  }

  /** The number of elements satisfying `p`, counted independently of `Filter`. */
  function Count<T>(p: T -> bool, s: seq<T>): nat
    decreases |s|
  {
    if |s| == 0 then 0
    else Count(p, s[..|s| - 1]) + (if p(s[|s| - 1]) then 1 else 0)
  }

  /** The positions `j >= i` of `s` whose element satisfies `p`, ascending. */
  function SelectedFrom<T>(p: T -> bool, s: seq<T>, i: nat): (idx: seq<nat>)
    requires i <= |s|
    ensures forall k :: 0 <= k < |idx| ==> i <= idx[k] < |s|
    decreases |s| - i
  {
    if i == |s| then []
    else if p(s[i]) then [i] + SelectedFrom(p, s, i + 1)
    else SelectedFrom(p, s, i + 1)
  }

  /** `SelectedFrom` lists, in ascending order, exactly the positions from
      `i` on whose element satisfies `p`. */
  lemma {:induction false} SelectedFromExact<T>(p: T -> bool, s: seq<T>, i: nat)
    requires i <= |s|
    ensures forall k :: 0 <= k < |SelectedFrom(p, s, i)| ==> p(s[SelectedFrom(p, s, i)[k]])
    ensures forall k, l :: 0 <= k < l < |SelectedFrom(p, s, i)| ==>
              SelectedFrom(p, s, i)[k] < SelectedFrom(p, s, i)[l]
    ensures forall j :: i <= j < |s| ==> (p(s[j]) <==> j in SelectedFrom(p, s, i))
    decreases |s| - i
  {
    if i < |s| {
      SelectedFromExact(p, s, i + 1);
    }
  }

  /** The positions of `s` whose element satisfies `p`, ascending. */
  function Selected<T>(p: T -> bool, s: seq<T>): (idx: seq<nat>)
    ensures forall k :: 0 <= k < |idx| ==> idx[k] < |s| && p(s[idx[k]])
    ensures forall k, l :: 0 <= k < l < |idx| ==> idx[k] < idx[l]
    ensures forall j :: 0 <= j < |s| ==> (p(s[j]) <==> j in idx)
  {
    SelectedFromExact(p, s, 0);
    SelectedFrom(p, s, 0)
  }

  lemma {:induction false} FilterSelectsFrom<T>(p: T -> bool, s: seq<T>, i: nat)
    requires i <= |s|
    ensures |Filter(p, s[i..])| == |SelectedFrom(p, s, i)|
    ensures forall k :: 0 <= k < |Filter(p, s[i..])| ==>
              Filter(p, s[i..])[k] == s[SelectedFrom(p, s, i)[k]]
    decreases |s| - i
  {
    if i < |s| {
      var t := s[i..];
      assert t[0] == s[i];
      assert t[1..] == s[i + 1..];
      FilterSelectsFrom(p, s, i + 1);
      var f, idx := Filter(p, s[i + 1..]), SelectedFrom(p, s, i + 1);
      if p(s[i]) {
        assert Filter(p, t) == [s[i]] + f;
        assert SelectedFrom(p, s, i) == [i] + idx;
      } else {
        assert Filter(p, t) == f;
        assert SelectedFrom(p, s, i) == idx;
      }
    }
  }

  /** `Filter` keeps exactly the elements at the `Selected` positions, in
      ascending position order: it is the order-preserving subsequence of the
      elements satisfying `p`. */
  lemma FilterSelects<T>(p: T -> bool, s: seq<T>)
    ensures |Filter(p, s)| == |Selected(p, s)|
    ensures forall k :: 0 <= k < |Filter(p, s)| ==> Filter(p, s)[k] == s[Selected(p, s)[k]]
  {
    assert s[0..] == s;
    FilterSelectsFrom(p, s, 0);
  }

  /** Filtering a concatenation filters each part. */
  lemma {:induction false} FilterAppend<T>(p: T -> bool, a: seq<T>, b: seq<T>)
    ensures Filter(p, a + b) == Filter(p, a) + Filter(p, b)
    decreases |a|
  {
    if |a| == 0 {
      assert a + b == b;
    } else {
      assert (a + b)[0] == a[0];
      assert (a + b)[1..] == a[1..] + b;
      FilterAppend(p, a[1..], b);
    }
  }

  /** The length of the filtered sequence is the independent count. */
  lemma {:induction false} FilterLength<T>(p: T -> bool, s: seq<T>)
    ensures |Filter(p, s)| == Count(p, s)
    decreases |s|
  {
    if |s| > 0 {
      var init, last := s[..|s| - 1], s[|s| - 1];
      assert s == init + [last];
      FilterAppend(p, init, [last]);
      FilterLength(p, init);
    }
  }

  /** When every element satisfies `p`, filtering changes nothing. */
  lemma {:induction false} FilterKeepsAll<T>(p: T -> bool, s: seq<T>)
    requires forall i :: 0 <= i < |s| ==> p(s[i])
    ensures Filter(p, s) == s
    decreases |s|
  {
    if |s| > 0 {
      FilterKeepsAll(p, s[1..]);
    }
  }

  /** Two predicates that no element satisfies together count at most `|s|`
      elements between them. */
  lemma {:induction false} CountDisjoint<T>(p: T -> bool, q: T -> bool, s: seq<T>)
    requires forall x :: !(p(x) && q(x))
    ensures Count(p, s) + Count(q, s) <= |s|
    decreases |s|
  {
    if |s| > 0 {
      CountDisjoint(p, q, s[..|s| - 1]);
    }
  }
}
