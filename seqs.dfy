/** The JavaScript array operations the client builds its lists with. */
module Seqs {
  import opened Wrappers

  /** `s.filter(keep).map(f)`. */
  function FilterMap<A, B>(s: seq<A>, keep: A -> bool, f: A -> B): (r: seq<B>)
    ensures |r| <= |s|
  {
    if s == [] then []
    else (if keep(s[0]) then [f(s[0])] else []) + FilterMap(s[1..], keep, f)
  }

  /** What survives the filter is exactly the image of the kept elements. */
  lemma {:induction false} FilterMapMembers<A, B>(s: seq<A>, keep: A -> bool, f: A -> B)
    ensures FilterMap(s, keep, f) == [] <==> forall x :: x in s ==> !keep(x)
    ensures forall x :: x in s && keep(x) ==> f(x) in FilterMap(s, keep, f)
    ensures forall y :: y in FilterMap(s, keep, f) ==> exists x :: x in s && keep(x) && y == f(x)
  {
    if s != [] {
      FilterMapMembers(s[1..], keep, f);
      var head := if keep(s[0]) then [f(s[0])] else [];
      var tail := FilterMap(s[1..], keep, f);
      assert FilterMap(s, keep, f) == head + tail;
      assert forall x :: x in s ==> x == s[0] || x in s[1..];
      forall y | y in FilterMap(s, keep, f)
        ensures exists x :: x in s && keep(x) && y == f(x)
      {
        if y in head {
          assert s[0] in s;
        } else {
          assert y in tail;
          var x :| x in s[1..] && keep(x) && y == f(x);
          assert x in s;
        }
      }
    }
  }

  /** Filtering and mapping work element by element, so they keep the order of `s`. */
  lemma {:induction false} FilterMapConcat<A, B>(a: seq<A>, b: seq<A>, keep: A -> bool, f: A -> B)
    ensures FilterMap(a + b, keep, f) == FilterMap(a, keep, f) + FilterMap(b, keep, f)
  {
    if a == [] {
      assert a + b == b;
    } else {
      var head := if keep(a[0]) then [f(a[0])] else [];
      assert (a + b)[0] == a[0];
      assert (a + b)[1..] == a[1..] + b;
      assert FilterMap(a + b, keep, f) == head + FilterMap(a[1..] + b, keep, f);
      FilterMapConcat(a[1..], b, keep, f);
      assert FilterMap(a, keep, f) == head + FilterMap(a[1..], keep, f);
    }
  }

  /** `s.find(p)`: the first element satisfying `p`, or `undefined`. */
  function Find<T>(s: seq<T>, p: T -> bool): (r: Option<T>)
    ensures r.None? <==> forall x :: x in s ==> !p(x)
    ensures r.Some? ==> exists i :: 0 <= i < |s| && s[i] == r.value && p(s[i]) && forall j :: 0 <= j < i ==> !p(s[j])
  {
    if s == [] then None
    else if p(s[0]) then Some(s[0])
    else
      var r := Find(s[1..], p);
      assert r.Some? ==> exists i :: 0 <= i < |s[1..]| && s[1..][i] == r.value && p(s[1..][i]) && forall j :: 0 <= j < i ==> !p(s[1..][j]);
      assert forall i :: 0 <= i < |s[1..]| ==> s[1..][i] == s[i + 1];
      r
  }

  /** `s.filter((_, i) => i !== idx)`. */
  function WithoutIndex<T>(s: seq<T>, idx: int): seq<T>
  {
    if s == [] then [] else (if idx == 0 then [] else [s[0]]) + WithoutIndex(s[1..], idx - 1)
  }

  /** Dropping index `idx` splices it out when it exists and keeps everything otherwise. */
  lemma {:induction false} WithoutIndexSplices<T>(s: seq<T>, idx: int)
    ensures WithoutIndex(s, idx) == if 0 <= idx < |s| then s[..idx] + s[idx + 1..] else s
  {
    if s != [] {
      var tail := WithoutIndex(s[1..], idx - 1);
      WithoutIndexSplices(s[1..], idx - 1);
      if idx == 0 {
        assert WithoutIndex(s, idx) == tail == s[1..];
        assert s[..0] + s[1..] == s[1..];
      } else if 0 < idx < |s| {
        assert WithoutIndex(s, idx) == [s[0]] + tail;
        assert tail == s[1..idx] + s[idx + 1..] by {
          assert s[1..][..idx - 1] == s[1..idx];
          assert s[1..][idx..] == s[idx + 1..];
        }
        assert [s[0]] + s[1..idx] == s[..idx];
      } else {
        assert WithoutIndex(s, idx) == [s[0]] + tail;
        assert [s[0]] + s[1..] == s;
      }
    }
  }
}
