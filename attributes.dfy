/**
 * A variant's `attributes` as the client holds it: a plain JavaScript object from attribute
 * name to value. A JavaScript object remembers the order in which its keys were first set,
 * and the attribute chips and the attribute text show entries in that order, so the object
 * is an association list with distinct keys. `ToMap` is what the object means as a
 * dictionary, the reference the edits below are proved against.
 */
module Attributes {

  datatype Entry = Entry(key: string, value: string)

  type Attrs = seq<Entry>

  /** The keys of `a`, in entry order (`Object.keys`). */
  function Keys(a: Attrs): seq<string>
  {
    if a == [] then [] else [a[0].key] + Keys(a[1..])
  }

  /** No key occurs twice, as in every JavaScript object. */
  predicate DistinctKeys(a: Attrs)
  {
    forall i, j :: 0 <= i < j < |a| ==> a[i].key != a[j].key
  }

  /** The object read as a dictionary. */
  function ToMap(a: Attrs): (m: map<string, string>)
    ensures m.Keys == set e | e in a :: e.key
  {
    if a == [] then map[] else ToMap(a[1..])[a[0].key := a[0].value]
  }

  /** `{ ...a, [k]: v }`: an existing key keeps its place and takes the new value; a new key goes last. */
  function Put(a: Attrs, k: string, v: string): (r: Attrs)
    ensures Entry(k, v) in r
    ensures forall e :: e in r ==> e.key == k || e in a
    ensures forall e :: e in a && e.key != k ==> e in r
  {
    if a == [] then [Entry(k, v)]
    else if a[0].key == k then
      assert forall e :: e in a ==> e == a[0] || e in a[1..];
      [Entry(k, v)] + a[1..]
    else
      var rest := Put(a[1..], k, v);
      assert forall e :: e in a ==> e == a[0] || e in a[1..];
      assert forall e :: e in [a[0]] + rest ==> e == a[0] || e in rest;
      [a[0]] + rest
  }

  /** `delete a[k]` on a copy of `a`. */
  function Delete(a: Attrs, k: string): (r: Attrs)
    ensures forall e :: e in r <==> e in a && e.key != k
  {
    if a == [] then []
    else
      var rest := Delete(a[1..], k);
      assert forall e :: e in a <==> e == a[0] || e in a[1..];
      (if a[0].key == k then [] else [a[0]]) + rest
  }

  lemma {:induction false} KeysOf(a: Attrs)
    ensures |Keys(a)| == |a| && forall i :: 0 <= i < |a| ==> Keys(a)[i] == a[i].key
  {
    if a != [] {
      KeysOf(a[1..]);
    }
  }

  lemma DistinctTail(a: Attrs)
    requires a != [] && DistinctKeys(a)
    ensures DistinctKeys(a[1..])
    ensures forall e :: e in a[1..] ==> e.key != a[0].key
  {
    forall e | e in a[1..] ensures e.key != a[0].key {
      var j :| 0 <= j < |a[1..]| && a[1..][j] == e;
      assert a[j + 1] == e;
    }
  }

  /** Setting a key never creates a duplicate key. */
  lemma {:induction false} PutKeepsDistinct(a: Attrs, k: string, v: string)
    requires DistinctKeys(a)
    ensures DistinctKeys(Put(a, k, v))
  {
    if a != [] {
      DistinctTail(a);
      var r := Put(a, k, v);
      if a[0].key == k {
        assert r[1..] == a[1..];
        forall i, j | 0 <= i < j < |r| ensures r[i].key != r[j].key {
          if i == 0 {
            assert r[j] in a[1..];
          } else {
            assert r[i] == a[i] && r[j] == a[j];
          }
        }
      } else {
        PutKeepsDistinct(a[1..], k, v);
        var tail := Put(a[1..], k, v);
        assert r[1..] == tail;
        forall i, j | 0 <= i < j < |r| ensures r[i].key != r[j].key {
          if i == 0 {
            assert r[j] in tail;
          } else {
            assert r[i] == tail[i - 1] && r[j] == tail[j - 1];
          }
        }
      }
    }
  }

  /** Setting a key is the dictionary update. */
  lemma {:induction false} PutIsUpdate(a: Attrs, k: string, v: string)
    ensures ToMap(Put(a, k, v)) == ToMap(a)[k := v]
  {
    if a != [] {
      var m := ToMap(a[1..]);
      var r := Put(a, k, v);
      if a[0].key == k {
        assert r[0] == Entry(k, v) && r[1..] == a[1..];
        UpdateTwice(m, k, a[0].value, v);
      } else {
        PutIsUpdate(a[1..], k, v);
        assert r[0] == a[0] && r[1..] == Put(a[1..], k, v);
        UpdatesCommute(m, k, v, a[0].key, a[0].value);
      }
    }
  }

  lemma UpdateTwice(m: map<string, string>, x: string, v1: string, v2: string)
    ensures m[x := v1][x := v2] == m[x := v2]
  {
  }

  lemma UpdatesCommute(m: map<string, string>, x: string, vx: string, y: string, vy: string)
    requires x != y
    ensures m[x := vx][y := vy] == m[y := vy][x := vx]
  {
  }

  /** Setting a key overwrites it in place when present and appends it otherwise. */
  lemma {:induction false} PutKeepsOrder(a: Attrs, k: string, v: string)
    ensures Keys(Put(a, k, v)) == if k in Keys(a) then Keys(a) else Keys(a) + [k]
  {
    if a != [] {
      if a[0].key == k {
        assert Put(a, k, v)[1..] == a[1..];
      } else {
        PutKeepsOrder(a[1..], k, v);
        assert Put(a, k, v)[1..] == Put(a[1..], k, v);
        assert k in Keys(a) <==> k in Keys(a[1..]);
      }
    }
  }

  /** Deleting a key never creates a duplicate key. */
  lemma {:induction false} DeleteKeepsDistinct(a: Attrs, k: string)
    requires DistinctKeys(a)
    ensures DistinctKeys(Delete(a, k))
  {
    if a != [] {
      DistinctTail(a);
      DeleteKeepsDistinct(a[1..], k);
      var tail := Delete(a[1..], k);
      if a[0].key != k {
        var r := [a[0]] + tail;
        assert r == Delete(a, k);
        assert r[1..] == tail;
        forall i, j | 0 <= i < j < |r| ensures r[i].key != r[j].key {
          if i == 0 {
            assert r[j] in tail;
          } else {
            assert r[i] == tail[i - 1] && r[j] == tail[j - 1];
          }
        }
      }
    }
  }

  lemma UpdateThenRemove(m: map<string, string>, x: string, v: string, y: string)
    requires x != y
    ensures m[x := v] - {y} == (m - {y})[x := v]
  {
    var l := m[x := v] - {y};
    var r := (m - {y})[x := v];
    assert l.Keys == r.Keys;
    forall z | z in l ensures l[z] == r[z] {
    }
  }

  /** Deleting a key is the dictionary removal. */
  lemma {:induction false} DeleteIsRemoval(a: Attrs, k: string)
    ensures ToMap(Delete(a, k)) == ToMap(a) - {k}
  {
    if a != [] {
      DeleteIsRemoval(a[1..], k);
      if a[0].key == k {
        DeleteDropsHead(a, k);
      } else {
        DeleteKeepsHead(a, k);
      }
    }
  }

  /** The step of `DeleteIsRemoval` where the first entry has the deleted key. */
  lemma DeleteDropsHead(a: Attrs, k: string)
    requires a != [] && a[0].key == k
    requires ToMap(Delete(a[1..], k)) == ToMap(a[1..]) - {k}
    ensures ToMap(Delete(a, k)) == ToMap(a) - {k}
  {
    var m := ToMap(a[1..]);
    assert Delete(a, k) == Delete(a[1..], k);
    assert m[k := a[0].value] - {k} == m - {k};
  }

  /** The step of `DeleteIsRemoval` where the first entry stays. */
  lemma DeleteKeepsHead(a: Attrs, k: string)
    requires a != [] && a[0].key != k
    requires ToMap(Delete(a[1..], k)) == ToMap(a[1..]) - {k}
    ensures ToMap(Delete(a, k)) == ToMap(a) - {k}
  {
    var m := ToMap(a[1..]);
    var tail := Delete(a[1..], k);
    var r := [a[0]] + tail;
    assert Delete(a, k) == r && r[0] == a[0] && r[1..] == tail;
    assert ToMap(r) == (m - {k})[a[0].key := a[0].value];
    UpdateThenRemove(m, a[0].key, a[0].value, k);
  }

  /** Deleting works entry by entry, so the remaining entries keep their order. */
  lemma {:induction false} DeleteKeepsOrder(a: Attrs, b: Attrs, k: string)
    ensures Delete(a + b, k) == Delete(a, k) + Delete(b, k)
  {
    if a == [] {
      assert a + b == b;
    } else {
      assert (a + b)[0] == a[0];
      assert (a + b)[1..] == a[1..] + b;
      DeleteKeepsOrder(a[1..], b, k);
    }
  }
}
