/** JSON trees as the dt2js conversion passes see them, with the few
    operations on objects that the passes use. */
module Json {

  datatype Option<+T> = None | Some(value: T)

  datatype Result<+R, +E> = Success(value: R) | Failure(error: E)

  /** A JSON value. `Undefined` stands for JavaScript's `undefined`; numbers
      are integers. An object is an association list in insertion order,
      because the passes care about key order (`examples` values are taken
      in key order). */
  datatype Json =
    | Undefined
    | Null
    | Bool(b: bool)
    | Num(n: int)
    | Str(s: string)
    | Arr(items: seq<Json>)
    | Obj(members: seq<(string, Json)>)

  type Members = seq<(string, Json)>

  /** The keys of an object, in order. */
  function Keys(ms: Members): seq<string> {
    seq(|ms|, i requires 0 <= i < |ms| => ms[i].0)
  }

  /** The values of an object, in key order (JavaScript's `Object.values`). */
  function Values(ms: Members): seq<Json> {
    seq(|ms|, i requires 0 <= i < |ms| => ms[i].1)
  }

  function KeySet(ms: Members): set<string> {
    set i | 0 <= i < |ms| :: ms[i].0
  }

  lemma KeySetCons(p: (string, Json), t: Members)
    ensures KeySet([p] + t) == {p.0} + KeySet(t)
    ensures DistinctKeys([p] + t) <==> p.0 !in KeySet(t) && DistinctKeys(t)
  {
    var ms := [p] + t;
    forall x | x in KeySet(ms) ensures x in {p.0} + KeySet(t) {
      var i :| 0 <= i < |ms| && ms[i].0 == x;
      if i > 0 { assert t[i - 1].0 == x; }
    }
    forall x | x in KeySet(t) ensures x in KeySet(ms) {
      var i :| 0 <= i < |t| && t[i].0 == x;
      assert ms[i + 1].0 == x;
    }
    assert ms[0].0 == p.0;
    if DistinctKeys(ms) {
      forall i | 0 <= i < |t| ensures t[i].0 != p.0 {
        assert ms[i + 1].0 == t[i].0;
      }
      forall i, j | 0 <= i < j < |t| ensures t[i].0 != t[j].0 {
        assert ms[i + 1].0 != ms[j + 1].0;
      }
    }
    if p.0 !in KeySet(t) && DistinctKeys(t) {
      forall i, j | 0 <= i < j < |ms| ensures ms[i].0 != ms[j].0 {
        assert ms[j].0 == t[j - 1].0;
        if i > 0 { assert ms[i].0 == t[i - 1].0; }
      }
    }
  }

  /** A JavaScript object never holds a key twice. */
  predicate DistinctKeys(ms: Members) {
    forall i, j :: 0 <= i < j < |ms| ==> ms[i].0 != ms[j].0
  }

  /** Every object in the tree has distinct keys. */
  predicate WellFormed(j: Json) {
    match j
    case Arr(items) => forall v :: v in items ==> WellFormed(v)
    case Obj(ms) => DistinctKeys(ms) && forall p :: p in ms ==> WellFormed(p.1)
    case _ => true
  }

  /** An object is well formed when its keys are distinct and the value
      found under each of them is well formed. */
  lemma WellFormedByLookup(ms: Members)
    requires DistinctKeys(ms)
    requires forall k :: k in KeySet(ms) ==> WellFormed(Lookup(ms, k).value)
    ensures WellFormed(Obj(ms))
  {
    forall p | p in ms ensures WellFormed(p.1) {
      var i :| 0 <= i < |ms| && ms[i] == p;
      assert p.0 in KeySet(ms);
      PairLookup(ms, p.0, p.1);
    }
  }

  /** Storing a well-formed value keeps an object well formed. */
  lemma SetWellFormed(ms: Members, k: string, v: Json)
    requires WellFormed(Obj(ms)) && WellFormed(v)
    ensures WellFormed(Obj(Set(ms, k, v)))
  {
    var r := Set(ms, k, v);
    forall k' | k' in KeySet(r) ensures WellFormed(Lookup(r, k').value) {
      if k' != k {
        assert Lookup(r, k') == Lookup(ms, k');
      }
    }
    WellFormedByLookup(r);
  }

  /** `o[k]`: the value stored under `k`, or `None` when `k` is absent. */
  function Lookup(ms: Members, k: string): (r: Option<Json>)
    ensures r.None? <==> k !in KeySet(ms)
    ensures r.Some? ==> (k, r.value) in ms
    ensures DistinctKeys(ms) ==> forall i :: 0 <= i < |ms| && ms[i].0 == k ==> r == Some(ms[i].1)
  {
    if ms == [] then None
    else if ms[0].0 == k then Some(ms[0].1)
    else
      KeySetCons(ms[0], ms[1..]);
      assert ms == [ms[0]] + ms[1..];
      Lookup(ms[1..], k)
  }

  lemma LookupCons(p: (string, Json), t: Members, k: string)
    ensures Lookup([p] + t, k) == if p.0 == k then Some(p.1) else Lookup(t, k)
  {
    assert ([p] + t)[1..] == t;
  }

  /** In an object with distinct keys, a pair it holds is what lookup finds. */
  lemma PairLookup(ms: Members, k: string, v: Json)
    ensures DistinctKeys(ms) && (k, v) in ms ==> Lookup(ms, k) == Some(v)
  {
    if DistinctKeys(ms) && (k, v) in ms {
      var i :| 0 <= i < |ms| && ms[i] == (k, v);
      assert ms[i].0 == k;
    }
  }

  /** The position of the first entry under `k`. */
  function IndexOf(ms: Members, k: string): (i: nat)
    requires k in KeySet(ms)
    ensures i < |ms| && ms[i].0 == k && Lookup(ms, k) == Some(ms[i].1)
    ensures forall j :: 0 <= j < i ==> ms[j].0 != k
  {
    KeySetCons(ms[0], ms[1..]);
    assert ms == [ms[0]] + ms[1..];
    if ms[0].0 == k then 0 else 1 + IndexOf(ms[1..], k)
  }

  /** Two objects whose keys agree position by position find a key at the
      same position. */
  lemma {:induction false} SameKeysIndexOf(a: Members, b: Members, k: string)
    requires |a| == |b| && forall i :: 0 <= i < |a| ==> a[i].0 == b[i].0
    ensures KeySet(a) == KeySet(b)
    ensures k in KeySet(a) ==> IndexOf(a, k) == IndexOf(b, k)
  {
    if a != [] {
      KeySetCons(a[0], a[1..]);
      KeySetCons(b[0], b[1..]);
      assert a == [a[0]] + a[1..];
      assert b == [b[0]] + b[1..];
      SameKeysIndexOf(a[1..], b[1..], k);
    }
  }

  /** `o[k] = v`: an existing key keeps its position, a new key is appended. */
  function Set(ms: Members, k: string, v: Json): (r: Members)
    ensures Lookup(r, k) == Some(v)
    ensures forall k' :: k' != k ==> Lookup(r, k') == Lookup(ms, k')
    ensures KeySet(r) == KeySet(ms) + {k}
    ensures DistinctKeys(ms) ==> DistinctKeys(r)
  {
    if ms == [] then [(k, v)]
    else
      KeySetCons(ms[0], ms[1..]);
      KeySetCons((k, v), ms[1..]);
      assert ms == [ms[0]] + ms[1..];
      if ms[0].0 == k then
        assert forall k' :: Lookup([(k, v)] + ms[1..], k') == if k' == k then Some(v) else Lookup(ms[1..], k') by {
          forall k' { LookupCons((k, v), ms[1..], k'); }
        }
        [(k, v)] + ms[1..]
      else
        var t := Set(ms[1..], k, v);
        KeySetCons(ms[0], t);
        assert forall k' :: Lookup([ms[0]] + t, k') == if k' == ms[0].0 then Some(ms[0].1) else Lookup(t, k') by {
          forall k' { LookupCons(ms[0], t, k'); }
        }
        [ms[0]] + t
  }

  /** `o[k] = v` on an object with first entry `p`. */
  lemma SetCons(p: (string, Json), t: Members, k: string, v: Json)
    ensures Set([p] + t, k, v) == if p.0 == k then [(k, v)] + t else [p] + Set(t, k, v)
  {
    assert ([p] + t)[0] == p && ([p] + t)[1..] == t;
  }

  lemma KeysCons(p: (string, Json), t: Members)
    ensures Keys([p] + t) == [p.0] + Keys(t)
  {
  }

  /** Where `Set` puts the entry: over an existing key, or at the end. */
  lemma SetShape(ms: Members, k: string, v: Json)
    ensures forall p :: p in Set(ms, k, v) ==> p in ms || p == (k, v)
    ensures k in KeySet(ms) ==> Keys(Set(ms, k, v)) == Keys(ms)
    ensures k !in KeySet(ms) ==> Set(ms, k, v) == ms + [(k, v)]
  {
    SetMembers(ms, k, v);
    SetKeys(ms, k, v);
    if k !in KeySet(ms) {
      SetAppends(ms, k, v);
    }
  }

  lemma {:induction false} SetMembers(ms: Members, k: string, v: Json)
    ensures forall p :: p in Set(ms, k, v) ==> p in ms || p == (k, v)
  {
    if ms != [] {
      var t := ms[1..];
      assert ms == [ms[0]] + t;
      SetMembers(t, k, v);
    }
  }

  lemma {:induction false} SetKeys(ms: Members, k: string, v: Json)
    ensures k in KeySet(ms) ==> Keys(Set(ms, k, v)) == Keys(ms)
  {
    if ms != [] {
      var t := ms[1..];
      KeySetCons(ms[0], t);
      assert ms == [ms[0]] + t;
      SetKeys(t, k, v);
      if ms[0].0 == k {
        KeysCons((k, v), t);
        KeysCons(ms[0], t);
      } else {
        KeysCons(ms[0], Set(t, k, v));
        KeysCons(ms[0], t);
      }
    }
  }

  lemma {:induction false} SetAppends(ms: Members, k: string, v: Json)
    requires k !in KeySet(ms)
    ensures Set(ms, k, v) == ms + [(k, v)]
  {
    if ms != [] {
      var t := ms[1..];
      assert ms[0].0 != k && k !in KeySet(t) by {
        assert ms == [ms[0]] + t;
        KeySetCons(ms[0], t);
      }
      assert Set(ms, k, v) == [ms[0]] + Set(t, k, v) by {
        assert ms == [ms[0]] + t;
        SetCons(ms[0], t, k, v);
      }
      SetAppends(t, k, v);
      ConsAppend(ms, (k, v));
    }
  }

  lemma ConsAppend<T>(s: seq<T>, x: T)
    requires s != []
    ensures s + [x] == [s[0]] + (s[1..] + [x])
  {
    assert s == [s[0]] + s[1..];
  }

  /** `delete o[k]`: every entry under `k` goes, the others keep their order. */
  function Delete(ms: Members, k: string): (r: Members)
    ensures Lookup(r, k) == None
    ensures forall k' :: k' != k ==> Lookup(r, k') == Lookup(ms, k')
    ensures KeySet(r) == KeySet(ms) - {k}
    ensures forall p :: p in r ==> p in ms
    ensures k !in KeySet(ms) ==> r == ms
    ensures DistinctKeys(ms) ==> DistinctKeys(r)
  {
    if ms == [] then []
    else
      KeySetCons(ms[0], ms[1..]);
      assert ms == [ms[0]] + ms[1..];
      if ms[0].0 == k then Delete(ms[1..], k)
      else
        var t := Delete(ms[1..], k);
        KeySetCons(ms[0], t);
        [ms[0]] + t
  }

  /** Deleting passes over a first entry under another key. */
  lemma DeleteCons(p: (string, Json), t: Members, k: string)
    ensures Delete([p] + t, k) == if p.0 == k then Delete(t, k) else [p] + Delete(t, k)
  {
    assert ([p] + t)[1..] == t;
  }

  /** Deleting the middle one of three entries. */
  lemma DeleteMiddle(a: (string, Json), b: (string, Json), c: (string, Json), k: string)
    requires a.0 != k && b.0 == k && c.0 != k
    ensures Delete([a, b, c], k) == [a, c]
  {
    DeleteCons(a, [b, c], k);
    DeleteCons(b, [c], k);
    DeleteCons(c, [], k);
  }

  /** `o[to] = v; delete o[from]`, JavaScript's way of renaming a key: the
      value lands under `to` (at the end when `to` is new) and `from` goes. */
  function Rekey(ms: Members, from: string, to: string, v: Json): (r: Members)
    requires from != to
    ensures Lookup(r, to) == Some(v)
    ensures Lookup(r, from) == None
    ensures forall k :: k != from && k != to ==> Lookup(r, k) == Lookup(ms, k)
    ensures KeySet(r) == KeySet(ms) - {from} + {to}
    ensures DistinctKeys(ms) ==> DistinctKeys(r)
  {
    Delete(Set(ms, to, v), from)
  }

  /** Deleting from an object with one more entry at the end. */
  lemma {:induction false} DeleteAppend(ms: Members, p: (string, Json), k: string)
    requires p.0 != k
    ensures Delete(ms + [p], k) == Delete(ms, k) + [p]
  {
    if ms != [] {
      assert ms + [p] == [ms[0]] + (ms[1..] + [p]);
      assert ms == [ms[0]] + ms[1..];
      DeleteCons(ms[0], ms[1..] + [p], k);
      DeleteCons(ms[0], ms[1..], k);
      DeleteAppend(ms[1..], p, k);
    } else {
      DeleteCons(p, [], k);
    }
  }

  /** Renaming to a new key removes the old entry and appends the new one,
      the other entries keeping their order. */
  lemma RekeyAppends(ms: Members, from: string, to: string, v: Json)
    requires from != to && to !in KeySet(ms)
    ensures Rekey(ms, from, to, v) == Delete(ms, from) + [(to, v)]
  {
    SetAppends(ms, to, v);
    DeleteAppend(ms, (to, v), from);
  }
}
