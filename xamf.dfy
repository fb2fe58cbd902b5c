/** `removeXAmfProperties`: the RAML parser marks its vendor keywords with
    the prefix `x-amf-`; this pass rebuilds every object with that prefix
    taken off its keys. Like the other passes it walks object values and
    leaves arrays as they are. */
module XAmf {
  import opened Json

  const Prefix := "x-amf-"

  /** A key without its vendor prefix; other keys are kept. */
  function StripPrefix(k: string): (r: string)
    ensures Prefix <= k ==> k == Prefix + r
    ensures !(Prefix <= k) ==> r == k
  {
    if Prefix <= k then k[|Prefix|..] else k
  }

  /** The value last stored under `k` in a run of assignments. */
  function LastLookup(ps: Members, k: string): (r: Option<Json>)
    ensures r.None? <==> k !in KeySet(ps)
  {
    if ps == [] then None
    else
      KeySetCons(ps[0], ps[1..]);
      assert ps == [ps[0]] + ps[1..];
      var later := LastLookup(ps[1..], k);
      if later.Some? then later
      else if ps[0].0 == k then Some(ps[0].1)
      else None
  }

  /** Starting from `acc`, performs `o[k] = v` for every pair of `ps` in
      order: a repeated key keeps its first position and its last value
      (`AssembleLookup`). */
  function Assemble(acc: Members, ps: Members): (r: Members)
    ensures DistinctKeys(acc) ==> DistinctKeys(r)
    ensures KeySet(r) == KeySet(acc) + KeySet(ps)
    decreases |ps|
  {
    if ps == [] then acc
    else
      KeySetCons(ps[0], ps[1..]);
      assert ps == [ps[0]] + ps[1..];
      Assemble(Set(acc, ps[0].0, ps[0].1), ps[1..])
  }

  /** Each key ends up holding the value last assigned to it, or its value in
      `acc` when `ps` never assigns it. */
  lemma {:induction false} AssembleLookup(acc: Members, ps: Members, k: string)
    ensures Lookup(Assemble(acc, ps), k) == if k in KeySet(ps) then LastLookup(ps, k) else Lookup(acc, k)
    decreases |ps|
  {
    if ps != [] {
      var p, rest := ps[0], ps[1..];
      KeySetCons(p, rest);
      assert ps == [p] + rest;
      AssembleLookup(Set(acc, p.0, p.1), rest, k);
      assert LastLookup(ps, k) == if k in KeySet(rest) then LastLookup(rest, k) else if k == p.0 then Some(p.1) else None;
    }
  }

  /** When no key repeats, assembling is concatenation. */
  lemma {:induction false} AssembleDistinct(acc: Members, ps: Members)
    requires DistinctKeys(acc + ps)
    ensures Assemble(acc, ps) == acc + ps
    decreases |ps|
  {
    if ps != [] {
      var p := ps[0];
      assert acc + ps == (acc + [p]) + ps[1..];
      assert p.0 !in KeySet(acc) by {
        forall i | 0 <= i < |acc| ensures acc[i].0 != p.0 {
          assert (acc + ps)[i] == acc[i] && (acc + ps)[|acc|] == p;
        }
      }
      SetShape(acc, p.0, p.1);
      AssembleDistinct(acc + [p], ps[1..]);
    }
  }

  /** `removeXAmfProperties(data)`: non-objects are returned as they are;
      an object is rebuilt key by key with stripped keys and cleaned values. */
  function RemoveXAmfProperties(j: Json): (r: Json)
    ensures !j.Obj? ==> r == j
    ensures j.Obj? ==> r.Obj? && DistinctKeys(r.members)
    decreases j, 1
  {
    match j
    case Obj(ms) => Obj(Assemble([], Renamed(ms)))
    case _ => j
  }

  /** The pairs the pass assigns, in order: stripped key, cleaned value. */
  function Renamed(ms: Members): (r: Members)
    decreases Obj(ms), 0
  {
    seq(|ms|, i requires 0 <= i < |ms| => (StripPrefix(ms[i].0), RemoveXAmfProperties(ms[i].1)))
  }

  lemma RemoveObj(ms: Members)
    ensures RemoveXAmfProperties(Obj(ms)) == Obj(Assemble([], Renamed(ms)))
  {
    assert Renamed(ms) == seq(|ms|, i requires 0 <= i < |ms| => (StripPrefix(ms[i].0), RemoveXAmfProperties(ms[i].1)));
  }

  /** The keys of the result are the stripped keys of the input, and each
      holds the cleaned value of the last input key that strips to it. */
  lemma RemoveKeysAndValues(ms: Members)
    ensures
      var r := RemoveXAmfProperties(Obj(ms)).members;
      && KeySet(r) == (set p | p in ms :: StripPrefix(p.0))
      && forall k :: Lookup(r, k) == LastLookup(Renamed(ms), k)
  {
    RemoveObj(ms);
    var rn := Renamed(ms);
    forall x | x in KeySet(rn) ensures x in (set p | p in ms :: StripPrefix(p.0)) {
      var i :| 0 <= i < |rn| && rn[i].0 == x;
      assert ms[i] in ms;
    }
    forall x | x in (set p | p in ms :: StripPrefix(p.0)) ensures x in KeySet(rn) {
      var p :| p in ms && StripPrefix(p.0) == x;
      var i :| 0 <= i < |ms| && ms[i] == p;
      assert rn[i].0 == x;
    }
    forall k ensures Lookup(Assemble([], rn), k) == LastLookup(rn, k) {
      AssembleLookup([], rn, k);
    }
  }

  /** When no two keys strip to the same name, every `x-amf-K` becomes `K`
      and every other key stays, each at its position with its cleaned value. */
  lemma RemoveRenames(ms: Members)
    requires DistinctKeys(Renamed(ms))
    ensures RemoveXAmfProperties(Obj(ms)) == Obj(Renamed(ms))
  {
    RemoveObj(ms);
    AssembleDistinct([], Renamed(ms));
    assert [] + Renamed(ms) == Renamed(ms);
  }

  /** No object in the tree (outside arrays) has a vendor key. */
  predicate NoXAmf(j: Json) {
    match j
    case Obj(ms) => DistinctKeys(ms) && forall p :: p in ms ==> !(Prefix <= p.0) && NoXAmf(p.1)
    case _ => true
  }

  /** A tree with no vendor key is returned unchanged. */
  lemma {:induction false} RemoveKeepsClean(j: Json)
    requires NoXAmf(j)
    ensures RemoveXAmfProperties(j) == j
    decreases j
  {
    if j.Obj? {
      var ms := j.members;
      var rn := Renamed(ms);
      forall i | 0 <= i < |ms| ensures rn[i] == ms[i] {
        assert ms[i] in ms;
        RemoveKeepsClean(ms[i].1);
      }
      assert rn == ms;
      RemoveRenames(ms);
    }
  }

  /** The pass keeps every object's keys distinct. */
  lemma {:induction false} RemovePreservesWellFormed(j: Json)
    requires WellFormed(j)
    ensures WellFormed(RemoveXAmfProperties(j))
    decreases j
  {
    if j.Obj? {
      var ms := j.members;
      var rn := Renamed(ms);
      RemoveObj(ms);
      var r := Assemble([], rn);
      forall p | p in r ensures WellFormed(p.1) {
        AssembleMembers([], rn, p);
        var i :| 0 <= i < |rn| && rn[i] == p;
        assert ms[i] in ms;
        RemovePreservesWellFormed(ms[i].1);
      }
    }
  }

  /** Every pair of an assembled object comes from `acc` or from `ps`. */
  lemma {:induction false} AssembleMembers(acc: Members, ps: Members, p: (string, Json))
    requires p in Assemble(acc, ps)
    ensures p in acc || p in ps
    decreases |ps|
  {
    if ps != [] {
      var q := ps[0];
      SetShape(acc, q.0, q.1);
      AssembleMembers(Set(acc, q.0, q.1), ps[1..], p);
      if p in ps[1..] { assert p in ps; }
    }
  }

  /** The unit-test case: `{name: "john", "x-amf-age": 123}` becomes
      `{name: "john", age: 123}`. */
  lemma RemoveNameAge()
    ensures RemoveXAmfProperties(Obj([("name", Str("john")), ("x-amf-age", Num(123))])) ==
      Obj([("name", Str("john")), ("age", Num(123))])
  {
    var ms := [("name", Str("john")), ("x-amf-age", Num(123))];
    var expected := [("name", Str("john")), ("age", Num(123))];
    assert Renamed(ms) == expected by {
      assert StripPrefix("x-amf-age") == "age";
      assert !(Prefix <= "name");
    }
    assert DistinctKeys(expected);
    RemoveRenames(ms);
  }
}
