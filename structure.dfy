/** `fixStructureInconsistencies`: RAML lets `examples` be a map from
    example names to examples, JSON Schema wants an array; an object-valued
    `examples` is replaced by the array of its values in key order. The pass
    walks object values and leaves arrays as they are. */
module Structure {
  import opened Json

  /** The new value of one member: an object under `examples` becomes the
      array of its values; anything else is fixed recursively. */
  function FixMember(k: string, v: Json): Json
    decreases v, 1
  {
    if k == "examples" && v.Obj? then Arr(Values(v.members))
    else FixStructureInconsistencies(v)
  }

  /** `fixStructureInconsistencies(data)`: non-objects are returned as they
      are; an object keeps its keys in place and has each value fixed. */
  function FixStructureInconsistencies(j: Json): (r: Json)
    ensures !j.Obj? ==> r == j
    ensures j.Obj? ==> r.Obj? && |r.members| == |j.members|
    ensures j.Obj? ==> forall i :: 0 <= i < |j.members| ==> r.members[i].0 == j.members[i].0
    decreases j, 0
  {
    match j
    case Obj(ms) => Obj(seq(|ms|, i requires 0 <= i < |ms| => (ms[i].0, FixMember(ms[i].0, ms[i].1))))
    case _ => j
  }

  lemma FixObj(ms: Members)
    ensures FixStructureInconsistencies(Obj(ms)).members ==
      seq(|ms|, i requires 0 <= i < |ms| => (ms[i].0, FixMember(ms[i].0, ms[i].1)))
  {
  }

  /** The pass keeps every object's keys distinct. */
  lemma {:induction false} FixPreservesWellFormed(j: Json)
    requires WellFormed(j)
    ensures WellFormed(FixStructureInconsistencies(j))
    decreases j, 0
  {
    if j.Obj? {
      var ms := j.members;
      var r := FixStructureInconsistencies(j).members;
      FixObj(ms);
      FixLookup(ms, "examples");
      forall p | p in r ensures WellFormed(p.1) {
        var i :| 0 <= i < |r| && r[i] == p;
        assert ms[i] in ms;
        FixMemberWellFormed(ms[i].0, ms[i].1);
      }
    }
  }

  lemma {:induction false} FixMemberWellFormed(k: string, v: Json)
    requires WellFormed(v)
    ensures WellFormed(FixMember(k, v))
    decreases v, 1
  {
    if k == "examples" && v.Obj? {
      var e := v.members;
      forall x | x in Values(e) ensures WellFormed(x) {
        var t :| 0 <= t < |e| && e[t].1 == x;
        assert e[t] in e;
      }
    } else {
      FixPreservesWellFormed(v);
    }
  }

  /** No `examples` anywhere in the tree (outside arrays) holds an object. */
  predicate ExamplesAreArrays(j: Json) {
    match j
    case Obj(ms) => forall p :: p in ms ==> !(p.0 == "examples" && p.1.Obj?) && ExamplesAreArrays(p.1)
    case _ => true
  }

  /** Looking a key up in a fixed object finds its fixed value. */
  lemma FixLookup(ms: Members, k: string)
    ensures
      var r := FixStructureInconsistencies(Obj(ms)).members;
      && KeySet(r) == KeySet(ms)
      && (DistinctKeys(ms) ==> DistinctKeys(r))
      && Lookup(r, k) == if k in KeySet(ms) then Some(FixMember(k, Lookup(ms, k).value)) else None
  {
    var r := FixStructureInconsistencies(Obj(ms)).members;
    FixObj(ms);
    SameKeysIndexOf(ms, r, k);
    if k in KeySet(ms) {
      var i := IndexOf(ms, k);
      assert i == IndexOf(r, k);
    }
    if DistinctKeys(ms) {
      forall i, j | 0 <= i < j < |r| ensures r[i].0 != r[j].0 {
        assert ms[i].0 != ms[j].0;
      }
    }
  }

  /** An object-valued `examples` becomes the array of its values, in key
      order; an array-valued one is kept; every other key keeps its fixed
      value. */
  lemma FixExamples(ms: Members)
    requires DistinctKeys(ms)
    ensures
      var r := FixStructureInconsistencies(Obj(ms)).members;
      && (forall e :: Lookup(ms, "examples") == Some(Obj(e)) ==>
            Lookup(r, "examples") == Some(Arr(Values(e))))
      && (forall a :: Lookup(ms, "examples") == Some(Arr(a)) ==>
            Lookup(r, "examples") == Some(Arr(a)))
      && forall k :: k != "examples" && k in KeySet(ms) ==>
            Lookup(r, k) == Some(FixStructureInconsistencies(Lookup(ms, k).value))
  {
    FixLookup(ms, "examples");
    forall k | k != "examples" && k in KeySet(ms) {
      FixLookup(ms, k);
    }
  }

  /** `Object.values`: the i-th array entry is what looking up the i-th key
      of the `examples` object gives. */
  lemma ValuesInKeyOrder(e: Members)
    requires DistinctKeys(e)
    ensures |Values(e)| == |Keys(e)| == |e|
    ensures forall i :: 0 <= i < |e| ==> Lookup(e, Keys(e)[i]) == Some(Values(e)[i])
  {
    forall i | 0 <= i < |e| ensures Lookup(e, Keys(e)[i]) == Some(Values(e)[i]) {
      assert Keys(e)[i] == e[i].0 && Values(e)[i] == e[i].1;
    }
  }

  /** After the pass every `examples` is an array (or not an object). */
  lemma {:induction false} FixLeavesArrays(j: Json)
    ensures ExamplesAreArrays(FixStructureInconsistencies(j))
    decreases j
  {
    if j.Obj? {
      var ms := j.members;
      var r := FixStructureInconsistencies(j).members;
      FixObj(ms);
      forall p | p in r ensures !(p.0 == "examples" && p.1.Obj?) && ExamplesAreArrays(p.1) {
        var i :| 0 <= i < |r| && r[i] == p;
        if !(ms[i].0 == "examples" && ms[i].1.Obj?) {
          FixLeavesArrays(ms[i].1);
        }
      }
    }
  }

  /** The pass leaves a tree unchanged exactly when every `examples` in it
      already is an array. */
  lemma {:induction false} FixUnchangedIff(j: Json)
    ensures FixStructureInconsistencies(j) == j <==> ExamplesAreArrays(j)
    decreases j
  {
    if j.Obj? {
      var ms := j.members;
      var r := FixStructureInconsistencies(j).members;
      FixObj(ms);
      if r == ms {
        forall p | p in ms ensures !(p.0 == "examples" && p.1.Obj?) && ExamplesAreArrays(p.1) {
          var i :| 0 <= i < |ms| && ms[i] == p;
          assert r[i] == ms[i];
          FixUnchangedIff(ms[i].1);
        }
      }
      if ExamplesAreArrays(j) {
        forall i | 0 <= i < |ms| ensures r[i] == ms[i] {
          assert ms[i] in ms;
          FixUnchangedIff(ms[i].1);
        }
        assert r == ms;
      }
    }
  }

  /** Running the pass twice is running it once. */
  lemma FixIdempotent(j: Json)
    ensures FixStructureInconsistencies(FixStructureInconsistencies(j)) == FixStructureInconsistencies(j)
  {
    FixLeavesArrays(j);
    FixUnchangedIff(FixStructureInconsistencies(j));
  }

  /** The unit-test cases: `{foo: 1}` is kept, object-valued examples become
      `["CatOne", "DogOne"]`, array-valued examples are kept. */
  lemma FixStructureCases()
    ensures FixStructureInconsistencies(Obj([("foo", Num(1))])) == Obj([("foo", Num(1))])
    ensures FixStructureInconsistencies(
              Obj([("examples", Obj([("catone", Str("CatOne")), ("dogone", Str("DogOne"))]))])) ==
            Obj([("examples", Arr([Str("CatOne"), Str("DogOne")]))])
    ensures FixStructureInconsistencies(Obj([("examples", Arr([Str("CatOne"), Str("DogOne")]))])) ==
            Obj([("examples", Arr([Str("CatOne"), Str("DogOne")]))])
  {
    var e := [("catone", Str("CatOne")), ("dogone", Str("DogOne"))];
    assert Values(e) == [Str("CatOne"), Str("DogOne")];
  }
}
