/** `fixFileTypeProperties`: RAML's `type: file` has no JSON Schema
    counterpart, so every object holding it becomes a binary string, and the
    media types RAML lists under `x-amf-fileTypes` move to `media.anyOf`.
    The pass walks the values of objects; arrays are left as they are. */
module FileType {
  import opened Json

  const FileTypesKey := "x-amf-fileTypes"

  /** An object carrying the pair `type: "file"`. */
  predicate IsFileNode(ms: Members)
    ensures IsFileNode(ms) ==> ("type", Str("file")) in ms
    ensures DistinctKeys(ms) && ("type", Str("file")) in ms ==> IsFileNode(ms)
  {
    PairLookup(ms, "type", Str("file"));
    Lookup(ms, "type") == Some(Str("file"))
  }

  /** The entries of `x-amf-fileTypes`; anything but an array lists none. */
  function FileTypes(ms: Members): (r: seq<Json>)
    ensures forall types :: Lookup(ms, FileTypesKey) == Some(Arr(types)) ==> r == types
    ensures |r| > 0 ==> Lookup(ms, FileTypesKey) == Some(Arr(r))
  {
    match Lookup(ms, FileTypesKey)
    case Some(Arr(types)) => types
    case _ => []
  }

  /** The `media` object of a converted file node: always a binary
      encoding, and `anyOf` with one `{mediaType: m}` per listed file type,
      in order, only when there is at least one. */
  function Media(ms: Members): (r: Json)
    ensures r.Obj? && DistinctKeys(r.members)
    ensures KeySet(r.members) <= {"binaryEncoding", "anyOf"}
    ensures Lookup(r.members, "binaryEncoding") == Some(Str("binary"))
    ensures Lookup(r.members, "anyOf").Some? <==> |FileTypes(ms)| > 0
    ensures Lookup(r.members, "anyOf").Some? ==>
      var anyOf := Lookup(r.members, "anyOf").value;
      anyOf.Arr? && |anyOf.items| == |FileTypes(ms)| &&
      forall i :: 0 <= i < |anyOf.items| ==>
        anyOf.items[i] == Obj([("mediaType", FileTypes(ms)[i])])
  {
    var types := FileTypes(ms);
    var binary := [("binaryEncoding", Str("binary"))];
    if |types| == 0 then Obj(binary)
    else
      var anyOf := seq(|types|, i requires 0 <= i < |types| => Obj([("mediaType", types[i])]));
      var r := binary + [("anyOf", Arr(anyOf))];
      LookupCons(r[0], r[1..], "anyOf");
      KeySetCons(r[0], r[1..]);
      KeySetCons(r[1], []);
      assert r == [r[0]] + r[1..];
      Obj(r)
  }

  /** The rewrite of one object: a file node gets `type: "string"` in place,
      a fresh `media`, and loses `x-amf-fileTypes`; any other object is kept. */
  function FileNode(ms: Members): (r: Members)
    ensures !IsFileNode(ms) ==> r == ms
    ensures IsFileNode(ms) ==>
      && Lookup(r, "type") == Some(Str("string"))
      && Lookup(r, "media") == Some(Media(ms))
      && Lookup(r, FileTypesKey) == None
    ensures IsFileNode(ms) ==> forall k :: k !in {"type", "media", FileTypesKey} ==> Lookup(r, k) == Lookup(ms, k)
    ensures forall p :: p in r ==> p in ms || p == ("type", Str("string")) || p == ("media", Media(ms))
    ensures DistinctKeys(ms) ==> DistinctKeys(r)
  {
    if IsFileNode(ms) then
      var typed := Set(ms, "type", Str("string"));
      var withMedia := Set(typed, "media", Media(ms));
      SetShape(ms, "type", Str("string"));
      SetShape(typed, "media", Media(ms));
      Delete(withMedia, FileTypesKey)
    else ms
  }

  /** `fixFileTypeProperties(data)`: non-objects are returned as they are;
      an object has its values fixed and is then itself rewritten. */
  function FixFileTypeProperties(j: Json): (r: Json)
    ensures !j.Obj? ==> r == j
    ensures j.Obj? ==> r.Obj?
    decreases j, 1
  {
    match j
    case Obj(ms) => Obj(FileNode(FixedMembers(ms)))
    case _ => j
  }

  /** The members of an object with every value fixed, keys in place. */
  function FixedMembers(ms: Members): (r: Members)
    decreases Obj(ms), 0
  {
    seq(|ms|, i requires 0 <= i < |ms| => (ms[i].0, FixFileTypeProperties(ms[i].1)))
  }

  /** No object anywhere in the tree (outside arrays) is a file node. */
  predicate NoFileNode(j: Json) {
    match j
    case Obj(ms) => !IsFileNode(ms) && forall p :: p in ms ==> NoFileNode(p.1)
    case _ => true
  }

  /** Looking a key up after fixing the values is fixing the looked-up value. */
  lemma FixedLookup(ms: Members, k: string)
    ensures KeySet(FixedMembers(ms)) == KeySet(ms)
    ensures Lookup(FixedMembers(ms), k) ==
      if k in KeySet(ms) then Some(FixFileTypeProperties(Lookup(ms, k).value)) else None
  {
    var f := FixedMembers(ms);
    SameKeysIndexOf(ms, f, k);
    if k in KeySet(ms) {
      var i := IndexOf(ms, k);
      assert i == IndexOf(f, k);
    }
  }

  /** The fixed members of a file node still form a file node, with the
      same file types. */
  lemma FixedFileNode(ms: Members)
    ensures IsFileNode(FixedMembers(ms)) <==> IsFileNode(ms)
    ensures FileTypes(FixedMembers(ms)) == FileTypes(ms)
  {
    FixedLookup(ms, "type");
    FixedLookup(ms, FileTypesKey);
    if "type" in KeySet(ms) {
      var t := Lookup(ms, "type").value;
      assert FixFileTypeProperties(t) == Str("file") ==> t == Str("file");
    }
  }

  /** A `type: "file"` object becomes `type: "string"` with
      `media.binaryEncoding: "binary"`, its `x-amf-fileTypes` moves to
      `media.anyOf`, and every other key keeps its (fixed) value. */
  lemma FixFileNode(ms: Members)
    requires DistinctKeys(ms) && IsFileNode(ms)
    ensures FixFileTypeProperties(Obj(ms)).Obj?
    ensures
      var r := FixFileTypeProperties(Obj(ms)).members;
      && DistinctKeys(r)
      && Lookup(r, "type") == Some(Str("string"))
      && Lookup(r, "media") == Some(Media(ms))
      && Lookup(r, FileTypesKey) == None
      && forall k :: k !in {"type", "media", FileTypesKey} ==>
           Lookup(r, k) == if k in KeySet(ms) then Some(FixFileTypeProperties(Lookup(ms, k).value)) else None
  {
    var f := FixedMembers(ms);
    FixedFileNode(ms);
    assert Media(f) == Media(ms);
    forall i, j | 0 <= i < j < |f| ensures f[i].0 != f[j].0 {
      assert ms[i].0 != ms[j].0;
    }
    forall k | k !in {"type", "media", FileTypesKey} {
      FixedLookup(ms, k);
    }
  }

  /** After the pass no file node is left. */
  lemma {:induction false} FixLeavesNoFileNode(j: Json)
    ensures NoFileNode(FixFileTypeProperties(j))
    decreases j
  {
    if j.Obj? {
      var ms := j.members;
      var f := FixedMembers(ms);
      var r := FileNode(f);
      forall p | p in r ensures NoFileNode(p.1) {
        if p in f {
          var i :| 0 <= i < |f| && f[i] == p;
          FixLeavesNoFileNode(ms[i].1);
        } else if p == ("media", Media(f)) {
          assert Lookup(Media(f).members, "type") == None;
        }
      }
    }
  }

  /** The pass leaves a tree unchanged exactly when it holds no file node. */
  lemma {:induction false} FixUnchangedIff(j: Json)
    ensures FixFileTypeProperties(j) == j <==> NoFileNode(j)
    decreases j
  {
    if j.Obj? {
      var ms := j.members;
      var f := FixedMembers(ms);
      FixedFileNode(ms);
      if FixFileTypeProperties(j) == j {
        assert !IsFileNode(f);
        assert f == ms;
        forall p | p in ms ensures NoFileNode(p.1) {
          var i :| 0 <= i < |ms| && ms[i] == p;
          assert f[i] == ms[i];
          FixUnchangedIff(ms[i].1);
        }
      }
      if NoFileNode(j) {
        forall i | 0 <= i < |ms| ensures f[i] == ms[i] {
          assert ms[i] in ms;
          FixUnchangedIff(ms[i].1);
        }
        assert f == ms;
      }
    }
  }

  /** Running the pass twice is running it once. */
  lemma FixIdempotent(j: Json)
    ensures FixFileTypeProperties(FixFileTypeProperties(j)) == FixFileTypeProperties(j)
  {
    FixLeavesNoFileNode(j);
    FixUnchangedIff(FixFileTypeProperties(j));
  }

  /** The pass keeps every object's keys distinct. */
  lemma {:induction false} FixPreservesWellFormed(j: Json)
    requires WellFormed(j)
    ensures WellFormed(FixFileTypeProperties(j))
    decreases j
  {
    if j.Obj? {
      var ms := j.members;
      var f := FixedMembers(ms);
      forall i, k | 0 <= i < k < |f| ensures f[i].0 != f[k].0 {
        assert ms[i].0 != ms[k].0;
      }
      var r := FileNode(f);
      forall p | p in r ensures WellFormed(p.1) {
        if p in f {
          var i :| 0 <= i < |f| && f[i] == p;
          assert ms[i] in ms;
          FixPreservesWellFormed(ms[i].1);
        } else if p == ("media", Media(f)) {
          FixedFileNode(ms);
          MediaWellFormed(ms);
        }
      }
    }
  }

  lemma MediaWellFormed(ms: Members)
    requires DistinctKeys(ms) && forall p :: p in ms ==> WellFormed(p.1)
    ensures WellFormed(Media(ms))
  {
    var types := FileTypes(ms);
    if |types| > 0 {
      assert Lookup(ms, FileTypesKey) == Some(Arr(types));
      assert WellFormed(Arr(types));
    }
  }

  /** An object without a file type is kept (the unit test's `{foo: 1}`). */
  lemma FixKeepsPlainObject()
    ensures FixFileTypeProperties(Obj([("foo", Num(1))])) == Obj([("foo", Num(1))])
  {
    var j := Obj([("foo", Num(1))]);
    assert j.members[0] == ("foo", Num(1));
    FixUnchangedIff(j);
  }

  lemma FixObj(ms: Members)
    ensures FixFileTypeProperties(Obj(ms)) == Obj(FileNode(FixedMembers(ms)))
  {
    var f := FixedMembers(ms);
    var g := FixFileTypeProperties(Obj(ms)).members;
    assert FileNode(f) == g by {
      assert f == seq(|ms|, i requires 0 <= i < |ms| => (ms[i].0, FixFileTypeProperties(ms[i].1)));
    }
  }

  /** A file node's `type` becomes `string` in place and `media` is
      appended after its other members. */
  lemma FileNodeAppendsMedia(rest: Members)
    requires DistinctKeys(rest) && "type" !in KeySet(rest) && "media" !in KeySet(rest)
    ensures FileNode([("type", Str("file"))] + rest) ==
      Delete([("type", Str("string"))] + rest + [("media", Media([("type", Str("file"))] + rest))], FileTypesKey)
  {
    var ms := [("type", Str("file"))] + rest;
    KeySetCons(ms[0], rest);
    LookupCons(ms[0], rest, "type");
    assert IsFileNode(ms);
    var media := Media(ms);
    var typed := Set(ms, "type", Str("string"));
    assert typed == [("type", Str("string"))] + rest;
    KeySetCons(("type", Str("string")), rest);
    SetShape(typed, "media", media);
  }

  /** `{type: "file"}` keeps `type` first and gains `media`. */
  lemma FlatBareFileNode()
    ensures FileNode([("type", Str("file"))]) ==
      [("type", Str("string")), ("media", Media([("type", Str("file"))]))]
  {
    var ms := [("type", Str("file"))];
    assert ms == ms + [];
    FileNodeAppendsMedia([]);
    var withMedia := [("type", Str("string"))] + [] + [("media", Media(ms))];
    assert FileTypesKey !in KeySet(withMedia);
  }

  /** A file node with `x-amf-fileTypes` after its type, before that
      member is deleted. */
  lemma TypedFileNodeBeforeDelete(types: seq<Json>)
    ensures FileNode([("type", Str("file")), (FileTypesKey, Arr(types))]) ==
      Delete([("type", Str("string")), (FileTypesKey, Arr(types)),
              ("media", Media([("type", Str("file")), (FileTypesKey, Arr(types))]))], FileTypesKey)
  {
    var rest := [(FileTypesKey, Arr(types))];
    var ms := [("type", Str("file")), (FileTypesKey, Arr(types))];
    var spread := [("type", Str("string")), (FileTypesKey, Arr(types)), ("media", Media(ms))];
    assert ms == [("type", Str("file"))] + rest;
    assert spread == [("type", Str("string"))] + rest + [("media", Media(ms))];
    assert FileNode(ms) == Delete(spread, FileTypesKey) by {
      assert DistinctKeys(rest) && "type" !in KeySet(rest) && "media" !in KeySet(rest) by {
        KeySetCons(rest[0], []);
        TypeIsNotFileTypes();
        MediaIsNotFileTypes();
      }
      FileNodeAppendsMedia(rest);
    }
  }

  /** A file node with `x-amf-fileTypes` after its type loses that member
      and gains `media`. */
  lemma FlatTypedFileNode(types: seq<Json>)
    ensures FileNode([("type", Str("file")), (FileTypesKey, Arr(types))]) ==
      [("type", Str("string")), ("media", Media([("type", Str("file")), (FileTypesKey, Arr(types))]))]
  {
    TypedFileNodeBeforeDelete(types);
    TypeIsNotFileTypes();
    MediaIsNotFileTypes();
    var media := Media([("type", Str("file")), (FileTypesKey, Arr(types))]);
    DeleteMiddle(("type", Str("string")), (FileTypesKey, Arr(types)), ("media", media), FileTypesKey);
  }

  lemma TypeIsNotFileTypes()
    ensures "type" != FileTypesKey
  {
    assert "type"[0] != FileTypesKey[0];
  }

  lemma MediaIsNotFileTypes()
    ensures "media" != FileTypesKey
  {
    assert "media"[0] != FileTypesKey[0];
  }

  /** An object whose values are not objects is left as it is by fixing
      its values. */
  lemma FixedScalars(ms: Members)
    requires forall p :: p in ms ==> !p.1.Obj?
    ensures FixedMembers(ms) == ms
  {
    var f := FixedMembers(ms);
    forall i | 0 <= i < |ms| ensures f[i] == ms[i] {
      assert ms[i] in ms;
    }
  }

  /** `{type: "file"}` becomes a binary string without `anyOf`. */
  lemma FixBareFile()
    ensures FixFileTypeProperties(Obj([("type", Str("file"))])) ==
      Obj([("type", Str("string")), ("media", Obj([("binaryEncoding", Str("binary"))]))])
  {
    var ms := [("type", Str("file"))];
    assert Media(ms) == Obj([("binaryEncoding", Str("binary"))]) by {
      assert FileTypes(ms) == [];
    }
    assert FileNode(ms) == [("type", Str("string")), ("media", Media(ms))] by {
      FlatBareFileNode();
    }
    FixedScalars(ms);
    FixObj(ms);
  }

  /** An empty `x-amf-fileTypes` adds no `anyOf` and is dropped. */
  lemma FixEmptyFileTypes()
    ensures FixFileTypeProperties(Obj([("type", Str("file")), (FileTypesKey, Arr([]))])) ==
      Obj([("type", Str("string")), ("media", Obj([("binaryEncoding", Str("binary"))]))])
  {
    var ms := [("type", Str("file")), (FileTypesKey, Arr([]))];
    var media := Obj([("binaryEncoding", Str("binary"))]);
    assert Media(ms) == media by {
      LookupCons(ms[0], ms[1..], FileTypesKey);
      assert FileTypes(ms) == [];
    }
    assert FileNode(ms) == [("type", Str("string")), ("media", media)] by {
      FlatTypedFileNode([]);
    }
    FixedScalars(ms);
    FixObj(ms);
  }

  /** Two file types become two `anyOf` entries, in order. */
  lemma FixTwoFileTypes()
    ensures FixFileTypeProperties(Obj([("type", Str("file")), (FileTypesKey, Arr([Str("image/png"), Str("image/jpg")]))])) ==
      Obj([("type", Str("string")),
           ("media", Obj([("binaryEncoding", Str("binary")),
                          ("anyOf", Arr([Obj([("mediaType", Str("image/png"))]),
                                         Obj([("mediaType", Str("image/jpg"))])]))]))])
  {
    var types := [Str("image/png"), Str("image/jpg")];
    var ms := [("type", Str("file")), (FileTypesKey, Arr(types))];
    var media := Obj([("binaryEncoding", Str("binary")),
                      ("anyOf", Arr([Obj([("mediaType", Str("image/png"))]),
                                     Obj([("mediaType", Str("image/jpg"))])]))]);
    FixedScalars(ms);
    assert Media(ms) == media by {
      LookupCons(ms[0], ms[1..], FileTypesKey);
      assert FileTypes(ms) == types;
      var anyOf := seq(|types|, i requires 0 <= i < |types| => Obj([("mediaType", types[i])]));
      assert anyOf == [Obj([("mediaType", Str("image/png"))]), Obj([("mediaType", Str("image/jpg"))])];
    }
    assert FileNode(ms) == [("type", Str("string")), ("media", media)] by {
      FlatTypedFileNode(types);
    }
    FixObj(ms);
  }
}
