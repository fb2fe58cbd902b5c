/** `migrateDraft`: the schema produced by the parser is shaped for JSON
    Schema draft-04; for draft "06" or "07" it is rewritten: `id` becomes
    `$id` (section 9.2 of draft-wright-json-schema-01), `$schema` names the
    target meta-schema, and a one-element `enum` next to a `type` becomes
    `const` (section 6.24 of draft-wright-json-schema-validation-01). */
module DraftMigration {
  import opened Json

  const Draft04Uri := "http://json-schema.org/draft-04/schema#"
  const Draft06Uri := "http://json-schema.org/draft-06/schema#"
  const Draft07Uri := "http://json-schema.org/draft-07/schema#"

  datatype MigrationError = InvalidDraft(draft: string)

  /** Keywords whose value is one subschema (`items` may also be a list). */
  const SchemaKeywords: set<string> := {"additionalItems", "additionalProperties", "items", "not"}
  /** Keywords whose value is a list of subschemas. */
  const SchemaListKeywords: set<string> := {"allOf", "anyOf", "oneOf", "items"}
  /** Keywords whose value maps names to subschemas. */
  const SchemaMapKeywords: set<string> := {"definitions", "dependencies", "patternProperties", "properties"}

  /** The keywords the migration itself touches hold no subschema. */
  lemma PlainKeywords()
    ensures forall k :: k in {"type", "enum", "const", "id", "$id", "$schema"} ==>
      k !in SchemaKeywords && k !in SchemaListKeywords && k !in SchemaMapKeywords
  {
  }

  /** Draft-06 `const`: an object with a `type` and a one-element `enum`
      gets `const` with that element in place of the `enum`. */
  function ConstNode(ms: Members): (r: Members)
    ensures (forall x :: !("type" in KeySet(ms) && Lookup(ms, "enum") == Some(Arr([x])))) ==> r == ms
    ensures forall x :: "type" in KeySet(ms) && Lookup(ms, "enum") == Some(Arr([x])) ==>
      && Lookup(r, "const") == Some(x)
      && (DistinctKeys(ms) ==> Lookup(r, "enum") == None)
    ensures forall k :: k != "enum" && k != "const" ==> Lookup(r, k) == Lookup(ms, k)
    ensures DistinctKeys(ms) ==> DistinctKeys(r)
  {
    match Lookup(ms, "enum")
    case Some(Arr(values)) =>
      if "type" in KeySet(ms) && |values| == 1 then
        assert values == [values[0]];
        Rekey(ms, "enum", "const", values[0])
      else ms
    case _ => ms
  }

  /** Draft-06 `$id`: an object holding `id` has it renamed to `$id`, with
      the same value. */
  function IdNode(ms: Members): (r: Members)
    ensures "id" !in KeySet(ms) ==> r == ms
    ensures "id" in KeySet(ms) ==> Lookup(r, "$id") == Lookup(ms, "id")
    ensures Lookup(r, "id") == None
    ensures forall k :: k != "id" && k != "$id" ==> Lookup(r, k) == Lookup(ms, k)
    ensures DistinctKeys(ms) ==> DistinctKeys(r)
  {
    if "id" in KeySet(ms) then Rekey(ms, "id", "$id", Lookup(ms, "id").value) else ms
  }

  /** Where `const` goes: `o.const = o.enum[0]; delete o.enum` removes
      `enum` and appends `const` when the object had none. */
  lemma ConstNodeAppends(ms: Members, x: Json)
    requires "type" in KeySet(ms) && Lookup(ms, "enum") == Some(Arr([x])) && "const" !in KeySet(ms)
    ensures ConstNode(ms) == Delete(ms, "enum") + [("const", x)]
  {
    RekeyAppends(ms, "enum", "const", x);
  }

  /** The draft-06 rewrite of one schema object and all of its subschemas:
      the subschemas are rewritten, then the object's own `id` and `enum`. */
  function RewriteSchema(schema: Json): (r: Json)
    ensures !schema.Obj? ==> r == schema
    ensures schema.Obj? ==> r.Obj?
    decreases schema, 2
  {
    match schema
    case Obj(ms) => Obj(ConstNode(IdNode(RewrittenMembers(ms))))
    case _ => schema
  }

  /** The rewrite of the value under keyword `k`: subschemas are rewritten,
      any other value is kept. */
  function RewriteAt(k: string, v: Json): (r: Json)
    ensures k !in SchemaKeywords && k !in SchemaListKeywords && k !in SchemaMapKeywords ==> r == v
    ensures !v.Obj? && !v.Arr? ==> r == v
    ensures r.Obj? == v.Obj? && r.Arr? == v.Arr?
    decreases v, 3
  {
    match v
    case Obj(ps) =>
      if k in SchemaKeywords then RewriteSchema(v)
      else if k in SchemaMapKeywords then
        Obj(seq(|ps|, i requires 0 <= i < |ps| => (ps[i].0, RewriteSchema(ps[i].1))))
      else v
    case Arr(items) =>
      if k in SchemaListKeywords then
        Arr(seq(|items|, i requires 0 <= i < |items| => RewriteSchema(items[i])))
      else v
    case _ => v
  }

  /** The members of a schema object after the rewrite of its subschemas. */
  function RewrittenMembers(ms: Members): (r: Members)
    decreases Obj(ms), 1
  {
    seq(|ms|, i requires 0 <= i < |ms| => (ms[i].0, RewriteAt(ms[i].0, ms[i].1)))
  }

  lemma RewriteObj(ms: Members)
    ensures RewriteSchema(Obj(ms)) == Obj(ConstNode(IdNode(RewrittenMembers(ms))))
  {
    assert RewrittenMembers(ms) == seq(|ms|, i requires 0 <= i < |ms| => (ms[i].0, RewriteAt(ms[i].0, ms[i].1)));
  }

  /** A draft-06 schema: the root's `$schema` set to `uri`, then the
      rewrite of the whole tree. */
  function ToDraft06(schema: Json, uri: string): (r: Json)
    ensures !schema.Obj? ==> r == schema
    ensures schema.Obj? ==> r.Obj?
  {
    match schema
    case Obj(ms) => RewriteSchema(Obj(Set(ms, "$schema", Str(uri))))
    case _ => schema
  }

  /** The rewrite leaves the value of a plain key alone. */
  lemma RewriteKeepsPlain(ms: Members, k: string)
    requires k !in {"enum", "const", "id", "$id"}
    requires k !in SchemaKeywords && k !in SchemaListKeywords && k !in SchemaMapKeywords
    ensures Lookup(RewriteSchema(Obj(ms)).members, k) == Lookup(ms, k)
  {
    RewriteLookup(ms, k);
  }

  /** Looking up a key the node step does not touch finds the rewrite of
      its former value. */
  lemma RewriteLookup(ms: Members, k: string)
    requires k !in {"enum", "const", "id", "$id"}
    ensures Lookup(RewriteSchema(Obj(ms)).members, k) ==
      if k in KeySet(ms) then Some(RewriteAt(k, Lookup(ms, k).value)) else None
  {
    RewriteObj(ms);
    var c := RewrittenMembers(ms);
    assert Lookup(ConstNode(IdNode(c)), k) == Lookup(c, k);
    RewrittenLookup(ms, k);
  }

  /** Every schema object the rewrite reaches has its `id` renamed to
      `$id` with the same value, and keeps distinct keys. */
  lemma RewriteRenamesId(ms: Members)
    ensures RewriteSchema(Obj(ms)).Obj?
    ensures
      var r := RewriteSchema(Obj(ms)).members;
      && Lookup(r, "id") == None
      && ("id" in KeySet(ms) ==> Lookup(r, "$id") == Lookup(ms, "id"))
      && ("id" !in KeySet(ms) ==> Lookup(r, "$id") == Lookup(ms, "$id"))
      && (DistinctKeys(ms) ==> DistinctKeys(r))
  {
    RewriteObj(ms);
    var c := RewrittenMembers(ms);
    RewrittenLookup(ms, "id");
    RewrittenLookup(ms, "$id");
    PlainKeywords();
    assert Lookup(c, "id") == Lookup(ms, "id");
    assert Lookup(c, "$id") == Lookup(ms, "$id");
  }

  /** `migrateDraft(schema, draft)`: "04" returns the schema as it is, "06"
      migrates it, "07" migrates it as for "06" and then names the draft-07
      meta-schema; any other draft is an error. */
  function MigrateDraft(schema: Json, draft: string): (r: Result<Json, MigrationError>)
    ensures r.Failure? <==> draft != "04" && draft != "06" && draft != "07"
    ensures r.Failure? ==> r.error == InvalidDraft(draft)
    ensures draft == "04" ==> r == Success(schema)
  {
    if draft == "04" then Success(schema)
    else if draft == "06" then Success(ToDraft06(schema, Draft06Uri))
    else if draft == "07" then
      var migrated := ToDraft06(schema, Draft06Uri);
      Success(if migrated.Obj? then Obj(Set(migrated.members, "$schema", Str(Draft07Uri))) else migrated)
    else Failure(InvalidDraft(draft))
  }

  /** The URI a supported later draft puts under `$schema`. */
  function TargetUri(draft: string): string
    requires draft == "06" || draft == "07"
  {
    if draft == "06" then Draft06Uri else Draft07Uri
  }

  /** Looking a key up after the subschema rewrite finds the rewritten value. */
  lemma RewrittenLookup(ms: Members, k: string)
    ensures KeySet(RewrittenMembers(ms)) == KeySet(ms)
    ensures DistinctKeys(ms) ==> DistinctKeys(RewrittenMembers(ms))
    ensures Lookup(RewrittenMembers(ms), k) ==
      if k in KeySet(ms) then Some(RewriteAt(k, Lookup(ms, k).value)) else None
  {
    var c := RewrittenMembers(ms);
    SameKeysIndexOf(ms, c, k);
    if k in KeySet(ms) {
      var i := IndexOf(ms, k);
      assert i == IndexOf(c, k);
    }
    if DistinctKeys(ms) {
      forall i, j | 0 <= i < j < |c| ensures c[i].0 != c[j].0 {
        assert ms[i].0 != ms[j].0;
      }
    }
  }

  /** The root facts of `ToDraft06` for any meta-schema URI. */
  lemma ToDraft06Root(ms: Members, uri: string)
    requires DistinctKeys(ms)
    ensures ToDraft06(Obj(ms), uri).Obj?
    ensures
      var r := ToDraft06(Obj(ms), uri).members;
      && DistinctKeys(r)
      && Lookup(r, "$schema") == Some(Str(uri))
      && Lookup(r, "id") == None
      && ("id" in KeySet(ms) ==> Lookup(r, "$id") == Lookup(ms, "id"))
      && ("id" !in KeySet(ms) ==> Lookup(r, "$id") == Lookup(ms, "$id"))
      && (forall k :: Plain(k) ==> Lookup(r, k) == Lookup(ms, k))
      && forall k :: HoldsSubschemas(k) && k in KeySet(ms) ==>
           Lookup(r, k) == Some(RewriteAt(k, Lookup(ms, k).value))
  {
    RootIds(ms, uri);
    RootKeys(ms, uri);
  }

  lemma RootIds(ms: Members, uri: string)
    requires DistinctKeys(ms)
    ensures
      var r := RewriteSchema(Obj(Set(ms, "$schema", Str(uri)))).members;
      && DistinctKeys(r)
      && Lookup(r, "$schema") == Some(Str(uri))
      && Lookup(r, "id") == None
      && ("id" in KeySet(ms) ==> Lookup(r, "$id") == Lookup(ms, "id"))
      && ("id" !in KeySet(ms) ==> Lookup(r, "$id") == Lookup(ms, "$id"))
  {
    var root := Set(ms, "$schema", Str(uri));
    var r := RewriteSchema(Obj(root)).members;
    assert DistinctKeys(root) && KeySet(root) == KeySet(ms) + {"$schema"};
    assert Lookup(root, "id") == Lookup(ms, "id");
    assert Lookup(root, "$id") == Lookup(ms, "$id");
    RewriteRenamesId(root);
    assert Lookup(r, "$schema") == Some(Str(uri)) by {
      SchemaKeyIsPlain();
      RewriteKeepsPlain(root, "$schema");
    }
  }

  lemma RootKeys(ms: Members, uri: string)
    ensures
      var r := RewriteSchema(Obj(Set(ms, "$schema", Str(uri)))).members;
      && (forall k :: Plain(k) ==> Lookup(r, k) == Lookup(ms, k))
      && forall k :: HoldsSubschemas(k) && k in KeySet(ms) ==>
           Lookup(r, k) == Some(RewriteAt(k, Lookup(ms, k).value))
  {
    var root := Set(ms, "$schema", Str(uri));
    var r := RewriteSchema(Obj(root)).members;
    forall k | Plain(k) ensures Lookup(r, k) == Lookup(ms, k) {
      RewriteKeepsPlain(root, k);
    }
    forall k | HoldsSubschemas(k) && k in KeySet(ms)
      ensures Lookup(r, k) == Some(RewriteAt(k, Lookup(ms, k).value))
    {
      SubschemaKeyword(k);
      RewriteLookup(root, k);
    }
  }

  /** A keyword whose value holds subschemas. */
  predicate HoldsSubschemas(k: string) {
    k in SchemaKeywords || k in SchemaListKeywords || k in SchemaMapKeywords
  }

  /** A key the migration leaves alone at the root: neither one it renames
      or sets, nor `enum`/`const`, nor a keyword holding subschemas. */
  predicate Plain(k: string) {
    && k !in {"id", "$id", "$schema", "enum", "const"}
    && k !in SchemaKeywords && k !in SchemaListKeywords && k !in SchemaMapKeywords
  }

  /** For "06" and "07" the root of an object schema has `$id` holding the
      former `id`, no `id`, `$schema` naming the target draft, and every
      plain key unchanged. */
  lemma MigrateRoot(ms: Members, draft: string)
    requires DistinctKeys(ms)
    requires draft == "06" || draft == "07"
    ensures MigrateDraft(Obj(ms), draft).Success?
    ensures MigrateDraft(Obj(ms), draft).value.Obj?
    ensures
      var r := MigrateDraft(Obj(ms), draft).value.members;
      && DistinctKeys(r)
      && Lookup(r, "$schema") == Some(Str(TargetUri(draft)))
      && Lookup(r, "id") == None
      && ("id" in KeySet(ms) ==> Lookup(r, "$id") == Lookup(ms, "id"))
      && ("id" !in KeySet(ms) ==> Lookup(r, "$id") == Lookup(ms, "$id"))
      && (forall k :: Plain(k) ==> Lookup(r, k) == Lookup(ms, k))
      && forall k :: HoldsSubschemas(k) && k in KeySet(ms) ==>
           Lookup(r, k) == Some(RewriteAt(k, Lookup(ms, k).value))
  {
    PlainKeywords();
    ToDraft06Root(ms, Draft06Uri);
  }

  /** For "06" and "07" the rename reaches nested schemas: a subschema under
      `items`, `not`, `additionalProperties` or `additionalItems` that
      holds `id` comes back with `$id` in its place. */
  lemma MigrateRenamesNestedId(ms: Members, draft: string, k: string, sub: Members)
    requires DistinctKeys(ms)
    requires draft == "06" || draft == "07"
    requires k in SchemaKeywords && Lookup(ms, k) == Some(Obj(sub)) && "id" in KeySet(sub)
    ensures MigrateDraft(Obj(ms), draft).Success? && MigrateDraft(Obj(ms), draft).value.Obj?
    ensures
      var r := MigrateDraft(Obj(ms), draft).value.members;
      && Lookup(r, k).Some? && Lookup(r, k).value.Obj?
      && Lookup(Lookup(r, k).value.members, "$id") == Lookup(sub, "id")
      && Lookup(Lookup(r, k).value.members, "id") == None
  {
    MigrateRoot(ms, draft);
    assert RewriteAt(k, Obj(sub)) == RewriteSchema(Obj(sub));
    RewriteRenamesId(sub);
  }

  /** For "06" and "07" a subschema named under `properties` (or another
      keyword mapping names to subschemas) that holds `id` keeps its name
      and place and comes back with `$id` in place of `id`. */
  lemma MigrateRenamesPropertyId(ms: Members, draft: string, k: string, ps: Members, i: nat, sub: Members)
    requires DistinctKeys(ms)
    requires draft == "06" || draft == "07"
    requires k in SchemaMapKeywords && Lookup(ms, k) == Some(Obj(ps))
    requires i < |ps| && ps[i].1 == Obj(sub) && "id" in KeySet(sub)
    ensures MigrateDraft(Obj(ms), draft).Success? && MigrateDraft(Obj(ms), draft).value.Obj?
    ensures
      var r := MigrateDraft(Obj(ms), draft).value.members;
      && Lookup(r, k).Some? && Lookup(r, k).value.Obj?
      && var qs := Lookup(r, k).value.members;
      && i < |qs| && qs[i].0 == ps[i].0 && qs[i].1.Obj?
      && Lookup(qs[i].1.members, "$id") == Lookup(sub, "id")
      && Lookup(qs[i].1.members, "id") == None
  {
    MigrateRoot(ms, draft);
    RewriteAtMap(k, ps);
    RewriteRenamesId(sub);
  }

  /** A single-valued `enum` beside a `type` becomes `const` with the same
      value, and the `type` is kept. */
  lemma CollapseSingletonEnum(ms: Members, x: Json)
    requires DistinctKeys(ms)
    requires "type" in KeySet(ms) && Lookup(ms, "enum") == Some(Arr([x]))
    ensures RewriteSchema(Obj(ms)).Obj?
    ensures
      var r := RewriteSchema(Obj(ms)).members;
      && DistinctKeys(r)
      && Lookup(r, "const") == Some(x)
      && Lookup(r, "enum") == None
      && Lookup(r, "type") == Lookup(ms, "type")
  {
    RewriteObj(ms);
    var c := RewrittenMembers(ms);
    RewrittenLookup(ms, "enum");
    RewrittenLookup(ms, "type");
    PlainKeywords();
    assert Lookup(c, "enum") == Some(Arr([x]));
    assert Lookup(c, "type") == Lookup(ms, "type");
    assert "type" in KeySet(c);
    var r := ConstNode(IdNode(c));
    assert Lookup(r, "const") == Some(x);
    assert Lookup(r, "type") == Lookup(c, "type");
  }

  /** The rewrite reaches into nested schemas: under `properties` (and the
      other keywords mapping names to subschemas) every subschema is
      rewritten, names and order kept. */
  lemma RewriteReachesProperties(ms: Members, k: string, ps: Members)
    requires DistinctKeys(ms)
    requires k in SchemaMapKeywords && Lookup(ms, k) == Some(Obj(ps))
    ensures RewriteSchema(Obj(ms)).Obj?
    ensures
      var r := RewriteSchema(Obj(ms)).members;
      && Lookup(r, k).Some? && Lookup(r, k).value.Obj?
      && var qs := Lookup(r, k).value.members;
      && |qs| == |ps|
      && forall i :: 0 <= i < |ps| ==> qs[i] == (ps[i].0, RewriteSchema(ps[i].1))
  {
    SubschemaKeyword(k);
    RewriteLookup(ms, k);
    RewriteAtMap(k, ps);
  }

  /** The rewrite reaches the subschema under `items`, `not`,
      `additionalProperties` and `additionalItems`. */
  lemma RewriteReachesSubschema(ms: Members, k: string, v: Members)
    requires k in SchemaKeywords && Lookup(ms, k) == Some(Obj(v))
    ensures RewriteSchema(Obj(ms)).Obj?
    ensures Lookup(RewriteSchema(Obj(ms)).members, k) == Some(RewriteSchema(Obj(v)))
  {
    SubschemaKeyword(k);
    RewriteLookup(ms, k);
  }

  /** The rewrite reaches every subschema listed under `allOf`, `anyOf`,
      `oneOf` and a list-valued `items`, in order. */
  lemma RewriteReachesList(ms: Members, k: string, items: seq<Json>)
    requires k in SchemaListKeywords && Lookup(ms, k) == Some(Arr(items))
    ensures RewriteSchema(Obj(ms)).Obj?
    ensures
      var r := RewriteSchema(Obj(ms)).members;
      && Lookup(r, k).Some? && Lookup(r, k).value.Arr?
      && var qs := Lookup(r, k).value.items;
      && |qs| == |items|
      && forall i :: 0 <= i < |items| ==> qs[i] == RewriteSchema(items[i])
  {
    SubschemaKeyword(k);
    RewriteLookup(ms, k);
    RewriteAtList(k, items);
  }

  /** Under a keyword listing subschemas, each subschema is rewritten. */
  lemma RewriteAtList(k: string, items: seq<Json>)
    requires k in SchemaListKeywords
    ensures RewriteAt(k, Arr(items)).Arr?
    ensures |RewriteAt(k, Arr(items)).items| == |items|
    ensures forall i :: 0 <= i < |items| ==> RewriteAt(k, Arr(items)).items[i] == RewriteSchema(items[i])
  {
  }

  /** Under a keyword mapping names to subschemas, each subschema is rewritten. */
  lemma RewriteAtMap(k: string, ps: Members)
    requires k in SchemaMapKeywords
    ensures RewriteAt(k, Obj(ps)).Obj?
    ensures |RewriteAt(k, Obj(ps)).members| == |ps|
    ensures forall i :: 0 <= i < |ps| ==> RewriteAt(k, Obj(ps)).members[i] == (ps[i].0, RewriteSchema(ps[i].1))
  {
    KeywordMapsDisjoint();
  }

  lemma SchemaKeyIsPlain()
    ensures "$schema" !in {"enum", "const", "id", "$id"} && !HoldsSubschemas("$schema")
  {
  }

  /** A keyword holding subschemas is none the node step touches. */
  lemma SubschemaKeyword(k: string)
    requires HoldsSubschemas(k)
    ensures k !in {"enum", "const", "id", "$id", "$schema", "type"}
  {
  }

  lemma KeywordMapsDisjoint()
    ensures SchemaKeywords !! SchemaMapKeywords
  {
  }

  /** The rewrite keeps every object's keys distinct. */
  lemma {:induction false} RewritePreservesWellFormed(j: Json)
    requires WellFormed(j)
    ensures WellFormed(RewriteSchema(j))
    decreases j, 2
  {
    if j.Obj? {
      var ms := j.members;
      var c := RewrittenMembers(ms);
      RewrittenLookup(ms, "id");
      forall p | p in c ensures WellFormed(p.1) {
        var i :| 0 <= i < |c| && c[i] == p;
        assert ms[i] in ms;
        RewriteAtPreservesWellFormed(ms[i].0, ms[i].1);
      }
      IdNodeWellFormed(c);
      ConstNodeWellFormed(IdNode(c));
      RewriteObj(ms);
    }
  }

  lemma {:induction false} RewriteAtPreservesWellFormed(k: string, v: Json)
    requires WellFormed(v)
    ensures WellFormed(RewriteAt(k, v))
    decreases v, 3
  {
    match v
    case Obj(ps) =>
      if k in SchemaKeywords {
        RewritePreservesWellFormed(v);
      } else if k in SchemaMapKeywords {
        var qs := RewriteAt(k, v).members;
        RewriteAtMap(k, ps);
        forall i, t | 0 <= i < t < |qs| ensures qs[i].0 != qs[t].0 {
          assert ps[i].0 != ps[t].0;
        }
        forall p | p in qs ensures WellFormed(p.1) {
          var i :| 0 <= i < |qs| && qs[i] == p;
          assert ps[i] in ps;
          RewritePreservesWellFormed(ps[i].1);
        }
      }
    case Arr(items) =>
      if k in SchemaListKeywords {
        var qs := RewriteAt(k, v).items;
        RewriteAtList(k, items);
        forall x | x in qs ensures WellFormed(x) {
          var i :| 0 <= i < |qs| && qs[i] == x;
          assert items[i] in items;
          RewritePreservesWellFormed(items[i]);
        }
      }
    case _ =>
  }

  lemma IdNodeWellFormed(ms: Members)
    requires WellFormed(Obj(ms))
    ensures WellFormed(Obj(IdNode(ms)))
  {
    var r := IdNode(ms);
    forall k | k in KeySet(r) ensures WellFormed(Lookup(r, k).value) {
      if k == "$id" && "id" in KeySet(ms) {
        assert Lookup(r, k) == Lookup(ms, "id");
      } else {
        assert Lookup(r, k) == Lookup(ms, k);
      }
    }
    WellFormedByLookup(r);
  }

  lemma ConstNodeWellFormed(ms: Members)
    requires WellFormed(Obj(ms))
    ensures WellFormed(Obj(ConstNode(ms)))
  {
    var r := ConstNode(ms);
    if r != ms {
      var x :| "type" in KeySet(ms) && Lookup(ms, "enum") == Some(Arr([x]));
      forall k | k in KeySet(r) ensures WellFormed(Lookup(r, k).value) {
        if k == "const" {
          assert WellFormed(Arr([x]));
          assert x in [x];
        } else {
          assert Lookup(r, k) == Lookup(ms, k);
        }
      }
      WellFormedByLookup(r);
    }
  }

  /** A successful migration of a well-formed schema is well formed. */
  lemma MigratePreservesWellFormed(schema: Json, draft: string)
    requires WellFormed(schema)
    ensures MigrateDraft(schema, draft).Success? ==> WellFormed(MigrateDraft(schema, draft).value)
  {
    if schema.Obj? && (draft == "06" || draft == "07") {
      var root := Set(schema.members, "$schema", Str(Draft06Uri));
      SetWellFormed(schema.members, "$schema", Str(Draft06Uri));
      RewritePreservesWellFormed(Obj(root));
      var migrated := ToDraft06(schema, Draft06Uri);
      assert migrated == RewriteSchema(Obj(root));
      SetWellFormed(migrated.members, "$schema", Str(Draft07Uri));
    }
  }

  /** Draft "07" gives the draft "06" schema with only `$schema` changed. */
  lemma Migrate07Is06(schema: Json)
    ensures MigrateDraft(schema, "07").value.Obj? == MigrateDraft(schema, "06").value.Obj?
    ensures !schema.Obj? ==> MigrateDraft(schema, "07") == MigrateDraft(schema, "06")
    ensures schema.Obj? ==>
      var r6 := MigrateDraft(schema, "06").value.members;
      var r7 := MigrateDraft(schema, "07").value.members;
      && Lookup(r7, "$schema") == Some(Str(Draft07Uri))
      && forall k :: k != "$schema" ==> Lookup(r7, k) == Lookup(r6, k)
  {
  }

  /** The unit-test schema, in draft-04 form and migrated. */
  function Schema04(): Json {
    Obj([("id", Str("1")),
         ("$schema", Str(Draft04Uri)),
         ("properties", Obj([("name", Obj([("type", Str("string")), ("enum", Arr([Str("John")]))]))]))])
  }

  function SchemaMigrated(uri: string): Json {
    Obj([("$schema", Str(uri)),
         ("properties", Obj([("name", Obj([("type", Str("string")), ("const", Str("John"))]))])),
         ("$id", Str("1"))])
  }

  /** `{type: t, enum: [x]}` becomes `{type: t, const: x}`, as the unit
      test's `name` schema does. */
  lemma CollapseNameSchema(t: Json, x: Json)
    ensures RewriteSchema(Obj([("type", t), ("enum", Arr([x]))])) == Obj([("type", t), ("const", x)])
  {
    var ms := [("type", t), ("enum", Arr([x]))];
    assert RewrittenMembers(ms) == ms by {
      var c := RewrittenMembers(ms);
      PlainKeywords();
      assert c[0] == ms[0] && c[1] == ms[1];
    }
    ConstNodeName(t, x);
    RewriteObj(ms);
  }

  lemma ConstNodeName(t: Json, x: Json)
    ensures ConstNode([("type", t), ("enum", Arr([x]))]) == [("type", t), ("const", x)]
  {
    var ms := [("type", t), ("enum", Arr([x]))];
    assert Lookup(ms, "enum") == Some(Arr([x])) by {
      LookupCons(ms[0], ms[1..], "enum");
      LookupCons(ms[1], [], "enum");
    }
    assert "type" in KeySet(ms) by {
      assert ms[0].0 == "type";
    }
    assert "const" !in KeySet(ms) by {
      KeySetCons(ms[0], ms[1..]);
      KeySetCons(ms[1], []);
    }
    ConstNodeAppends(ms, x);
    assert Delete(ms, "enum") == [ms[0]] by {
      assert ms == [ms[0]] + [ms[1]];
      DeleteCons(ms[0], [ms[1]], "enum");
      DeleteCons(ms[1], [], "enum");
    }
  }

  /** The migrated `properties` of the unit-test schema. */
  lemma RewriteTestProperties(t: Json, x: Json)
    ensures RewriteAt("properties", Obj([("name", Obj([("type", t), ("enum", Arr([x]))]))])) ==
      Obj([("name", Obj([("type", t), ("const", x)]))])
  {
    var name := Obj([("type", t), ("enum", Arr([x]))]);
    var ps := [("name", name)];
    assert "properties" in SchemaMapKeywords;
    RewriteAtMap("properties", ps);
    CollapseNameSchema(t, x);
    var r := RewriteAt("properties", Obj(ps)).members;
    assert r[0] == ("name", Obj([("type", t), ("const", x)]));
    assert r == [r[0]];
  }

  lemma RenameIdOfThree(id: Json, old04: Json, p: (string, Json))
    requires p.0 != "id" && p.0 != "$id" && p.0 != "$schema"
    ensures Rekey([("id", id), ("$schema", old04), p], "id", "$id", id) == [("$schema", old04), p, ("$id", id)]
  {
    var ms := [("id", id), ("$schema", old04), p];
    var rest := ms[1..];
    assert ms == [ms[0]] + rest;
    assert rest == [rest[0]] + [p];
    assert "$id" !in KeySet(ms) && "id" !in KeySet(rest) by {
      KeySetCons(ms[0], rest);
      KeySetCons(rest[0], [p]);
      KeySetCons(p, []);
    }
    RekeyAppends(ms, "id", "$id", id);
    DeleteCons(ms[0], rest, "id");
  }

  /** The unit-test schema with `$schema` updated in place. */
  lemma TestRoot(uri: string)
    ensures Schema04().Obj?
    ensures Set(Schema04().members, "$schema", Str(uri)) ==
      [("id", Str("1")), ("$schema", Str(uri)), Schema04().members[2]]
  {
    var ms := Schema04().members;
    assert ms == [ms[0]] + ms[1..];
    SetCons(ms[0], ms[1..], "$schema", Str(uri));
    SetCons(ms[1], ms[2..], "$schema", Str(uri));
  }

  /** The unit-test schema with its subschemas rewritten. */
  lemma TestRewritten(uri: string)
    ensures RewrittenMembers([("id", Str("1")), ("$schema", Str(uri)), Schema04().members[2]]) ==
      [("id", Str("1")), ("$schema", Str(uri)), SchemaMigrated(uri).members[1]]
  {
    var c := RewrittenMembers([("id", Str("1")), ("$schema", Str(uri)), Schema04().members[2]]);
    var expected := [("id", Str("1")), ("$schema", Str(uri)), SchemaMigrated(uri).members[1]];
    PlainKeywords();
    RewriteTestProperties(Str("string"), Str("John"));
    assert c[0] == expected[0] && c[1] == expected[1] && c[2] == expected[2];
  }

  /** The unit-test schema with its root `id` renamed: `$id` is appended,
      as `o.$id = o.id; delete o.id` does. */
  lemma TestIdNode(uri: string)
    ensures IdNode([("id", Str("1")), ("$schema", Str(uri)), SchemaMigrated(uri).members[1]]) ==
      SchemaMigrated(uri).members
  {
    var p := SchemaMigrated(uri).members[1];
    var ms := [("id", Str("1")), ("$schema", Str(uri)), p];
    assert "id" in KeySet(ms) by { assert ms[0].0 == "id"; }
    assert Lookup(ms, "id") == Some(Str("1")) by {
      assert ms == [ms[0]] + ms[1..];
      LookupCons(ms[0], ms[1..], "id");
    }
    RenameIdOfThree(Str("1"), Str(uri), p);
  }

  lemma TestConstNode(uri: string)
    ensures ConstNode(SchemaMigrated(uri).members) == SchemaMigrated(uri).members
  {
    var e := SchemaMigrated(uri).members;
    LookupCons(e[0], e[1..], "enum");
    LookupCons(e[1], e[2..], "enum");
    LookupCons(e[2], [], "enum");
    assert e[1..] == [e[1]] + e[2..];
    assert e[2..] == [e[2]] + [];
  }

  lemma ToDraft06Test(uri: string)
    ensures ToDraft06(Schema04(), uri) == SchemaMigrated(uri)
  {
    var root := [("id", Str("1")), ("$schema", Str(uri)), Schema04().members[2]];
    TestRoot(uri);
    RewriteObj(root);
    TestRewritten(uri);
    TestIdNode(uri);
    TestConstNode(uri);
  }

  /** The unit-test cases for "123" and "04": an unknown draft is
      rejected, draft-04 keeps the schema as it is. */
  lemma MigrateCasesUnchanged()
    ensures MigrateDraft(Schema04(), "123") == Failure(InvalidDraft("123"))
    ensures MigrateDraft(Schema04(), "04") == Success(Schema04())
  {
  }

  /** The unit-test case for "06". */
  lemma MigrateCase06()
    ensures MigrateDraft(Schema04(), "06") == Success(SchemaMigrated(Draft06Uri))
  {
    ToDraft06Test(Draft06Uri);
  }

  lemma SetDraft07()
    ensures Set(SchemaMigrated(Draft06Uri).members, "$schema", Str(Draft07Uri)) == SchemaMigrated(Draft07Uri).members
  {
    var m := SchemaMigrated(Draft06Uri).members;
    assert m == [m[0]] + m[1..];
    assert Set(m, "$schema", Str(Draft07Uri)) == [("$schema", Str(Draft07Uri))] + m[1..];
  }

  /** The unit-test case for "07": migrated as for "06", then `$schema`
      names draft-07. */
  lemma MigrateCase07()
    ensures MigrateDraft(Schema04(), "07") == Success(SchemaMigrated(Draft07Uri))
  {
    ToDraft06Test(Draft06Uri);
    SetDraft07();
  }
}
