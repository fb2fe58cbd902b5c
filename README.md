# dt2js conversion passes in Dafny

dt2js turns a RAML type declaration into a JSON Schema document. The RAML
library text is first patched into an API document with one synthetic
endpoint (`patchRamlData`), so the external RAML parser emits the schema of
the endpoint's response body. The emitted draft-04 schema then goes through
three structural fix-up passes:

- `fixFileTypeProperties` turns RAML `type: file` into a binary string.
- `removeXAmfProperties` strips the parser's `x-amf-` vendor prefix.
- `fixStructureInconsistencies` turns an object-valued `examples` into an array.

Finally `migrateDraft` rewrites the schema for draft 04, 06 or 07.

The model has six modules:

- `Json` (json.dfy) defines the JSON tree. `Undefined` stands for
  JavaScript's `undefined` and numbers are integers. An object is an
  association list in insertion order. The module also gives the object
  operations the passes use, with JavaScript's semantics:
  - `o[k] = v` (`Set`): an existing key keeps its place and a new key goes
    at the end.
  - `delete o[k]` (`Delete`).
  - A rename, which JavaScript writes as `o[to] = o[from]; delete o[from]`
    (`Rekey`): a new key therefore goes at the end.
- `FileType`, `XAmf` and `Structure` hold the three fix-up passes. Each one
  returns a non-object as it is and walks object values.
- `RamlPatch` holds the text rewrite and its inverse.
- `DraftMigration` holds `migrateDraft`, with its error result
  `InvalidDraft`.

Each pass has a partner property proved over all inputs:

- `fixFileTypeProperties` and `fixStructureInconsistencies`: the pass
  changes a tree exactly when the tree has something to fix, and the pass is
  idempotent.
- `removeXAmfProperties`: the rename law, the key-set and value law, and
  identity on clean trees.
- `patchRamlData`: an inverse that recovers the library.
- `migrateDraft`: root laws, laws that follow the rewrite into every
  subschema, well-formedness, and "07 is 06 with another `$schema`".

Every asserted unit-test case is also proved as a lemma.

## Model

| member | source | states |
|---|---|---|
| Json.Set | test/unit/dt2js_unit.test.js:19-81 | `o[k] = v`: `k` then holds `v`, every other key keeps its value, the key set gains `k`, and distinct keys stay distinct. An existing key keeps its position (`SetShape`). |
| Json.Delete | test/unit/dt2js_unit.test.js:30-59 | `delete o[k]`: `k` is absent afterwards, every other key keeps its value, no new pair appears, and an object without `k` is unchanged. |
| Json.Rekey | test/unit/dt2js_unit.test.js:128-155 | A rename: `to` holds the value, `from` is gone, every other key keeps its value and the key set is updated accordingly. |
| Json.RekeyAppends | test/unit/dt2js_unit.test.js:128-155 | Renaming to a new key removes the old entry and appends the new one at the end; the other entries keep their order. |
| FileType.IsFileNode | test/unit/dt2js_unit.test.js:15-29 | An object is a file node exactly when it holds the pair `type: "file"` (for objects with distinct keys). |
| FileType.FileTypes | test/unit/dt2js_unit.test.js:30-59 | The entries of an array-valued `x-amf-fileTypes`. A non-empty result is exactly that array. |
| FileType.FixFileTypeProperties | test/unit/dt2js_unit.test.js:9-14 | A non-object (string, number, array, `undefined`, `null`) is returned as it is. An object stays an object. |
| FileType.FixUnchangedIff | test/unit/dt2js_unit.test.js:15-18 | The pass returns its input exactly when no object in the tree has `type: "file"`. So `{foo: 1}` and any other object without a file node is kept. |
| FileType.FixKeepsPlainObject | test/unit/dt2js_unit.test.js:15-18 | `{foo: 1}` is returned unchanged. |
| FileType.Media | test/unit/dt2js_unit.test.js:19-59 | The `media` object always has `binaryEncoding: "binary"` and no key other than `binaryEncoding` and `anyOf`. It has `anyOf` exactly when `x-amf-fileTypes` is non-empty. `anyOf` then has one `{mediaType: m}` per entry, in the same order. |
| FileType.FileNode | test/unit/dt2js_unit.test.js:19-59 | A file node gets `type: "string"` and the `media` object, and loses `x-amf-fileTypes`. Every other key keeps its value, and distinct keys stay distinct. Any other object is kept. |
| FileType.FixFileNode | test/unit/dt2js_unit.test.js:19-59 | A `type: "file"` object comes out with `type: "string"`, `media` as above and no `x-amf-fileTypes`. Every other key keeps its fixed value. |
| FileType.FixBareFile | test/unit/dt2js_unit.test.js:19-29 | `{type: "file"}` becomes exactly `{type: "string", media: {binaryEncoding: "binary"}}`. |
| FileType.FixEmptyFileTypes | test/unit/dt2js_unit.test.js:30-43 | With an empty `x-amf-fileTypes` the result is the same as for a bare file node: no `anyOf` and no `x-amf-fileTypes`. |
| FileType.FixTwoFileTypes | test/unit/dt2js_unit.test.js:45-59 | `["image/png", "image/jpg"]` becomes `media.anyOf` with the two `mediaType` objects, in order. |
| FileType.FixLeavesNoFileNode | test/unit/dt2js_unit.test.js:7-62 | After the pass no object in the tree is a file node. |
| FileType.FixIdempotent | test/unit/dt2js_unit.test.js:7-62 | Running the pass twice gives the same tree as running it once. |
| FileType.FixPreservesWellFormed | test/unit/dt2js_unit.test.js:7-62 | If every object in the input has distinct keys, so does every object in the output. |
| XAmf.StripPrefix | test/unit/dt2js_unit.test.js:72-81 | A key starting with `x-amf-` loses exactly that prefix. Any other key is kept. |
| XAmf.RemoveXAmfProperties | test/unit/dt2js_unit.test.js:66-71 | A non-object is returned as it is. An object comes out as an object with distinct keys. |
| XAmf.Assemble | test/unit/dt2js_unit.test.js:72-81 | Rebuilding an object key by key keeps keys distinct. The keys are those of the start object plus the assigned ones. |
| XAmf.AssembleLookup | test/unit/dt2js_unit.test.js:72-81 | After the rebuild each key holds the value last assigned to it. A key never assigned keeps its earlier value. |
| XAmf.AssembleDistinct | test/unit/dt2js_unit.test.js:72-81 | When no key repeats, the rebuilt object is the assigned pairs in order. |
| XAmf.RemoveKeysAndValues | test/unit/dt2js_unit.test.js:72-81 | The output keys are exactly the stripped input keys. Each holds the cleaned value of the last input key that strips to it. |
| XAmf.RemoveRenames | test/unit/dt2js_unit.test.js:72-81 | When no two keys strip to the same name, every `x-amf-K` becomes `K` and every other key stays. Each key keeps its position and its cleaned value. |
| XAmf.RemoveKeepsClean | test/unit/dt2js_unit.test.js:66-81 | A tree without vendor keys and with distinct keys is returned unchanged. |
| XAmf.RemovePreservesWellFormed | test/unit/dt2js_unit.test.js:64-82 | If every object in the input has distinct keys, so does every object in the output. |
| XAmf.RemoveNameAge | test/unit/dt2js_unit.test.js:72-81 | `{name: "john", "x-amf-age": 123}` becomes `{name: "john", age: 123}`. |
| RamlPatch.PatchRamlData | test/unit/dt2js_unit.test.js:86-103 | The result ends with the `/for/conversion/<T>` GET endpoint, after a blank line and with no final newline. When the text starts with `#%RAML 1.0 Library`, the result starts with `#%RAML 1.0` and holds the rest of the library unchanged. Other text keeps its start. |
| RamlPatch.UnpatchRamlData | test/unit/dt2js_unit.test.js:84-104 | Whatever the inverse recovers starts with the library tag. |
| RamlPatch.PatchRoundTrip | test/unit/dt2js_unit.test.js:84-104 | Undoing the patch of a library gives back the library text. |
| RamlPatch.PatchCat | test/unit/dt2js_unit.test.js:86-103 | The `Cat` library becomes exactly the API document asserted, line for line. |
| DraftMigration.MigrateDraft | test/unit/dt2js_unit.test.js:118-127 | The result is an error exactly when the draft is not "04", "06" or "07", and the error is `InvalidDraft` naming that draft. "04" returns the schema as it is. |
| DraftMigration.ConstNode | test/unit/dt2js_unit.test.js:128-155 | An object with `type` and a one-element `enum: [x]` gets `const: x` and loses `enum`. No key other than `enum` and `const` changes. Any other object is kept. |
| DraftMigration.ConstNodeAppends | test/unit/dt2js_unit.test.js:133-138 | `const` takes the place JavaScript gives it: `enum` is removed and `const: x` is appended. |
| DraftMigration.IdNode | test/unit/dt2js_unit.test.js:128-141 | An object holding `id` has `$id` with its value and no `id`. No key other than `id` and `$id` changes. An object without `id` is kept. |
| DraftMigration.RewriteSchema | test/unit/dt2js_unit.test.js:128-155 | The recursive draft-06 rewrite returns a non-object as it is and an object as an object. |
| DraftMigration.RewriteRenamesId | test/unit/dt2js_unit.test.js:128-141 | Every schema object the rewrite reaches has its `id` renamed to `$id` with the same value, and keeps distinct keys. |
| DraftMigration.RewriteLookup | test/unit/dt2js_unit.test.js:128-155 | Every key other than `id`, `$id`, `enum` and `const` holds the rewrite of its former value, and no key is added. |
| DraftMigration.RewriteAt | test/unit/dt2js_unit.test.js:128-155 | The value under a keyword that holds no subschema is kept, and so is a scalar. An object stays an object and an array stays an array. |
| DraftMigration.ToDraft06 | test/unit/dt2js_unit.test.js:128-155 | The draft-06 migration returns a non-object as it is and an object as an object. |
| DraftMigration.ToDraft06Root | test/unit/dt2js_unit.test.js:128-155 | For any meta-schema URI, the migrated root has `$schema` set to it, `$id` holding the former `id`, no `id` and distinct keys. Every plain key is unchanged, and every subschema keyword holds the rewrite of its former value. |
| DraftMigration.MigrateRoot | test/unit/dt2js_unit.test.js:128-155 | For "06" and "07" the migrated root has these properties. `$schema` is the draft-06 or draft-07 URI and there is no `id`. `$id` holds the former `id`, and every key the migration does not touch is unchanged. Every keyword holding subschemas holds the rewrite of its former value. |
| DraftMigration.MigrateRenamesNestedId | test/unit/dt2js_unit.test.js:128-155 | For "06" and "07", a subschema under `items`, `not`, `additionalProperties` or `additionalItems` that holds `id` comes back with `$id` in its place. |
| DraftMigration.MigrateRenamesPropertyId | test/unit/dt2js_unit.test.js:128-155 | For "06" and "07", a subschema named under `properties` (or `definitions`, `dependencies`, `patternProperties`) that holds `id` keeps its name and position and comes back with `$id` in place of `id`. |
| DraftMigration.RewritePreservesWellFormed | test/unit/dt2js_unit.test.js:106-156 | If every object in the schema has distinct keys, so does every object after the rewrite. |
| DraftMigration.RewriteAtPreservesWellFormed | test/unit/dt2js_unit.test.js:106-156 | The same for the value under one keyword. |
| DraftMigration.MigratePreservesWellFormed | test/unit/dt2js_unit.test.js:106-156 | A successful migration of a schema whose objects all have distinct keys yields one with the same property. |
| DraftMigration.CollapseSingletonEnum | test/unit/dt2js_unit.test.js:133-138 | In a schema with `type`, `enum: [x]` becomes `const: x` and `type` is kept. |
| DraftMigration.RewriteReachesProperties | test/unit/dt2js_unit.test.js:133-138 | Under `properties` (and `definitions`, `dependencies`, `patternProperties`) every subschema is rewritten, with names and order kept. |
| DraftMigration.RewriteReachesSubschema | test/unit/dt2js_unit.test.js:128-155 | The subschema under `items`, `not`, `additionalProperties` or `additionalItems` is itself rewritten. |
| DraftMigration.RewriteReachesList | test/unit/dt2js_unit.test.js:128-155 | Every subschema listed under `allOf`, `anyOf`, `oneOf` or a list-valued `items` is rewritten, in order. |
| DraftMigration.RewriteKeepsPlain | test/unit/dt2js_unit.test.js:128-155 | A key that holds no subschema and is not `id`, `$id`, `enum` or `const` keeps its value under the rewrite. |
| DraftMigration.Migrate07Is06 | test/unit/dt2js_unit.test.js:142-155 | Draft "07" gives the draft "06" result with `$schema` set to the draft-07 URI. |
| DraftMigration.MigrateCasesUnchanged | test/unit/dt2js_unit.test.js:118-127 | The unit-test schema fails with `InvalidDraft("123")` for "123" and is returned unchanged for "04". |
| DraftMigration.MigrateCase06 | test/unit/dt2js_unit.test.js:128-141 | The unit-test schema migrates for "06" to exactly `{$schema: draft-06, properties: {name: {type: "string", const: "John"}}, $id: "1"}`. The test compares deeply and so does not depend on this key order. |
| DraftMigration.MigrateCase07 | test/unit/dt2js_unit.test.js:142-155 | The same, with the draft-07 URI for "07". |
| Structure.FixStructureInconsistencies | test/unit/dt2js_unit.test.js:160-165 | A non-object is returned as it is. An object keeps its length and its keys, position by position. |
| Structure.FixExamples | test/unit/dt2js_unit.test.js:170-188 | An object-valued `examples` becomes the array of its values in key order, and an array-valued one is kept. Every other key holds its fixed value. |
| Structure.ValuesInKeyOrder | test/unit/dt2js_unit.test.js:170-180 | `Object.values`: for an object with distinct keys, the i-th value is what looking up the i-th key gives. |
| Structure.FixLeavesArrays | test/unit/dt2js_unit.test.js:158-189 | After the pass no `examples` in the tree holds an object. |
| Structure.FixUnchangedIff | test/unit/dt2js_unit.test.js:166-169 | The pass returns its input exactly when no `examples` in the tree holds an object. So an object without `examples` is kept. |
| Structure.FixPreservesWellFormed | test/unit/dt2js_unit.test.js:158-189 | If every object in the input has distinct keys, so does every object in the output. |
| Structure.FixIdempotent | test/unit/dt2js_unit.test.js:158-189 | Running the pass twice gives the same tree as running it once. |
| Structure.FixStructureCases | test/unit/dt2js_unit.test.js:166-188 | `{foo: 1}` is kept. `{examples: {catone: "CatOne", dogone: "DogOne"}}` becomes `{examples: ["CatOne", "DogOne"]}`, and the array form is kept. |

## Left out

- `validateJsonSchema`: meta-schema validation, its error wording and the missing-dependency path belong to the external validator library and are not modelled.
- The RAML parser, the orchestration that calls it, the command line and file I/O are not part of this model.
- The `src/dt2js` implementation is not part of this model. The passes are specified by the behaviour the unit tests assert.
- Reference identity: the tests compare non-objects and untouched objects with strict equality. The model states value equality.
- Floating-point numbers such as `3.4`: numbers are integers. No pass looks at a number.
- JavaScript's ordering of integer-like keys before other keys is not modelled. Objects keep insertion order.
- FileType.FixFileTypeProperties, XAmf.RemoveXAmfProperties, Structure.FixStructureInconsistencies: arrays are leaves, returned as they are. The unit tests titled "should ignore non-objects" list an array among the non-objects (test lines 9-14, 66-71, 160-165). The model follows them rather than recursing into sequences, so objects nested inside arrays are not rewritten.
- FileType.FileTypes: an `x-amf-fileTypes` value that is not an array adds no `anyOf`. The key is still removed.
- DraftMigration.MigrateDraft: a non-object schema is returned as it is for "06" and "07".
- DraftMigration.MigrateDraft: only the three draft-06 rewrites are modelled. These are `id` to `$id` in every schema object, `$schema` at the root, and single-element `enum` to `const`. The other keyword rewrites of a general draft-04 to draft-06 migration (for example, boolean `exclusiveMaximum`) are not modelled.
- DraftMigration.ConstNode: the `enum` rewrite applies only to an object that also has `type`.
- DraftMigration.RewriteSchema: the rewrite (of `id` and of `enum`) follows subschemas only through the draft-04 subschema keywords. A key named `id` inside `properties` names a property, not a schema, and is kept.
- RamlPatch.PatchRamlData: the header is replaced only when the text starts with `#%RAML 1.0 Library`. Other text is kept as it is, with the endpoint appended. The test is a prefix test, not a first-line test, so a first line such as `#%RAML 1.0 LibraryX` also has its tag replaced and becomes `#%RAML 1.0X`.
- Json.Rekey, DraftMigration.IdNode, DraftMigration.ConstNode: the renamed `$id` and the new `const` are appended at the end, as a JavaScript assignment followed by a `delete` places them. The unit tests compare with deep equality, which ignores key order, so the order of these keys is not checked by the tests.
- The default draft ("04") of the command line is not modelled. `MigrateDraft` always takes an explicit draft.
