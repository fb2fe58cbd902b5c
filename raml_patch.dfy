/** `patchRamlData`: the RAML parser only emits JSON Schema for types used
    by an operation, so the library that declares the type is turned into an
    API document with one endpoint whose GET response body has that type.
    The rewrite works on the text alone; nothing is parsed. */
module RamlPatch {
  import opened Json

  const LibraryTag := "#%RAML 1.0 Library"
  const ApiTag := "#%RAML 1.0"

  /** The resource appended after a blank line: `/for/conversion/<T>` with a
      GET whose 200 response has an `application/json` body of type `T`.
      It ends with the type name, without a final newline. */
  function Endpoint(typeName: string): string {
    "\n" +
    "\n/for/conversion/" + typeName + ":" +
    "\n  get:" +
    "\n    responses:" +
    "\n      200:" +
    "\n        body:" +
    "\n          application/json:" +
    "\n            type: " + typeName
  }

  /** `patchRamlData(ramlData, typeName)`: the library tag at the start of
      the text becomes the API tag, and the endpoint is appended. Text that
      does not start with the library tag keeps its start. */
  function PatchRamlData(ramlData: string, typeName: string): (r: string)
    ensures |r| >= |Endpoint(typeName)| && r[|r| - |Endpoint(typeName)|..] == Endpoint(typeName)
    ensures LibraryTag <= ramlData ==>
      && ApiTag <= r
      && |r| == |ApiTag| + |ramlData| - |LibraryTag| + |Endpoint(typeName)|
      && r[|ApiTag|..|r| - |Endpoint(typeName)|] == ramlData[|LibraryTag|..]
    ensures !(LibraryTag <= ramlData) ==> r[..|r| - |Endpoint(typeName)|] == ramlData
  {
    var body := if LibraryTag <= ramlData then ApiTag + ramlData[|LibraryTag|..] else ramlData;
    var r := body + Endpoint(typeName);
    assert r[..|body|] == body && r[|body|..] == Endpoint(typeName);
    r
  }

  /** The inverse: recovers the library text from a patched document, when
      it has the API tag in front and the endpoint for `typeName` at the end. */
  function UnpatchRamlData(doc: string, typeName: string): (r: Option<string>)
    ensures r.Some? ==> LibraryTag <= r.value
  {
    var e := Endpoint(typeName);
    if |doc| >= |ApiTag| + |e| && ApiTag <= doc && doc[|doc| - |e|..] == e then
      Some(LibraryTag + doc[|ApiTag|..|doc| - |e|])
    else None
  }

  /** Patching a library and undoing it gives the library back: the type
      declarations survive the rewrite unchanged. */
  lemma PatchRoundTrip(ramlData: string, typeName: string)
    requires LibraryTag <= ramlData
    ensures UnpatchRamlData(PatchRamlData(ramlData, typeName), typeName) == Some(ramlData)
  {
    var r := PatchRamlData(ramlData, typeName);
    var e := Endpoint(typeName);
    assert ramlData == LibraryTag + ramlData[|LibraryTag|..];
    assert r[|ApiTag|..|r| - |e|] == ramlData[|LibraryTag|..];
  }

  lemma CatPathLine()
    ensures "\n/for/conversion/" + "Cat" + ":" == "\n/for/conversion/Cat:"
  {
  }

  lemma CatTypeLine()
    ensures "\n            type: " + "Cat" == "\n            type: Cat"
  {
  }

  /** The unit-test case: the `Cat` library, line by line. */
  lemma PatchCat()
    ensures PatchRamlData(
              "#%RAML 1.0 Library" +
              "\ntypes:" +
              "\n  Cat:" +
              "\n    type: string",
              "Cat") ==
            "#%RAML 1.0" +
            "\ntypes:" +
            "\n  Cat:" +
            "\n    type: string" +
            "\n" +
            "\n/for/conversion/Cat:" +
            "\n  get:" +
            "\n    responses:" +
            "\n      200:" +
            "\n        body:" +
            "\n          application/json:" +
            "\n            type: Cat"
  {
    var rest := "\ntypes:" + "\n  Cat:" + "\n    type: string";
    var s := "#%RAML 1.0 Library" + rest;
    assert "#%RAML 1.0 Library" + "\ntypes:" + "\n  Cat:" + "\n    type: string" == s;
    assert LibraryTag <= s;
    assert s[|LibraryTag|..] == rest;
    CatPathLine();
    CatTypeLine();
  }
}
