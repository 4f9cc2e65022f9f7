/**
 * The behaviour the two entity variants share and that does not change the
 * entity: how a delete request is addressed, how an entity renders as a
 * string, what it serialises to, and what a save reports.
 */
module EntityCore {
  import opened Wrappers
  import opened JsValue
  import opened Json
  import opened Attributes
  import opened Errors
  import opened Remote

  /** What `save` reports: the validation errors when it refused, or the remote error (falsy when none) when it went ahead. */
  datatype SaveOutcome = Rejected(errors: ValidationErrors) | Sent(err: Value)

  /** `_data` after the SDK's `set(null)`: a map that is present but holds no attribute. */
  function Cleared(): (r: Data)
    ensures r.Some? && forall k :: Get(r, k) == Undefined
  {
    Some(map[])
  }

  /** `s` begins with `p`. */
  predicate StartsWith(s: string, p: string) {
    |p| <= |s| && s[..|p|] == p
  }

  /** `s` ends with `p`. */
  predicate EndsWith(s: string, p: string) {
    |p| <= |s| && s[|s| - |p|..] == p
  }

  /**
   * `uuid || name || username`: the first truthy identifier in that order;
   * when none is truthy, whatever `username` holds (undefined if unset).
   */
  function Identifier(data: Data): (r: Value)
    ensures Truthy(r) <==>
      Truthy(Get(data, "uuid")) || Truthy(Get(data, "name")) || Truthy(Get(data, "username"))
    ensures Truthy(Get(data, "uuid")) ==> r == Get(data, "uuid")
    ensures !Truthy(Get(data, "uuid")) && Truthy(Get(data, "name")) ==> r == Get(data, "name")
    ensures !Truthy(Get(data, "uuid")) && !Truthy(Get(data, "name")) ==> r == Get(data, "username")
  {
    Or(Or(Get(data, "uuid"), Get(data, "name")), Get(data, "username"))
  }

  /** The one request `delete` issues: DELETE to the type, a slash and the identifier, each as a string. */
  function DeleteRequest(data: Data): (r: Request)
    ensures r.Http? && r.verb == DELETE && r.body == Undefined
    ensures r.endpoint == ToJsString(Get(data, "type")) + "/" + ToJsString(Identifier(data))
  {
    var endpoint := ToJsString(Get(data, "type")) + "/" + ToJsString(Identifier(data));
    Http(DELETE, endpoint, Undefined)
  }

  /** A uuid wins over a name and a username. */
  lemma DeleteByUuid(data: Data, t: string, u: string)
    requires Get(data, "type") == Str(t) && Get(data, "uuid") == Str(u) && u != ""
    ensures DeleteRequest(data).endpoint == t + "/" + u
  {
  }

  /** With no truthy uuid, a name wins over a username. */
  lemma DeleteByName(data: Data, t: string, n: string)
    requires Get(data, "type") == Str(t) && !Truthy(Get(data, "uuid"))
    requires Get(data, "name") == Str(n) && n != ""
    ensures DeleteRequest(data).endpoint == t + "/" + n
  {
  }

  /** With none of the three identifiers set, nothing stops the request: its path ends in "undefined". */
  lemma DeleteWithoutIdentifier(data: Data)
    requires "uuid" !in Attrs(data) && "name" !in Attrs(data) && "username" !in Attrs(data)
    ensures DeleteRequest(data).endpoint == ToJsString(Get(data, "type")) + "/undefined"
  {
  }

  /** The part of `toString()` before the bracket: the type as a string when truthy, else nothing. */
  function TypePart(data: Data): string {
    if Truthy(Get(data, "type")) then ToJsString(Get(data, "type")) else ""
  }

  /** What `toString()` puts in brackets: the name when truthy, else the uuid. */
  function Shown(data: Data): Value {
    if Truthy(Get(data, "name")) then Get(data, "name") else Get(data, "uuid")
  }

  /**
   * `toString()`: "{}" when there is no attribute map; otherwise the type
   * (only when truthy) followed by the name in brackets, or the uuid in
   * brackets when the name is not truthy.
   */
  function Render(data: Data): (r: string)
    ensures data.None? <==> r == "{}"
    ensures data.Some? ==> |r| >= 2 && r[|r| - 1] == ']'
    ensures data.Some? && Truthy(Get(data, "type")) ==> StartsWith(r, ToJsString(Get(data, "type")) + "[")
    ensures data.Some? && !Truthy(Get(data, "type")) ==> StartsWith(r, "[")
    ensures data.Some? && Truthy(Get(data, "name")) ==> EndsWith(r, "[" + ToJsString(Get(data, "name")) + "]")
    ensures data.Some? && !Truthy(Get(data, "name")) ==> EndsWith(r, "[" + ToJsString(Get(data, "uuid")) + "]")
    ensures data.Some? ==> |r| == |TypePart(data)| + |ToJsString(Shown(data))| + 2
  {
    match data
    case None => "{}"
    case Some(_) =>
      var prefix := TypePart(data);
      var shown := Shown(data);
      var r := prefix + "[" + ToJsString(shown) + "]";
      assert r[|r| - 1] == ']' && "{}"[1] == '}';
      assert (prefix + "[") + (ToJsString(shown) + "]") == r;
      assert r[|prefix| + 1..] == ToJsString(shown) + "]";
      r
  }

  /** A named entity renders the same whatever its uuid. */
  lemma RenderIgnoresUuidWhenNamed(m: AttributeMap, u: Value)
    requires "name" in m && Truthy(m["name"])
    ensures Render(Some(m)) == Render(Some(m["uuid" := u]))
  {
    assert Get(Some(m["uuid" := u]), "name") == m["name"];
    assert Get(Some(m["uuid" := u]), "type") == Get(Some(m), "type");
  }

  /** A typed, named entity renders as its type with its name in brackets. */
  lemma RenderNamed(data: Data, t: string, n: string)
    requires data.Some? && Get(data, "type") == Str(t) && Get(data, "name") == Str(n) && n != ""
    ensures Render(data) == t + "[" + n + "]"
  {
  }

  /** After a successful delete the map is empty but present, so the entity renders as "[undefined]", not "{}". */
  lemma RenderCleared()
    ensures Render(Cleared()) == "[undefined]"
  {
  }

  /**
   * `toJSON()`: no document at all (undefined) without an attribute map;
   * otherwise an object with every attribute except "metadata" and except
   * those holding undefined, and no "metadata" key at any depth.
   */
  function Serialize(data: Data): (r: Option<Json>)
    ensures r.None? <==> data.None?
    ensures r.Some? ==> NoMetadata(r.value)
    ensures data.Some? ==> r.value.JObj? && forall k :: k in r.value.fields <==>
      k in data.value && k != MetadataKey && !data.value[k].Undefined?
    ensures data.Some? ==> forall k :: k in r.value.fields ==>
      Stringify(data.value[k]) == Some(r.value.fields[k])
  {
    match data
    case None => None
    case Some(m) =>
      StringifyDropsMetadata(Obj(m));
      StringifyObject(m);
      Stringify(Obj(m))
  }

  /** Whether or not the attributes hold "metadata", the serialised entity never shows it. */
  lemma SerializeHidesMetadata(m: AttributeMap, meta: Value)
    ensures Serialize(Some(m[MetadataKey := meta])) == Serialize(Some(m - {MetadataKey}))
  {
    var a := m[MetadataKey := meta];
    var b := m - {MetadataKey};
    StringifyObject(a);
    StringifyObject(b);
    assert Stringify(Obj(a)).value.fields == Stringify(Obj(b)).value.fields;
  }
}
