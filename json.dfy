/**
 * The tree `JSON.stringify(value, replacer)` serialises, for the replacer the
 * entity layer passes: one that drops every property named "metadata".
 * The characters of the output are not modelled, only the tree they encode.
 */
module Json {
  import opened Wrappers
  import opened JsValue

  /** A JSON document. */
  datatype Json =
    | JNull
    | JBool(b: bool)
    | JNum(n: int)
    | JStr(s: string)
    | JArr(elems: seq<Json>)
    | JObj(fields: map<string, Json>)

  /** The key the replacer suppresses. */
  const MetadataKey: string := "metadata"

  /** No object anywhere in the document has a "metadata" key. */
  predicate NoMetadata(j: Json)
    decreases j
  {
    match j
    case JArr(es) => forall i :: 0 <= i < |es| ==> NoMetadata(es[i])
    case JObj(fs) => MetadataKey !in fs && forall k :: k in fs ==> NoMetadata(fs[k])
    case _ => true
  }

  /**
   * What the serialiser makes of a value that the replacer let through:
   * nothing at all for undefined (an object property holding it is omitted),
   * null in place of undefined inside an array, and every object property
   * except "metadata", at every depth, because the replacer is consulted for
   * each property before the serialiser descends into its value.
   */
  function Stringify(v: Value): (r: Option<Json>)
    ensures r.None? <==> v.Undefined?
    decreases v
  {
    match v
    case Undefined => None
    case Null => Some(JNull)
    case Bool(b) => Some(JBool(b))
    case Num(n) => Some(JNum(n))
    case Str(s) => Some(JStr(s))
    case Arr(es) =>
      Some(JArr(seq(|es|, i requires 0 <= i < |es| =>
        if es[i].Undefined? then JNull else Stringify(es[i]).value)))
    case Obj(fs) =>
      Some(JObj(map k | k in fs && k != MetadataKey && !fs[k].Undefined? :: Stringify(fs[k]).value))
  }

  /** Whatever the value, the serialised document has no "metadata" key at any depth. */
  lemma {:induction false} StringifyDropsMetadata(v: Value)
    ensures Stringify(v).Some? ==> NoMetadata(Stringify(v).value)
    decreases v
  {
    match v
    case Arr(es) =>
      forall i | 0 <= i < |es|
        ensures NoMetadata(Stringify(v).value.elems[i])
      {
        StringifyDropsMetadata(es[i]);
      }
    case Obj(fs) =>
      var out := Stringify(v).value.fields;
      forall k | k in out
        ensures NoMetadata(out[k])
      {
        StringifyDropsMetadata(fs[k]);
      }
    case _ =>
  }

  /**
   * Every other property of an object survives: exactly the keys other than
   * "metadata" whose value is not undefined are kept, each with its own
   * value serialised by the same rules.
   */
  lemma StringifyObject(fs: map<string, Value>)
    ensures Stringify(Obj(fs)).Some? && Stringify(Obj(fs)).value.JObj?
    ensures forall k :: k in Stringify(Obj(fs)).value.fields <==>
      k in fs && k != MetadataKey && !fs[k].Undefined?
    ensures forall k :: k in Stringify(Obj(fs)).value.fields ==>
      Stringify(Obj(fs)).value.fields[k] == Stringify(fs[k]).value
  {
  }
}
