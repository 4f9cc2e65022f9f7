/**
 * An entity's attribute map (`_data`) and the usergrid SDK's accessors on it.
 * The SDK itself is not part of this model; `get` and `set` are assumed to be
 * a plain read and a plain write of one key, and the map may be missing
 * altogether (an entity nobody has loaded or updated yet).
 */
module Attributes {
  import opened Wrappers
  import opened JsValue

  type AttributeMap = map<string, Value>

  /** `_data`: None until the first update or load. */
  type Data = Option<AttributeMap>

  /** The attributes, with a missing map read as an empty one. */
  function Attrs(data: Data): AttributeMap {
    if data.None? then map[] else data.value
  }

  /** `get(key)`: the attribute's value, undefined when the key (or the whole map) is missing. */
  function Get(data: Data, key: string): (r: Value)
    ensures key in Attrs(data) ==> r == Attrs(data)[key]
    ensures key !in Attrs(data) ==> r == Undefined
  {
    if key in Attrs(data) then Attrs(data)[key] else Undefined
  }

  /**
   * The map `updateAttributes(attrs)` leaves: created if it was missing,
   * every given key set to its given value, every other key as it was.
   */
  function Merged(data: Data, attrs: AttributeMap): (r: Data)
    ensures r.Some?
    ensures forall k :: k in attrs ==> k in r.value && r.value[k] == attrs[k]
    ensures forall k :: k !in attrs ==> Get(r, k) == Get(data, k)
    ensures r.value.Keys == Attrs(data).Keys + attrs.Keys
  {
    Some(Attrs(data) + attrs)
  }

  /** Reading a key right after updating it returns the value just written. */
  lemma GetAfterUpdate(data: Data, key: string, v: Value)
    ensures Get(Merged(data, map[key := v]), key) == v
  {
  }

  /** Two updates in a row: the later one wins on every key they share, as one combined update would. */
  lemma {:induction false} UpdatesCompose(data: Data, first: AttributeMap, second: AttributeMap)
    ensures Merged(Merged(data, first), second) == Merged(data, first + second)
    ensures forall k :: k in second ==> Get(Merged(Merged(data, first), second), k) == second[k]
  {
    assert Attrs(Merged(data, first)) + second == Attrs(data) + (first + second);
  }

  /** Updating with an empty map only makes a missing map present. */
  lemma UpdateWithNothing(data: Data)
    ensures Merged(data, map[]) == Some(Attrs(data))
  {
    assert Attrs(data) + map[] == Attrs(data);
  }
}
