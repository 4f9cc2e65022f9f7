/**
 * The entity behaviour mixed into every domain type defined through the
 * class registry: validation against the type's shared rules, save and
 * delete against the remote store, local updates, connection queries and
 * the two renderings. An instance reads its rules through its type's
 * descriptor at every validation, so changing the descriptor changes what
 * every instance of the type checks.
 */
module UsergridEntity {
  import opened Wrappers
  import opened JsValue
  import opened Json
  import opened Attributes
  import opened Errors
  import opened Validation
  import opened Remote
  import opened EntityCore

  /** A type's descriptor (`_class._usergrid`), shared by reference by all its instances. */
  class ClassDescriptor {
    var validations: Rules

    constructor (validations: Rules)
      ensures this.validations == validations
    {
      this.validations := validations;
    }
  }

  class Entity {
    /** The owning type (`_class`). */
    const cls: ClassDescriptor
    /** The attribute map (`_data`). */
    var data: Data
    /** The last validation's errors (`_errors`). */
    var errors: ValidationErrors
    /** Every request this entity has put to the remote store, oldest first. */
    ghost var requests: seq<Request>

    /** An instance of `cls` holding `data` (what the type's factory makes of a raw entity). */
    constructor (cls: ClassDescriptor, data: Data)
      ensures this.cls == cls && this.data == data
      ensures errors == Empty() && requests == []
    {
      this.cls := cls;
      this.data := data;
      errors := Empty();
      requests := [];
    }

    /**
     * `save(cb)`: validates first; an invalid entity reports its errors and
     * nothing is sent. A valid one is handed to the SDK's save, which merges
     * the stored entity into the attributes when there is no error, and the
     * caller gets the error together with the entity itself, not the reply.
     */
    method Save(reply: SaveReply) returns (outcome: SaveOutcome, self: Entity?)
      modifies this`errors, this`data, this`requests
      ensures errors == Run(cls.validations, old(data))
      ensures errors.HasErrors() ==>
        outcome == Rejected(errors) && self == null && data == old(data) && requests == old(requests)
      ensures !errors.HasErrors() ==>
        outcome == Sent(reply.err) && self == this &&
        requests == old(requests) + [SdkSave(Attrs(old(data)))] &&
        data == if Truthy(reply.err) then old(data) else Merged(old(data), reply.entity)
    {
      var valid := IsValid();
      if !valid {
        outcome := Rejected(GetErrors());
        self := null;
        return;
      }
      requests := requests + [SdkSave(Attrs(data))];
      if !Truthy(reply.err) {
        data := Merged(data, reply.entity);
      }
      outcome := Sent(reply.err);
      self := this;
    }

    /**
     * `delete(cb)`: one DELETE request addressed by type and identifier; the
     * attributes are cleared only when the reply carries no error, and the
     * reply goes to the caller as it came.
     */
    method Delete(reply: Reply) returns (err: Value, result: Value)
      modifies this`data, this`requests
      ensures requests == old(requests) + [DeleteRequest(old(data))]
      ensures data == if Truthy(reply.err) then old(data) else Cleared()
      ensures err == reply.err && result == reply.data
    {
      var endpoint := ToJsString(Get(data, "type"));
      endpoint := endpoint + "/" + ToJsString(Or(Or(Get(data, "uuid"), Get(data, "name")), Get(data, "username")));
      var options := Http(DELETE, endpoint, Undefined);
      requests := requests + [options];
      if !Truthy(reply.err) {
        data := Cleared();
      }
      err, result := reply.err, reply.data;
    }

    /**
     * `getConnections(name, cb)`: asks the SDK for the entities connected by
     * `name`. On an error the caller gets only that error; otherwise one new
     * instance of the owning type per entity found, in the store's order.
     */
    method GetConnections(name: string, reply: ConnectionsReply) returns (err: Value, entities: Option<seq<Entity>>)
      modifies this`requests
      ensures requests == old(requests) + [SdkConnections(name)]
      ensures Truthy(reply.err) ==> err == reply.err && entities == None
      ensures !Truthy(reply.err) ==>
        err == Null && entities.Some? && |entities.value| == |reply.entities|
      ensures !Truthy(reply.err) ==> forall i :: 0 <= i < |reply.entities| ==>
        fresh(entities.value[i]) && entities.value[i].cls == cls &&
        entities.value[i].data == Some(reply.entities[i]) &&
        entities.value[i].errors == Empty() && entities.value[i].requests == []
      ensures !Truthy(reply.err) ==> forall i, j :: 0 <= i < j < |reply.entities| ==>
        entities.value[i] != entities.value[j]
    {
      requests := requests + [SdkConnections(name)];
      if Truthy(reply.err) {
        return reply.err, None;
      }
      var made: seq<Entity> := [];
      var i := 0;
      while i < |reply.entities|
        invariant 0 <= i <= |reply.entities| && |made| == i
        invariant forall k :: 0 <= k < i ==>
          fresh(made[k]) && made[k].cls == cls && made[k].data == Some(reply.entities[k]) &&
          made[k].errors == Empty() && made[k].requests == []
        invariant forall k, l :: 0 <= k < l < i ==> made[k] != made[l]
        invariant requests == old(requests) + [SdkConnections(name)]
      {
        var e := new Entity(cls, Some(reply.entities[i]));
        made := made + [e];
        i := i + 1;
      }
      return Null, Some(made);
    }

    /**
     * `updateAttributes(attrs)`: local only. Creates the attribute map if it
     * is missing, sets each given key to its given value and returns the
     * entity itself.
     */
    method UpdateAttributes(attributes: AttributeMap) returns (self: Entity)
      modifies this`data
      ensures self == this
      ensures data == Merged(old(data), attributes)
    {
      if data.None? {
        data := Some(map[]);
      }
      var rest := attributes.Keys;
      ghost var done: set<string> := {};
      while rest != {}
        invariant data.Some?
        invariant rest + done == attributes.Keys && rest !! done
        invariant data.value == Attrs(old(data)) + map k | k in done :: attributes[k]
        decreases rest
      {
        var k :| k in rest;
        data := Some(data.value[k := attributes[k]]);
        rest := rest - {k};
        done := done + {k};
      }
      assert (map k | k in done :: attributes[k]) == attributes;
      self := this;
    }

    /** `addError(name, err)`: appends one error to that attribute's list. */
    method AddError(name: string, err: Value)
      modifies this`errors
      ensures errors == old(errors).Add(name, err)
    {
      errors := errors.Add(name, err);
    }

    /** `clearErrors()`: starts a fresh, empty collection. */
    method ClearErrors()
      modifies this`errors
      ensures errors == Empty()
    {
      errors := Empty();
    }

    /** `getErrors()`: the collection the last validation left. */
    function GetErrors(): (r: ValidationErrors)
      reads this
      ensures r == errors
    {
      errors
    }

    /**
     * `validate()`: clears the errors, then runs every validator the type
     * declares for every attribute, in order, on the attribute's current
     * value, recording each truthy result; returns the new collection.
     */
    method Validate() returns (r: ValidationErrors)
      modifies this`errors
      ensures errors == Run(cls.validations, data) && r == errors
    {
      ClearErrors();
      var rules := cls.validations;
      var i := 0;
      while i < |rules|
        invariant 0 <= i <= |rules|
        invariant errors == Run(rules[..i], data)
      {
        ValidateAttribute(rules[i].0, rules[i].1, Get(data, rules[i].0));
        RunStep(rules, data, i);
        i := i + 1;
      }
      assert rules[..i] == rules;
      r := errors;
    }

    /** The inner loop of `validate()`: runs one attribute's validators in order, recording each truthy result. */
    method ValidateAttribute(name: string, validators: seq<Validator>, value: Value)
      modifies this`errors
      ensures errors == AddAll(old(errors), name, Failures(validators, value))
    {
      var j := 0;
      while j < |validators|
        invariant 0 <= j <= |validators|
        invariant errors == AddAll(old(errors), name, Failures(validators[..j], value))
      {
        var err := validators[j](value);
        RecordStep(old(errors), name, validators, value, j);
        if Truthy(err) {
          AddError(name, err);
        }
        j := j + 1;
      }
      assert validators[..j] == validators;
    }

    /** `isValid()`: validates afresh and holds exactly when no error was recorded. */
    method IsValid() returns (valid: bool)
      modifies this`errors
      ensures errors == Run(cls.validations, data)
      ensures valid <==> !errors.HasErrors()
    {
      var e := Validate();
      valid := !e.HasErrors();
    }

    /**
     * `toString()`: "{}" exactly when there is no attribute map; otherwise
     * the type when truthy, then the name in brackets, or the uuid in
     * brackets when the name is falsy.
     */
    function ToString(): (r: string)
      reads this
      ensures data.None? <==> r == "{}"
      ensures data.Some? && Truthy(Get(data, "type")) ==> StartsWith(r, ToJsString(Get(data, "type")) + "[")
      ensures data.Some? && !Truthy(Get(data, "type")) ==> StartsWith(r, "[")
      ensures data.Some? && Truthy(Get(data, "name")) ==>
        EndsWith(r, "[" + ToJsString(Get(data, "name")) + "]")
      ensures data.Some? && !Truthy(Get(data, "name")) ==>
        EndsWith(r, "[" + ToJsString(Get(data, "uuid")) + "]")
      ensures data.Some? ==> |r| == |TypePart(data)| + |ToJsString(Shown(data))| + 2
    {
      Render(data)
    }

    /**
     * `toJSON()`: nothing without an attribute map; otherwise every
     * attribute but "metadata" (and those holding undefined), with no
     * "metadata" key at any depth.
     */
    function ToJSON(): (r: Option<Json>)
      reads this
      ensures r.None? <==> data.None?
      ensures r.Some? ==> NoMetadata(r.value)
      ensures data.Some? ==> r.value.JObj? && forall k :: k in r.value.fields <==>
        k in data.value && k != MetadataKey && !data.value[k].Undefined?
      ensures data.Some? ==> forall k :: k in r.value.fields ==>
        Stringify(data.value[k]) == Some(r.value.fields[k])
    {
      Serialize(data)
    }
  }
}
