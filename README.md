# Usergrid entity layer, modelled in Dafny

This project models the entity behaviour layer of a service whose records
live in a remote Usergrid entity store. That layer gives plain attribute maps
validation, a save/delete lifecycle, local attribute updates and two
renderings (a diagnostic string and a JSON document). It comes in two nearly
identical variants. `UsergridEntity` reads its validation rules from the
owning type's shared descriptor and can query connections. `Usergrid` keeps
rules on each instance, set with `validates`. The `User` model is built on the
second variant.

Modules, leaves first:

- `Wrappers`: `Option`.
- `JsValue`: JavaScript values (`Value`), truthiness (`Truthy`), `a || b`
  (`Or`) and conversion to a string (`ToJsString`). The source branches on
  truthiness throughout (`if (err)`, `if (this._data.name)`,
  `uuid || name || username`), so the model does too.
- `Json`: the document `JSON.stringify` builds with the layer's replacer,
  which drops `metadata` keys (`Stringify`, `NoMetadata`).
- `Errors`: the `ValidationErrors` collection, an ordered list of
  (attribute, errors) entries with `Add`, `For` and `HasErrors`.
- `Attributes`: the attribute map `_data` (`Data`, absent until first update
  or load), the SDK's `get`, and the merge `updateAttributes` performs.
- `Validation`: the validation pipeline as a function of the rules and the
  attributes (`Run`), with lemmas on what it records.
- `Remote`: the requests put to the remote store and the replies that come
  back.
- `EntityCore`: the read-only behaviour both variants share. It covers how a
  delete is addressed, how `toString` renders and what `toJSON` serialises.
- `UsergridEntity`: `ClassDescriptor` (the shared `_class._usergrid`) and the
  `Entity` class with its mutating operations.
- `Usergrid`: the older variant's `Entity` class, which has `Validates` and no
  connection query.
- `User`: the User rules, the token request, and a `User` class that holds
  its older-variant entity.

Each entity is a class. Its fields are `data` (`_data`), `errors` (`_errors`),
its rules (the descriptor or `validations`) and a ghost log `requests` of
every remote request it has issued. The reply a remote call would deliver to
its callback is a parameter of the method. So "an invalid save issues no
request" is stated as `requests == old(requests)`.

Assumptions about code that is not part of this model:

- The usergrid SDK's `get(k)` reads one key. A missing key, or a missing map,
  reads as undefined.
- `set(k, v)` writes one key. `set(null)` leaves an empty map (`Cleared`).
- On a reply without error, the SDK's `save` merges the stored entity's
  attributes into `_data`.
- The type factory `_class.new(raw)` yields a new instance of that type that
  holds `raw` as its attributes.
- `translateSDKCallback` passes the SDK's error through unchanged.
- `validators.required` is not part of this model. The User constructor takes
  it as a parameter, and nothing is assumed about what it returns.

## Model

| member | source | states |
|---|---|---|
| `UsergridEntity.ClassDescriptor.constructor` | common/lib/usergrid/usergrid_entity.js:80 | a type's descriptor holds the given rules; instances keep a reference to it, not a copy |
| `UsergridEntity.Entity.constructor` | common/lib/usergrid/usergrid_entity.js:12-16 | a new instance of the given type holds the given attributes, an empty error collection and no requests |
| `UsergridEntity.Entity.Save` | common/lib/usergrid/usergrid_entity.js:18-25 | validates first; if there are errors it returns them and issues no request and changes no attribute; otherwise it issues one SDK save of the current attributes, merges the stored entity when the reply has no error, and returns the reply's error with the entity itself |
| `UsergridEntity.Entity.Delete` | common/lib/usergrid/usergrid_entity.js:27-39 | issues exactly the request `DeleteRequest` of the attributes; clears the attributes only when the reply's error is falsy; returns the reply's error and data unchanged |
| `UsergridEntity.Entity.GetConnections` | common/lib/usergrid/usergrid_entity.js:41-51 | issues one connection query; on an error returns only that error; otherwise returns one fresh, distinct instance of the owning type per reply entity, in reply order, each holding that entity's attributes |
| `UsergridEntity.Entity.UpdateAttributes` | common/lib/usergrid/usergrid_entity.js:53-61 | the attributes become `Merged(old, attrs)`: the map exists, each given key holds its given value, other keys are unchanged; returns the entity itself |
| `UsergridEntity.Entity.AddError` | common/lib/usergrid/usergrid_entity.js:65-67 | the error is appended to that attribute's list in the collection |
| `UsergridEntity.Entity.ClearErrors` | common/lib/usergrid/usergrid_entity.js:69-71 | the collection becomes a new empty one |
| `UsergridEntity.Entity.GetErrors` | common/lib/usergrid/usergrid_entity.js:73-75 | returns the collection the last validation or clear left |
| `UsergridEntity.Entity.Validate` | common/lib/usergrid/usergrid_entity.js:77-89 | the collection becomes `Run` of the type's current shared rules on the current attributes, fully recomputed from empty, and is returned |
| `UsergridEntity.Entity.ValidateAttribute` | common/lib/usergrid/usergrid_entity.js:82-86 | runs every validator of one attribute in order and records each truthy result against it, with no early exit |
| `UsergridEntity.Entity.IsValid` | common/lib/usergrid/usergrid_entity.js:91-93 | recomputes the errors and holds exactly when the new collection has none |
| `UsergridEntity.Entity.ToString` | common/lib/usergrid/usergrid_entity.js:97-112 | "{}" exactly when there is no attribute map; otherwise exactly the type when truthy (else nothing), then the name in brackets, or the uuid in brackets when the name is falsy: it begins with the first part, ends with the bracketed part, and its length is theirs together |
| `UsergridEntity.Entity.ToJSON` | common/lib/usergrid/usergrid_entity.js:114-120 | no document exactly when there is no attribute map; otherwise an object with exactly the attributes other than "metadata" that are not undefined, each serialised by the same rules, and no "metadata" key at any depth |
| `Usergrid.Entity.constructor` | common/lib/usergrid/usergrid.js:12-16 | a new instance holds the given attributes, no rules, an empty error collection and no requests |
| `Usergrid.Entity.Save` | common/lib/usergrid/usergrid.js:18-25 | as the registry variant, validating with the instance's own rules: an invalid save returns the errors and issues no request; a valid one issues one SDK save and returns the error with the entity itself |
| `Usergrid.Entity.Delete` | common/lib/usergrid/usergrid.js:27-39 | issues the DELETE request to type/(uuid, name or username); clears the attributes on success and leaves them untouched on error |
| `Usergrid.Entity.UpdateAttributes` | common/lib/usergrid/usergrid.js:42-49 | creates the map if missing, sets each given key to its given value, leaves other keys alone and returns the entity itself |
| `Usergrid.Entity.Validates` | common/lib/usergrid/usergrid.js:53-55 | the instance's rules become exactly the given rules |
| `Usergrid.Entity.AddError` | common/lib/usergrid/usergrid.js:57-59 | the error is appended to that attribute's list |
| `Usergrid.Entity.ClearErrors` | common/lib/usergrid/usergrid.js:61-63 | the collection becomes a new empty one |
| `Usergrid.Entity.GetErrors` | common/lib/usergrid/usergrid.js:65-67 | returns the collection the last validation or clear left |
| `Usergrid.Entity.Validate` | common/lib/usergrid/usergrid.js:69-80 | the collection becomes `Run` of exactly the rules last installed by `Validates`, on the current attributes, recomputed from empty |
| `Usergrid.Entity.ValidateAttribute` | common/lib/usergrid/usergrid.js:73-77 | runs every validator of one attribute in order and records each truthy result, with no early exit |
| `Usergrid.Entity.IsValid` | common/lib/usergrid/usergrid.js:82-84 | recomputes the errors and holds exactly when there are none |
| `Usergrid.Entity.ToString` | common/lib/usergrid/usergrid.js:88-103 | "{}" exactly when there is no attribute map; otherwise exactly the type when truthy (else nothing), then "[name]", or "[uuid]" when the name is falsy: prefix, suffix and total length are all fixed |
| `Usergrid.Entity.ToJSON` | common/lib/usergrid/usergrid.js:105-111 | no "metadata" key at any depth; every other attribute that is not undefined is kept; no document exactly when there is no attribute map |
| `User.UserRules` | common/lib/usergrid/user.js:16-18 | the User rule literal: it declares only `username` (with the single validator `required`), and no name twice |
| `User.UserValidation` | common/lib/usergrid/user.js:16-18 | under the User rules, `username` gets exactly the truthy result of `required`, every other attribute gets no error, and the User is valid exactly when `required` returns a falsy result on its username |
| `User.TokenRequest` | common/lib/usergrid/user.js:22-30 | POST to "token" whose body has exactly the fields username (the entity's current username), password (the argument as given) and grant_type ("password") |
| `User.User.constructor` | common/lib/usergrid/user.js:14-18 | a new User's entity has exactly the rule set mapping `username` to the single validator `required` |
| `User.User.GetAccessToken` | common/lib/usergrid/user.js:21-32 | issues exactly `TokenRequest` of the current attributes and password; returns the reply untouched; attributes, errors and rules are unchanged |
| `Errors.ValidationErrors.Add` | common/lib/usergrid/usergrid_entity.js:65-67 | the error joins the end of that attribute's list, no other attribute's list changes, and the collection then has errors |
| `Errors.Empty` | common/lib/usergrid/usergrid_entity.js:70 | `new ValidationErrors()`: no errors for any attribute, and one entry per attribute (none) |
| `Errors.ValidationErrors.For` | common/lib/usergrid/usergrid_entity.js:66 | the list of errors recorded against one attribute; when it is non-empty, `hasErrors()` holds |
| `Errors.AddKeepsWellFormed` | common/lib/usergrid/usergrid_entity.js:66 | `addError` keeps exactly one entry per attribute |
| `Errors.HasErrorsMeaning` | common/lib/usergrid/usergrid_entity.js:92 | in a collection with one entry per attribute, `hasErrors()` holds exactly when some attribute's list is non-empty |
| `Attributes.Get` | common/lib/usergrid/usergrid_entity.js:82 | a present key reads as its value; an attribute missing from the map (or with no map at all) reads as undefined |
| `Attributes.Merged` | common/lib/usergrid/usergrid_entity.js:54-61 | the merged map exists, maps each given key to its given value, agrees with the old map on every other key, and has exactly the old and the given keys |
| `Attributes.GetAfterUpdate` | common/lib/usergrid/usergrid_entity.js:57-59 | reading a key right after updating it yields the value written |
| `Attributes.UpdatesCompose` | common/lib/usergrid/usergrid_entity.js:57-59 | two successive updates equal one update with their union, in which the later update wins on shared keys |
| `Attributes.UpdateWithNothing` | common/lib/usergrid/usergrid_entity.js:55 | an update with no keys only makes a missing map present |
| `Validation.Run` | common/lib/usergrid/usergrid_entity.js:77-89 | the collection `validate()` leaves always has one entry per attribute, so `HasErrorsMeaning` applies to it; what it records is stated by `DeclaredErrors`, `UndeclaredHasNoErrors` and `RunHasErrorsIff` below |
| `Validation.AddAllWellFormed` | common/lib/usergrid/usergrid_entity.js:85 | the repeated `addError` of one attribute's failures (`AddAll`) keeps one entry per attribute; `AddAllFor` and `AddAllHasErrors` below state what it records |
| `Validation.Failures` | common/lib/usergrid/usergrid_entity.js:83-86 | the recorded results are all truthy and at most one per validator |
| `Validation.FailuresSplit` | common/lib/usergrid/usergrid_entity.js:83-86 | no early exit: the failures of a validator list are the failures of any split of it, joined in order |
| `Validation.AllFailuresRecorded` | common/lib/usergrid/usergrid_entity.js:83-86 | when every validator fails, every result is recorded, in declared order |
| `Validation.NoFailuresIff` | common/lib/usergrid/usergrid_entity.js:83-86 | nothing is recorded exactly when no validator returns a truthy result |
| `Validation.AddAllFor` | common/lib/usergrid/usergrid_entity.js:85 | recording errors against one attribute extends its list by them, in order, and no other list |
| `Validation.AddAllHasErrors` | common/lib/usergrid/usergrid_entity.js:85 | after recording, the collection has errors exactly when it had or some were recorded |
| `Validation.UndeclaredHasNoErrors` | common/lib/usergrid/usergrid_entity.js:81-87 | an attribute without rules gets no errors |
| `Validation.DeclaredErrors` | common/lib/usergrid/usergrid_entity.js:79-88 | a declared attribute's errors are exactly the truthy results of its own validators on its current value, in declared order |
| `Validation.RunHasErrorsIff` | common/lib/usergrid/usergrid_entity.js:91-93 | validation leaves no error exactly when every declared validator returns a falsy result on its attribute |
| `Validation.RunReadsDeclaredOnly` | common/lib/usergrid/usergrid_entity.js:81-82 | validation depends only on the values of the attributes the rules name |
| `EntityCore.Cleared` | common/lib/usergrid/usergrid_entity.js:36 | `_data` after `set(null)`, under the SDK assumption: a map that is present and holds no attribute |
| `EntityCore.Identifier` | common/lib/usergrid/usergrid_entity.js:30 | the first truthy of uuid, name, username; when none is truthy, username's value; truthy exactly when one of them is |
| `EntityCore.DeleteRequest` | common/lib/usergrid/usergrid_entity.js:29-34 | method DELETE, no body, endpoint the type as a string, "/" and the identifier as a string |
| `EntityCore.DeleteByUuid` | common/lib/usergrid/usergrid_entity.js:30 | with a non-empty uuid the endpoint is type/uuid, whatever name and username hold |
| `EntityCore.DeleteByName` | common/lib/usergrid/usergrid_entity.js:30 | with a falsy uuid and a non-empty name the endpoint is type/name |
| `EntityCore.DeleteWithoutIdentifier` | common/lib/usergrid/usergrid_entity.js:30 | with no uuid, name or username the request still goes out, to a path ending in "/undefined" |
| `EntityCore.Render` | common/lib/usergrid/usergrid_entity.js:97-112 | "{}" exactly when there is no map; otherwise begins with the type when truthy (else with "["), ends with "[name]" when the name is truthy, else "[uuid]", and is exactly as long as those two parts, so nothing lies between them |
| `EntityCore.RenderIgnoresUuidWhenNamed` | common/lib/usergrid/usergrid_entity.js:103-107 | a named entity renders the same whatever its uuid |
| `EntityCore.RenderCleared` | common/lib/usergrid/usergrid_entity.js:36 | under the `set(null)` assumption (an empty map is left), after a successful delete the entity renders as "[undefined]", not "{}", because the map is emptied rather than removed |
| `EntityCore.RenderNamed` | common/lib/usergrid/usergrid_entity.js:99-104 | a typed, named entity renders as type[name] |
| `EntityCore.Serialize` | common/lib/usergrid/usergrid_entity.js:114-120 | no document exactly when there is no map; otherwise an object with exactly the keys other than "metadata" whose value is not undefined, each serialised by the same rules, and no "metadata" key at any depth |
| `EntityCore.SerializeHidesMetadata` | common/lib/usergrid/usergrid_entity.js:115-118 | adding or changing a top-level "metadata" attribute never changes the serialised entity |
| `Json.Stringify` | common/lib/usergrid/usergrid_entity.js:115-118 | a value serialises to nothing exactly when it is undefined |
| `Json.StringifyDropsMetadata` | common/lib/usergrid/usergrid_entity.js:115-118 | the replacer applies at every depth: no object in the document has a "metadata" key |
| `Json.StringifyObject` | common/lib/usergrid/usergrid_entity.js:115-118 | an object keeps exactly its keys other than "metadata" whose value is not undefined, each serialised by the same rules |

## Left out

- Network I/O, callbacks and their asynchronous order. Each remote call is
  one synchronous step. The request goes into the ghost `requests` log and
  the reply is a parameter.
- The usergrid SDK's `save`, `getConnections`, `get` and `set`, and the
  request helper: they are foreign code, and the assumptions above stand in
  for them. The shape of the SDK's own save and connection requests is not
  modelled; they are logged as `SdkSave` and `SdkConnections`.
- The source of `ValidationErrors` and `validators.required` is not part of
  this model. `ValidationErrors` is modelled abstractly. `required` is an
  opaque validator supplied by the caller.
- The registry's `define`, which wires a constructor to its descriptor and
  factory, is not part of this model. `cls` is fixed at construction.
- `this._errors = {}` before the first validation is a plain object. It is
  modelled as an empty collection. In the source, `addError` or
  `getErrors().hasErrors()` called before the first validation throws a
  TypeError, because `{}` has neither method. The model lets both succeed.
- Aliasing of error collections: collections are values here, and
  `getErrors` hands out a copy. In the source it hands out the object
  itself. Validation always starts a new object, so an old collection never
  changes either way. Only a later direct `addError` call, which would
  also change a caller's reference to the current object, is not modelled.
- Numbers are integers. Fractions, NaN and infinities, with their
  truthiness and string forms, are not modelled.
- Object key order: objects are maps. The key order `JSON.stringify` and
  `_.each` would follow is not modelled, and neither are the characters of
  the JSON text.
- Validators are pure total functions. A validator with side effects, or
  one that throws, is not modelled.
- `User`: a User holds its entity instead of being that entity, because there
  is no mixin. Operations of the entity are reached through `entity`.
- No operation refuses to act on an entity without an identifier, or on a
  deleted one. The source has no such guard, and `DeleteWithoutIdentifier`
  states what happens instead.
