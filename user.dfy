/**
 * The User model: an entity of the older variant whose constructor
 * declares `username` as required, with one extra operation that asks the
 * remote store for an access token by the password grant. The model
 * composes: a User holds its entity rather than being mixed into it.
 */
module User {
  import opened JsValue
  import opened Attributes
  import opened Errors
  import opened Validation
  import opened Remote
  import Usergrid

  /** The rules a User declares: `username` checked by the one validator given as `required`. */
  function UserRules(required: Validator): (r: Rules)
    ensures DistinctNames(r)
    ensures forall i :: 0 <= i < |r| ==> r[i].0 == "username"
  {
    [("username", [required])]
  }

  /**
   * A User's validation: `username` gets exactly the truthy result of
   * `required`, no other attribute gets any error, and the User is valid
   * exactly when `required` has nothing to say about its username.
   */
  lemma UserValidation(required: Validator, data: Data)
    ensures Run(UserRules(required), data).For("username") ==
      if Truthy(required(Get(data, "username"))) then [required(Get(data, "username"))] else []
    ensures forall other :: other != "username" ==> Run(UserRules(required), data).For(other) == []
    ensures !Run(UserRules(required), data).HasErrors() <==> !Truthy(required(Get(data, "username")))
  {
    var rules := UserRules(required);
    DeclaredErrors(rules, data, 0);
    assert [required][..0] == [];
    forall other | other != "username"
      ensures Run(rules, data).For(other) == []
    {
      UndeclaredHasNoErrors(rules, data, other);
    }
    RunHasErrorsIff(rules, data);
  }

  /**
   * The request `getAccessToken` issues: POST to "token" with a body of
   * exactly three fields, the entity's current username, the password as
   * given and the grant type "password".
   */
  function TokenRequest(data: Data, password: Value): (r: Request)
    ensures r.Http? && r.verb == POST && r.endpoint == "token"
    ensures r.body.Obj? && r.body.fields.Keys == {"username", "password", "grant_type"}
    ensures r.body.fields["username"] == Get(data, "username")
    ensures r.body.fields["password"] == password
    ensures r.body.fields["grant_type"] == Str("password")
  {
    var body := map["username" := Get(data, "username"), "password" := password, "grant_type" := Str("password")];
    Http(POST, "token", Obj(body))
  }

  class User {
    /** The entity this User is. */
    const entity: Usergrid.Entity

    /** `new User()`: an entity holding `data` whose rules are the User rules. */
    constructor (data: Data, required: Validator)
      ensures fresh(entity)
      ensures entity.validations == UserRules(required) && entity.data == data
      ensures entity.errors == Empty() && entity.requests == []
    {
      var e := new Usergrid.Entity(data);
      e.Validates(UserRules(required));
      entity := e;
    }

    /**
     * `getAccessToken(password, cb)`: issues the token request and hands its
     * reply to the caller untouched; the entity is neither validated nor
     * changed.
     */
    method GetAccessToken(password: Value, reply: Reply) returns (r: Reply)
      modifies entity`requests
      ensures entity.requests == old(entity.requests) + [TokenRequest(entity.data, password)]
      ensures entity.data == old(entity.data) && entity.errors == old(entity.errors)
      ensures entity.validations == old(entity.validations)
      ensures r == reply
    {
      var body := map["username" := Get(entity.data, "username"), "password" := password, "grant_type" := Str("password")];
      var options := Http(POST, "token", Obj(body));
      entity.requests := entity.requests + [options];
      r := reply;
    }
  }
}
