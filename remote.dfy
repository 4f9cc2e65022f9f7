/**
 * The remote store as the entity layer sees it: the requests it issues and
 * the replies its callbacks receive. The store, the usergrid SDK and the
 * request helper are not part of this model; each remote call is one
 * request recorded in a log, and its reply is supplied by the caller.
 */
module Remote {
  import opened JsValue
  import opened Attributes

  datatype Verb = GET | POST | PUT | DELETE

  /** One request put to the remote store. */
  datatype Request =
    | Http(verb: Verb, endpoint: string, body: Value)   // the request helper; body undefined when none
    | SdkSave(attributes: AttributeMap)                 // the SDK's entity save
    | SdkConnections(relation: string)                  // the SDK's connection query

  /** The `(err, data)` pair a request helper callback receives. */
  datatype Reply = Reply(err: Value, data: Value)

  /** What the SDK's save reports: an error (falsy when none) and the stored entity's attributes. */
  datatype SaveReply = SaveReply(err: Value, entity: AttributeMap)

  /** What the SDK's connection query reports: an error (falsy when none) and the entities found, in the store's order. */
  datatype ConnectionsReply = ConnectionsReply(err: Value, entities: seq<AttributeMap>)
}
