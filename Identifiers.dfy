/**
 * What the client and the server share: identifiers, sessions and payloads.
 *
 * omu's `Identifier` class is not part of this model. An identifier is taken
 * to be a namespace with a path of names, and `id / name` to append one name
 * to the path; `is_subpart_of` is never given a body here and enters the
 * operations that need it as a parameter.
 */
module Identifiers {

  /** A serialized item, as it travels between client and server. */
  type Bytes = seq<bv8>

  datatype Identifier = Identifier(namespace: string, path: seq<string>)

  /** `id / name` */
  function Child(id: Identifier, name: string): Identifier {
    Identifier(id.namespace, id.path + [name])
  }

  /** A child identifier is never its parent, and different names give different children. */
  lemma ChildInjective(id: Identifier, a: string, b: string)
    ensures Child(id, a) != id
    ensures Child(id, a) == Child(id, b) <==> a == b
  {
    if Child(id, a) == Child(id, b) {
      assert Child(id, a).path[|id.path|] == Child(id, b).path[|id.path|];
    }
  }

  /**
   * A connected client, as the server sees it. `handle` stands for the
   * session object's identity; `appKey` is `session.app.key()` and `appId` is
   * `session.app.id`.
   */
  datatype Session = Session(handle: nat, appKey: string, appId: Identifier)
}
