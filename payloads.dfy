/** What a controller returns, opaque to the core: an object identified by a
    token, or the list that collecting a stream produces. */
module Payloads {
  datatype Payload = Atom(id: nat) | Items(elems: seq<Payload>)
}
