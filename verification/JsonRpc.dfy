/**
 JSON-RPC messages as both ends of the daemon see them: an id, a method and a
 body that nobody looks into (sections 4 and 5 of the JSON-RPC 2.0
 specification). JSON text itself is not modelled.
 */
module JsonRpc {
  import opened Wrappers
  import opened Text

  /** The raw value of an "id" member. */
  datatype JsonId = Number(n: int) | Text(s: string) | Null | OtherValue(raw: string)

  /** parseResponseID: numbers, strings that spell a number, and null, which decodes as zero. */
  function ParseResponseID(id: JsonId): Option<int> {
    match id
    case Number(n) => if IsInt64(n) then Some(n) else None
    case Text(s) => ParseInt64(s)
    case Null => Some(0)
    case OtherValue(_) => None
  }

  /** A decoded message; an empty method is an absent one. Garbage is what does not decode. */
  datatype Message = Message(id: Option<JsonId>, methodName: string, body: string) | Garbage(raw: string)

  const METHOD_INITIALIZE: string := "initialize"
  const METHOD_INITIALIZED: string := "initialized"
  const METHOD_SHUTDOWN: string := "shutdown"

  predicate IsResponse(m: Message) {
    m.Message? && m.id.Some? && m.methodName == ""
  }

  predicate IsRequest(m: Message) {
    m.Message? && m.id.Some? && m.methodName != ""
  }

  /** rewriteJSONID: only the id changes, and what does not decode is passed on as it is. */
  function RewriteID(m: Message, id: JsonId): Message {
    match m
    case Message(_, _, _) => m.(id := Some(id))
    case Garbage(_) => m
  }
}
