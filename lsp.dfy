/**
  The message envelope of the language-server proxy: the `Message` sum type,
  its classification from JSON text or from a JSON value, its conversions
  from each payload type, and its serialisation with the `jsonrpc` marker.
 */
module Lsp {
  import opened Wrappers
  import opened Json

  /*
    The four payload types. Their fields and their serde implementations are
    defined elsewhere in the proxy and are not part of this model; only their
    equality (the derived `PartialEq`) is used here.
   */
  type Request(==)
  type Notification(==)
  type Response(==)
  type Unknown(==)

  /** A protocol message: exactly one of the four payload kinds, in declaration order. */
  datatype Message =
    | Request(request: Request)
    | Notification(notification: Notification)
    | Response(response: Response)
    | Unknown(unknown: Unknown)

  /**
    How one payload type is read from and written to JSON: a partial decoder,
    and the list of members the payload contributes when flattened.
   */
  datatype Schema<!T> = Schema(decode: Json -> Option<T>, encode: T -> Fields)

  /** The schemas of the four payload types. */
  datatype Schemas = Schemas(
    request: Schema<Request>,
    notification: Schema<Notification>,
    response: Schema<Response>,
    unknown: Schema<Unknown>)

  // ---------------------------------------------------------------------------
  // Conversions into a message

  function FromRequest(x: Request): (m: Message)
    ensures m.Request? && m.request == x
  {
    Request(x)
  }

  function FromNotification(x: Notification): (m: Message)
    ensures m.Notification? && m.notification == x
  {
    Notification(x)
  }

  function FromResponse(x: Response): (m: Message)
    ensures m.Response? && m.response == x
  {
    Response(x)
  }

  function FromUnknown(x: Unknown): (m: Message)
    ensures m.Unknown? && m.unknown == x
  {
    Unknown(x)
  }

  // ---------------------------------------------------------------------------
  // Classification

  /** One trial of the untagged decoder: a message, or None if this kind rejects the value. */
  type Attempt = Json -> Option<Message>

  /** Tries the attempts in order; the first that accepts the value decides. */
  function FirstMatch(attempts: seq<Attempt>, v: Json): (r: Option<Message>)
    ensures r.None? <==> forall i :: 0 <= i < |attempts| ==> attempts[i](v).None?
    ensures forall i :: 0 <= i < |attempts| && attempts[i](v).Some? && (forall j :: 0 <= j < i ==> attempts[j](v).None?)
                        ==> r == attempts[i](v)
  {
    if |attempts| == 0 then None
    else match attempts[0](v)
      case Some(m) => Some(m)
      case None => FirstMatch(attempts[1..], v)
  }

  /** The trials of the untagged `Message`, in the order its variants are declared. */
  function Attempts(s: Schemas): (r: seq<Attempt>)
    ensures |r| == 4
    ensures forall v :: r[0](v) == if s.request.decode(v).Some? then Some(Request(s.request.decode(v).value)) else None
    ensures forall v :: r[1](v) == if s.notification.decode(v).Some? then Some(Notification(s.notification.decode(v).value)) else None
    ensures forall v :: r[2](v) == if s.response.decode(v).Some? then Some(Response(s.response.decode(v).value)) else None
    ensures forall v :: r[3](v) == if s.unknown.decode(v).Some? then Some(Unknown(s.unknown.decode(v).value)) else None
  {
    [ v => match s.request.decode(v) case Some(x) => Some(Request(x)) case None => None,
      v => match s.notification.decode(v) case Some(x) => Some(Notification(x)) case None => None,
      v => match s.response.decode(v) case Some(x) => Some(Response(x)) case None => None,
      v => match s.unknown.decode(v) case Some(x) => Some(Unknown(x)) case None => None ]
  }

  /**
    Decoding a message from a JSON value (`TryFrom<Value>`): the first kind
    whose schema accepts the value, or a data error when none does.
   */
  function TryFrom(s: Schemas, v: Json): (r: Result<Message, Category>)
    ensures r.Ok? <==> s.request.decode(v).Some? || s.notification.decode(v).Some?
                       || s.response.decode(v).Some? || s.unknown.decode(v).Some?
    ensures r.Err? ==> r.error == Data
  {
    match FirstMatch(Attempts(s), v)
    case Some(m) => Ok(m)
    case None => Err(Data)
  }

  /**
    Decoding a message from text (`FromStr`): the leading JSON value is read and
    classified first, and only then is the rest of the text checked to be whitespace.
   */
  function FromStr(s: Schemas, parse: Parser, text: string): (r: Result<Message, Category>)
    ensures r.Ok? <==> parse(text).Some? && TryFrom(s, parse(text).value.0).Ok? && AtEnd(parse(text).value.1)
    ensures r.Ok? ==> r == TryFrom(s, parse(text).value.0)
    ensures r.Err? && r.error == Data <==> parse(text).Some? && TryFrom(s, parse(text).value.0).Err?
  {
    match parse(text)
    case None => Err(Syntax)
    case Some((v, rest)) =>
      match TryFrom(s, v)
      case Err(e) => Err(e)
      case Ok(m) => if AtEnd(rest) then Ok(m) else Err(Syntax)
  }

  // ---------------------------------------------------------------------------
  // Serialisation

  /** The protocol version stamped on every outgoing message. */
  const JsonRpcVersion: string := "2.0"

  /** The members the active variant's payload contributes. */
  function PayloadFields(s: Schemas, m: Message): Fields {
    match m
    case Request(x) => s.request.encode(x)
    case Notification(x) => s.notification.encode(x)
    case Response(x) => s.response.encode(x)
    case Unknown(x) => s.unknown.encode(x)
  }

  /**
    Serialising a message: one flat object, the `jsonrpc` member first and then
    the payload's own members, unchanged and in their order. The version is
    always "2.0", whatever version the message was read with, or none.
   */
  function Serialize(s: Schemas, m: Message): (r: Json)
    ensures r.Object? && |r.members| == 1 + |PayloadFields(s, m)|
    ensures r.members[0] == ("jsonrpc", String(JsonRpcVersion))
    ensures Lookup(r.members, "jsonrpc") == Some(String(JsonRpcVersion))
    ensures forall i :: 0 <= i < |PayloadFields(s, m)| ==> r.members[i + 1] == PayloadFields(s, m)[i]
  {
    Object([("jsonrpc", String(JsonRpcVersion))] + PayloadFields(s, m))
  }
}
