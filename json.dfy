/**
  The slice of serde_json the message layer relies on: the JSON value type,
  ordered object members, the error categories, and the way a text is read
  as one JSON value followed by nothing but whitespace.
 */
module Json {
  import opened Wrappers

  /** A JSON value. Object members are an ordered list. */
  datatype Json =
    | Null
    | Bool(b: bool)
    | Number(n: int)
    | String(s: string)
    | Array(items: seq<Json>)
    | Object(members: Fields)

  /** The members of a JSON object, in order. */
  type Fields = seq<(string, Json)>

  /** The categories of `serde_json::Error` that parsing and decoding can produce. */
  datatype Category =
    | Syntax  // the text is not one well-formed JSON value (end of input included)
    | Data    // the text is JSON, but no target type accepts it

  /** The value of the first member named `key`, if any. */
  function Lookup(fields: Fields, key: string): (r: Option<Json>)
    ensures r.None? <==> forall i :: 0 <= i < |fields| ==> fields[i].0 != key
    ensures forall i :: 0 <= i < |fields| && fields[i].0 == key && (forall j :: 0 <= j < i ==> fields[j].0 != key)
                        ==> r == Some(fields[i].1)
  {
    if |fields| == 0 then None
    else if fields[0].0 == key then Some(fields[0].1)
    else Lookup(fields[1..], key)
  }

  /** The members whose name is not `key`. */
  function Without(fields: Fields, key: string): (r: Fields)
    ensures forall i :: 0 <= i < |r| ==> r[i].0 != key && r[i] in fields
    ensures forall i :: 0 <= i < |fields| && fields[i].0 != key ==> fields[i] in r
  {
    if |fields| == 0 then []
    else if fields[0].0 == key then Without(fields[1..], key)
    else [fields[0]] + Without(fields[1..], key)
  }

  /**
    A reader of JSON text: the value that starts the text (after whitespace),
    and the text left over after it; None when no well-formed value starts it.
   */
  type Parser = string -> Option<(Json, string)>

  /** The four characters serde_json skips as whitespace. */
  predicate IsWhitespace(c: char) {
    c == ' ' || c == '\n' || c == '\t' || c == '\r'
  }

  /** Nothing but whitespace is left: the end-of-input check made after reading a value. */
  predicate AtEnd(rest: string) {
    forall i :: 0 <= i < |rest| ==> IsWhitespace(rest[i])
  }

  /**
    Reading a whole text as a JSON value: one value, then only whitespace.
    Any failure is a syntax error.
   */
  function ParseValue(parse: Parser, text: string): Result<Json, Category> {
    match parse(text)
    case None => Err(Syntax)
    case Some((v, rest)) => if AtEnd(rest) then Ok(v) else Err(Syntax)
  }
}
