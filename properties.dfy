/**
  Properties of the message envelope: which kind classification picks, how the
  text and value entry points agree, and what serialisation preserves.
 */
module MessageProperties {
  import opened Wrappers
  import opened Json
  import opened Lsp

  // ---------------------------------------------------------------------------
  // Declaration order decides the kind

  /** A value the request schema accepts is a request, whatever the later schemas say. */
  lemma ClassifiesAsRequest(s: Schemas, v: Json, x: Request)
    ensures TryFrom(s, v) == Ok(Message.Request(x)) <==> s.request.decode(v) == Some(x)
  {
  }

  /** A notification is a value the request schema rejects and the notification schema accepts. */
  lemma ClassifiesAsNotification(s: Schemas, v: Json, x: Notification)
    ensures TryFrom(s, v) == Ok(Message.Notification(x))
            <==> s.request.decode(v).None? && s.notification.decode(v) == Some(x)
  {
  }

  /** A response is a value both call schemas reject and the response schema accepts. */
  lemma ClassifiesAsResponse(s: Schemas, v: Json, x: Response)
    ensures TryFrom(s, v) == Ok(Message.Response(x))
            <==> s.request.decode(v).None? && s.notification.decode(v).None? && s.response.decode(v) == Some(x)
  {
  }

  /** The catch-all is reached only when the three known schemas all reject the value. */
  lemma ClassifiesAsUnknown(s: Schemas, v: Json, x: Unknown)
    ensures TryFrom(s, v) == Ok(Message.Unknown(x))
            <==> s.request.decode(v).None? && s.notification.decode(v).None? && s.response.decode(v).None?
                 && s.unknown.decode(v) == Some(x)
  {
  }

  // ---------------------------------------------------------------------------
  // Text and value entry points

  /**
    Reading a text as a message agrees with reading it as a JSON value and then
    classifying that value: the same message when the text is well-formed, and a
    failure when it is not.
   */
  lemma FromStrAgreesWithTryFrom(s: Schemas, parse: Parser, text: string)
    ensures ParseValue(parse, text).Ok? ==> FromStr(s, parse, text) == TryFrom(s, ParseValue(parse, text).value)
    ensures ParseValue(parse, text).Err? ==> FromStr(s, parse, text).Err?
  {
  }

  /**
    A value written out as text and read back classifies as the value itself
    does, for any writer whose output the parser reads back exactly.
   */
  lemma WrittenValueClassifiesAlike(s: Schemas, parse: Parser, write: Json -> string, v: Json)
    requires parse(write(v)) == Some((v, ""))
    ensures FromStr(s, parse, write(v)) == TryFrom(s, v)
  {
  }

  /**
    The two entry points can disagree on the category of a failure: a value that
    no schema accepts, followed by trailing text, is a data error for the message
    reader but a syntax error for the plain value reader.
   */
  lemma FailureCategoryFollowsReadingOrder(s: Schemas, parse: Parser, text: string)
    requires parse(text).Some? && !AtEnd(parse(text).value.1)
    requires TryFrom(s, parse(text).value.0).Err?
    ensures FromStr(s, parse, text) == Err(Data)
    ensures ParseValue(parse, text) == Err(Syntax)
  {
  }

  /** Once the text is well-formed, a catch-all that accepts its value makes classification succeed. */
  lemma WellFormedTextClassifies(s: Schemas, parse: Parser, text: string)
    requires ParseValue(parse, text).Ok?
    requires s.unknown.decode(ParseValue(parse, text).value).Some?
    ensures FromStr(s, parse, text).Ok?
  {
  }

  // ---------------------------------------------------------------------------
  // Serialisation

  /** Two messages whose active payloads write the same members serialise identically. */
  lemma SerializeDependsOnlyOnPayload(s: Schemas, m1: Message, m2: Message)
    requires PayloadFields(s, m1) == PayloadFields(s, m2)
    ensures Serialize(s, m1) == Serialize(s, m2)
  {
  }

  /** Apart from its `jsonrpc` members, the serialised object is the payload's members. */
  lemma SerializeAddsOnlyVersion(s: Schemas, m: Message)
    ensures Without(Serialize(s, m).members, "jsonrpc") == Without(PayloadFields(s, m), "jsonrpc")
  {
  }

  /**
    The schema of the message's own kind reads its serialised form back as the
    same payload, and every schema declared before it rejects that form.
   */
  predicate ReadsBack(s: Schemas, m: Message) {
    var w := Serialize(s, m);
    match m
    case Request(x) => s.request.decode(w) == Some(x)
    case Notification(x) => s.request.decode(w).None? && s.notification.decode(w) == Some(x)
    case Response(x) =>
      s.request.decode(w).None? && s.notification.decode(w).None? && s.response.decode(w) == Some(x)
    case Unknown(x) =>
      s.request.decode(w).None? && s.notification.decode(w).None? && s.response.decode(w).None?
      && s.unknown.decode(w) == Some(x)
  }

  /** Classification inverts serialisation for every message whose schemas read their own output back. */
  lemma SerializeThenClassify(s: Schemas, m: Message)
    requires ReadsBack(s, m)
    ensures TryFrom(s, Serialize(s, m)) == Ok(m)
  {
  }

  /**
    The schema of the message's own kind reads its serialised form back as a
    payload that writes the same members (not necessarily the same payload),
    and every schema declared before it rejects that form.
   */
  predicate ReadsBackAlike(s: Schemas, m: Message) {
    var w := Serialize(s, m);
    match m
    case Request(x) =>
      s.request.decode(w).Some? && s.request.encode(s.request.decode(w).value) == s.request.encode(x)
    case Notification(x) =>
      s.request.decode(w).None?
      && s.notification.decode(w).Some? && s.notification.encode(s.notification.decode(w).value) == s.notification.encode(x)
    case Response(x) =>
      s.request.decode(w).None? && s.notification.decode(w).None?
      && s.response.decode(w).Some? && s.response.encode(s.response.decode(w).value) == s.response.encode(x)
    case Unknown(x) =>
      s.request.decode(w).None? && s.notification.decode(w).None? && s.response.decode(w).None?
      && s.unknown.decode(w).Some? && s.unknown.encode(s.unknown.decode(w).value) == s.unknown.encode(x)
  }

  /**
    After one pass of classify-then-serialise, another pass keeps the kind and
    reproduces the same object, for a message whose schemas read their own
    output back alike.
   */
  lemma NormalisationIsStable(s: Schemas, m: Message)
    requires ReadsBackAlike(s, m)
    ensures TryFrom(s, Serialize(s, m)).Ok?
    ensures TryFrom(s, Serialize(s, m)).value.Request? == m.Request?
    ensures TryFrom(s, Serialize(s, m)).value.Notification? == m.Notification?
    ensures TryFrom(s, Serialize(s, m)).value.Response? == m.Response?
    ensures Serialize(s, TryFrom(s, Serialize(s, m)).value) == Serialize(s, m)
  {
  }
}
