# Message envelope of lsp-ws-proxy, modelled in Dafny

The proxy passes JSON-RPC 2.0 messages between a WebSocket client and a
language server. `src/lsp/mod.rs` defines the `Message` type those messages
are read into: an untagged sum of four payload kinds (Request, Notification,
Response and the catch-all Unknown). It also defines how a message is read
from JSON text or from an already-parsed JSON value, how each payload is
lifted into a message, and how a message is written back out with the
`"jsonrpc": "2.0"` member that section 4, section 4.1 and section 5 of the
JSON-RPC 2.0 Specification require on every request, notification and
response object.

Files:

- `wrappers.dfy`: module `Wrappers`, the `Option` and `Result` datatypes.
- `json.dfy`: module `Json`, the slice of serde_json the layer relies on.
  It holds the JSON value with ordered object members, the `Syntax`/`Data`
  error categories, member lookup, and reading a text as one value followed
  only by whitespace.
- `lsp.dfy`: module `Lsp`, the model of `src/lsp/mod.rs`. It holds the
  `Message` datatype, the `From` conversions, the ordered untagged decoder
  (`FirstMatch`, `TryFrom`), the text entry point (`FromStr`) and the
  serialiser (`Serialize`).
- `properties.dfy`: module `MessageProperties`, lemmas about the model.

The payload types are opaque. Their serde implementations live in files
outside this model, so each one is given to the model as a `Schema`: a
partial decoder `Json -> Option<T>` and the list of members the payload
contributes when flattened. Text parsing is a parameter too. It is a
`Parser` that returns the leading JSON value and the text left after it.
This lets the model keep serde_json's order of work in `from_str`: read the
value, classify it, then check that only whitespace remains.

Classification of well-formed JSON is total only if Unknown's own decoder
accepts the value. That decoder is not part of this model, so `TryFrom`
fails with a data error exactly when all four decoders reject the value.
`WellFormedTextClassifies` states totality under that condition.

## Model

| member | source | states |
|---|---|---|
| `Lsp.FromRequest` | src/lsp/mod.rs:31-35 | the result is the Request variant holding the argument unchanged |
| `Lsp.FromNotification` | src/lsp/mod.rs:37-41 | the result is the Notification variant holding the argument unchanged |
| `Lsp.FromResponse` | src/lsp/mod.rs:43-47 | the result is the Response variant holding the argument unchanged |
| `Lsp.FromUnknown` | src/lsp/mod.rs:49-53 | the result is the Unknown variant holding the argument unchanged |
| `Lsp.FirstMatch` | src/lsp/mod.rs:19-29 | the untagged trial fails exactly when every attempt rejects the value; otherwise it returns what the earliest accepting attempt returns |
| `Lsp.TryFrom` | src/lsp/mod.rs:63-69 | decoding a value succeeds exactly when at least one of the four schemas accepts it; every failure is a data error |
| `Lsp.FromStr` | src/lsp/mod.rs:55-61 | decoding text succeeds exactly when a value can be read, it classifies, and only whitespace follows; the message is then the one the value decodes to; a data error arises exactly when a value was read but no schema accepts it |
| `Lsp.Serialize` | src/lsp/mod.rs:71-117 | the output is one flat object whose first member is `jsonrpc` "2.0" (so lookup of `jsonrpc` finds "2.0", whatever version the input carried or omitted), followed by the payload's own members, unchanged and in order |
| `MessageProperties.ClassifiesAsRequest` | src/lsp/mod.rs:19-29 | a value is a Request with payload x exactly when the request schema decodes it to x, whatever the later schemas say |
| `MessageProperties.ClassifiesAsNotification` | src/lsp/mod.rs:19-29 | a value is a Notification with payload x exactly when the request schema rejects it and the notification schema decodes it to x |
| `MessageProperties.ClassifiesAsResponse` | src/lsp/mod.rs:19-29 | a value is a Response with payload x exactly when both call schemas reject it and the response schema decodes it to x |
| `MessageProperties.ClassifiesAsUnknown` | src/lsp/mod.rs:150-156 | a value is Unknown with payload x exactly when the three known schemas all reject it and the catch-all decodes it to x |
| `MessageProperties.FromStrAgreesWithTryFrom` | src/lsp/mod.rs:55-69 | for well-formed text, reading the text as a message equals reading it as a value and then classifying the value; malformed text fails both ways |
| `MessageProperties.WrittenValueClassifiesAlike` | src/lsp/mod.rs:126-156 | a value written as text and read back classifies exactly as the value does |
| `MessageProperties.FailureCategoryFollowsReadingOrder` | src/lsp/mod.rs:55-61 | an unclassifiable value followed by trailing text is a data error for `from_str` but a syntax error for reading the plain value |
| `MessageProperties.WellFormedTextClassifies` | src/lsp/mod.rs:28 | well-formed text whose value the catch-all accepts always yields a message |
| `MessageProperties.SerializeDependsOnlyOnPayload` | src/lsp/mod.rs:84-116 | two messages whose active payloads write the same members serialise to the same object |
| `MessageProperties.SerializeAddsOnlyVersion` | src/lsp/mod.rs:77-82 | once every `jsonrpc` member is removed from both, the serialised object's members equal the payload's members, so the payload is flattened with no wrapper |
| `MessageProperties.SerializeThenClassify` | src/lsp/mod.rs:19-117 | when a kind's schema reads its own serialised form back and the earlier schemas reject it, classifying the serialised message gives the message back |
| `MessageProperties.NormalisationIsStable` | src/lsp/mod.rs:19-117 | when the message's own schema reads its serialised form back as a payload writing the same members and the earlier schemas reject that form, re-classifying keeps the kind and serialising again reproduces the same object |

## Left out

- The `framed` and `error` modules (src/lsp/mod.rs:1-2): transport framing and codec errors are I/O. They are not part of this model.
- The payload types in `request`, `notification`, `response` and `types` (src/lsp/mod.rs:3-6, 17) are not part of this model. Their decoders and encoders are parameters, so no method names or parameter shapes are modelled.
- serde_json's lexer is a parameter (`Parser`). Its end-of-input errors are counted as syntax errors, and I/O errors cannot occur on in-memory text.
- serde's buffering of an untagged enum's input is modelled as decoding the same JSON value again for each variant. The model assumes the buffered content read from text is the same as the one read from a parsed value. The model's objects keep members in the order written, as the buffered content read from text does; a parsed value built without serde_json's `preserve_order` feature stores its keys sorted, so `try_from` sees members in key order, which the model does not capture.
- MessageProperties.FromStrAgreesWithTryFrom: holds only for texts without duplicate keys. A parsed value keeps only the last of duplicate keys, but the buffered content read from text keeps every member, and a derived struct decoder rejects a duplicate field. So a text such as `{"id":1,"id":2,"method":"m"}` can classify differently when read as text than when parsed to a value first. The single `Parser` parameter shared by both readers does not capture this.
- JSON numbers are unbounded integers. Floating-point numbers and the i64/u64 distinction play no part in this layer.
- Lsp.Serialize: writes into a JSON value, not through a generic serde `Serializer`. Its failure path, for a payload that does not serialise as a map or struct when flattened, belongs to the payload types and is not modelled.
- Duplicate keys are not modelled. If a payload's own members include a `jsonrpc` key, the output depends on the payload's definition and on how serde_json writes it. The serialiser is stated only as putting the `jsonrpc` member first, ahead of the payload's members, which may then include a second `jsonrpc` member.
- The WebSocket proxy and its concurrency do not appear in this file and are not modelled.
