/**
 The decoded JSON value of a Gmail message, as the mail helpers see it.

 A Gmail `format=full` message is a JSON object; its `payload` is a MIME part,
 and every multipart part carries its children under `parts`. The helpers
 dispatch on whether a value is a dict, a list or something else, so the model
 keeps exactly those cases. A dict records the keys the helpers read, a key
 being present exactly when its field is `Some`, and whether it holds any other
 key, which matters only when the dict is iterated.
 */
module MessageTree {

  datatype Option<+T> = None | Some(value: T) {
    /** `d.get(key, default)` */
    function GetOr(default: T): T {
      if Some? then value else default
    }
  }

  /** What one of the helpers produces: a string, Python's None, or an exception. */
  datatype Outcome = Found(text: string) | NotFound | Raised

  /** Python truthiness of a helper's result: only a non-empty string is true. */
  predicate Truthy(o: Outcome) {
    o.Found? && o.text != ""
  }

  /** A first-match `for` loop leaves at an element whose call raised or gave truthy text. */
  predicate Stops(o: Outcome) {
    o.Raised? || Truthy(o)
  }

  /** Python truthiness of an optional string. */
  predicate Filled(o: Option<string>) {
    o.Some? && o.value != ""
  }

  /** The `body` dict of a MIME part: base64url `data` and, for attachments, `attachmentId`. */
  datatype Body = Body(data: Option<string>, attachmentId: Option<string>)

  /** One entry of `payload.headers`. */
  datatype Header = Header(name: Option<string>, value: Option<string>)

  datatype Value =
    | Dict(mimeType: Option<string>, body: Option<Body>, parts: Option<Value>,
           payload: Option<Value>, headers: Option<seq<Header>>, filename: Option<string>,
           otherKeys: bool)  // the dict holds keys besides these six
    | List(items: seq<Value>)
    | Str(s: string)
    | Atom  // a number, a boolean or null
  {
    /** `{}`: a dict with no key at all. */
    predicate IsEmptyDict() {
      Dict? && mimeType.None? && body.None? && parts.None? && payload.None? && headers.None? && filename.None? && !otherKeys
    }
  }

  const EmptyDict: Value := Dict(None, None, None, None, None, None, false)

  /** `part.get('body', {}).get('data')` */
  function BodyData(part: Value): Option<string>
    requires part.Dict?
  {
    if part.body.Some? then part.body.value.data else None
  }

  /** `sub in s` for two strings. */
  predicate HasSubstring(s: string, sub: string)
    decreases |s|
  {
    if |s| < |sub| then false
    else s[..|sub|] == sub || HasSubstring(s[1..], sub)
  }

  /**
   The shape the Gmail API gives a message: every value reached is a dict, and
   every `parts` value is a list of parts.
   */
  ghost predicate Shaped(v: Value)
    decreases v
  {
    && v.Dict?
    && (v.parts.Some? ==>
          && v.parts.value.List?
          && forall i :: 0 <= i < |v.parts.value.items| ==> Shaped(v.parts.value.items[i]))
    && (v.payload.Some? ==> Shaped(v.payload.value))
  }
}
