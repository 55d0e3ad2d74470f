/**
 Body extraction from a Gmail message tree (Gmail_Interface.py).

 The body of a given MIME type `cond` is searched for first inside
 `multipart/alternative` containers (RFC 2046 section 5.1.4), then inside
 `multipart/mixed` (RFC 2046 section 5.1.3) and `multipart/related` (RFC 2387)
 ones. Base64url/UTF-8 decoding is the parameter `decode`.
 */
module GmailInterface {
  import opened MessageTree

  datatype ContainerKind = Alternative | MixedOrRelated

  /** The container test of each search. */
  predicate IsContainer(kind: ContainerKind, mimeType: Option<string>) {
    match kind
    case Alternative => mimeType == Some("multipart/alternative")
    case MixedOrRelated => mimeType == Some("multipart/mixed") || mimeType == Some("multipart/related")
  }

  // ---------------------------------------------------------------- one part

  /** `get_text_from_part`: the decoded body of a part of type `cond` whose data is non-empty. */
  function TextFromPart(part: Value, cond: string, decode: string -> string): (r: Outcome)
    ensures r.Raised? <==> !part.Dict?
    ensures r.Found? <==> part.Dict? && part.mimeType == Some(cond) && Filled(BodyData(part))
    ensures r.Found? ==> r.text == decode(BodyData(part).value)
  {
    if !part.Dict? then Raised
    else if part.mimeType == Some(cond) && Filled(BodyData(part)) then Found(decode(BodyData(part).value))
    else NotFound
  }

  // ---------------------------------------------------------------- the two searches

  /**
   The loop `for part in parts['parts']: text = get_text_from_part(part, cond)`.
   Iterating a string yields one-character strings and iterating a dict yields
   its keys; `get_text_from_part` then raises on the first of them.
   */
  function Scan(children: Value, cond: string, decode: string -> string): (r: Outcome)
    ensures r.Found? ==> r.text != ""
  {
    match children
    case List(items) => ScanList(items, cond, decode)
    case Str(s) => if s == "" then NotFound else Raised
    case Dict(_, _, _, _, _, _, _) => if children.IsEmptyDict() then NotFound else Raised
    case Atom => Raised
  }

  function ScanList(items: seq<Value>, cond: string, decode: string -> string): (r: Outcome)
    ensures r.Found? ==> r.text != ""
    decreases items
  {
    if items == [] then NotFound
    else
      var t := TextFromPart(items[0], cond, decode);
      if Stops(t) then t else ScanList(items[1..], cond, decode)
  }

  /**
   `find_first_multipart_alternative` (kind Alternative) and
   `find_first_multipart_mixed_or_related` (kind MixedOrRelated).
   */
  function Find(kind: ContainerKind, v: Value, cond: string, decode: string -> string): (r: Outcome)
    ensures r.Found? ==> r.text != ""
    decreases v
  {
    match v
    case Dict(mimeType, _, parts, _, _, _, _) =>
      var direct := if IsContainer(kind, mimeType) && parts.Some? then Scan(parts.value, cond, decode) else NotFound;
      if Stops(direct) then direct
      else if parts.Some? then Find(kind, parts.value, cond, decode)
      else NotFound
    case List(items) => FindInList(kind, items, cond, decode)
    case _ => NotFound
  }

  function FindInList(kind: ContainerKind, items: seq<Value>, cond: string, decode: string -> string): (r: Outcome)
    ensures r.Found? ==> r.text != ""
    decreases items
  {
    if items == [] then NotFound
    else
      var r := Find(kind, items[0], cond, decode);
      if Stops(r) then r else FindInList(kind, items[1..], cond, decode)
  }

  // ---------------------------------------------------------------- the message body

  /** `get_plain_text_body(message, cond)` */
  function PlainTextBody(m: Value, cond: string, decode: string -> string): (r: Outcome)
    ensures m.Dict? && m.payload.None? ==> r == NotFound
    ensures m.Dict? && m.payload.Some? && !m.payload.value.Dict? ==> r == Raised
    ensures m.Dict? && m.payload.Some? && TextFromPart(m.payload.value, cond, decode).Found? ==>
              r == TextFromPart(m.payload.value, cond, decode)
    decreases m
  {
    match m
    case Dict(_, _, _, payload, _, _, _) =>
      if payload.None? then NotFound
      else
        var p := payload.value;
        if !p.Dict? then Raised
        else
          var direct := TextFromPart(p, cond, decode);
          if direct.Found? then direct
          else
            var alt := Find(Alternative, p, cond, decode);
            if !alt.NotFound? then alt
            else
              var mixed := Find(MixedOrRelated, p, cond, decode);
              if !mixed.NotFound? then mixed
              else if p.parts.Some? && p.parts.value.List? then PartsLoop(p.parts.value.items, NotFound, cond, decode)
              else NotFound
    // `'payload' not in message` tests list membership, then `message.get` raises
    case List(items) => if Str("payload") in items then Raised else NotFound
    // `'payload' not in message` tests for a substring, then `message.get` raises
    case Str(s) => if HasSubstring(s, "payload") then Raised else NotFound
    case Atom => Raised
  }

  /**
   The final loop over the payload's parts. `last` is the variable `mess`:
   when no part gives truthy text, the loop returns the last part's result.
   */
  function PartsLoop(items: seq<Value>, last: Outcome, cond: string, decode: string -> string): (r: Outcome)
    decreases items
  {
    if items == [] then last
    else
      var r := PlainTextBody(items[0], cond, decode);
      if Stops(r) then r else PartsLoop(items[1..], r, cond, decode)
  }

  /**
   `get_clean_plain_text_body`: the HTML body, cleaned, if there is one;
   otherwise the plain-text body, cleaned. The two cleaners are parameters.
   */
  function CleanPlainTextBody(m: Value, decode: string -> string,
                              htmlClean: string -> string, plainClean: string -> string): Outcome
  {
    var html := PlainTextBody(m, "text/html", decode);
    if html.Raised? then Raised
    else if html.Found? then Found(htmlClean(html.text))
    else
      var plain := PlainTextBody(m, "text/plain", decode);
      if plain.Raised? then Raised
      else if plain.Found? then Found(plainClean(plain.text))
      else NotFound
  }

  // ---------------------------------------------------------------- headers

  /** The loop over `headers`: the value of the first header whose name is exactly `name`. */
  function FirstHeader(headers: seq<Header>, name: string): (r: Outcome)
    ensures !r.Raised?
    decreases headers
  {
    if headers == [] then NotFound
    else if headers[0].name == Some(name) then HeaderValue(headers[0])
    else FirstHeader(headers[1..], name)
  }

  /** `header.get('value')` */
  function HeaderValue(h: Header): Outcome {
    if h.value.Some? then Found(h.value.value) else NotFound
  }

  /** `message.get('payload', {}).get('headers', [])` followed by the header loop. */
  function HeaderOf(m: Value, name: string): (r: Outcome)
    ensures r.Raised? <==> !m.Dict? || (m.payload.Some? && !m.payload.value.Dict?)
    ensures m.Dict? && m.payload.None? ==> r == NotFound
  {
    if !m.Dict? then Raised
    else
      var p := m.payload.GetOr(EmptyDict);
      if !p.Dict? then Raised
      else FirstHeader(p.headers.GetOr([]), name)
  }

  /** `get_sender_from_message` */
  function SenderOf(m: Value): Outcome {
    HeaderOf(m, "From")
  }

  /** `get_subject_from_message` */
  function SubjectOf(m: Value): Outcome {
    HeaderOf(m, "Subject")
  }

  // ---------------------------------------------------------------- records

  /** A value or the empty string, for `if not x: x = ""`. */
  function OrEmpty(o: Option<string>): string {
    if o.Some? then o.value else ""
  }

  /** `prepend_with_title`: `"{title}: {content}\n{body}"`, a missing or empty part written as "". */
  function PrependWithTitle(title: string, content: Option<string>, body: Option<string>): string {
    title + ": " + OrEmpty(content) + "\n" + OrEmpty(body)
  }

  /** The first index of `c` in `s`, or `|s|` when there is none. */
  function IndexOf(s: string, c: char): (k: nat)
    ensures k <= |s|
    ensures k < |s| ==> s[k] == c
    ensures forall j :: 0 <= j < k ==> s[j] != c
    decreases s
  {
    if s == [] then 0
    else if s[0] == c then 0
    else 1 + IndexOf(s[1..], c)
  }

  /** The inverse of `PrependWithTitle`: the title's content and the body of a titled text. */
  function SplitTitled(title: string, text: string): Option<(string, string)> {
    var head := title + ": ";
    if |head| <= |text| && text[..|head|] == head then
      var rest := text[|head|..];
      var k := IndexOf(rest, '\n');
      if k < |rest| then Some((rest[..k], rest[k + 1..])) else None
    else None
  }

  /** The `Email` record of Gmail_Interface.py. */
  datatype Email = Email(sender: string, subject: string, text: string, tokenCount: nat)

  /**
   The record `get_unread_email_objects` builds for one message, from its sender,
   subject and cleaned body; `countTokens` is the tokenizer.
   */
  function MakeEmail(sender: Option<string>, subject: Option<string>, body: Option<string>,
                     countTokens: string -> nat): (e: Email)
    ensures e.sender == (if Filled(sender) then sender.value else "Unknown Sender")
    ensures e.subject == (if Filled(subject) then subject.value else "No Subject")
    ensures e.text == OrEmpty(body)
    ensures e.tokenCount == (if Filled(body) then countTokens(body.value) else 0)
    ensures e.sender != "" && e.subject != ""
  {
    Email(if Filled(sender) then sender.value else "Unknown Sender",
          if Filled(subject) then subject.value else "No Subject",
          if Filled(body) then body.value else "",
          if Filled(body) then countTokens(body.value) else 0)
  }
}
