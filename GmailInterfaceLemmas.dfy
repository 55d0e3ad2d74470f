/**
 What the body search of Gmail_Interface.py promises: first-match order,
 soundness (the text returned is the decoded body of a part of the requested
 type), completeness and absence of exceptions on messages of the Gmail API's
 shape, the fallback order of `get_plain_text_body`, the HTML preference of
 `get_clean_plain_text_body`, the header lookups and the titled-text format.
 */
module GmailInterfaceLemmas {
  import opened MessageTree
  import opened GmailInterface

  // ---------------------------------------------------------------- reference predicates

  /** Some part reached from `v` along `parts` and `payload` has type `cond` and a body decoding to `t`. */
  ghost predicate Carries(v: Value, cond: string, decode: string -> string, t: string)
    decreases v
  {
    match v
    case Dict(mimeType, _, parts, payload, _, _, _) =>
      || (mimeType == Some(cond) && Filled(BodyData(v)) && decode(BodyData(v).value) == t)
      || (parts.Some? && Carries(parts.value, cond, decode, t))
      || (payload.Some? && Carries(payload.value, cond, decode, t))
    case List(items) => CarriesIn(items, cond, decode, t)
    case _ => false
  }

  ghost predicate CarriesIn(items: seq<Value>, cond: string, decode: string -> string, t: string)
    decreases items
  {
    items != [] && (Carries(items[0], cond, decode, t) || CarriesIn(items[1..], cond, decode, t))
  }

  /** Some direct child in `items` is a part of type `cond` whose body decodes to the non-empty `t`. */
  ghost predicate ChildOffers(items: seq<Value>, cond: string, decode: string -> string, t: string)
    decreases items
  {
    items != [] && ((TextFromPart(items[0], cond, decode) == Found(t) && t != "") || ChildOffers(items[1..], cond, decode, t))
  }

  /**
   Some container of the given kind reached from `v` along `parts` has a direct
   child of type `cond` whose body decodes to the non-empty `t`.
   */
  ghost predicate Offers(kind: ContainerKind, v: Value, cond: string, decode: string -> string, t: string)
    decreases v
  {
    match v
    case Dict(mimeType, _, parts, _, _, _, _) =>
      || (IsContainer(kind, mimeType) && parts.Some? && parts.value.List? && ChildOffers(parts.value.items, cond, decode, t))
      || (parts.Some? && Offers(kind, parts.value, cond, decode, t))
    case List(items) => OffersIn(kind, items, cond, decode, t)
    case _ => false
  }

  ghost predicate OffersIn(kind: ContainerKind, items: seq<Value>, cond: string, decode: string -> string, t: string)
    decreases items
  {
    items != [] && (Offers(kind, items[0], cond, decode, t) || OffersIn(kind, items[1..], cond, decode, t))
  }

  /** A part that is not itself a message: `get_plain_text_body` on it returns None at once. */
  predicate Ordinary(v: Value) {
    v.Dict? && v.payload.None?
  }

  // ---------------------------------------------------------------- first match

  /** The container scan returns the result of the first child at which it stops. */
  lemma {:induction false} ScanListFirstStop(items: seq<Value>, cond: string, decode: string -> string, i: nat)
    requires i < |items| && Stops(TextFromPart(items[i], cond, decode))
    requires forall j :: 0 <= j < i ==> !Stops(TextFromPart(items[j], cond, decode))
    ensures ScanList(items, cond, decode) == TextFromPart(items[i], cond, decode)
    decreases i
  {
    if i > 0 {
      assert !Stops(TextFromPart(items[0], cond, decode));
      ScanListFirstStop(items[1..], cond, decode, i - 1);
    }
  }

  /** A container scan that stops nowhere yields None. */
  lemma {:induction false} ScanListNoStop(items: seq<Value>, cond: string, decode: string -> string)
    requires forall j :: 0 <= j < |items| ==> !Stops(TextFromPart(items[j], cond, decode))
    ensures ScanList(items, cond, decode) == NotFound
    decreases items
  {
    if items != [] {
      assert !Stops(TextFromPart(items[0], cond, decode));
      ScanListNoStop(items[1..], cond, decode);
    }
  }

  /** A list yields the result of its first element at which the search stops. */
  lemma {:induction false} FindInListFirstStop(kind: ContainerKind, items: seq<Value>, cond: string, decode: string -> string, i: nat)
    requires i < |items| && Stops(Find(kind, items[i], cond, decode))
    requires forall j :: 0 <= j < i ==> !Stops(Find(kind, items[j], cond, decode))
    ensures FindInList(kind, items, cond, decode) == Find(kind, items[i], cond, decode)
    decreases i
  {
    if i > 0 {
      assert !Stops(Find(kind, items[0], cond, decode));
      FindInListFirstStop(kind, items[1..], cond, decode, i - 1);
    }
  }

  /** A list none of whose elements stops the search yields None. */
  lemma {:induction false} FindInListNoStop(kind: ContainerKind, items: seq<Value>, cond: string, decode: string -> string)
    requires forall j :: 0 <= j < |items| ==> !Stops(Find(kind, items[j], cond, decode))
    ensures FindInList(kind, items, cond, decode) == NotFound
    decreases items
  {
    if items != [] {
      assert !Stops(Find(kind, items[0], cond, decode));
      FindInListNoStop(kind, items[1..], cond, decode);
    }
  }

  /**
   Inside a container of the searched kind, the result is that of the first
   direct child that raises or gives non-empty text of type `cond`; when no
   child does, the search descends into the container's `parts`.
   */
  lemma ContainerFirstChild(kind: ContainerKind, v: Value, cond: string, decode: string -> string)
    requires v.Dict? && IsContainer(kind, v.mimeType) && v.parts.Some? && v.parts.value.List?
    ensures forall i :: 0 <= i < |v.parts.value.items| && Stops(TextFromPart(v.parts.value.items[i], cond, decode)) &&
                        (forall j :: 0 <= j < i ==> !Stops(TextFromPart(v.parts.value.items[j], cond, decode))) ==>
              Find(kind, v, cond, decode) == TextFromPart(v.parts.value.items[i], cond, decode)
    ensures (forall j :: 0 <= j < |v.parts.value.items| ==> !Stops(TextFromPart(v.parts.value.items[j], cond, decode))) ==>
              Find(kind, v, cond, decode) == Find(kind, v.parts.value, cond, decode)
  {
    var items := v.parts.value.items;
    forall i | 0 <= i < |items| && Stops(TextFromPart(items[i], cond, decode)) &&
               (forall j :: 0 <= j < i ==> !Stops(TextFromPart(items[j], cond, decode)))
      ensures Find(kind, v, cond, decode) == TextFromPart(items[i], cond, decode)
    {
      ScanListFirstStop(items, cond, decode, i);
    }
    if forall j :: 0 <= j < |items| ==> !Stops(TextFromPart(items[j], cond, decode)) {
      ScanListNoStop(items, cond, decode);
    }
  }

  // ---------------------------------------------------------------- soundness

  lemma {:induction false} ScanListSound(items: seq<Value>, cond: string, decode: string -> string)
    ensures ScanList(items, cond, decode).Found? ==> ChildOffers(items, cond, decode, ScanList(items, cond, decode).text)
    decreases items
  {
    if items != [] {
      ScanListSound(items[1..], cond, decode);
    }
  }

  /** Any text either search returns is offered by a container of its kind. */
  lemma {:induction false} FindSound(kind: ContainerKind, v: Value, cond: string, decode: string -> string)
    ensures Find(kind, v, cond, decode).Found? ==> Offers(kind, v, cond, decode, Find(kind, v, cond, decode).text)
    decreases v
  {
    match v
    case Dict(mimeType, _, parts, _, _, _, _) =>
      if IsContainer(kind, mimeType) && parts.Some? && parts.value.List? {
        ScanListSound(parts.value.items, cond, decode);
      }
      if parts.Some? {
        FindSound(kind, parts.value, cond, decode);
      }
    case List(items) => FindInListSound(kind, items, cond, decode);
    case _ =>
  }

  lemma {:induction false} FindInListSound(kind: ContainerKind, items: seq<Value>, cond: string, decode: string -> string)
    ensures FindInList(kind, items, cond, decode).Found? ==> OffersIn(kind, items, cond, decode, FindInList(kind, items, cond, decode).text)
    decreases items
  {
    if items != [] {
      FindSound(kind, items[0], cond, decode);
      FindInListSound(kind, items[1..], cond, decode);
    }
  }

  lemma {:induction false} ChildOffersCarries(items: seq<Value>, cond: string, decode: string -> string, t: string)
    requires ChildOffers(items, cond, decode, t)
    ensures CarriesIn(items, cond, decode, t)
    decreases items
  {
    if !(TextFromPart(items[0], cond, decode) == Found(t) && t != "") {
      ChildOffersCarries(items[1..], cond, decode, t);
    }
  }

  lemma {:induction false} OffersCarries(kind: ContainerKind, v: Value, cond: string, decode: string -> string, t: string)
    requires Offers(kind, v, cond, decode, t)
    ensures Carries(v, cond, decode, t)
    decreases v
  {
    match v
    case Dict(mimeType, _, parts, _, _, _, _) =>
      if IsContainer(kind, mimeType) && parts.Some? && parts.value.List? && ChildOffers(parts.value.items, cond, decode, t) {
        ChildOffersCarries(parts.value.items, cond, decode, t);
      } else {
        OffersCarries(kind, parts.value, cond, decode, t);
      }
    case List(items) => OffersInCarries(kind, items, cond, decode, t);
  }

  lemma {:induction false} OffersInCarries(kind: ContainerKind, items: seq<Value>, cond: string, decode: string -> string, t: string)
    requires OffersIn(kind, items, cond, decode, t)
    ensures CarriesIn(items, cond, decode, t)
    decreases items
  {
    if Offers(kind, items[0], cond, decode, t) {
      OffersCarries(kind, items[0], cond, decode, t);
    } else {
      OffersInCarries(kind, items[1..], cond, decode, t);
    }
  }

  // ---------------------------------------------------------------- messages of the Gmail API's shape

  lemma {:induction false} ScanListOnDicts(items: seq<Value>, cond: string, decode: string -> string, t: string)
    requires forall i :: 0 <= i < |items| ==> items[i].Dict?
    ensures !ScanList(items, cond, decode).Raised?
    ensures ChildOffers(items, cond, decode, t) ==> ScanList(items, cond, decode).Found?
    decreases items
  {
    if items != [] {
      ScanListOnDicts(items[1..], cond, decode, t);
    }
  }

  /** On a message tree of the Gmail API's shape a search never raises and finds text whenever some container offers it. */
  lemma {:induction false} FindOnShaped(kind: ContainerKind, v: Value, cond: string, decode: string -> string, t: string)
    requires Shaped(v)
    ensures !Find(kind, v, cond, decode).Raised?
    ensures Offers(kind, v, cond, decode, t) ==> Find(kind, v, cond, decode).Found?
    decreases v
  {
    if v.parts.Some? {
      var items := v.parts.value.items;
      assert forall i :: 0 <= i < |items| ==> items[i].Dict? by {
        forall i | 0 <= i < |items| ensures items[i].Dict? { assert Shaped(items[i]); }
      }
      ScanListOnDicts(items, cond, decode, t);
      FindInListOnShaped(kind, items, cond, decode, t);
      assert Find(kind, v.parts.value, cond, decode) == FindInList(kind, items, cond, decode);
      assert Offers(kind, v.parts.value, cond, decode, t) == OffersIn(kind, items, cond, decode, t);
    }
  }

  lemma {:induction false} FindInListOnShaped(kind: ContainerKind, items: seq<Value>, cond: string, decode: string -> string, t: string)
    requires forall i :: 0 <= i < |items| ==> Shaped(items[i])
    ensures !FindInList(kind, items, cond, decode).Raised?
    ensures OffersIn(kind, items, cond, decode, t) ==> FindInList(kind, items, cond, decode).Found?
    decreases items
  {
    if items != [] {
      FindOnShaped(kind, items[0], cond, decode, t);
      FindInListOnShaped(kind, items[1..], cond, decode, t);
    }
  }

  /** On a tree of the Gmail API's shape a search finds text exactly when some container of its kind offers some. */
  lemma FindFoundIffOffered(kind: ContainerKind, v: Value, cond: string, decode: string -> string)
    requires Shaped(v)
    ensures !Find(kind, v, cond, decode).Raised?
    ensures Find(kind, v, cond, decode).Found? <==> exists t :: Offers(kind, v, cond, decode, t)
  {
    FindOnShaped(kind, v, cond, decode, "");
    FindSound(kind, v, cond, decode);
    var r := Find(kind, v, cond, decode);
    if r.Found? {
      var t := r.text;
      assert Offers(kind, v, cond, decode, t);
      assert exists t' :: Offers(kind, v, cond, decode, t');
    } else if exists t :: Offers(kind, v, cond, decode, t) {
      var t :| Offers(kind, v, cond, decode, t);
      FindOnShaped(kind, v, cond, decode, t);
      assert false;
    }
  }

  // ---------------------------------------------------------------- get_plain_text_body

  /** Any text `get_plain_text_body` returns is the decoded body of a part of type `cond` in the message. */
  lemma {:induction false} PlainTextBodySound(m: Value, cond: string, decode: string -> string)
    ensures PlainTextBody(m, cond, decode).Found? ==> Carries(m, cond, decode, PlainTextBody(m, cond, decode).text)
    decreases m
  {
    if m.Dict? && m.payload.Some? && m.payload.value.Dict? {
      var p := m.payload.value;
      FindSound(Alternative, p, cond, decode);
      FindSound(MixedOrRelated, p, cond, decode);
      var alt := Find(Alternative, p, cond, decode);
      var mixed := Find(MixedOrRelated, p, cond, decode);
      if alt.Found? {
        OffersCarries(Alternative, p, cond, decode, alt.text);
      }
      if mixed.Found? {
        OffersCarries(MixedOrRelated, p, cond, decode, mixed.text);
      }
      if p.parts.Some? && p.parts.value.List? {
        PartsLoopSound(p.parts.value.items, NotFound, cond, decode);
      }
    }
  }

  lemma {:induction false} PartsLoopSound(items: seq<Value>, last: Outcome, cond: string, decode: string -> string)
    ensures PartsLoop(items, last, cond, decode).Found? ==>
              PartsLoop(items, last, cond, decode) == last || CarriesIn(items, cond, decode, PartsLoop(items, last, cond, decode).text)
    decreases items
  {
    if items != [] {
      PlainTextBodySound(items[0], cond, decode);
      PartsLoopSound(items[1..], PlainTextBody(items[0], cond, decode), cond, decode);
    }
  }

  lemma {:induction false} PartsLoopOrdinary(items: seq<Value>, cond: string, decode: string -> string)
    requires forall i :: 0 <= i < |items| ==> Ordinary(items[i])
    ensures PartsLoop(items, NotFound, cond, decode) == NotFound
    decreases items
  {
    if items != [] {
      assert Ordinary(items[0]);
      PartsLoopOrdinary(items[1..], cond, decode);
    }
  }

  /**
   The fallback order of `get_plain_text_body`: the payload's own body, else the
   alternative search, else the mixed/related search, when the payload's parts
   are ordinary parts rather than messages.
   */
  lemma PlainTextBodyFallback(m: Value, cond: string, decode: string -> string)
    requires m.Dict? && m.payload.Some? && m.payload.value.Dict?
    requires m.payload.value.parts.Some? && m.payload.value.parts.value.List? ==>
               forall i :: 0 <= i < |m.payload.value.parts.value.items| ==> Ordinary(m.payload.value.parts.value.items[i])
    ensures PlainTextBody(m, cond, decode) ==
              var p := m.payload.value;
              if TextFromPart(p, cond, decode).Found? then TextFromPart(p, cond, decode)
              else if !Find(Alternative, p, cond, decode).NotFound? then Find(Alternative, p, cond, decode)
              else Find(MixedOrRelated, p, cond, decode)
  {
    var p := m.payload.value;
    if p.parts.Some? && p.parts.value.List? {
      PartsLoopOrdinary(p.parts.value.items, cond, decode);
    }
  }

  /** On a message of the Gmail API's shape `get_plain_text_body` never raises. */
  lemma {:induction false} PlainTextBodyOnShaped(m: Value, cond: string, decode: string -> string)
    requires Shaped(m)
    ensures !PlainTextBody(m, cond, decode).Raised?
    decreases m
  {
    if m.payload.Some? {
      var p := m.payload.value;
      FindOnShaped(Alternative, p, cond, decode, "");
      FindOnShaped(MixedOrRelated, p, cond, decode, "");
      if p.parts.Some? {
        PartsLoopOnShaped(p.parts.value.items, NotFound, cond, decode);
      }
    }
  }

  lemma {:induction false} PartsLoopOnShaped(items: seq<Value>, last: Outcome, cond: string, decode: string -> string)
    requires !last.Raised?
    requires forall i :: 0 <= i < |items| ==> Shaped(items[i])
    ensures !PartsLoop(items, last, cond, decode).Raised?
    decreases items
  {
    if items != [] {
      PlainTextBodyOnShaped(items[0], cond, decode);
      PartsLoopOnShaped(items[1..], PlainTextBody(items[0], cond, decode), cond, decode);
    }
  }

  // ---------------------------------------------------------------- get_clean_plain_text_body

  /**
   The cleaned body is the HTML cleaner applied to the HTML body of the message
   when there is one; only when no HTML body was found is it the plain-text
   cleaner applied to the plain-text body, and None when there is neither. Any
   text comes from a part of that type, and on a message of the Gmail API's
   shape nothing raises.
   */
  lemma CleanPlainTextBodySound(m: Value, decode: string -> string, htmlClean: string -> string, plainClean: string -> string)
    ensures var r := CleanPlainTextBody(m, decode, htmlClean, plainClean);
            r.Found? ==>
              || (exists t :: Carries(m, "text/html", decode, t) && r.text == htmlClean(t))
              || (PlainTextBody(m, "text/html", decode).NotFound? &&
                  exists t :: Carries(m, "text/plain", decode, t) && r.text == plainClean(t))
    ensures Shaped(m) ==> !CleanPlainTextBody(m, decode, htmlClean, plainClean).Raised?
    ensures PlainTextBody(m, "text/html", decode).Found? ==>
              CleanPlainTextBody(m, decode, htmlClean, plainClean) == Found(htmlClean(PlainTextBody(m, "text/html", decode).text))
    ensures PlainTextBody(m, "text/html", decode).Raised? ==> CleanPlainTextBody(m, decode, htmlClean, plainClean).Raised?
    ensures PlainTextBody(m, "text/html", decode).NotFound? ==>
              CleanPlainTextBody(m, decode, htmlClean, plainClean) ==
                var p := PlainTextBody(m, "text/plain", decode);
                if p.Found? then Found(plainClean(p.text)) else p
  {
    PlainTextBodySound(m, "text/html", decode);
    PlainTextBodySound(m, "text/plain", decode);
    if Shaped(m) {
      PlainTextBodyOnShaped(m, "text/html", decode);
      PlainTextBodyOnShaped(m, "text/plain", decode);
    }
  }

  // ---------------------------------------------------------------- headers

  /** `headers[i]` is the first header whose name is exactly `name`. */
  ghost predicate FirstNamed(headers: seq<Header>, name: string, i: nat) {
    && i < |headers|
    && headers[i].name == Some(name)
    && forall j :: 0 <= j < i ==> headers[j].name != Some(name)
  }

  lemma {:induction false} FirstHeaderAt(headers: seq<Header>, name: string, i: nat)
    requires FirstNamed(headers, name, i)
    ensures FirstHeader(headers, name) == HeaderValue(headers[i])
    decreases i
  {
    if i > 0 {
      assert headers[0].name != Some(name);
      assert FirstNamed(headers[1..], name, i - 1);
      FirstHeaderAt(headers[1..], name, i - 1);
    }
  }

  lemma {:induction false} FirstHeaderAbsent(headers: seq<Header>, name: string)
    requires forall j :: 0 <= j < |headers| ==> headers[j].name != Some(name)
    ensures FirstHeader(headers, name) == NotFound
    decreases headers
  {
    if headers != [] {
      assert headers[0].name != Some(name);
      FirstHeaderAbsent(headers[1..], name);
    }
  }

  /**
   The lookup gives the value of the first header, in order, whose name is
   exactly `name`, and None when no header has that name.
   */
  lemma FirstHeaderFirstMatch(headers: seq<Header>, name: string)
    ensures forall i: nat :: FirstNamed(headers, name, i) ==> FirstHeader(headers, name) == HeaderValue(headers[i])
    ensures (forall j :: 0 <= j < |headers| ==> headers[j].name != Some(name)) ==> FirstHeader(headers, name) == NotFound
  {
    forall i: nat | FirstNamed(headers, name, i)
      ensures FirstHeader(headers, name) == HeaderValue(headers[i])
    {
      FirstHeaderAt(headers, name, i);
    }
    if forall j :: 0 <= j < |headers| ==> headers[j].name != Some(name) {
      FirstHeaderAbsent(headers, name);
    }
  }

  /**
   For a message whose payload is a dict, the sender or subject lookup gives
   the value of the first header of the payload named exactly `name`, and None
   when there is none.
   */
  lemma HeaderOfFirstMatch(m: Value, name: string)
    requires m.Dict? && m.payload.Some? && m.payload.value.Dict?
    ensures var hs := m.payload.value.headers.GetOr([]);
            && (forall i: nat :: FirstNamed(hs, name, i) ==> HeaderOf(m, name) == HeaderValue(hs[i]))
            && ((forall j :: 0 <= j < |hs| ==> hs[j].name != Some(name)) ==> HeaderOf(m, name) == NotFound)
  {
    FirstHeaderFirstMatch(m.payload.value.headers.GetOr([]), name);
  }

  /** Header names are compared exactly: a lower-case "from" header is not the sender. */
  lemma SenderIsCaseSensitive(v: string)
    ensures SenderOf(Dict(None, None, None, Some(Dict(None, None, None, None, Some([Header(Some("from"), Some(v))]), None, false)), None, None, false)) == NotFound
  {
    var headers := [Header(Some("from"), Some(v))];
    assert "from" != "From" by { assert "from"[0] != "From"[0]; }
    assert headers[1..] == [];
    assert FirstHeader(headers, "From") == FirstHeader(headers[1..], "From");
  }

  // ---------------------------------------------------------------- titled text

  /** A titled text splits back into its content and body when the content has no line break. */
  lemma PrependSplitRoundTrip(title: string, content: Option<string>, body: Option<string>)
    requires '\n' !in OrEmpty(content)
    ensures SplitTitled(title, PrependWithTitle(title, content, body)) == Some((OrEmpty(content), OrEmpty(body)))
  {
    var c, b := OrEmpty(content), OrEmpty(body);
    var text := PrependWithTitle(title, content, body);
    var head := title + ": ";
    assert text == head + (c + "\n" + b);
    assert text[..|head|] == head;
    var rest := text[|head|..];
    assert rest == c + "\n" + b;
    assert rest[|c|] == '\n';
    var k := IndexOf(rest, '\n');
    assert k == |c|;
    assert rest[..k] == c;
    assert rest[k + 1..] == b;
  }
}
