/**
 The older mail helpers (Gmail-Interface.py): the body search with the MIME
 type fixed to `text/plain`, the `.pdf` test and the attachment count.
 */
module LegacyGmailInterface {
  import opened MessageTree
  import G = GmailInterface

  // ---------------------------------------------------------------- the text/plain search

  /** `get_text_from_part(part)` */
  function TextFromPart(part: Value, decode: string -> string): Outcome {
    if !part.Dict? then Raised
    else if part.mimeType == Some("text/plain") && Filled(BodyData(part)) then Found(decode(BodyData(part).value))
    else NotFound
  }

  function Scan(children: Value, decode: string -> string): Outcome {
    match children
    case List(items) => ScanList(items, decode)
    case Str(s) => if s == "" then NotFound else Raised
    case Dict(_, _, _, _, _, _, _) => if children.IsEmptyDict() then NotFound else Raised
    case Atom => Raised
  }

  function ScanList(items: seq<Value>, decode: string -> string): Outcome
    decreases items
  {
    if items == [] then NotFound
    else
      var t := TextFromPart(items[0], decode);
      if Stops(t) then t else ScanList(items[1..], decode)
  }

  /** `find_first_multipart_alternative(parts)` and `find_first_multipart_mixed_or_related(parts)` */
  function Find(kind: G.ContainerKind, v: Value, decode: string -> string): Outcome
    decreases v
  {
    match v
    case Dict(mimeType, _, parts, _, _, _, _) =>
      var direct := if G.IsContainer(kind, mimeType) && parts.Some? then Scan(parts.value, decode) else NotFound;
      if Stops(direct) then direct
      else if parts.Some? then Find(kind, parts.value, decode)
      else NotFound
    case List(items) => FindInList(kind, items, decode)
    case _ => NotFound
  }

  function FindInList(kind: G.ContainerKind, items: seq<Value>, decode: string -> string): Outcome
    decreases items
  {
    if items == [] then NotFound
    else
      var r := Find(kind, items[0], decode);
      if Stops(r) then r else FindInList(kind, items[1..], decode)
  }

  /** `get_plain_text_body(message)` */
  function PlainTextBody(m: Value, decode: string -> string): Outcome
    decreases m
  {
    match m
    case Dict(_, _, _, payload, _, _, _) =>
      if payload.None? then NotFound
      else
        var p := payload.value;
        if !p.Dict? then Raised
        else if p.mimeType == Some("text/plain") && Filled(BodyData(p)) then Found(decode(BodyData(p).value))
        else
          var alt := Find(G.Alternative, p, decode);
          if !alt.NotFound? then alt
          else
            var mixed := Find(G.MixedOrRelated, p, decode);
            if !mixed.NotFound? then mixed
            else if p.parts.Some? && p.parts.value.List? then PartsLoop(p.parts.value.items, NotFound, decode)
            else NotFound
    case List(items) => if Str("payload") in items then Raised else NotFound
    case Str(s) => if HasSubstring(s, "payload") then Raised else NotFound
    case Atom => Raised
  }

  function PartsLoop(items: seq<Value>, last: Outcome, decode: string -> string): Outcome
    decreases items
  {
    if items == [] then last
    else
      var r := PlainTextBody(items[0], decode);
      if Stops(r) then r else PartsLoop(items[1..], r, decode)
  }

  // ---------------------------------------------------------------- agreement with the generalised search

  lemma {:induction false} ScanListAgrees(items: seq<Value>, decode: string -> string)
    ensures ScanList(items, decode) == G.ScanList(items, "text/plain", decode)
    decreases items
  {
    if items != [] {
      ScanListAgrees(items[1..], decode);
    }
  }

  lemma {:induction false} FindAgrees(kind: G.ContainerKind, v: Value, decode: string -> string)
    ensures Find(kind, v, decode) == G.Find(kind, v, "text/plain", decode)
    decreases v
  {
    match v
    case Dict(_, _, parts, _, _, _, _) =>
      if parts.Some? {
        if parts.value.List? {
          ScanListAgrees(parts.value.items, decode);
        }
        FindAgrees(kind, parts.value, decode);
      }
    case List(items) => FindInListAgrees(kind, items, decode);
    case _ =>
  }

  lemma {:induction false} FindInListAgrees(kind: G.ContainerKind, items: seq<Value>, decode: string -> string)
    ensures FindInList(kind, items, decode) == G.FindInList(kind, items, "text/plain", decode)
    decreases items
  {
    if items != [] {
      FindAgrees(kind, items[0], decode);
      FindInListAgrees(kind, items[1..], decode);
    }
  }

  /** The older `get_plain_text_body(m)` is the generalised one at `cond = 'text/plain'`. */
  lemma {:induction false} PlainTextBodyAgrees(m: Value, decode: string -> string)
    ensures PlainTextBody(m, decode) == G.PlainTextBody(m, "text/plain", decode)
    decreases m
  {
    if m.Dict? && m.payload.Some? && m.payload.value.Dict? {
      var p := m.payload.value;
      FindAgrees(G.Alternative, p, decode);
      FindAgrees(G.MixedOrRelated, p, decode);
      if p.parts.Some? && p.parts.value.List? {
        PartsLoopAgrees(p.parts.value.items, NotFound, decode);
      }
    }
  }

  lemma {:induction false} PartsLoopAgrees(items: seq<Value>, last: Outcome, decode: string -> string)
    ensures PartsLoop(items, last, decode) == G.PartsLoop(items, last, "text/plain", decode)
    decreases items
  {
    if items != [] {
      PlainTextBodyAgrees(items[0], decode);
      PartsLoopAgrees(items[1..], PlainTextBody(items[0], decode), decode);
    }
  }

  // ---------------------------------------------------------------- file names

  /** `str.lower()` on one character; letters outside ASCII are left as they are. */
  function LowerChar(c: char): char {
    if 'A' <= c <= 'Z' then (c as int + 32) as char else c
  }

  /** `str.lower()` */
  function Lower(s: string): string {
    seq(|s|, i requires 0 <= i < |s| => LowerChar(s[i]))
  }

  /** `str.endswith(suffix)` */
  predicate EndsWith(s: string, suffix: string) {
    |suffix| <= |s| && s[|s| - |suffix|..] == suffix
  }

  /** `is_PDF`: the last four characters of the name are ".pdf" in any letter case. */
  predicate IsPdf(filename: string)
    ensures IsPdf(filename) <==>
              4 <= |filename| && forall k :: 0 <= k < 4 ==> LowerChar(filename[|filename| - 4 + k]) == ".pdf"[k]
  {
    EndsWith(Lower(filename), ".pdf")
  }

  lemma LowerIdempotent(s: string)
    ensures Lower(Lower(s)) == Lower(s)
  {
    forall i | 0 <= i < |s| ensures Lower(Lower(s))[i] == Lower(s)[i] {
      assert Lower(s)[i] == LowerChar(s[i]);
    }
  }

  /** Upper-case extensions are accepted, and lower-casing the name first changes nothing. */
  lemma IsPdfIgnoresCase(filename: string)
    ensures IsPdf("X.PDF")
    ensures IsPdf(Lower(filename)) == IsPdf(filename)
  {
    assert IsPdf("X.PDF") by {
      var f := "X.PDF";
      assert LowerChar(f[1]) == '.' && LowerChar(f[2]) == 'p' && LowerChar(f[3]) == 'd' && LowerChar(f[4]) == 'f';
    }
    LowerIdempotent(filename);
  }

  // ---------------------------------------------------------------- attachment count

  /** `if_Function(filename) and "attachmentId" in body` for a part whose `filename` was lower-cased. */
  predicate IsAttachment(part: Value, pred: string -> bool)
    requires part.Dict?
  {
    pred(Lower(part.filename.GetOr(""))) && part.body.GetOr(Body(None, None)).attachmentId.Some?
  }

  /**
   `recursive_count(v)` raises: `for part in v` raises, or yields a part that is
   not a dict, or the nested parts of some part raise.
   */
  ghost predicate CountRaises(v: Value)
    decreases v, 1
  {
    match v
    case List(items) => exists i :: 0 <= i < |items| && PartRaises(items[i])
    case Str(s) => s != ""
    case Dict(_, _, _, _, _, _, _) => !v.IsEmptyDict()
    case Atom => true
  }

  ghost predicate PartRaises(part: Value)
    decreases part, 0
  {
    !part.Dict? || (part.parts.Some? && CountRaises(part.parts.value))
  }

  /** The parts `recursive_count(v)` visits, in order, at any depth. */
  function Visit(v: Value): seq<Value>
    decreases v, 1
  {
    if v.List? then VisitAll(v.items) else []
  }

  function VisitAll(s: seq<Value>): seq<Value>
    decreases s
  {
    if s == [] then [] else VisitAll(s[..|s| - 1]) + VisitPart(s[|s| - 1])
  }

  function VisitPart(part: Value): seq<Value>
    decreases part, 0
  {
    if part.Dict? then [part] + (if part.parts.Some? then Visit(part.parts.value) else []) else []
  }

  /** The number of dict parts in `ps` that are attachments passing `pred`. */
  function Matches(ps: seq<Value>, pred: string -> bool): nat
    decreases |ps|
  {
    if ps == [] then 0
    else Matches(ps[..|ps| - 1], pred) + (if ps[|ps| - 1].Dict? && IsAttachment(ps[|ps| - 1], pred) then 1 else 0)
  }

  lemma {:induction false} MatchesAppend(a: seq<Value>, b: seq<Value>, pred: string -> bool)
    ensures Matches(a + b, pred) == Matches(a, pred) + Matches(b, pred)
    decreases |b|
  {
    if b != [] {
      assert (a + b)[..|a + b| - 1] == a + b[..|b| - 1];
      assert (a + b)[|a + b| - 1] == b[|b| - 1];
      MatchesAppend(a, b[..|b| - 1], pred);
    } else {
      assert a + b == a;
    }
  }

  /** The count over one part: the part itself, then its nested parts. */
  lemma PartMatches(part: Value, pred: string -> bool)
    requires part.Dict?
    ensures Matches(VisitPart(part), pred) ==
              (if IsAttachment(part, pred) then 1 else 0) + (if part.parts.Some? then Matches(Visit(part.parts.value), pred) else 0)
  {
    MatchesAppend([part], if part.parts.Some? then Visit(part.parts.value) else [], pred);
  }

  /** Two results of `recursive_count` added up: None when either of them raised. */
  function AddCounts(a: Option<nat>, b: Option<nat>): Option<nat> {
    if a.Some? && b.Some? then Some(a.value + b.value) else None
  }

  /**
   What `recursive_count(v)` yields: None when it raises, else its count. The
   loop over a list is read from the back so that its prefixes line up with
   the loop's iterations.
   */
  ghost function CountOf(v: Value, pred: string -> bool): Option<nat>
    decreases v, 2
  {
    match v
    case List(items) => CountOfList(items, pred)
    case Str(s) => if s == "" then Some(0) else None
    case Dict(_, _, _, _, _, _, _) => if v.IsEmptyDict() then Some(0) else None
    case Atom => None
  }

  ghost function CountOfList(s: seq<Value>, pred: string -> bool): Option<nat>
    decreases s, 1
  {
    if s == [] then Some(0) else AddCounts(CountOfList(s[..|s| - 1], pred), CountOfPart(s[|s| - 1], pred))
  }

  ghost function CountOfPart(part: Value, pred: string -> bool): Option<nat>
    decreases part, 0
  {
    if !part.Dict? then None
    else AddCounts(Some(if IsAttachment(part, pred) then 1 else 0),
                   if part.parts.Some? then CountOf(part.parts.value, pred) else Some(0))
  }

  lemma {:induction false} CountOfListSnoc(items: seq<Value>, i: nat, pred: string -> bool)
    requires i < |items|
    ensures CountOfList(items[..i + 1], pred) == AddCounts(CountOfList(items[..i], pred), CountOfPart(items[i], pred))
  {
    assert items[..i + 1][..i] == items[..i];
  }

  /** Once a prefix of the loop raised, the whole loop raises. */
  lemma {:induction false} CountOfListNone(items: seq<Value>, k: nat, pred: string -> bool)
    requires k <= |items| && CountOfList(items[..k], pred).None?
    ensures CountOfList(items, pred).None?
    decreases |items| - k
  {
    if k < |items| {
      CountOfListSnoc(items, k, pred);
      CountOfListNone(items, k + 1, pred);
    } else {
      assert items[..k] == items;
    }
  }

  /** The reference result raises exactly when `CountRaises` says so. */
  lemma {:induction false} CountOfRaises(v: Value, pred: string -> bool)
    ensures CountOf(v, pred).None? <==> CountRaises(v)
    decreases v, 2
  {
    if v.List? {
      CountOfListRaises(v.items, pred);
    }
  }

  lemma {:induction false} CountOfListRaises(s: seq<Value>, pred: string -> bool)
    ensures CountOfList(s, pred).None? <==> exists i :: 0 <= i < |s| && PartRaises(s[i])
    decreases s, 1
  {
    if s != [] {
      var init, last := s[..|s| - 1], s[|s| - 1];
      CountOfListRaises(init, pred);
      CountOfPartRaises(last, pred);
      if exists i :: 0 <= i < |s| && PartRaises(s[i]) {
        var i :| 0 <= i < |s| && PartRaises(s[i]);
        if i < |s| - 1 {
          assert init[i] == s[i];
        }
      }
      if exists i :: 0 <= i < |init| && PartRaises(init[i]) {
        var i :| 0 <= i < |init| && PartRaises(init[i]);
        assert s[i] == init[i];
      }
    }
  }

  lemma {:induction false} CountOfPartRaises(part: Value, pred: string -> bool)
    ensures CountOfPart(part, pred).None? <==> PartRaises(part)
    decreases part, 0
  {
    if part.Dict? && part.parts.Some? {
      CountOfRaises(part.parts.value, pred);
    }
  }

  /** When it does not raise, the reference result is the number of matching parts along the walk `Visit`. */
  lemma {:induction false} CountOfCounts(v: Value, pred: string -> bool)
    ensures CountOf(v, pred).Some? ==> CountOf(v, pred).value == Matches(Visit(v), pred)
    decreases v, 2
  {
    if v.List? {
      CountOfListCounts(v.items, pred);
    }
  }

  lemma {:induction false} CountOfListCounts(s: seq<Value>, pred: string -> bool)
    ensures CountOfList(s, pred).Some? ==> CountOfList(s, pred).value == Matches(VisitAll(s), pred)
    decreases s, 1
  {
    if s != [] {
      CountOfListCounts(s[..|s| - 1], pred);
      CountOfPartCounts(s[|s| - 1], pred);
      MatchesAppend(VisitAll(s[..|s| - 1]), VisitPart(s[|s| - 1]), pred);
    }
  }

  lemma {:induction false} CountOfPartCounts(part: Value, pred: string -> bool)
    ensures CountOfPart(part, pred).Some? ==> CountOfPart(part, pred).value == Matches(VisitPart(part), pred)
    decreases part, 0
  {
    if part.Dict? {
      PartMatches(part, pred);
      if part.parts.Some? {
        CountOfCounts(part.parts.value, pred);
      }
    }
  }

  /** `recursive_count(parts)`: the attachment count of the parts below `parts`, or None when it raises. */
  method RecursiveCount(parts: Value, pred: string -> bool) returns (r: Option<nat>)
    ensures r == CountOf(parts, pred)
    ensures r.None? <==> CountRaises(parts)
    ensures r.Some? ==> r.value == Matches(Visit(parts), pred)
    decreases parts, 2
  {
    match parts {
      case List(items) =>
        r := CountList(items, pred);
      case Str(s) =>
        r := if s == "" then Some(0) else None;
      case Dict(_, _, _, _, _, _, _) =>
        r := if parts.IsEmptyDict() then Some(0) else None;
      case Atom =>
        r := None;
    }
    CountOfRaises(parts, pred);
    CountOfCounts(parts, pred);
  }

  /** The `for part in parts` loop of `recursive_count` over a list. */
  method CountList(items: seq<Value>, pred: string -> bool) returns (r: Option<nat>)
    ensures r == CountOfList(items, pred)
    decreases List(items), 1
  {
    var count := 0;
    var i := 0;
    while i < |items|
      invariant 0 <= i <= |items|
      invariant CountOfList(items[..i], pred) == Some(count)
    {
      var c := CountPart(items[i], pred);
      CountOfListSnoc(items, i, pred);
      if c.None? {
        CountOfListNone(items, i + 1, pred);
        return None;
      }
      count := count + c.value;
      i := i + 1;
    }
    assert items[..|items|] == items;
    r := Some(count);
  }

  /** One turn of the loop: the part itself, when it is an attachment passing `pred`, then its nested parts. */
  method CountPart(part: Value, pred: string -> bool) returns (r: Option<nat>)
    ensures r == CountOfPart(part, pred)
    decreases part, 0
  {
    if !part.Dict? {
      return None;
    }
    var filename := Lower(part.filename.GetOr(""));
    var body := part.body.GetOr(Body(None, None));
    var here := if pred(filename) && body.attachmentId.Some? then 1 else 0;
    var nested := 0;
    if part.parts.Some? {
      var sub := RecursiveCount(part.parts.value, pred);
      if sub.None? {
        return None;
      }
      nested := sub.value;
    }
    r := Some(here + nested);
  }

  /** The value `generic_Attachment_Count` hands to `recursive_count`, or None when a `.get` on the way raises. */
  function CountTarget(m: Value): Option<Value> {
    if !m.Dict? then None
    else
      var payload := m.payload.GetOr(EmptyDict);
      if !payload.Dict? then None else Some(payload.parts.GetOr(List([])))
  }

  /**
   `generic_Attachment_Count(message, if_Function)`: the number of parts at any
   depth below the payload that pass `pred` and carry an `attachmentId`.
   */
  method GenericAttachmentCount(m: Value, pred: string -> bool) returns (r: Option<nat>)
    ensures CountTarget(m).None? ==> r.None?
    ensures CountTarget(m).Some? ==> (r.None? <==> CountRaises(CountTarget(m).value))
    ensures r.Some? ==> CountTarget(m).Some? && r.value == Matches(Visit(CountTarget(m).value), pred)
    ensures m.Dict? && m.payload.None? ==> r == Some(0)
    ensures m.Dict? && m.payload.Some? && m.payload.value.Dict? && m.payload.value.parts.None? ==> r == Some(0)
  {
    if !m.Dict? {
      return None;
    }
    var payload := m.payload.GetOr(EmptyDict);
    if !payload.Dict? {
      return None;
    }
    var parts := payload.parts.GetOr(List([]));
    assert VisitAll([]) == [];
    r := RecursiveCount(parts, pred);
  }

  // ---------------------------------------------------------------- what the count promises

  /** The count never exceeds the number of parts visited. */
  lemma {:induction false} MatchesBound(ps: seq<Value>, pred: string -> bool)
    ensures Matches(ps, pred) <= |ps|
    decreases |ps|
  {
    if ps != [] {
      MatchesBound(ps[..|ps| - 1], pred);
    }
  }

  /** A predicate that accepts no file name counts nothing. */
  lemma {:induction false} MatchesNone(ps: seq<Value>, pred: string -> bool)
    requires forall f :: !pred(f)
    ensures Matches(ps, pred) == 0
    decreases |ps|
  {
    if ps != [] {
      MatchesNone(ps[..|ps| - 1], pred);
    }
  }

  /** Every part visited is a dict part; nothing else is counted. */
  lemma {:induction false} VisitOnlyParts(v: Value)
    ensures forall i :: 0 <= i < |Visit(v)| ==> Visit(v)[i].Dict?
    decreases v, 1
  {
    if v.List? {
      VisitAllOnlyParts(v.items);
    }
  }

  lemma {:induction false} VisitAllOnlyParts(s: seq<Value>)
    ensures forall i :: 0 <= i < |VisitAll(s)| ==> VisitAll(s)[i].Dict?
    decreases s
  {
    if s != [] {
      VisitAllOnlyParts(s[..|s| - 1]);
      VisitPartOnlyParts(s[|s| - 1]);
    }
  }

  lemma {:induction false} VisitPartOnlyParts(part: Value)
    ensures forall i :: 0 <= i < |VisitPart(part)| ==> VisitPart(part)[i].Dict?
    decreases part, 0
  {
    if part.Dict? && part.parts.Some? {
      VisitOnlyParts(part.parts.value);
    }
  }

  /** Every part visited lies strictly inside the value whose parts are walked. */
  lemma {:induction false} VisitBelow(v: Value)
    ensures forall x :: x in Visit(v) ==> x < v
    decreases v, 1
  {
    if v.List? {
      VisitAllBelow(v.items);
      forall x | x in Visit(v) ensures x < v {
        assert x in VisitAll(v.items);
        var i :| 0 <= i < |v.items| && (x == v.items[i] || x < v.items[i]);
        assert v.items[i] < v;
      }
    }
  }

  lemma {:induction false} VisitAllBelow(s: seq<Value>)
    ensures forall x :: x in VisitAll(s) ==> exists i :: 0 <= i < |s| && (x == s[i] || x < s[i])
    decreases s
  {
    if s != [] {
      var init, last := s[..|s| - 1], s[|s| - 1];
      VisitAllBelow(init);
      VisitPartBelow(last);
      forall x | x in VisitAll(s) ensures exists i :: 0 <= i < |s| && (x == s[i] || x < s[i]) {
        if x in VisitAll(init) {
          var i :| 0 <= i < |init| && (x == init[i] || x < init[i]);
          assert init[i] == s[i];
        } else {
          assert x in VisitPart(last);
          assert x == s[|s| - 1] || x < s[|s| - 1];
        }
      }
    }
  }

  lemma {:induction false} VisitPartBelow(part: Value)
    ensures forall x :: x in VisitPart(part) ==> x == part || x < part
    decreases part, 0
  {
    if part.Dict? && part.parts.Some? {
      VisitBelow(part.parts.value);
    }
  }

  /**
   The walk of `generic_Attachment_Count` starts at the payload's `parts`, so
   the payload node itself is never visited and never counted.
   */
  lemma PayloadNeverVisited(m: Value)
    requires CountTarget(m).Some? && m.payload.Some?
    ensures m.payload.value !in Visit(CountTarget(m).value)
  {
    var p := m.payload.value;
    if p.parts.Some? {
      VisitBelow(p.parts.value);
      assert p.parts.value < p;
    }
  }

  /**
   A `parts` value that is a dict holding only keys the helpers do not read
   (`{"partId": "0"}`, say) is iterated key by key, and `.get` on the key
   raises: both in the body search and in the count.
   */
  lemma KeysOnlyPartsRaise(pred: string -> bool, decode: string -> string)
    ensures var keysOnly := Dict(None, None, None, None, None, None, true);
            && G.Find(G.Alternative, Dict(Some("multipart/alternative"), None, Some(keysOnly), None, None, None, false), "text/plain", decode).Raised?
            && CountOf(keysOnly, pred).None?
  {
  }

  /** On a message of the Gmail API's shape the count never raises. */
  lemma {:induction false} CountOnShaped(m: Value)
    requires Shaped(m)
    ensures CountTarget(m).Some? && !CountRaises(CountTarget(m).value)
  {
    if m.payload.Some? && m.payload.value.parts.Some? {
      ShapedPartsCount(m.payload.value.parts.value.items);
    }
  }

  lemma {:induction false} ShapedPartsCount(items: seq<Value>)
    requires forall i :: 0 <= i < |items| ==> Shaped(items[i])
    ensures !CountRaises(List(items))
    decreases items
  {
    forall i | 0 <= i < |items| ensures !PartRaises(items[i]) {
      assert Shaped(items[i]);
      if items[i].parts.Some? {
        ShapedPartsCount(items[i].parts.value.items);
      }
    }
  }
}
