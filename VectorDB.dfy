/**
 The shaping done around the vector store (VectorDB.py): the documents, ids
 and metadata handed to `collection.add`, the sender filter handed to
 `collection.query`, and the extraction of the first result. The store itself,
 its embeddings and uuid generation are outside the model; the i-th generated
 id is the parameter `uuid(i)`.
 */
module VectorDB {
  import opened MessageTree
  import opened GmailInterface
  import GmailInterfaceLemmas

  /** A metadata dict of the store. */
  type Metadata = map<string, string>

  /** The keyword arguments of `collection.add`. */
  datatype AddRequest = AddRequest(documents: seq<string>, ids: seq<string>, metadatas: seq<Metadata>)

  /** What `collection.query` returns, as far as it is read; a missing or null key is None. */
  datatype QueryResult = QueryResult(documents: Option<seq<seq<string>>>, metadatas: Option<seq<seq<Metadata>>>)

  /** The document stored for one email: its subject line, then its text. */
  function Document(e: Email): string {
    PrependWithTitle("Subject", Some(e.subject), Some(e.text))
  }

  /** The metadata stored for one email. */
  function MetadataOf(e: Email): Metadata {
    map["from_address" := e.sender]
  }

  /**
   `add_emails_to_vectorDB`: nothing is added for an empty batch; otherwise one
   document, id and metadata entry per email, in the batch's order.
   */
  method AddEmailsToVectorDB(emails: seq<Email>, uuid: nat -> string) returns (request: Option<AddRequest>, ids: seq<string>)
    ensures emails == [] <==> request.None?
    ensures emails == [] ==> ids == []
    ensures |ids| == |emails| && forall i :: 0 <= i < |ids| ==> ids[i] == uuid(i)
    ensures request.Some? ==> request.value.ids == ids
    ensures request.Some? ==> |request.value.documents| == |emails| && |request.value.metadatas| == |emails|
    ensures request.Some? ==> forall i :: 0 <= i < |emails| ==> request.value.documents[i] == Document(emails[i])
    ensures request.Some? ==> forall i :: 0 <= i < |emails| ==>
              request.value.metadatas[i] == MetadataOf(emails[i]) && request.value.metadatas[i].Keys == {"from_address"}
  {
    if emails == [] {
      return None, [];
    }
    var texts := seq(|emails|, i requires 0 <= i < |emails| => emails[i].text);
    var fromAddresses := seq(|emails|, i requires 0 <= i < |emails| => emails[i].sender);
    var subjects := seq(|emails|, i requires 0 <= i < |emails| => emails[i].subject);
    var documents := seq(|emails|, i requires 0 <= i < |emails| => PrependWithTitle("Subject", Some(subjects[i]), Some(texts[i])));
    ids := seq(|emails|, i requires 0 <= i < |emails| => uuid(i));
    var metadatas: seq<Metadata> := [];
    var i := 0;
    while i < |emails|
      invariant 0 <= i <= |emails|
      invariant |metadatas| == i
      invariant forall j :: 0 <= j < i ==> metadatas[j] == map["from_address" := fromAddresses[j]]
    {
      metadatas := metadatas + [map["from_address" := fromAddresses[i]]];
      i := i + 1;
    }
    request := Some(AddRequest(documents, ids, metadatas));
  }

  /** A stored document gives back the email's subject and text when the subject is one line. */
  lemma DocumentRoundTrip(e: Email)
    requires '\n' !in e.subject
    ensures SplitTitled("Subject", Document(e)) == Some((e.subject, e.text))
  {
    GmailInterfaceLemmas.PrependSplitRoundTrip("Subject", Some(e.subject), Some(e.text));
  }

  /** The `where` argument of `query_vectorDB_combined`: a sender filter only for a truthy sender. */
  function QueryFilter(sender: Option<string>): (w: Option<Metadata>)
    ensures w.Some? <==> Filled(sender)
    ensures w.Some? ==> w.value.Keys == {"from_address"} && w.value["from_address"] == sender.value
  {
    if Filled(sender) then Some(map["from_address" := sender.value]) else None
  }

  /** An equality filter accepts a metadata dict that has every key of the filter with the same value. */
  predicate Selects(where: Option<Metadata>, md: Metadata) {
    where.None? || forall k :: k in where.value ==> k in md && md[k] == where.value[k]
  }

  /** The filter keeps exactly the stored emails of the given sender, and keeps all of them when no sender is given. */
  lemma FilterSelectsSender(sender: Option<string>, e: Email)
    ensures Selects(QueryFilter(sender), MetadataOf(e)) <==> !Filled(sender) || e.sender == sender.value
  {
    if Filled(sender) && Selects(QueryFilter(sender), MetadataOf(e)) {
      assert "from_address" in QueryFilter(sender).value;
    }
  }

  /** `extract_body_text_from_results`: the documents of the first query, or [] when there are none. */
  function ExtractBodyText(results: Option<QueryResult>): (r: seq<string>)
    ensures results.None? || results.value.documents.None? || results.value.documents.value == [] ==> r == []
    ensures results.Some? && results.value.documents.Some? && results.value.documents.value != [] ==>
              r == results.value.documents.value[0]
  {
    if results.None? || results.value.documents.None? then []
    else if |results.value.documents.value| > 0 then results.value.documents.value[0]
    else []
  }

  /** A first result stored by `AddEmailsToVectorDB` gives back the email's subject and text. */
  lemma BodyTextRoundTrip(e: Email, rest: seq<string>, others: seq<seq<string>>, metadatas: Option<seq<seq<Metadata>>>)
    requires '\n' !in e.subject
    ensures var docs := ExtractBodyText(Some(QueryResult(Some([[Document(e)] + rest] + others), metadatas)));
            docs != [] && SplitTitled("Subject", docs[0]) == Some((e.subject, e.text))
  {
    DocumentRoundTrip(e);
  }

  /** `extract_from_address_from_results`: the sender of the first result of the first query, or "". */
  function ExtractFromAddress(results: Option<QueryResult>): (r: string)
    ensures (|| results.None? || results.value.metadatas.None? || results.value.metadatas.value == []
             || results.value.metadatas.value[0] == []) ==> r == ""
    ensures results.Some? && results.value.metadatas.Some? && results.value.metadatas.value != [] &&
            results.value.metadatas.value[0] != [] ==>
              r == var md := results.value.metadatas.value[0][0]; if "from_address" in md then md["from_address"] else ""
  {
    if results.None? || results.value.metadatas.None? then ""
    else
      var ms := results.value.metadatas.value;
      if |ms| > 0 && |ms[0]| > 0 then
        var md := ms[0][0];
        if "from_address" in md then md["from_address"] else ""
      else ""
  }

  /** A first result stored by `AddEmailsToVectorDB` gives back the sender of its email. */
  lemma FromAddressRoundTrip(e: Email, rest: seq<Metadata>, others: seq<seq<Metadata>>, documents: Option<seq<seq<string>>>)
    ensures ExtractFromAddress(Some(QueryResult(documents, Some([[MetadataOf(e)] + rest] + others)))) == e.sender
  {
  }
}
