# Gmail reader: message-body search, headers and vector-store shaping

This project models the deterministic core of an assistant that reads unread
Gmail messages, stores them in a vector store and summarises them. It proves
properties of that model in Dafny. The model covers three things:

- **Body search** (`Gmail_Interface.py`). A Gmail `format=full` message is a
  decoded JSON tree. Its `payload` is a MIME part, and every multipart part
  lists its children under `parts`. The body of a requested MIME type is looked
  for in this order:
  1. the payload itself;
  2. inside the first `multipart/alternative` container (RFC 2046
     section 5.1.4);
  3. inside the first `multipart/mixed` (RFC 2046 section 5.1.3) or
     `multipart/related` (RFC 2387) container;
  4. a last loop over the payload's parts.

  The cleaned body prefers HTML over plain text. The sender and subject come
  from the first header with exactly that name. A titled document looks like
  `"Subject: …\n…"`. The `Email` record fills in defaults for a missing sender,
  subject or body.
- **The older copy** (`Gmail-Interface.py`). It holds the same search with the
  type fixed to `text/plain`, the `.pdf` suffix test, and a recursive count of
  the attachments that pass a file-name predicate. Its sender and subject
  lookups (`Gmail-Interface.py:152-180`) are the same code as
  `Gmail_Interface.py:204-232`, so they are modelled once, by
  `GmailInterface.HeaderOf`.
- **Vector-store shaping** (`VectorDB.py`). This covers:
  - the documents, ids and metadata handed to the store;
  - the sender filter of a query;
  - reading the first result's documents and sender back.

The model keeps Python's behaviour where the code relies on it:

- **Truthiness.** An empty string means "not found". Body data must be
  non-empty.
- **Results.** Each helper's result is `Found(text)`, `NotFound` (Python's
  `None`) or `Raised` (an exception).
- **Loops over the wrong kind of value.** The search loops over whatever
  `parts` holds:
  - iterating a string yields characters;
  - iterating a dict yields its keys, including keys the model does not
    otherwise represent (the `otherKeys` flag), so only `{}` iterates to nothing;
  - `.get` on either of those raises.
- **Membership tests.** `'payload' not in message` is a membership test on a
  list and a substring test on a string.
- **The last body loop.** It returns the last part's result when no part gives
  text.

For trees of the Gmail API's shape (`MessageTree.Shaped`: dicts all the way
down, and every `parts` entry a list), the lemmas show that nothing raises.

### Collaborators passed in as parameters

Calls into code outside the model are function parameters:

- `decode` stands for base64url (RFC 4648 section 5) followed by UTF-8.
- `htmlClean` stands for `html_clean`.
- `plainClean` stands for `plain_clean`.
- `countTokens` stands for the tokenizer wrapper.
- `uuid(i)` is the i-th generated id.

### The last body loop and ordinary parts

The last loop of `get_plain_text_body` calls `get_plain_text_body(part)` on each
part. A MIME part has no `payload` key, so each call returns None. For a
message whose parts are ordinary MIME parts, the result is therefore the direct
hit, else the alternative result, else the mixed/related result.
`PlainTextBodyFallback` states this.

## Model

| member | source | states |
|---|---|---|
| `GmailInterface.TextFromPart` | Gmail_Interface.py:29-37 | A part gives text exactly when it is a dict whose `mimeType` equals `cond` and whose body data is non-empty; the text is `decode` of that data; a non-dict raises. |
| `GmailInterface.ScanList` | Gmail_Interface.py:56-59 | The child scan of a container only ever returns non-empty text. |
| `GmailInterface.Find` | Gmail_Interface.py:39-105 | Either container search only ever returns non-empty text (a truthy result). |
| `GmailInterface.FindInList` | Gmail_Interface.py:65-69 | The list loop of a search only ever returns non-empty text. |
| `GmailInterface.PlainTextBody` | Gmail_Interface.py:107-139 | A message without `payload` gives None. A payload that is not a dict raises. A payload of type `cond` with non-empty data gives its decoded body without any search. |
| `GmailInterface.FirstHeader` | Gmail_Interface.py:215-218 | The header loop never raises. |
| `GmailInterface.HeaderOf` | Gmail_Interface.py:214-218 | The lookup raises exactly when the message is not a dict, or its payload is present and not a dict. A message without payload gives None. |
| `GmailInterface.MakeEmail` | Gmail_Interface.py:352-362 | Sender and subject are the header values when truthy, else "Unknown Sender" and "No Subject", so never empty. The text is the body or "". The token count is the tokenizer's count of a non-empty body, else 0. |
| `GmailInterfaceLemmas.ScanListFirstStop` | Gmail_Interface.py:56-59 | The child scan returns the result of the first child, in order, that raises or gives non-empty text. |
| `GmailInterfaceLemmas.ScanListNoStop` | Gmail_Interface.py:56-59 | A child scan in which no child stops gives None. |
| `GmailInterfaceLemmas.FindInListFirstStop` | Gmail_Interface.py:65-69 | A list gives the result of its first element, in order, at which the search stops. |
| `GmailInterfaceLemmas.FindInListNoStop` | Gmail_Interface.py:65-69 | A list none of whose elements stops the search gives None. |
| `GmailInterfaceLemmas.ContainerFirstChild` | Gmail_Interface.py:52-62 | Inside a matching container, the result is that of the first direct child, in order, that raises or gives non-empty text. When no child does, the result is the search over the container's `parts`. |
| `GmailInterfaceLemmas.ScanListSound` | Gmail_Interface.py:29-37 | Any text the child scan returns is the decoded non-empty body of a direct child of type `cond`. |
| `GmailInterfaceLemmas.FindSound` | Gmail_Interface.py:39-71 | Any text a search returns is offered by a container of its kind found along `parts`: a direct child of type `cond` whose body decodes to that text. |
| `GmailInterfaceLemmas.FindInListSound` | Gmail_Interface.py:98-105 | The same soundness for the list case. |
| `GmailInterfaceLemmas.ChildOffersCarries` | Gmail_Interface.py:29-37 | A direct child offering text is a part of the tree carrying that text. |
| `GmailInterfaceLemmas.OffersCarries` | Gmail_Interface.py:29-105 | Text offered by a container is the decoded body of some part of type `cond` in the tree. |
| `GmailInterfaceLemmas.OffersInCarries` | Gmail_Interface.py:64-69 | The same for a list of values. |
| `GmailInterfaceLemmas.ScanListOnDicts` | Gmail_Interface.py:56-59 | A scan over dict children never raises, and finds text whenever some child offers it. |
| `GmailInterfaceLemmas.FindOnShaped` | Gmail_Interface.py:47-71 | On a tree of the Gmail API's shape a search never raises, and it finds text whenever a container of its kind offers some. |
| `GmailInterfaceLemmas.FindInListOnShaped` | Gmail_Interface.py:98-105 | The same for a list of parts of that shape. |
| `GmailInterfaceLemmas.FindFoundIffOffered` | Gmail_Interface.py:73-105 | On a tree of the Gmail API's shape a search finds text if and only if some container of its kind offers some. |
| `GmailInterfaceLemmas.PlainTextBodySound` | Gmail_Interface.py:107-139 | Any text `get_plain_text_body` returns is the decoded body of some part of type `cond` in the message. |
| `GmailInterfaceLemmas.PartsLoopSound` | Gmail_Interface.py:132-139 | Any text the last loop returns is the carried-over result or comes from one of its parts. |
| `GmailInterfaceLemmas.PartsLoopOrdinary` | Gmail_Interface.py:134-137 | Over parts without their own `payload` the last loop gives None. |
| `GmailInterfaceLemmas.PlainTextBodyFallback` | Gmail_Interface.py:120-139 | For ordinary parts the body is the direct hit, else the alternative-search result unless it is None, else the mixed/related-search result. |
| `GmailInterfaceLemmas.PlainTextBodyOnShaped` | Gmail_Interface.py:115-139 | On a message of the Gmail API's shape `get_plain_text_body` never raises. |
| `GmailInterfaceLemmas.PartsLoopOnShaped` | Gmail_Interface.py:132-137 | The last loop over parts of that shape never raises. |
| `GmailInterfaceLemmas.CleanPlainTextBodySound` | Gmail_Interface.py:177-197 | A found HTML body is returned through `htmlClean`, and an exception in the HTML search propagates. When no HTML body is found, the result is `plainClean` of the plain-text body, or None (or an exception) exactly as the plain-text search gives it. Each cleaned text comes from a part of that type in the message. On Gmail-shaped messages nothing raises. |
| `GmailInterfaceLemmas.FirstHeaderAt` | Gmail_Interface.py:215-217 | When `headers[i]` is the first header with the name, the loop gives its `value`. |
| `GmailInterfaceLemmas.FirstHeaderAbsent` | Gmail_Interface.py:215-218 | When no header has the name, the loop gives None. |
| `GmailInterfaceLemmas.FirstHeaderFirstMatch` | Gmail_Interface.py:228-232 | The lookup gives the value of the first header, in order, named exactly `name`, and None when there is none. |
| `GmailInterfaceLemmas.HeaderOfFirstMatch` | Gmail_Interface.py:204-232 | For a message with a dict payload, the sender or subject is the value of the payload's first header with exactly that name, or None. |
| `GmailInterfaceLemmas.SenderIsCaseSensitive` | Gmail_Interface.py:216 | A header named "from" in lower case is not taken as the sender. |
| `GmailInterfaceLemmas.PrependSplitRoundTrip` | Gmail_Interface.py:304-321 | `"{title}: {content}\n{body}"`, with a missing part read as "", splits back into content and body when the content has no line break. |
| `LegacyGmailInterface.ScanListAgrees` | Gmail-Interface.py:50-54 | The older child scan equals the newer one at `text/plain`. |
| `LegacyGmailInterface.FindAgrees` | Gmail-Interface.py:34-100 | The older container searches equal the newer ones at `text/plain`. |
| `LegacyGmailInterface.FindInListAgrees` | Gmail-Interface.py:59-64 | The older list loop equals the newer one at `text/plain`. |
| `LegacyGmailInterface.PlainTextBodyAgrees` | Gmail-Interface.py:102-134 | The older `get_plain_text_body(m)` equals the newer `get_plain_text_body(m, 'text/plain')` on every value. |
| `LegacyGmailInterface.PartsLoopAgrees` | Gmail-Interface.py:126-132 | The older last loop equals the newer one at `text/plain`. |
| `LegacyGmailInterface.IsPdf` | Gmail-Interface.py:182-190 | The test holds exactly when the name has at least four characters and its last four, lower-cased, are ".pdf". |
| `LegacyGmailInterface.LowerIdempotent` | Gmail-Interface.py:190 | Lower-casing twice is lower-casing once. |
| `LegacyGmailInterface.IsPdfIgnoresCase` | Gmail-Interface.py:182-190 | "X.PDF" is accepted, and lower-casing a name first does not change the answer. |
| `LegacyGmailInterface.MatchesAppend` | Gmail-Interface.py:208-211 | The count over two runs of parts is the sum of the two counts. |
| `LegacyGmailInterface.RecursiveCount` | Gmail-Interface.py:201-212 | The loop raises exactly when the walk meets something it cannot iterate, or a part that is not a dict. Otherwise it returns the number of parts, at any depth and in walk order, whose lower-cased `filename` (default "") passes the predicate and whose `body` (default `{}`) has an `attachmentId`. |
| `LegacyGmailInterface.CountList` | Gmail-Interface.py:202-212 | The `for` loop with its running `count` gives the reference result of the list: None as soon as one part raises, otherwise the sum of the per-part counts. |
| `LegacyGmailInterface.CountPart` | Gmail-Interface.py:204-211 | One turn of the loop gives the reference result of the part. A non-dict raises. An attachment passing the predicate adds 1, and the count of its nested `parts` is added. |
| `LegacyGmailInterface.CountOfListNone` | Gmail-Interface.py:203-212 | Once a part has raised, the whole loop raises. |
| `LegacyGmailInterface.CountOfRaises` | Gmail-Interface.py:201-212 | The reference result is None exactly when the count raises. |
| `LegacyGmailInterface.CountOfCounts` | Gmail-Interface.py:201-212 | When it does not raise, the reference result is the number of matching parts along the walk. |
| `LegacyGmailInterface.GenericAttachmentCount` | Gmail-Interface.py:192-216 | The count of such parts below the payload, or an exception. A message without payload, or a payload without `parts`, gives 0. |
| `LegacyGmailInterface.MatchesBound` | Gmail-Interface.py:201-212 | The count never exceeds the number of parts visited. |
| `LegacyGmailInterface.MatchesNone` | Gmail-Interface.py:207 | A predicate that accepts no file name counts 0. |
| `LegacyGmailInterface.VisitOnlyParts` | Gmail-Interface.py:203-211 | Every value the count visits is a dict. |
| `LegacyGmailInterface.VisitAllOnlyParts` | Gmail-Interface.py:203 | The same for a list of parts. |
| `LegacyGmailInterface.VisitPartOnlyParts` | Gmail-Interface.py:210-211 | The same for one part and its nested parts. |
| `LegacyGmailInterface.VisitBelow` | Gmail-Interface.py:201-212 | Every part the walk visits lies strictly inside the value whose parts are walked. |
| `LegacyGmailInterface.VisitAllBelow` | Gmail-Interface.py:203 | Every part visited for a list is one of its elements or lies inside one. |
| `LegacyGmailInterface.VisitPartBelow` | Gmail-Interface.py:210-211 | Every part visited for a part is that part or lies inside it. |
| `LegacyGmailInterface.PayloadNeverVisited` | Gmail-Interface.py:214-216 | The walk starts at the payload's `parts`, so the payload node itself is never visited and never counted. |
| `LegacyGmailInterface.KeysOnlyPartsRaise` | Gmail-Interface.py:201-205 | A `parts` dict holding only unread keys is iterated key by key and raises, in the count as in the body search (Gmail_Interface.py:56-57). |
| `LegacyGmailInterface.CountOnShaped` | Gmail-Interface.py:214-216 | On a message of the Gmail API's shape the count never raises. |
| `LegacyGmailInterface.ShapedPartsCount` | Gmail-Interface.py:201-212 | The same for a list of parts of that shape. |
| `VectorDB.AddEmailsToVectorDB` | VectorDB.py:28-66 | An empty batch adds nothing and returns []. Otherwise there is one id, one document and one metadata entry per email, in order. The document is the email's text titled with its subject. The metadata is exactly `{"from_address": sender}`, and the returned ids are the ones stored. |
| `VectorDB.DocumentRoundTrip` | VectorDB.py:44-45 | A stored document splits back into the email's subject and text when the subject is one line. |
| `VectorDB.QueryFilter` | VectorDB.py:70-78 | A filter is passed exactly when the sender is truthy, and it is then exactly `{"from_address": sender}`. |
| `VectorDB.FilterSelectsSender` | VectorDB.py:72-78 | The filter keeps a stored email's metadata exactly when no sender is given or the email's sender is that sender. |
| `VectorDB.ExtractBodyText` | VectorDB.py:83-100 | The result is [] for missing results, missing documents or an empty documents list. Otherwise it is exactly the first query's documents. |
| `VectorDB.BodyTextRoundTrip` | VectorDB.py:92-98 | A stored document at the first position comes back with the email's subject and text. |
| `VectorDB.ExtractFromAddress` | VectorDB.py:102-120 | The result is "" for missing results or metadata, an empty list, or an empty first list. Otherwise it is the first metadata's `from_address`, defaulting to "". |
| `VectorDB.FromAddressRoundTrip` | VectorDB.py:111-118 | Metadata stored for an email comes back as that email's sender. |

## Left out

- **The summarising engine.** The module that defines `split_text_into_chunks`,
  `truncate_text_to_tokens`, `summarize_text`, `summarize_array`,
  `summarize_Emails`, `answer_question_with_context` and `clean_email_text` is
  not part of this model. `UX.py` calls these functions, but no file of the
  repository defines them.
- **AI_API.py.** It wraps the tokenizer and the chat client. Token counting is
  the parameter `countTokens`.
- **Credentials.** OAuth, the token files and `start_up`/`create_credentials`
  are file and network I/O.
- **Gmail API calls.** These are network I/O: `get_unread_emails`,
  `count_unread_emails`, `send_email` and `get_own_email_address`. So is the
  loop of `get_unread_email_objects`, including its exception handler. Only
  the record that loop builds is modelled, by `MakeEmail`.
- **Decoding.** Base64url and UTF-8 decoding are the total parameter `decode`.
  A decoding failure, which raises in Python, is not modelled.
- **Cleaning.** `html_clean` (BeautifulSoup) and `plain_clean` are the
  parameters `htmlClean` and `plainClean`.
- **ChromaDB.** The client, the embedding function and the `collection.add` and
  `collection.query` calls are foreign calls. Uuid generation is the parameter
  `uuid`, whose uniqueness is not modelled.
- **`get_time_from_message`.** It uses float division and `datetime`.
- **Disabled code and the UI.** The code disabled inside a string literal at
  the end of `Gmail_Interface.py` is not live. `UX.py` is the interactive
  command loop.
- **JSON values.** Of the keys of a dict, only those the helpers read are
  represented one by one; any other key is recorded only as present or absent
  (`otherKeys`). The following are not represented:
  - a `body` that is not a dict;
  - a `headers` value that is not a list, or a header entry that is not a dict;
  - a `mimeType`, `filename`, `data` or header value that is not a string.

  In Python these raise, or compare unequal to every string.
- **Lower-casing.** `LegacyGmailInterface.Lower` folds ASCII letters only, while
  Python's `str.lower` folds all of Unicode.
- **The count predicate.** The predicate given to `generic_Attachment_Count` is
  total. An exception raised by it is not modelled.
- **Query results.** Null entries inside the nested lists of a ChromaDB result
  are not represented. A missing key and a null value are both `None`.
