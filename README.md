# Sage Intacct extraction client, modelled in Dafny

This project models the core of a small client that extracts entities from the
Sage Intacct XML gateway, page by page, into a data lake.

- `grab_sage_entity.py` builds the three request documents the gateway
  accepts:
  - `Auth` (`getAPISession`);
  - `Entity` (`readByQuery`);
  - `NextPage` (`readMore`).
- It posts each document with up to three attempts. It reads the session id
  and expiry out of the `Auth` response. It reads the pagination metadata out
  of every page.
- Its `main` loop saves page after page under numbered paths. It renews the
  session when it expires and follows each page's result id until nothing
  remains.
- `load_long_term.py` plans a long extraction. Its `months_to_scan` makes one
  audit-log row per calendar month, each holding the query and file prefix for
  that month.

The modules follow the program's parts:

| module | file | what it holds |
|---|---|---|
| `Base` | `base.dfy` | `Option`/`Result`, Python slicing, decimal text (`str(n)`, `int(s)`, zero padding) |
| `Xml` | `xml.dfy` | Documents as trees, plus the ElementTree reads the client uses: `element.text`, `element.get`, `root.iter` |
| `RequestBuilder` | `request_builder.dfy` | `generate_xml_doc`, as a function (`GenerateXmlDoc`) and as the append-by-append method the source runs (`BuildRequest`) |
| `Transport` | `transport.dfy` | The retry counter of `send_request` |
| `Session` | `session.dfy` | `parse_session_id`, the expiry normalisation and `get_new_sesison` |
| `Pagination` | `pagination.dfy` | `check_for_next_entity`, the page paths, `get_entity`/`get_next_page`, and `main` |
| `LongTerm` | `long_term.dfy` | `months_to_scan` and the pandas month ranges it relies on |

How the inputs are modelled:

- **The network.** It is an input: the outcome of each POST attempt, either
  refused or answered with a parsed body.
- **The clock.** A function gives the clock reading before each next-page
  fetch.
- **`strptime`.** A function parameter that turns the normalised expiry text
  into an instant, or fails.
- **Storage.** A run records every `save_entity` call as a (path, page) pair.

How failures are modelled:

- Every exception the source does not catch becomes an error value of
  `Session.ScanError`. Examples are the attribute access on a missing
  response, an unbound local, and `int()` of a non-number.
- A run ends with the pages saved so far and either its summary or that error.

Behaviours of the code that a reader might not expect:

- **Expiry text.** Only the `+hh:mm` offset form is normalised. An expiry
  written `+hhmm` leaves `timeout` unbound, and the session request fails
  (`Session.TimeoutForms`).
- **Retries.** `send_request` retries uniformly. It returns `None` only when
  the third attempt is refused too (`Transport.AnsweredWithinThree`).
- **Builder errors.** A missing text in a request is not an error. The
  `TypeError` is caught, and the document built so far is sent
  (`RequestBuilder.PartialControl`, `RequestBuilder.QueryBlock`).
- **Stopping.** A run that stops early raises. It does not report a page
  count. The model's `Run` records the pages saved so far, which is what the
  storage holds.

## Model

| member | source | states |
|---|---|---|
| RequestBuilder.GenerateXmlDoc | grab_sage_entity.py:58-152 | The document is always a `request` element with one or two children, the first being the control block; building never fails, since the `TypeError` of a missing text is caught |
| RequestBuilder.Leaves | grab_sage_entity.py:71-87 | The leaves written under one parent are the fields in order, up to and including the first whose text is missing; the list is complete exactly when no text is missing |
| RequestBuilder.AppendLeaves | grab_sage_entity.py:71-87 | Appending `<tag>text</tag>` leaves one at a time keeps every field up to and including the first with a missing text (left empty) and nothing after it, in order, and reports whether it got to the end |
| RequestBuilder.BuildRequest | grab_sage_entity.py:61-147 | The append-by-append construction, leaving the `try` at the first missing text, yields exactly the document `GenerateXmlDoc` describes |
| RequestBuilder.ControlBlock | grab_sage_entity.py:67-87 | With both sender credentials the control block holds, in order, senderid, password, controlid (the process's control id), uniqueid "false", dtdversion "3.0" and includewhitespace "false" |
| RequestBuilder.PartialControl | grab_sage_entity.py:71-75 | A missing sender id or password ends the control block at that element: with no sender id the block holds an empty `senderid` only; with a sender id but no password it holds `senderid` with its text and an empty `password`. The document has no operation |
| RequestBuilder.OperationParts | grab_sage_entity.py:89-119 | The operation holds `authentication` and, exactly when the authentication texts are present, `content/function` |
| RequestBuilder.FunctionCarriesControlId | grab_sage_entity.py:113-123 | The function element is present exactly when the sender and authentication texts are; it carries the control id as its `controlid` attribute and holds the one operation of the document's kind |
| RequestBuilder.LoginBlock | grab_sage_entity.py:97-108 | An `Auth` document holds only `login` under `authentication`; `login` holds userid, companyid, password as far as their texts go, and with all three they carry the user id, company id and user password |
| RequestBuilder.SessionBlock | grab_sage_entity.py:109-111 | `Entity` and `NextPage` documents hold only `sessionid` under `authentication`, with the given session id |
| RequestBuilder.QueryBlock | grab_sage_entity.py:124-138 | `readByQuery` holds object, fields, query, pagesize in order up to and including the first missing text; kept ones carry their texts, later ones are absent |
| RequestBuilder.ReadMoreBlock | grab_sage_entity.py:139-144 | `readMore` holds exactly `resultId`, with the given result id |
| RequestBuilder.EntityDocFields | grab_sage_entity.py:213-222 | The document `get_entity` sends carries the session id, the entity, fields `*`, the query and page size `1000` |
| RequestBuilder.NextPageDocFields | grab_sage_entity.py:228-234 | The document `get_next_page` sends carries the session id and the given result id |
| RequestBuilder.AuthDoc | grab_sage_entity.py:199 | The document `get_new_sesison` sends is a request led by the control block |
| RequestBuilder.EntityDoc | grab_sage_entity.py:216-222 | The document `get_entity` sends is a request led by the control block; its texts are stated by `EntityDocFields` |
| RequestBuilder.NextPageDoc | grab_sage_entity.py:231-234 | The document `get_next_page` sends is a request led by the control block; its texts are stated by `NextPageDocFields` |
| Pagination.SharedControlId | grab_sage_entity.py:32-38 | Every request of a run is built from one settings value, so each carries the same control id in its control block and on its function element |
| Transport.Tries | grab_sage_entity.py:159-168 | `send_request` makes one to three attempts; every attempt before the last was refused; the last was answered or was the third |
| Transport.TransportResult | grab_sage_entity.py:160-176 | A response is the answer to the last attempt made; no response means all three attempts were made |
| Transport.SendRequest | grab_sage_entity.py:155-176 | The counter loop makes exactly `Tries` attempts and returns the response of the last one, or `None` when it was refused |
| Transport.AnsweredWithinThree | grab_sage_entity.py:159-168 | A response comes back exactly when one of the first three attempts is answered, and it is the first answered one's, after that many attempts |
| Transport.ThreeRefusals | grab_sage_entity.py:165-168 | Three refusals in a row: three attempts and no response |
| Session.SessionFields | grab_sage_entity.py:184-193 | Reading succeeds exactly when both a `sessionid` and a `sessiontimeout` element exist; a missing `sessionid` is reported as such |
| Xml.Iter | grab_sage_entity.py:184-188 | `root.iter(tag)` yields only elements carrying that tag |
| Xml.TextOf | grab_sage_entity.py:185 | `element.text` is present exactly when an element's first child is character data, and it is that data |
| Xml.Attr | grab_sage_entity.py:307 | `element.get(name)` finds a value exactly when the element has that attribute, and the value is that attribute's |
| Session.ParseSessionId | grab_sage_entity.py:179-193 | The two overwrite loops leave the texts of the last `sessionid` and the last `sessiontimeout`, or fail as `SessionFields` says |
| Session.LastElementWins | grab_sage_entity.py:184-188 | One more matching element appended after all others decides the text read, whatever came before it |
| Session.NormaliseTimeout | grab_sage_entity.py:206-207 | Normalisation applies exactly when the third character from the end is ':'; it removes that character only, keeps the rest in order and shortens the text by one |
| Session.NormaliseTimeoutRoundTrip | grab_sage_entity.py:206-207 | Putting the ':' back two characters from the end restores the original expiry text |
| Session.TimeoutForms | grab_sage_entity.py:206-210 | `+05:00` is normalised to `+0500`; a text already in the `+0500` form yields no expiry |
| Session.Expiry | grab_sage_entity.py:206-210 | The expiry fails for a missing text, and for a text without the colon; otherwise it fails exactly when `strptime` rejects the normalised text, and when `strptime` accepts it the expiry is the instant it gives |
| Session.NewSession | grab_sage_entity.py:196-210 | A session request fails for want of a connection exactly when `send_request` gives no response; a granted session comes from a response holding both session elements |
| Session.NewSessionGranted | grab_sage_entity.py:196-210 | A session request fails for want of a connection exactly when all attempts were refused; a granted session has the last `sessionid` text and the instant `strptime` gives for the normalised last `sessiontimeout` text; conversely a response holding both elements, whose expiry has the colon form and parses, grants exactly that session |
| Session.GetNewSession | grab_sage_entity.py:196-210 | Sends the `Auth` document and returns the session `NewSession` describes |
| Pagination.CheckForNextEntity | grab_sage_entity.py:301-310 | No metadata exactly when the response has no `data` element; otherwise the first `data` element's metadata, or the failure of its counts |
| Pagination.Metadata | grab_sage_entity.py:307 | Metadata that reads holds the three counts as `int()` reads them and the `listtype` and `resultId` attributes as found; a count that does not read fails the page |
| Pagination.MetadataRoundTrip | grab_sage_entity.py:307 | A `data` element whose attributes are written from a `SageResult` (counts in decimal) reads back as that `SageResult` |
| Pagination.BadCountFails | grab_sage_entity.py:307 | A `data` element's metadata reads exactly when `count`, `numremaining` and `totalcount` are all present and are integers; a missing or non-integer value in any one of them fails the page, whatever the others hold |
| Pagination.WordCountFails | grab_sage_entity.py:307 | A `count` of "ten" fails the page, with every other attribute well formed |
| Pagination.FirstDataElementRead | grab_sage_entity.py:305-310 | The `data` element read is the first in document order at any depth: the first one inside the first child subtree that holds one; later `data` elements are ignored |
| Pagination.PageMetadataRoundTrip | grab_sage_entity.py:301-310 | A response whose first `data` element, however deep, was written from `r` yields `r` |
| Pagination.GatewayResponseRead | grab_sage_entity.py:301-310 | In the gateway's layout `response/operation/result/data`, after the control, authentication and status elements, the metadata read is the one written in `data` |
| Pagination.PagePathInjective | grab_sage_entity.py:347 | Different page numbers give different paths |
| Pagination.PagePath | grab_sage_entity.py:347 | The path of page `n` is the run's stem `Sage_Intacct/data_download/{entity}/{prefix}_{entity}_`, then decimal digits that read back as `n`, then `.xml` |
| Pagination.GetEntity | grab_sage_entity.py:213-225 | Sends the `Entity` document for the query (fields `*`, 1000 a page) and returns the page, or fails when every attempt was refused |
| Pagination.GetNextPage | grab_sage_entity.py:228-237 | Sends the `NextPage` document for the result id and returns the page, or fails when every attempt was refused |
| Pagination.PageOf | grab_sage_entity.py:225 | A page is the response when there is one; with no response the run fails as if the connection were exhausted |
| Pagination.RunScan | grab_sage_entity.py:313-357 | `main` with its variables updated pass by pass produces exactly the run `Scan` describes, and the documents it posts are, one for one and in order, those of the run's requests |
| Pagination.Scan | grab_sage_entity.py:313-357 | Every run starts with the session request, whatever happens after it |
| Pagination.ScanLoop | grab_sage_entity.py:337-357 | The loop only appends: the requests and pages of the state it starts from are a prefix of the run's |
| Pagination.NextPageStep | grab_sage_entity.py:337-350 | A pass sends at least one request and saves at most one page, keeping everything sent and saved before it; when the loop goes on, the counter moves to the next page |
| Pagination.RenewStep | grab_sage_entity.py:339-349 | A pass with an expired session sends at least one request and saves at most one page, keeping everything before it |
| Pagination.NextPass | grab_sage_entity.py:337-350 | One pass of the loop body (clock check, renewal, fetch, save, metadata) is the step `NextPageStep` describes, and it posts the documents of the requests that step adds |
| Pagination.RenewAndFetch | grab_sage_entity.py:339-349 | Requesting a new session and then fetching the next page in it is the step `RenewStep` describes, posting the `Auth` document and then the `NextPage` document |
| Pagination.FetchStep | grab_sage_entity.py:346-350 | A fetch adds exactly one next-page request, in the session in force and with the current result id, and keeps that session for the next pass |
| Pagination.SaveStep | grab_sage_entity.py:347-350 | Every fetched page is saved, under the path numbered by the counter, before its metadata is read; no request is sent; the session is kept |
| Pagination.FetchPage | grab_sage_entity.py:346-349 | `get_next_page` followed by saving the page and reading its metadata is the step `FetchStep` describes, and it posts that step's `NextPage` document |
| Pagination.SavePage | grab_sage_entity.py:347-349 | `save_entity` under the counter's path and `check_for_next_entity` are the step `SaveStep` describes |
| Pagination.ScanFinishes | grab_sage_entity.py:313-357 | However a run ends, page `i` is saved under path `i`, each next-page request carries the previous saved page's result id, and a successful run's summary matches its last page |
| Pagination.PagesNumbered | grab_sage_entity.py:333-350 | Pages are saved under `{prefix}_{entity}_0.xml`, `_1`, … in order, with no gaps and no path used twice |
| Pagination.StopsWhenNothingRemains | grab_sage_entity.py:337-357 | The loop stops at the first page that reports nothing remaining: a saved page reports nothing remaining exactly when it is the last one and the run succeeds. No page request follows that page: a successful run sends exactly one page request per saved page, and returns the last page's total, 0, and the number of pages saved |
| Pagination.SinglePage | grab_sage_entity.py:332-337 | A first page that reports nothing remaining is the only page: the run succeeds with it, its one page request is the query, and no next-page request is sent |
| Pagination.NextPagesFollowResultIds | grab_sage_entity.py:332-349 | The first page is fetched with the query and every later page with the result id of the page saved just before it |
| Pagination.RenewsWhenExpired | grab_sage_entity.py:339-346 | Before each next-page fetch the session is renewed exactly when its expiry is at or before the clock reading; a failed renewal ends the run; the fetch uses the session in force |
| Base.ParseIntRoundTrip | grab_sage_entity.py:307 | `int()` of an integer written in decimal gives that integer back |
| Base.SliceTake | load_long_term.py:23-25 | `xs[0:j]` with `j` from -1 up to the length keeps the first `j` elements, and nothing at -1 when there is at most one |
| LongTerm.MonthStartsMeaning | load_long_term.py:12 | The `MS` range lists exactly the valid firsts of the month in `[start, end]`, strictly increasing |
| LongTerm.MonthEndsMeaning | load_long_term.py:13 | The `M` range lists exactly the valid lasts of the month in `[start, end]`, strictly increasing |
| LongTerm.MonthStartsClosed | load_long_term.py:12 | The month starts are the firsts of consecutive months, from the month of `start` (or the next one when `start` is not a first) to the month of `end` |
| LongTerm.MonthEndsClosed | load_long_term.py:13 | The month ends are the lasts of consecutive months, from the month of `start` to the month of `end` (or the one before when `end` is not a last) |
| LongTerm.MonthStarts | load_long_term.py:12 | Every date of the `MS` range is a first of the month between the start and end dates |
| LongTerm.MonthEnds | load_long_term.py:13 | Every date of the `M` range is the last day of its month and lies between the start and end dates |
| LongTerm.EndsCoverStarts | load_long_term.py:18-24 | There is a month end for every month start but the last, so every end the loop and the slice read exists |
| LongTerm.FormatMDYRoundTrip | load_long_term.py:12-13 | `MM/DD/YYYY` has its slashes at positions 2 and 5, and its zero-padded digit fields read back as the month, day and year |
| LongTerm.FormatMDYInjective | load_long_term.py:12-13 | Different dates are written differently |
| LongTerm.FormatYMRoundTrip | load_long_term.py:14 | `YYYY_MM` has its underscore at position 4, and its digit fields read back as the year and month |
| LongTerm.FormatMDY | load_long_term.py:12-13 | `strftime('%m/%d/%Y')` of a date is ten characters long |
| LongTerm.FormatYM | load_long_term.py:14 | `strftime('%Y_%m')` of a date is seven characters long |
| LongTerm.QueryList | load_long_term.py:16-20 | The loop builds one query per month start but the last: `WHENMODIFIED >= {start_i} AND WHENMODIFIED <= {end_i}` |
| LongTerm.MonthsToScan | load_long_term.py:9-31 | The loop and the column assignments produce exactly the plan `ScanPlan` describes |
| LongTerm.ScanPlanRows | load_long_term.py:16-29 | Every column has one entry per month start but the last. Row `i` queries from the `i`-th month start to the `i`-th month end (`MM/DD/YYYY`), has the start's `YYYY_MM` as prefix, no counts, and status `Needs loading` |
| LongTerm.ScanPlan | load_long_term.py:22-29 | Every column of the audit log has one entry per month start but the last |
| LongTerm.RowsAlignedFromFirst | load_long_term.py:12-24 | From a first of the month, row `i`'s end is the last day of its start's month |
| LongTerm.RowsMisalignedFromMidMonth | load_long_term.py:12-24 | From any other day, row `i` pairs the first of a month with the last day of the month before, so its query selects nothing |
| LongTerm.MidMonthCounterexample | load_long_term.py:12-24 | From 2022-01-15 to 2022-03-01 the plan has one row, with the query `WHENMODIFIED >= 02/01/2022 AND WHENMODIFIED <= 01/31/2022` |
| LongTerm.AlignedRowsSpanOneMonth | load_long_term.py:12-24 | With each end taken as the last day of its start's month, every row covers one calendar month inside the range, using a listed month end; from a first of the month these are the ends the source uses |

## Left out

- Logging: every logger call and the handler setup are output only.
- HTTP: `requests.post`, its headers and timeout are left out. Each attempt is
  either refused (the builtin `ConnectionError`, which the loop catches) or
  answered. Other exceptions escape `send_request` and are not modelled. Among
  them is the `requests` library's own `ConnectionError`, which does not
  derive from the builtin one. HTTP status codes are not modelled either.
- Attempt outcomes: attempts past the given outcomes count as refused. Page
  requests past the given list get no response. So a modelled run always
  ends, while the source's loop runs for as long as the service keeps
  answering.
- XML text: serialisation (`toprettyxml`) and parsing (`parseString`,
  `ET.fromstring`) are library codecs. Requests are built as trees and
  responses arrive as trees, so a response that is not well-formed XML is not
  modelled.
- `RequestBuilder.GenerateXmlDoc`: the document is built as a value, not as a
  minidom `Document`. Only the element structure, attributes and texts are
  modelled. The document kind is one of the three kinds the callers pass;
  other strings are not modelled.
- Azure Data Lake: the client, the upload and the read-back check are left
  out. `save_entity` is a sink that records (path, page). A failed upload is
  not modelled, because the source ignores its result.
- Environment: the environment variables and the `time.time()` control id
  are fields of `SageIntacct`. The control id is given, not computed.
- Clock: `dt.now()` is the function `Env.clock`. Time zones are not modelled,
  and instants are integers.
- `strptime`: it is a parameter (`Env.strptime`). The format's own parsing
  and offset arithmetic are not modelled.
- Dates: pandas parsing of the start and end strings is not modelled. The
  dates are given as (year, month, day) values. Their years are limited to
  1678–2261, the whole years a pandas timestamp can hold. Times of day are
  not modelled, since all dates are at midnight.
- Integers: `int()` is modelled on an optional sign followed by ASCII digits.
  Surrounding whitespace, underscores and non-ASCII digits are not accepted
  here.
- `load_long_term.main` and the DataFrame row updates, including the no-op
  comparison on its line 41 and the CSV writing, are not part of this model.
- `sage_slasher.py` is command-line wiring and is not part of this model.

## Findings

| source | as written | input that shows it | evidently intended | confidence | as-written member | corrected member |
|---|---|---|---|---|---|---|
| load_long_term.py:12-24 | Row `i` pairs the `i`-th first of the month with the `i`-th last of the month. When the start date is not a first, the month ends begin one month earlier than the month starts. | `months_to_scan('2022-01-15', '2022-03-01')` gives one row, with query `WHENMODIFIED >= 02/01/2022 AND WHENMODIFIED <= 01/31/2022`, which selects nothing; from any day but the 1st every row is like this | Each row covers one calendar month, ending on the last day of its start's month | not executed | LongTerm.MidMonthCounterexample | LongTerm.AlignedRowsSpanOneMonth |
