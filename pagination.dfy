/** The extraction run (`main` in grab_sage_entity.py): get a session, fetch
    the first page of the query, then follow the result id page by page until
    the service reports nothing remaining, renewing the session whenever it has
    expired, and save every page under a numbered path.

    The service, the clock and the storage are inputs and outputs: the
    outcomes of the POST attempts of each session request and of each page
    request, the clock readings before each next-page fetch, and the list of
    (path, page) writes the run makes. */
module Pagination {
  import opened Base
  import opened Xml
  import opened RequestBuilder
  import opened Transport
  import opened Session

  /** The `SageResult` dataclass: the pagination metadata of one page. */
  datatype SageResult = SageResult(
    entity: Option<string>,
    resultId: Option<string>,
    thisCount: int,
    numberRemaining: int,
    totalCount: int)

  /** `int(a.get(name))`: `None` when the attribute is missing or is not an
      integer literal. */
  function IntAttr(a: Node, name: string): Option<int> {
    match Attr(a, name)
    case None => None
    case Some(text) => ParseInt(text)
  }

  /** The pagination metadata carried by one `data` element, or a failure
      when one of its counts is not an integer. */
  function Metadata(a: Node): (r: Result<SageResult, ScanError>)
    ensures r.Err? ==> r == Err(BadPageCount)
    ensures r.Ok? ==>
      && IntAttr(a, "count") == Some(r.value.thisCount)
      && IntAttr(a, "numremaining") == Some(r.value.numberRemaining)
      && IntAttr(a, "totalcount") == Some(r.value.totalCount)
      && r.value.entity == Attr(a, "listtype") && r.value.resultId == Attr(a, "resultId")
  {
    match (IntAttr(a, "count"), IntAttr(a, "numremaining"), IntAttr(a, "totalcount"))
    case (Some(c), Some(n), Some(t)) => Ok(SageResult(Attr(a, "listtype"), Attr(a, "resultId"), c, n, t))
    case _ => Err(BadPageCount)
  }

  /** `check_for_next_entity`: the metadata of the first `data` element in
      document order, `None` when there is none. */
  function CheckForNextEntity(root: Node): (r: Result<Option<SageResult>, ScanError>)
    ensures r == Ok(None) <==> Iter(root, "data") == []
    ensures Iter(root, "data") != [] ==>
      match Metadata(Iter(root, "data")[0])
      case Ok(m) => r == Ok(Some(m))
      case Err(e) => r == Err(e)
  {
    var found := Iter(root, "data");
    if found == [] then Ok(None)
    else
      match Metadata(found[0])
      case Err(e) => Err(e)
      case Ok(m) => Ok(Some(m))
  }

  /** The attributes of a `data` element that carries `r`, counts written in
      decimal. */
  function DataAttrs(r: SageResult): map<string, string> {
    var counts := map["count" := IntToString(r.thisCount),
                      "numremaining" := IntToString(r.numberRemaining),
                      "totalcount" := IntToString(r.totalCount)];
    var withEntity := if r.entity.Some? then counts["listtype" := r.entity.value] else counts;
    if r.resultId.Some? then withEntity["resultId" := r.resultId.value] else withEntity
  }

  /** Each attribute of `DataAttrs(r)` holds its field of `r`. */
  lemma {:induction false} DataAttrsHold(r: SageResult)
    ensures var a := DataAttrs(r);
      && "count" in a && a["count"] == IntToString(r.thisCount)
      && "numremaining" in a && a["numremaining"] == IntToString(r.numberRemaining)
      && "totalcount" in a && a["totalcount"] == IntToString(r.totalCount)
      && ("listtype" in a <==> r.entity.Some?) && (r.entity.Some? ==> a["listtype"] == r.entity.value)
      && ("resultId" in a <==> r.resultId.Some?) && (r.resultId.Some? ==> a["resultId"] == r.resultId.value)
  {
    var counts := map["count" := IntToString(r.thisCount),
                      "numremaining" := IntToString(r.numberRemaining),
                      "totalcount" := IntToString(r.totalCount)];
    assert counts.Keys == {"count", "numremaining", "totalcount"};
    var withEntity := if r.entity.Some? then counts["listtype" := r.entity.value] else counts;
    assert "resultId" !in withEntity;
  }

  /** A `data` element written from `r` reads back as `r`. */
  lemma {:induction false} MetadataRoundTrip(r: SageResult, kids: seq<Node>)
    ensures Metadata(Element("data", DataAttrs(r), kids)) == Ok(r)
  {
    var d := Element("data", DataAttrs(r), kids);
    DataAttrsHold(r);
    ParseIntRoundTrip(r.thisCount);
    ParseIntRoundTrip(r.numberRemaining);
    ParseIntRoundTrip(r.totalCount);
    assert IntAttr(d, "count") == Some(r.thisCount);
    assert IntAttr(d, "numremaining") == Some(r.numberRemaining);
    assert IntAttr(d, "totalcount") == Some(r.totalCount);
  }

  /** Whether `int(a.get(name))` succeeds on the attributes of an element. */
  predicate CountReads(attrs: map<string, string>, name: string) {
    name in attrs && ParseInt(attrs[name]).Some?
  }

  /** An element's metadata reads exactly when all three counts are present
      and are integers; a missing or non-integer count, any one of the three,
      fails the element whatever the others hold. */
  lemma {:induction false} BadCountFails(attrs: map<string, string>, kids: seq<Node>)
    ensures Metadata(Element("data", attrs, kids)).Ok?
        <==> CountReads(attrs, "count") && CountReads(attrs, "numremaining") && CountReads(attrs, "totalcount")
    ensures Metadata(Element("data", attrs, kids)).Err? ==> Metadata(Element("data", attrs, kids)) == Err(BadPageCount)
  {
    var d := Element("data", attrs, kids);
    assert IntAttr(d, "count").Some? <==> CountReads(attrs, "count");
    assert IntAttr(d, "numremaining").Some? <==> CountReads(attrs, "numremaining");
    assert IntAttr(d, "totalcount").Some? <==> CountReads(attrs, "totalcount");
  }

  /** The text "ten" is not a count. */
  lemma {:induction false} WordCountFails(r: SageResult, kids: seq<Node>)
    ensures Metadata(Element("data", DataAttrs(r)["count" := "ten"], kids)) == Err(BadPageCount)
  {
    assert !AllDigits("ten") by { assert !IsDigit("ten"[0]); }
    assert !CountReads(DataAttrs(r)["count" := "ten"], "count");
    BadCountFails(DataAttrs(r)["count" := "ten"], kids);
  }

  /** The `data` element read is the first in document order, at any depth:
      below an element that is not `data` itself, it is the first one in the
      first child subtree that holds one; whatever follows, later `data`
      elements included, is ignored. */
  lemma {:induction false} FirstDataElementRead(t: string, attrs: map<string, string>, pre: seq<Node>, c: Node,
                                               rest: seq<Node>)
    requires t != "data" && IterAll(pre, "data") == [] && Iter(c, "data") != []
    ensures var found := Iter(Element(t, attrs, pre + [c] + rest), "data");
      |found| > 0 && found[0] == Iter(c, "data")[0]
  {
    var kids := pre + [c] + rest;
    IterAllAppend(pre + [c], rest, "data");
    IterAllAppend(pre, [c], "data");
    IterAllOne(c, "data");
    assert IterAll(pre + [c], "data") == Iter(c, "data");
    assert IterAll(kids, "data") == Iter(c, "data") + IterAll(rest, "data");
    assert Iter(Element(t, attrs, kids), "data") == IterAll(kids, "data");
  }

  /** Together: a response whose first `data` element, however deep, was
      written from `r` yields `r`. */
  lemma {:induction false} PageMetadataRoundTrip(t: string, attrs: map<string, string>, pre: seq<Node>, c: Node,
                                                rest: seq<Node>, r: SageResult, kids: seq<Node>)
    requires t != "data" && IterAll(pre, "data") == [] && Iter(c, "data") != []
    requires Iter(c, "data")[0] == Element("data", DataAttrs(r), kids)
    ensures CheckForNextEntity(Element(t, attrs, pre + [c] + rest)) == Ok(Some(r))
  {
    FirstDataElementRead(t, attrs, pre, c, rest);
    MetadataRoundTrip(r, kids);
  }

  /** The gateway's own layout: `response/operation/result/data`, after the
      `control` block, the `authentication` block and the result's status
      elements. The metadata read is the one written there. */
  lemma {:induction false} GatewayResponseRead(control: Node, auth: Node, status: seq<Node>, r: SageResult,
                                              kids: seq<Node>, rest: seq<Node>)
    requires Iter(control, "data") == [] && Iter(auth, "data") == [] && IterAll(status, "data") == []
    ensures var data := Element("data", DataAttrs(r), kids);
      var result := Element("result", map[], status + [data] + rest);
      var operation := Element("operation", map[], [auth, result]);
      CheckForNextEntity(Element("response", map[], [control, operation])) == Ok(Some(r))
  {
    var data := Element("data", DataAttrs(r), kids);
    var result := Element("result", map[], status + [data] + rest);
    var operation := Element("operation", map[], [auth, result]);
    assert Iter(data, "data")[0] == data;
    FirstDataElementRead("result", map[], status, data, rest);
    assert Iter(result, "data")[0] == data;
    IterAllOne(auth, "data");
    IterAllOne(control, "data");
    FirstDataElementRead("operation", map[], [auth], result, []);
    assert [auth] + [result] + [] == [auth, result];
    assert Iter(operation, "data")[0] == data;
    assert [control] + [operation] + [] == [control, operation];
    PageMetadataRoundTrip("response", map[], [control], operation, [], r, kids);
  }

  // ---------------------------------------------------------------------------
  // File names

  /** The stem of every page path of one run. */
  function PathStem(entity: string, prefix: string): string {
    "Sage_Intacct/data_download/" + entity + "/" + prefix + "_" + entity + "_"
  }

  /** `Sage_Intacct/data_download/{entity}/{prefix}_{entity}_{n}.xml`: the
      run's stem, the page counter in decimal and `.xml`, so the counter can be
      read back from the file name. */
  function PagePath(entity: string, prefix: string, n: nat): (path: string)
    ensures var k := |PathStem(entity, prefix)|;
      && k + 5 <= |path|
      && path[..k] == PathStem(entity, prefix)
      && path[|path| - 4..] == ".xml"
      && AllDigits(path[k..|path| - 4])
      && DigitsValue(path[k..|path| - 4]) == n
  {
    NatToStringRoundTrip(n);
    var path := "Sage_Intacct/data_download/" + entity + "/" + prefix + "_" + entity + "_" + NatToString(n) + ".xml";
    assert path == PathStem(entity, prefix) + NatToString(n) + ".xml";
    assert path[|PathStem(entity, prefix)|..|path| - 4] == NatToString(n);
    path
  }

  /** Different page numbers give different paths, so no page overwrites
      another. */
  lemma {:induction false} PagePathInjective(entity: string, prefix: string, m: nat, n: nat)
    requires PagePath(entity, prefix, m) == PagePath(entity, prefix, n)
    ensures m == n
  {
    var stem := PathStem(entity, prefix);
    var pm, pn := PagePath(entity, prefix, m), PagePath(entity, prefix, n);
    assert pm[|stem|..|pm| - 4] == NatToString(m);
    assert pn[|stem|..|pn| - 4] == NatToString(n);
    NatToStringInjective(m, n);
  }

  // ---------------------------------------------------------------------------
  // Page requests

  /** `get_entity`: sends the `Entity` document for the query and returns the
      response, or fails when every attempt was refused (`None.text`). */
  method GetEntity(sesh: SageIntacct, sessionId: Option<string>, entity: string, query: string,
                   outcomes: seq<Attempt>)
    returns (page: Result<Node, ScanError>, sent: Node)
    ensures sent == EntityDoc(sesh, sessionId, entity, query)
    ensures page == PageOf(TransportResult(outcomes))
  {
    sent := BuildRequest(sesh, Entity, DocParams(sessionId, Some(entity), Some("*"), Some(query), Some("1000"), None));
    var response, _ := SendRequest(outcomes);
    page := PageOf(response);
  }

  /** `get_next_page`: sends the `NextPage` document for the result id. */
  method GetNextPage(sesh: SageIntacct, sessionId: Option<string>, resultId: Option<string>,
                     outcomes: seq<Attempt>)
    returns (page: Result<Node, ScanError>, sent: Node)
    ensures sent == NextPageDoc(sesh, sessionId, resultId)
    ensures page == PageOf(TransportResult(outcomes))
  {
    sent := BuildRequest(sesh, NextPage, DocParams(sessionId, None, None, None, None, resultId));
    var response, _ := SendRequest(outcomes);
    page := PageOf(response);
  }

  /** `response.text`: the page, or a failure when there is no response. */
  function PageOf(response: Option<Node>): (r: Result<Node, ScanError>)
    ensures r.Err? <==> response.None?
    ensures r.Err? ==> r.error == ConnectionExhausted
    ensures r.Ok? ==> r.value == response.value
  {
    if response.None? then Err(ConnectionExhausted) else Ok(response.value)
  }

  // ---------------------------------------------------------------------------
  // The run

  /** The arguments of `main` and the settings of the process. */
  datatype Config = Config(sesh: SageIntacct, entity: string, query: string, prefix: string)

  /** What the world answers: the attempt outcomes of each session request
      (the first one, then each renewal) and of each page request (page 0, then
      each next page), the clock reading before the fetch of page `k` as
      `clock(k - 1)`, and `strptime`. A request past the given outcomes gets no
      response. */
  datatype Env = Env(
    auths: seq<seq<Attempt>>,
    pages: seq<seq<Attempt>>,
    clock: nat -> int,
    strptime: string -> Option<int>)

  /** A request the run sends, by kind and with its varying parameters. */
  datatype Request =
    | LoginRequest
    | EntityRequest(sessionId: Option<string>)
    | NextPageRequest(sessionId: Option<string>, resultId: Option<string>)

  /** The document each request sends. */
  function RequestDoc(cfg: Config, rq: Request): Node {
    match rq
    case LoginRequest => AuthDoc(cfg.sesh)
    case EntityRequest(sid) => EntityDoc(cfg.sesh, sid, cfg.entity, cfg.query)
    case NextPageRequest(sid, rid) => NextPageDoc(cfg.sesh, sid, rid)
  }

  /** The documents a list of requests sends, in order. */
  function Docs(cfg: Config, rs: seq<Request>): (docs: seq<Node>)
    ensures |docs| == |rs|
    ensures forall i :: 0 <= i < |rs| ==> docs[i] == RequestDoc(cfg, rs[i])
  {
    seq(|rs|, i requires 0 <= i < |rs| => RequestDoc(cfg, rs[i]))
  }

  /** One more request sends one more document. */
  lemma {:induction false} DocsAppend(cfg: Config, rs: seq<Request>, x: Request)
    ensures Docs(cfg, rs + [x]) == Docs(cfg, rs) + [RequestDoc(cfg, x)]
  {
    var a, b := Docs(cfg, rs + [x]), Docs(cfg, rs) + [RequestDoc(cfg, x)];
    assert |a| == |b|;
    forall i | 0 <= i < |a| ensures a[i] == b[i] {
      if i < |rs| { assert (rs + [x])[i] == rs[i]; }
    }
  }

  /** Every request of a run is built from the same settings, so with the
      sender credentials present each one carries the process's control id in
      its control block and, when its function element was built, as that
      element's `controlid` attribute. */
  lemma {:induction false} SharedControlId(cfg: Config, rq: Request)
    requires SenderPresent(cfg.sesh)
    ensures TextAt(RequestDoc(cfg, rq), ["control", "controlid"]) == Some(cfg.sesh.controlId)
    ensures var f := At(RequestDoc(cfg, rq), FunctionPath);
      f.Some? ==> Attr(f.value, "controlid") == Some(cfg.sesh.controlId)
  {
    var (kind, p) := match rq
      case LoginRequest => (Auth, NoParams)
      case EntityRequest(sid) => (Entity, DocParams(sid, Some(cfg.entity), Some("*"), Some(cfg.query), Some("1000"), None))
      case NextPageRequest(sid, rid) => (NextPage, DocParams(sid, None, None, None, None, rid));
    assert RequestDoc(cfg, rq) == GenerateXmlDoc(cfg.sesh, kind, p);
    ControlBlock(cfg.sesh, kind, p);
    FunctionCarriesControlId(cfg.sesh, kind, p);
  }

  /** One call of `save_entity`: the path and the page saved there. */
  datatype Write = Write(path: string, page: Node)

  /** What `main` returns: the total count, the number remaining and the
      counter. */
  datatype Summary = Summary(totalCount: int, numberRemaining: int, pages: nat)

  /** A whole run: the requests sent in order, the pages saved in order, and
      the summary or the reason the run stopped. */
  datatype Run = Run(requests: seq<Request>, writes: seq<Write>, result: Result<Summary, ScanError>)

  /** The variables of the `while` loop of `main`, with the requests and writes
      made so far. `authsUsed` counts the session requests sent. */
  datatype ScanState = ScanState(
    counter: nat,
    session: SessionInfo,
    authsUsed: nat,
    next: SageResult,
    requests: seq<Request>,
    writes: seq<Write>)

  datatype StepResult = Continue(state: ScanState) | Stop(run: Run)

  /** The requests sent so far, whether the loop goes on or not. */
  function Sent(r: StepResult): seq<Request> {
    if r.Stop? then r.run.requests else r.state.requests
  }

  /** The pages saved so far, whether the loop goes on or not. */
  function Written(r: StepResult): seq<Write> {
    if r.Stop? then r.run.writes else r.state.writes
  }

  function AuthOutcomes(env: Env, k: nat): seq<Attempt> {
    if k < |env.auths| then env.auths[k] else []
  }

  function PageOutcomes(env: Env, k: nat): seq<Attempt> {
    if k < |env.pages| then env.pages[k] else []
  }

  /** The response to page request `k`: none when every attempt is refused,
      and so none past the given outcomes. */
  function PageResponse(env: Env, k: nat): (r: Result<Node, ScanError>)
    ensures k >= |env.pages| ==> r == Err(ConnectionExhausted)
  {
    ThreeRefusals([]);
    PageOf(TransportResult(PageOutcomes(env, k)))
  }

  /** Whether the session must be renewed before the fetch of page
      `st.counter`: it expires at or before the clock reading. */
  predicate Expired(env: Env, st: ScanState)
    requires st.counter >= 1
  {
    st.session.expiry <= env.clock(st.counter - 1)
  }

  /** One pass of the loop body: renew the session if it has expired, then
      fetch the next page. */
  function NextPageStep(cfg: Config, env: Env, st: ScanState): (r: StepResult)
    requires st.counter >= 1
    ensures r.Continue? ==> st.counter < |env.pages| && r.state.counter == st.counter + 1
    ensures |st.requests| < |Sent(r)| && st.requests <= Sent(r)
    ensures st.writes <= Written(r) && |Written(r)| <= |st.writes| + 1
  {
    if Expired(env, st) then RenewStep(cfg, env, st)
    else FetchStep(cfg, env, st, st.session, st.authsUsed, st.requests)
  }

  /** A pass that finds the session expired: request a new session, then
      fetch the next page in it; a failed request ends the run. */
  function RenewStep(cfg: Config, env: Env, st: ScanState): (r: StepResult)
    ensures r.Continue? ==> st.counter < |env.pages| && r.state.counter == st.counter + 1
    ensures |st.requests| < |Sent(r)| && st.requests <= Sent(r)
    ensures st.writes <= Written(r) && |Written(r)| <= |st.writes| + 1
  {
    match NewSession(AuthOutcomes(env, st.authsUsed), env.strptime)
    case Err(e) => Stop(Run(st.requests + [LoginRequest], st.writes, Err(e)))
    case Ok(session) => FetchStep(cfg, env, st, session, st.authsUsed + 1, st.requests + [LoginRequest])
  }

  /** Fetch page `st.counter` with the previous page's result id in the given
      session, save it and read its metadata. */
  function FetchStep(cfg: Config, env: Env, st: ScanState, session: SessionInfo, used: nat,
                     requests: seq<Request>): (r: StepResult)
    ensures r.Continue? ==> st.counter < |env.pages| && r.state.counter == st.counter + 1
    ensures Sent(r) == requests + [NextPageRequest(session.sessionId, st.next.resultId)]
    ensures r.Continue? ==> r.state.session == session && r.state.authsUsed == used
    ensures st.writes <= Written(r) && |Written(r)| <= |st.writes| + 1
  {
    var sent := requests + [NextPageRequest(session.sessionId, st.next.resultId)];
    match PageResponse(env, st.counter)
    case Err(e) => Stop(Run(sent, st.writes, Err(e)))
    case Ok(page) => SaveStep(cfg, st.counter, session, used, sent, st.writes, page)
  }

  /** Save page `counter` and read its metadata; the loop goes on with it. */
  function SaveStep(cfg: Config, counter: nat, session: SessionInfo, used: nat, requests: seq<Request>,
                    writes: seq<Write>, page: Node): (r: StepResult)
    ensures r.Continue? ==> r.state.counter == counter + 1
    ensures Sent(r) == requests
    ensures r.Continue? ==> r.state.session == session && r.state.authsUsed == used
    ensures Written(r) == writes + [Write(PagePath(cfg.entity, cfg.prefix, counter), page)]
  {
    var saved := writes + [Write(PagePath(cfg.entity, cfg.prefix, counter), page)];
    match CheckForNextEntity(page)
    case Err(e) => Stop(Run(requests, saved, Err(e)))
    case Ok(None) => Stop(Run(requests, saved, Err(NoPageMetadata)))
    case Ok(Some(next)) => Continue(ScanState(counter + 1, session, used, next, requests, saved))
  }

  /** The loop of `main` from a given state: it ends when the last page read
      reports nothing remaining, returning the total, the remaining count and
      the counter. */
  function ScanLoop(cfg: Config, env: Env, st: ScanState): (r: Run)
    requires 1 <= st.counter <= |env.pages|
    ensures st.requests <= r.requests && st.writes <= r.writes
    decreases |env.pages| - st.counter
  {
    if st.next.numberRemaining == 0 then
      Run(st.requests, st.writes, Ok(Summary(st.next.totalCount, st.next.numberRemaining, st.counter)))
    else
      match NextPageStep(cfg, env, st)
      case Stop(run) => run
      case Continue(st') => ScanLoop(cfg, env, st')
  }

  /** `main`: the first session, the first page saved as page 0, then the
      loop. */
  function Scan(cfg: Config, env: Env): (r: Run)
    ensures |r.requests| >= 1 && r.requests[0] == LoginRequest
  {
    match NewSession(AuthOutcomes(env, 0), env.strptime)
    case Err(e) => Run([LoginRequest], [], Err(e))
    case Ok(session) =>
      var requests := [LoginRequest, EntityRequest(session.sessionId)];
      match PageResponse(env, 0)
      case Err(e) => Run(requests, [], Err(e))
      case Ok(page) =>
        match SaveStep(cfg, 0, session, 1, requests, [], page)
        case Stop(run) => run
        case Continue(st) => ScanLoop(cfg, env, st)
  }

  /** `main` as the source runs it: variables updated pass by pass. Besides
      the run it returns the documents it posted, one per request, in order. */
  method RunScan(cfg: Config, env: Env) returns (run: Run, sent: seq<Node>)
    ensures run == Scan(cfg, env)
    ensures sent == Docs(cfg, run.requests)
  {
    var first, authDoc := GetNewSession(cfg.sesh, AuthOutcomes(env, 0), env.strptime);
    sent := [authDoc];
    DocsAppend(cfg, [], LoginRequest);
    assert [] + [LoginRequest] == [LoginRequest];
    if first.Err? {
      return Run([LoginRequest], [], Err(first.error)), sent;
    }
    var requests := [LoginRequest, EntityRequest(first.value.sessionId)];
    var entity, entityDoc := GetEntity(cfg.sesh, first.value.sessionId, cfg.entity, cfg.query, PageOutcomes(env, 0));
    DocsAppend(cfg, [LoginRequest], EntityRequest(first.value.sessionId));
    assert [LoginRequest] + [EntityRequest(first.value.sessionId)] == requests;
    sent := sent + [entityDoc];
    if entity.Err? {
      return Run(requests, [], Err(entity.error)), sent;
    }
    var step := SavePage(cfg, 0, first.value, 1, requests, [], entity.value);
    if step.Stop? {
      return step.run, sent;
    }
    var st := step.state;
    while st.next.numberRemaining != 0
      invariant 1 <= st.counter <= |env.pages|
      invariant ScanLoop(cfg, env, st) == Scan(cfg, env)
      invariant sent == Docs(cfg, st.requests)
      decreases |env.pages| - st.counter
    {
      step, sent := NextPass(cfg, env, st, sent);
      if step.Stop? {
        return step.run, sent;
      }
      st := step.state;
    }
    return Run(st.requests, st.writes, Ok(Summary(st.next.totalCount, st.next.numberRemaining, st.counter))), sent;
  }

  /** One pass of the loop body of `main`: read the clock, renew the session
      when it has expired, then fetch the next page. `docs` are the documents
      posted so far, and the pass adds the ones it posts. */
  method NextPass(cfg: Config, env: Env, st: ScanState, docs: seq<Node>) returns (r: StepResult, docs': seq<Node>)
    requires st.counter >= 1 && docs == Docs(cfg, st.requests)
    ensures r == NextPageStep(cfg, env, st)
    ensures docs' == Docs(cfg, Sent(r))
  {
    var currentTime := env.clock(st.counter - 1);
    if st.session.expiry <= currentTime {
      r, docs' := RenewAndFetch(cfg, env, st, docs);
    } else {
      r, docs' := FetchPage(cfg, env, st, st.session, st.authsUsed, st.requests, docs);
    }
  }

  /** `get_new_sesison` for an expired session, then the fetch in the new
      session. */
  method RenewAndFetch(cfg: Config, env: Env, st: ScanState, docs: seq<Node>) returns (r: StepResult, docs': seq<Node>)
    requires docs == Docs(cfg, st.requests)
    ensures r == RenewStep(cfg, env, st)
    ensures docs' == Docs(cfg, Sent(r))
  {
    var renewed, authDoc := GetNewSession(cfg.sesh, AuthOutcomes(env, st.authsUsed), env.strptime);
    var requests := st.requests + [LoginRequest];
    DocsAppend(cfg, st.requests, LoginRequest);
    if renewed.Err? {
      return Stop(Run(requests, st.writes, Err(renewed.error))), docs + [authDoc];
    }
    r, docs' := FetchPage(cfg, env, st, renewed.value, st.authsUsed + 1, requests, docs + [authDoc]);
  }

  /** `get_next_page` with the previous page's result id in the session in
      force, then saving the page and reading its metadata. */
  method FetchPage(cfg: Config, env: Env, st: ScanState, session: SessionInfo, used: nat,
                   requests: seq<Request>, docs: seq<Node>) returns (r: StepResult, docs': seq<Node>)
    requires docs == Docs(cfg, requests)
    ensures r == FetchStep(cfg, env, st, session, used, requests)
    ensures docs' == Docs(cfg, Sent(r))
  {
    var nextPage, pageDoc := GetNextPage(cfg.sesh, session.sessionId, st.next.resultId, PageOutcomes(env, st.counter));
    var sent := requests + [NextPageRequest(session.sessionId, st.next.resultId)];
    DocsAppend(cfg, requests, NextPageRequest(session.sessionId, st.next.resultId));
    docs' := docs + [pageDoc];
    if nextPage.Err? {
      return Stop(Run(sent, st.writes, Err(nextPage.error))), docs';
    }
    r := SavePage(cfg, st.counter, session, used, sent, st.writes, nextPage.value);
  }

  /** `save_entity` under the counter's path, then `check_for_next_entity`. */
  method SavePage(cfg: Config, counter: nat, session: SessionInfo, used: nat, requests: seq<Request>,
                  writes: seq<Write>, page: Node) returns (r: StepResult)
    ensures r == SaveStep(cfg, counter, session, used, requests, writes, page)
  {
    var saved := writes + [Write(PagePath(cfg.entity, cfg.prefix, counter), page)];
    var meta := CheckForNextEntity(page);
    if meta.Err? {
      return Stop(Run(requests, saved, Err(meta.error)));
    }
    if meta.value.None? {
      return Stop(Run(requests, saved, Err(NoPageMetadata)));
    }
    return Continue(ScanState(counter + 1, session, used, meta.value.value, requests, saved));
  }

  // ---------------------------------------------------------------------------
  // Properties of the run

  /** The requests that fetch pages (`get_entity` and `get_next_page`), in
      order: every request except the session requests. */
  function PageRequests(rs: seq<Request>): (r: seq<Request>)
    ensures |r| <= |rs|
  {
    if rs == [] then []
    else PageRequests(rs[..|rs| - 1]) + (if rs[|rs| - 1].LoginRequest? then [] else [rs[|rs| - 1]])
  }

  lemma {:induction false} PageRequestsAppend(rs: seq<Request>, x: Request)
    ensures PageRequests(rs + [x]) == PageRequests(rs) + (if x.LoginRequest? then [] else [x])
  {
    assert (rs + [x])[..|rs|] == rs;
  }

  /** Every request that fetches a page is among the page requests. */
  lemma {:induction false} PageRequestsKeep(rs: seq<Request>, i: nat)
    requires i < |rs| && !rs[i].LoginRequest?
    ensures rs[i] in PageRequests(rs)
    decreases |rs|
  {
    var init := rs[..|rs| - 1];
    assert rs == init + [rs[|rs| - 1]];
    PageRequestsAppend(init, rs[|rs| - 1]);
    if i < |rs| - 1 {
      assert init[i] == rs[i];
      PageRequestsKeep(init, i);
    }
  }

  /** The result id a saved page hands on to the next fetch, if it has
      metadata. */
  function PageResultId(w: Write): Option<Option<string>> {
    match CheckForNextEntity(w.page)
    case Ok(Some(m)) => Some(m.resultId)
    case _ => None
  }

  /** Page `i` is saved under the path numbered `i`. */
  predicate Numbered(cfg: Config, writes: seq<Write>) {
    forall i :: 0 <= i < |writes| ==> writes[i].path == PagePath(cfg.entity, cfg.prefix, i)
  }

  /** The first page request is the query, and page request `i > 0` is a
      next-page request carrying the result id of saved page `i - 1`. Every
      saved page was requested; at most the last request has no saved page. */
  predicate Chained(requests: seq<Request>, writes: seq<Write>) {
    var pr := PageRequests(requests);
    && |writes| <= |pr| <= |writes| + 1
    && (|pr| > 0 ==> pr[0].EntityRequest?)
    && forall i :: 1 <= i < |pr| ==> pr[i].NextPageRequest? && PageResultId(writes[i - 1]) == Some(pr[i].resultId)
  }

  /** Whether a saved page reports more to come: its metadata reads and the
      number remaining is not zero. */
  predicate MoreRemains(w: Write) {
    match CheckForNextEntity(w.page)
    case Ok(Some(m)) => m.numberRemaining != 0
    case _ => false
  }

  /** Whether a saved page reports nothing remaining. */
  predicate NothingRemains(w: Write) {
    match CheckForNextEntity(w.page)
    case Ok(Some(m)) => m.numberRemaining == 0
    case _ => false
  }

  /** Every saved page but the last reported more to come. */
  predicate Continued(writes: seq<Write>) {
    forall i :: 0 <= i < |writes| - 1 ==> MoreRemains(writes[i])
  }

  /** What holds each time the loop condition of `main` is evaluated. */
  predicate InLoop(cfg: Config, st: ScanState) {
    && st.counter == |st.writes| >= 1
    && Continued(st.writes)
    && |PageRequests(st.requests)| == |st.writes|
    && Numbered(cfg, st.writes)
    && Chained(st.requests, st.writes)
    && CheckForNextEntity(st.writes[|st.writes| - 1].page) == Ok(Some(st.next))
  }

  /** What holds of a finished run. */
  predicate Finished(cfg: Config, run: Run) {
    && Numbered(cfg, run.writes)
    && Chained(run.requests, run.writes)
    && Continued(run.writes)
    && (run.result.Err? && |run.writes| > 0 ==> !NothingRemains(run.writes[|run.writes| - 1]))
    && (run.result.Ok? ==>
          && |run.writes| >= 1
          && |PageRequests(run.requests)| == |run.writes|
          && run.result.value.pages == |run.writes|
          && run.result.value.numberRemaining == 0
          && var last := CheckForNextEntity(run.writes[|run.writes| - 1].page);
             last.Ok? && last.value.Some?
             && last.value.value.numberRemaining == 0
             && run.result.value.totalCount == last.value.value.totalCount)
  }

  /** What one pass keeps: the loop goes on in a state where the loop
      condition's facts hold, or the run ends, finished, with a failure. */
  predicate StepKeeps(cfg: Config, r: StepResult) {
    (r.Continue? ==> InLoop(cfg, r.state)) && (r.Stop? ==> Finished(cfg, r.run) && r.run.result.Err?)
  }

  /** Saving a page keeps the numbering and the chain of result ids. */
  lemma {:induction false} SaveStepKeeps(cfg: Config, counter: nat, session: SessionInfo, used: nat,
                                        requests: seq<Request>, writes: seq<Write>, page: Node)
    requires counter == |writes| && |PageRequests(requests)| == |writes| + 1
    requires Numbered(cfg, writes) && Chained(requests, writes)
    requires forall i :: 0 <= i < |writes| ==> MoreRemains(writes[i])
    ensures StepKeeps(cfg, SaveStep(cfg, counter, session, used, requests, writes, page))
  {
    var saved := writes + [Write(PagePath(cfg.entity, cfg.prefix, counter), page)];
    assert Continued(saved) by {
      forall i | 0 <= i < |saved| - 1 ensures MoreRemains(saved[i]) {
        assert saved[i] == writes[i];
      }
    }
    assert Numbered(cfg, saved) by {
      forall i | 0 <= i < |saved| ensures saved[i].path == PagePath(cfg.entity, cfg.prefix, i) {
        if i < |writes| { assert saved[i] == writes[i]; }
      }
    }
    assert Chained(requests, saved) by {
      var pr := PageRequests(requests);
      forall i | 1 <= i < |pr| ensures pr[i].NextPageRequest? && PageResultId(saved[i - 1]) == Some(pr[i].resultId) {
        assert saved[i - 1] == writes[i - 1];
      }
    }
  }

  /** Fetching the next page keeps the numbering and the chain of result
      ids, whichever session is used. */
  lemma {:induction false} FetchStepKeeps(cfg: Config, env: Env, st: ScanState, session: SessionInfo, used: nat,
                                         requests: seq<Request>)
    requires InLoop(cfg, st) && st.next.numberRemaining != 0 && PageRequests(requests) == PageRequests(st.requests)
    ensures StepKeeps(cfg, FetchStep(cfg, env, st, session, used, requests))
  {
    AllMoreRemain(cfg, st);
    var x := NextPageRequest(session.sessionId, st.next.resultId);
    var sent := requests + [x];
    PageRequestsAppend(requests, x);
    var pr, pr' := PageRequests(requests), PageRequests(sent);
    assert pr' == pr + [x];
    assert Chained(sent, st.writes) by {
      forall i | 1 <= i < |pr'|
        ensures pr'[i].NextPageRequest? && PageResultId(st.writes[i - 1]) == Some(pr'[i].resultId)
      {
        if i < |pr| {
          assert pr'[i] == pr[i];
        } else {
          LastResultId(cfg, st);
        }
      }
    }
    match PageResponse(env, st.counter)
    case Err(e) =>
      assert FetchStep(cfg, env, st, session, used, requests) == Stop(Run(sent, st.writes, Err(e)));
    case Ok(page) =>
      assert FetchStep(cfg, env, st, session, used, requests)
          == SaveStep(cfg, st.counter, session, used, sent, st.writes, page);
      SaveStepKeeps(cfg, st.counter, session, used, sent, st.writes, page);
  }

  /** Inside the loop every saved page, the last included, reports more to
      come. */
  lemma {:induction false} AllMoreRemain(cfg: Config, st: ScanState)
    requires InLoop(cfg, st) && st.next.numberRemaining != 0
    ensures forall i :: 0 <= i < |st.writes| ==> MoreRemains(st.writes[i])
  {
    assert MoreRemains(st.writes[|st.writes| - 1]);
  }

  /** The last page saved hands on the result id the loop holds. */
  lemma {:induction false} LastResultId(cfg: Config, st: ScanState)
    requires InLoop(cfg, st)
    ensures PageResultId(st.writes[|st.writes| - 1]) == Some(st.next.resultId)
  {
  }

  /** A pass that finds the session still valid keeps them. */
  lemma {:induction false} ValidSessionKeeps(cfg: Config, env: Env, st: ScanState)
    requires InLoop(cfg, st) && st.next.numberRemaining != 0 && !Expired(env, st)
    ensures StepKeeps(cfg, NextPageStep(cfg, env, st))
  {
    assert NextPageStep(cfg, env, st) == FetchStep(cfg, env, st, st.session, st.authsUsed, st.requests);
    FetchStepKeeps(cfg, env, st, st.session, st.authsUsed, st.requests);
  }

  /** A pass that renews the session keeps them, whether or not the renewal
      succeeds; a failed renewal ends the run with what was saved so far. */
  lemma {:induction false} RenewalKeeps(cfg: Config, env: Env, st: ScanState)
    requires InLoop(cfg, st) && st.next.numberRemaining != 0 && Expired(env, st)
    ensures StepKeeps(cfg, NextPageStep(cfg, env, st))
  {
    var requests := st.requests + [LoginRequest];
    PageRequestsAppend(st.requests, LoginRequest);
    if NewSession(AuthOutcomes(env, st.authsUsed), env.strptime).Ok? {
      RenewedKeeps(cfg, env, st, requests, NewSession(AuthOutcomes(env, st.authsUsed), env.strptime).value);
    } else {
      RenewalFailedKeeps(cfg, env, st, requests);
    }
  }

  lemma {:induction false} RenewedKeeps(cfg: Config, env: Env, st: ScanState, requests: seq<Request>,
                                       renewed: SessionInfo)
    requires InLoop(cfg, st) && st.next.numberRemaining != 0 && Expired(env, st)
    requires requests == st.requests + [LoginRequest] && PageRequests(requests) == PageRequests(st.requests)
    requires NewSession(AuthOutcomes(env, st.authsUsed), env.strptime) == Ok(renewed)
    ensures StepKeeps(cfg, NextPageStep(cfg, env, st))
  {
    assert NextPageStep(cfg, env, st) == FetchStep(cfg, env, st, renewed, st.authsUsed + 1, requests);
    FetchStepKeeps(cfg, env, st, renewed, st.authsUsed + 1, requests);
  }

  lemma {:induction false} RenewalFailedKeeps(cfg: Config, env: Env, st: ScanState, requests: seq<Request>)
    requires InLoop(cfg, st) && st.next.numberRemaining != 0 && Expired(env, st)
    requires requests == st.requests + [LoginRequest] && PageRequests(requests) == PageRequests(st.requests)
    requires NewSession(AuthOutcomes(env, st.authsUsed), env.strptime).Err?
    ensures StepKeeps(cfg, NextPageStep(cfg, env, st))
  {
    var e := NewSession(AuthOutcomes(env, st.authsUsed), env.strptime).error;
    assert NextPageStep(cfg, env, st) == Stop(Run(requests, st.writes, Err(e)));
    StoppedKeeps(cfg, st, requests, e);
  }

  /** Ending the run after the requests of a pass, with nothing more saved,
      keeps them. */
  lemma {:induction false} StoppedKeeps(cfg: Config, st: ScanState, requests: seq<Request>, e: ScanError)
    requires InLoop(cfg, st) && st.next.numberRemaining != 0 && PageRequests(requests) == PageRequests(st.requests)
    ensures StepKeeps(cfg, Stop(Run(requests, st.writes, Err(e))))
  {
    AllMoreRemain(cfg, st);
  }

  /** One pass of the loop keeps the numbering and the chain of result ids. */
  lemma {:induction false} NextPageStepKeeps(cfg: Config, env: Env, st: ScanState)
    requires InLoop(cfg, st) && st.next.numberRemaining != 0
    ensures StepKeeps(cfg, NextPageStep(cfg, env, st))
  {
    if Expired(env, st) {
      RenewalKeeps(cfg, env, st);
    } else {
      ValidSessionKeeps(cfg, env, st);
    }
  }

  /** The loop ends with a finished run. */
  lemma {:induction false} ScanLoopFinishes(cfg: Config, env: Env, st: ScanState)
    requires 1 <= st.counter <= |env.pages| && InLoop(cfg, st)
    ensures Finished(cfg, ScanLoop(cfg, env, st))
    decreases |env.pages| - st.counter
  {
    if st.next.numberRemaining != 0 {
      NextPageStepKeeps(cfg, env, st);
      match NextPageStep(cfg, env, st)
      case Stop(_) =>
      case Continue(st') => ScanLoopFinishes(cfg, env, st');
    }
  }

  /** Every run of `main`, however it ends, is finished in the sense above. */
  lemma {:induction false} ScanFinishes(cfg: Config, env: Env)
    ensures Finished(cfg, Scan(cfg, env))
  {
    match NewSession(AuthOutcomes(env, 0), env.strptime)
    case Err(_) =>
      assert PageRequests([LoginRequest]) == [] by { PageRequestsAppend([], LoginRequest); assert [] + [LoginRequest] == [LoginRequest]; }
    case Ok(session) =>
      var requests := [LoginRequest, EntityRequest(session.sessionId)];
      assert PageRequests(requests) == [EntityRequest(session.sessionId)] by {
        PageRequestsAppend([], LoginRequest);
        assert [] + [LoginRequest] == [LoginRequest];
        PageRequestsAppend([LoginRequest], EntityRequest(session.sessionId));
        assert [LoginRequest] + [EntityRequest(session.sessionId)] == requests;
      }
      match PageResponse(env, 0)
      case Err(_) =>
      case Ok(page) =>
        SaveStepKeeps(cfg, 0, session, 1, requests, [], page);
        match SaveStep(cfg, 0, session, 1, requests, [], page)
        case Stop(_) =>
        case Continue(st) => ScanLoopFinishes(cfg, env, st);
  }

  /** Pages are saved under `{prefix}_{entity}_0.xml`, `_1`, `_2`, … in
      order, with no gaps and no path used twice. */
  lemma {:induction false} PagesNumbered(cfg: Config, env: Env)
    ensures var w := Scan(cfg, env).writes;
      forall i :: 0 <= i < |w| ==> w[i].path == PagePath(cfg.entity, cfg.prefix, i)
    ensures var w := Scan(cfg, env).writes;
      forall i, j :: 0 <= i < j < |w| ==> w[i].path != w[j].path
  {
    ScanFinishes(cfg, env);
    var w := Scan(cfg, env).writes;
    forall i, j | 0 <= i < j < |w| ensures w[i].path != w[j].path {
      if w[i].path == w[j].path {
        PagePathInjective(cfg.entity, cfg.prefix, i, j);
      }
    }
  }

  /** The loop stops at the first page that reports nothing remaining: a
      saved page reports nothing remaining exactly when it is the last one and
      the run succeeds, and no next-page request follows it. A successful run
      returns that page's total, zero, and the number of pages saved. */
  lemma {:induction false} StopsWhenNothingRemains(cfg: Config, env: Env)
    ensures var run := Scan(cfg, env); var w := run.writes;
      forall i :: 0 <= i < |w| ==> (NothingRemains(w[i]) <==> run.result.Ok? && i == |w| - 1)
    ensures var run := Scan(cfg, env);
      run.result.Ok? ==>
        && |run.writes| >= 1
        && |PageRequests(run.requests)| == |run.writes|
        && run.result.value == Summary(run.result.value.totalCount, 0, |run.writes|)
        && CheckForNextEntity(run.writes[|run.writes| - 1].page).Ok?
        && var last := CheckForNextEntity(run.writes[|run.writes| - 1].page).value;
           last.Some? && last.value.numberRemaining == 0 && last.value.totalCount == run.result.value.totalCount
  {
    ScanFinishes(cfg, env);
    var run := Scan(cfg, env);
    var w := run.writes;
    forall i | 0 <= i < |w| ensures NothingRemains(w[i]) <==> run.result.Ok? && i == |w| - 1 {
      if i < |w| - 1 {
        assert MoreRemains(w[i]);
      }
    }
  }

  /** A first page that reports nothing remaining is the only one: the run
      succeeds with it, and its only page request is the query. */
  lemma {:induction false} SinglePage(cfg: Config, env: Env)
    ensures var run := Scan(cfg, env);
      |run.writes| > 0 && NothingRemains(run.writes[0]) ==>
        && |run.writes| == 1 && run.result.Ok?
        && |PageRequests(run.requests)| == 1 && PageRequests(run.requests)[0].EntityRequest?
        && forall i :: 0 <= i < |run.requests| ==> !run.requests[i].NextPageRequest?
  {
    ScanFinishes(cfg, env);
    var run := Scan(cfg, env);
    if |run.writes| > 0 && NothingRemains(run.writes[0]) {
      FinishedAtFirstPage(cfg, run);
    }
  }

  lemma {:induction false} FinishedAtFirstPage(cfg: Config, run: Run)
    requires Finished(cfg, run) && |run.writes| > 0 && NothingRemains(run.writes[0])
    ensures |run.writes| == 1 && run.result.Ok?
    ensures |PageRequests(run.requests)| == 1 && PageRequests(run.requests)[0].EntityRequest?
    ensures forall i :: 0 <= i < |run.requests| ==> !run.requests[i].NextPageRequest?
  {
    assert !MoreRemains(run.writes[0]);
    forall i | 0 <= i < |run.requests| ensures !run.requests[i].NextPageRequest? {
      if run.requests[i].NextPageRequest? {
        PageRequestsKeep(run.requests, i);
      }
    }
  }

  /** The first page is fetched with the query, and every later page with the
      result id of the page saved just before it. */
  lemma {:induction false} NextPagesFollowResultIds(cfg: Config, env: Env)
    ensures var run := Scan(cfg, env); var pr := PageRequests(run.requests);
      && |run.writes| <= |pr| <= |run.writes| + 1
      && (|pr| > 0 ==> pr[0].EntityRequest?)
      && forall i :: 1 <= i < |pr| ==>
           pr[i].NextPageRequest? && PageResultId(run.writes[i - 1]) == Some(pr[i].resultId)
  {
    ScanFinishes(cfg, env);
  }

  /** Before each next-page fetch the session is renewed exactly when it has
      expired by the clock reading; the fetch then uses the session in force
      and the current page's result id. */
  lemma {:induction false} RenewsWhenExpired(cfg: Config, env: Env, st: ScanState)
    requires st.counter >= 1
    ensures var r := NextPageStep(cfg, env, st);
      var renewal := NewSession(AuthOutcomes(env, st.authsUsed), env.strptime);
      && (!Expired(env, st) ==>
            Sent(r) == st.requests + [NextPageRequest(st.session.sessionId, st.next.resultId)]
            && (r.Continue? ==> r.state.session == st.session && r.state.authsUsed == st.authsUsed))
      && (Expired(env, st) && renewal.Err? ==>
            r == Stop(Run(st.requests + [LoginRequest], st.writes, Err(renewal.error))))
      && (Expired(env, st) && renewal.Ok? ==>
            Sent(r) == st.requests + [LoginRequest, NextPageRequest(renewal.value.sessionId, st.next.resultId)]
            && (r.Continue? ==> r.state.session == renewal.value && r.state.authsUsed == st.authsUsed + 1))
  {
    if Expired(env, st) {
      var renewal := NewSession(AuthOutcomes(env, st.authsUsed), env.strptime);
      if renewal.Ok? {
        var requests := st.requests + [LoginRequest];
        assert NextPageStep(cfg, env, st) == FetchStep(cfg, env, st, renewal.value, st.authsUsed + 1, requests);
        assert requests + [NextPageRequest(renewal.value.sessionId, st.next.resultId)]
            == st.requests + [LoginRequest, NextPageRequest(renewal.value.sessionId, st.next.resultId)];
      }
    } else {
      assert NextPageStep(cfg, env, st) == FetchStep(cfg, env, st, st.session, st.authsUsed, st.requests);
    }
  }
}
