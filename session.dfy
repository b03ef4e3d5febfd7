/** Getting a session (grab_sage_entity.py): `parse_session_id` reads the
    session id and its expiry text out of the `Auth` response, and
    `get_new_sesison` sends the `Auth` document and turns the expiry text into
    an instant. `strptime` is a parameter: it maps the normalised text to an
    instant in seconds, or fails. */
module Session {
  import opened Base
  import opened Xml
  import opened RequestBuilder
  import opened Transport

  /** Why a run stops early; each one is an exception the source does not
      catch. */
  datatype ScanError =
    | ConnectionExhausted    // `send_request` returned None after three refusals
    | MissingSessionId       // no `sessionid` element: `session` is never bound
    | MissingSessionTimeout  // no `sessiontimeout` element: `timeout` is never bound
    | TimeoutTextMissing     // the last `sessiontimeout` has no text: slicing None
    | TimeoutWithoutColon    // no ':' three from the end: `timeout` is never bound
    | TimeoutUnparseable     // `strptime` rejects the normalised text
    | NoPageMetadata         // a page without a `data` element: None has no attributes
    | BadPageCount           // a count attribute that is missing or not an integer

  /** The texts `parse_session_id` returns: the session id and the expiry text,
      each `None` when its element has no text. */
  datatype SessionTexts = SessionTexts(sessionId: Option<string>, timeout: Option<string>)

  /** A session: its id and the instant it expires. */
  datatype SessionInfo = SessionInfo(sessionId: Option<string>, expiry: int)

  /** The text of the last element with `tag` in document order, if any. */
  function LastText(root: Node, tag: string): (r: Option<Option<string>>)
    ensures r.None? <==> Iter(root, tag) == []
  {
    var found := Iter(root, tag);
    if found == [] then None else Some(TextOf(found[|found| - 1]))
  }

  /** What `parse_session_id` yields: the texts of the last `sessionid` and the
      last `sessiontimeout` elements, or the failure of reading an unbound
      variable when either is absent (the session id is read first). */
  function SessionFields(root: Node): (r: Result<SessionTexts, ScanError>)
    ensures r.Ok? <==> Iter(root, "sessionid") != [] && Iter(root, "sessiontimeout") != []
    ensures r == Err(MissingSessionId) <==> Iter(root, "sessionid") == []
  {
    match (LastText(root, "sessionid"), LastText(root, "sessiontimeout"))
    case (None, _) => Err(MissingSessionId)
    case (_, None) => Err(MissingSessionTimeout)
    case (Some(s), Some(t)) => Ok(SessionTexts(s, t))
  }

  /** `parse_session_id`: two loops over the matching elements, each
      overwriting its variable, so the last match wins. */
  method ParseSessionId(root: Node) returns (r: Result<SessionTexts, ScanError>)
    ensures r == SessionFields(root)
  {
    var sessions := Iter(root, "sessionid");
    var session: Option<Option<string>> := None;
    for i := 0 to |sessions|
      invariant session == if i == 0 then None else Some(TextOf(sessions[i - 1]))
    {
      session := Some(TextOf(sessions[i]));
    }
    var timeouts := Iter(root, "sessiontimeout");
    var timeout: Option<Option<string>> := None;
    for i := 0 to |timeouts|
      invariant timeout == if i == 0 then None else Some(TextOf(timeouts[i - 1]))
    {
      timeout := Some(TextOf(timeouts[i]));
    }
    if session.None? {
      return Err(MissingSessionId);
    }
    if timeout.None? {
      return Err(MissingSessionTimeout);
    }
    return Ok(SessionTexts(session.value, timeout.value));
  }

  /** Appending another element to the root's children makes its text the one
      read, whatever came before it. */
  lemma {:induction false} LastElementWins(t: string, attrs: map<string, string>, kids: seq<Node>, tag: string, text: Option<string>)
    ensures LastText(Element(t, attrs, kids + [Leaf(tag, text)]), tag) == Some(text)
  {
    var leaf := Leaf(tag, text);
    IterAllAppend(kids, [leaf], tag);
    assert IterAll(leaf.children, tag) == [] by {
      if text.Some? {
        assert leaf.children[1..] == [];
      }
    }
    assert IterAll([leaf], tag) == Iter(leaf, tag) == [leaf] by {
      assert [leaf][1..] == [];
    }
  }

  /** The expiry text with the ':' of its UTC offset removed, so that `%z`
      accepts it: `s[:-3] + s[-2:]` when `s[-3:-2]` is ':'. Any other text
      leaves `timeout` unbound. The normalisation applies exactly when the
      third character from the end is ':'; it removes that one character and
      keeps the others in order. */
  function NormaliseTimeout(s: string): (r: Option<string>)
    ensures r.Some? <==> |s| >= 3 && s[|s| - 3] == ':'
    ensures r.Some? ==> r.value == s[..|s| - 3] + s[|s| - 2..] && |r.value| == |s| - 1
  {
    OffsetSlices(s);
    if Slice(s, -3, -2) == ":" then Some(Slice(s, 0, -3) + Slice(s, -2, |s|)) else None
  }

  /** The three slices the normalisation takes, in terms of positions. */
  lemma {:induction false} OffsetSlices(s: string)
    ensures Slice(s, -3, -2) == ":" <==> |s| >= 3 && s[|s| - 3] == ':'
    ensures |s| >= 3 ==> Slice(s, 0, -3) == s[..|s| - 3] && Slice(s, -2, |s|) == s[|s| - 2..]
  {
    if |s| >= 3 {
      SliceWithin(s, -3, -2);
      assert Slice(s, -3, -2) == [s[|s| - 3]];
    } else {
      assert Slice(s, -3, -2) == [];
    }
  }

  /** Putting the ':' back two characters from the end restores the text. */
  lemma {:induction false} NormaliseTimeoutRoundTrip(s: string)
    requires NormaliseTimeout(s).Some?
    ensures var n := NormaliseTimeout(s).value;
      |n| >= 2 && n[..|n| - 2] + ":" + n[|n| - 2..] == s
  {
    var n := NormaliseTimeout(s).value;
    assert n[..|n| - 2] == s[..|s| - 3];
    assert n[|n| - 2..] == s[|s| - 2..];
    assert s == s[..|s| - 3] + [s[|s| - 3]] + s[|s| - 2..];
  }

  /** The offset forms the service uses: `+05:00` is normalised, `+0500` is
      not and leaves the expiry unbound. */
  lemma {:induction false} TimeoutForms()
    ensures NormaliseTimeout("2022-06-01T10:00:00+05:00") == Some("2022-06-01T10:00:00+0500")
    ensures NormaliseTimeout("2022-06-01T10:00:00+0500") == None
  {
    var colon := "2022-06-01T10:00:00+05:00";
    assert colon[|colon| - 3] == ':';
    assert colon[..|colon| - 3] == "2022-06-01T10:00:00+05";
    assert colon[|colon| - 2..] == "00";
    assert "2022-06-01T10:00:00+05" + "00" == "2022-06-01T10:00:00+0500";
    var plain := "2022-06-01T10:00:00+0500";
    assert plain[|plain| - 3] == '5';
  }

  /** The expiry instant of a session from the expiry text. */
  function Expiry(text: Option<string>, strptime: string -> Option<int>): (r: Result<int, ScanError>)
    ensures r == Err(TimeoutTextMissing) <==> text.None?
    ensures r == Err(TimeoutWithoutColon) <==> text.Some? && NormaliseTimeout(text.value).None?
    ensures r.Ok? ==> text.Some? && NormaliseTimeout(text.value).Some?
                      && strptime(NormaliseTimeout(text.value).value) == Some(r.value)
    ensures r == Err(TimeoutUnparseable) <==>
      text.Some? && NormaliseTimeout(text.value).Some? && strptime(NormaliseTimeout(text.value).value).None?
    ensures text.Some? && NormaliseTimeout(text.value).Some? && strptime(NormaliseTimeout(text.value).value).Some? ==>
      r == Ok(strptime(NormaliseTimeout(text.value).value).value)
  {
    if text.None? then Err(TimeoutTextMissing)
    else match NormaliseTimeout(text.value)
      case None => Err(TimeoutWithoutColon)
      case Some(n) =>
        match strptime(n)
        case None => Err(TimeoutUnparseable)
        case Some(t) => Ok(t)
  }

  /** `get_new_sesison` given the outcomes of its POST attempts: the session
      the `Auth` response grants, or why none was obtained. */
  function NewSession(outcomes: seq<Attempt>, strptime: string -> Option<int>): (r: Result<SessionInfo, ScanError>)
    ensures r == Err(ConnectionExhausted) <==> TransportResult(outcomes).None?
    ensures r.Ok? ==> SessionFields(TransportResult(outcomes).value).Ok?
  {
    match TransportResult(outcomes)
    case None => Err(ConnectionExhausted)
    case Some(resp) =>
      match SessionFields(resp)
      case Err(e) => Err(e)
      case Ok(texts) =>
        match Expiry(texts.timeout, strptime)
        case Err(e) => Err(e)
        case Ok(t) => Ok(SessionInfo(texts.sessionId, t))
  }

  /** A session fails for want of a connection exactly when every attempt was
      refused. A granted session holds the text of the last `sessionid` and the
      instant `strptime` gives for the last `sessiontimeout` text once its
      colon is removed; conversely, a response holding both elements whose
      expiry normalises and parses grants exactly that session. */
  lemma {:induction false} NewSessionGranted(outcomes: seq<Attempt>, strptime: string -> Option<int>)
    ensures NewSession(outcomes, strptime) == Err(ConnectionExhausted) <==> TransportResult(outcomes).None?
    ensures NewSession(outcomes, strptime).Ok? ==>
      var root := TransportResult(outcomes).value;
      var t := LastText(root, "sessiontimeout");
      && LastText(root, "sessionid") == Some(NewSession(outcomes, strptime).value.sessionId)
      && t.Some? && t.value.Some? && NormaliseTimeout(t.value.value).Some?
      && strptime(NormaliseTimeout(t.value.value).value) == Some(NewSession(outcomes, strptime).value.expiry)
    ensures TransportResult(outcomes).Some? ==>
      var root := TransportResult(outcomes).value;
      var id, t := LastText(root, "sessionid"), LastText(root, "sessiontimeout");
      id.Some? && t.Some? && t.value.Some? && NormaliseTimeout(t.value.value).Some?
      && strptime(NormaliseTimeout(t.value.value).value).Some? ==>
        NewSession(outcomes, strptime)
          == Ok(SessionInfo(id.value, strptime(NormaliseTimeout(t.value.value).value).value))
  {
  }

  /** `get_new_sesison`: sends the `Auth` document, reads the response and
      normalises the expiry. It returns the session and the document sent. */
  method GetNewSession(sesh: SageIntacct, outcomes: seq<Attempt>, strptime: string -> Option<int>)
    returns (r: Result<SessionInfo, ScanError>, sent: Node)
    ensures sent == AuthDoc(sesh)
    ensures r == NewSession(outcomes, strptime)
  {
    sent := BuildRequest(sesh, Auth, NoParams);
    var response, _ := SendRequest(outcomes);
    if response.None? {
      return Err(ConnectionExhausted), sent;
    }
    var texts := ParseSessionId(response.value);
    if texts.Err? {
      return Err(texts.error), sent;
    }
    var timeAsString := texts.value.timeout;
    if timeAsString.None? {
      return Err(TimeoutTextMissing), sent;
    }
    if Slice(timeAsString.value, -3, -2) != ":" {
      return Err(TimeoutWithoutColon), sent;
    }
    var normalised := Slice(timeAsString.value, 0, -3) + Slice(timeAsString.value, -2, |timeAsString.value|);
    var timeout := strptime(normalised);
    if timeout.None? {
      return Err(TimeoutUnparseable), sent;
    }
    return Ok(SessionInfo(texts.value.sessionId, timeout.value)), sent;
  }
}
