/** The request builder (`generate_xml_doc`, grab_sage_entity.py): the three
    request documents the client sends. Each document has a fixed control block,
    an authentication part and a `function` element holding the operation.

    The source grows a DOM by successive `appendChild` calls inside a `try`.
    A text that is not a string raises `TypeError` after its element was
    appended, and the handler still returns what was built. Here a `Built`
    value carries the nodes appended so far and whether construction went on
    past them. */
module RequestBuilder {
  import opened Base
  import opened Xml

  /** The connection settings (the `SageIntacct` dataclass). The control id is a
      class default computed once per process from the clock. The credentials
      come from environment variables, so any of them may be absent. */
  datatype SageIntacct = SageIntacct(
    controlId: string,
    companyId: Option<string>,
    userId: Option<string>,
    userPassword: Option<string>,
    senderId: Option<string>,
    senderPassword: Option<string>,
    url: string)

  /** The `doc_type` argument: 'Auth', 'Entity' (readByQuery) or 'NextPage' (readMore). */
  datatype DocKind = Auth | Entity | NextPage

  /** The optional keyword arguments of `generate_xml_doc`; each defaults to None. */
  datatype DocParams = DocParams(
    sessionId: Option<string>,
    entity: Option<string>,
    columns: Option<string>,
    whereQuery: Option<string>,
    rowsPerPage: Option<string>,
    resultId: Option<string>)

  const NoParams: DocParams := DocParams(None, None, None, None, None, None)

  /** A leaf to append: its tag and its text, if it has one. */
  type Field = (string, Option<string>)

  /** The children appended to one element, and whether construction continued
      after them (false once a `TypeError` was raised). */
  datatype Built = Built(nodes: seq<Node>, complete: bool)

  /** The index of the first field without text, or the number of fields. */
  function FirstMissing(fields: seq<Field>): (k: nat)
    ensures k <= |fields|
    ensures forall i :: 0 <= i < k ==> fields[i].1.Some?
    ensures k < |fields| ==> fields[k].1.None?
  {
    if fields == [] || fields[0].1.None? then 0 else 1 + FirstMissing(fields[1..])
  }

  /** How many leaves a run of fields leaves in the document: all of them, or
      the ones before the first missing text and that empty one. */
  function Kept(fields: seq<Field>): nat {
    var k := FirstMissing(fields);
    if k == |fields| then k else k + 1
  }

  function Tags(fields: seq<Field>): (r: seq<string>)
    ensures |r| == |fields| && forall i :: 0 <= i < |fields| ==> r[i] == fields[i].0
  {
    seq(|fields|, i requires 0 <= i < |fields| => fields[i].0)
  }

  /** Appends `<tag>text</tag>` for each field in turn. A missing text raises
      after its element was appended, so that element stays, empty, and
      nothing after it is appended. */
  function Leaves(fields: seq<Field>): (b: Built)
    ensures b.complete <==> FirstMissing(fields) == |fields|
    ensures |b.nodes| == Kept(fields)
    ensures forall i :: 0 <= i < |b.nodes| ==> b.nodes[i] == Leaf(fields[i].0, fields[i].1)
  {
    if fields == [] then Built([], true)
    else if fields[0].1.None? then Built([Leaf(fields[0].0, None)], false)
    else
      var rest := Leaves(fields[1..]);
      Built([Leaf(fields[0].0, fields[0].1)] + rest.nodes, rest.complete)
  }

  /** The children of `control`, in the order the source appends them. */
  function ControlFields(sesh: SageIntacct): seq<Field> {
    [("senderid", sesh.senderId), ("password", sesh.senderPassword),
     ("controlid", Some(sesh.controlId)), ("uniqueid", Some("false")),
     ("dtdversion", Some("3.0")), ("includewhitespace", Some("false"))]
  }

  /** The children of `login` in an `Auth` document. */
  function LoginFields(sesh: SageIntacct): seq<Field> {
    [("userid", sesh.userId), ("companyid", sesh.companyId), ("password", sesh.userPassword)]
  }

  /** The children of `readByQuery` in an `Entity` document. */
  function QueryFields(p: DocParams): seq<Field> {
    [("object", p.entity), ("fields", p.columns), ("query", p.whereQuery), ("pagesize", p.rowsPerPage)]
  }

  /** The children of `authentication`. */
  function AuthenticationPart(sesh: SageIntacct, kind: DocKind, p: DocParams): Built {
    if kind == Auth then
      var login := Leaves(LoginFields(sesh));
      Built([Element("login", map[], login.nodes)], login.complete)
    else Leaves([("sessionid", p.sessionId)])
  }

  /** The tag of the operation element for each kind. */
  function OperationTag(kind: DocKind): string {
    match kind
    case Auth => "getAPISession"
    case Entity => "readByQuery"
    case NextPage => "readMore"
  }

  /** The leaves of the operation element: none for `getAPISession`. */
  function OperationFields(kind: DocKind, p: DocParams): seq<Field> {
    match kind
    case Auth => []
    case Entity => QueryFields(p)
    case NextPage => [("resultId", p.resultId)]
  }

  /** The `function` element: the control id as its attribute and the
      operation as its only child, built as far as the parameters allow. */
  function FunctionElement(sesh: SageIntacct, kind: DocKind, p: DocParams): Node {
    var op := Element(OperationTag(kind), map[], Leaves(OperationFields(kind, p)).nodes);
    Element("function", map["controlid" := sesh.controlId], [op])
  }

  /** The `control` element. */
  function ControlElement(sesh: SageIntacct): Node {
    Element("control", map[], Leaves(ControlFields(sesh)).nodes)
  }

  /** The `operation` element: the authentication part, then the content
      holding the function element, unless a missing text stopped
      construction inside the authentication part. */
  function OperationElement(sesh: SageIntacct, kind: DocKind, p: DocParams): Node {
    var auth := AuthenticationPart(sesh, kind, p);
    var authEl := Element("authentication", map[], auth.nodes);
    var content := Element("content", map[], [FunctionElement(sesh, kind, p)]);
    Element("operation", map[], if auth.complete then [authEl, content] else [authEl])
  }

  /** `generate_xml_doc`: the `request` element, complete or as far as it was
      built when a missing text stopped construction. It never fails. */
  function GenerateXmlDoc(sesh: SageIntacct, kind: DocKind, p: DocParams): (doc: Node)
    ensures doc.Element? && doc.tag == "request" && 1 <= |doc.children| <= 2
    ensures doc.children[0] == ControlElement(sesh)
  {
    if !Leaves(ControlFields(sesh)).complete then Element("request", map[], [ControlElement(sesh)])
    else Element("request", map[], [ControlElement(sesh), OperationElement(sesh, kind, p)])
  }

  /** The `Auth` document that `get_new_sesison` sends. */
  function AuthDoc(sesh: SageIntacct): (doc: Node)
    ensures doc.Element? && doc.tag == "request" && |doc.children| >= 1 && doc.children[0] == ControlElement(sesh)
  {
    GenerateXmlDoc(sesh, Auth, NoParams)
  }

  /** The `Entity` document `get_entity` sends: every field (`*`), 1000 rows a page. */
  function EntityDoc(sesh: SageIntacct, sessionId: Option<string>, entity: string, query: string): (doc: Node)
    ensures doc.Element? && doc.tag == "request" && |doc.children| >= 1 && doc.children[0] == ControlElement(sesh)
  {
    GenerateXmlDoc(sesh, Entity, DocParams(sessionId, Some(entity), Some("*"), Some(query), Some("1000"), None))
  }

  /** The `NextPage` document `get_next_page` sends. */
  function NextPageDoc(sesh: SageIntacct, sessionId: Option<string>, resultId: Option<string>): (doc: Node)
    ensures doc.Element? && doc.tag == "request" && |doc.children| >= 1 && doc.children[0] == ControlElement(sesh)
  {
    GenerateXmlDoc(sesh, NextPage, DocParams(sessionId, None, None, None, None, resultId))
  }

  // ---------------------------------------------------------------------------
  // The builder as the source runs it: one append after another

  /** Appends the leaves of `fields` one at a time, stopping after the first
      one whose text is missing. */
  method AppendLeaves(fields: seq<Field>) returns (b: Built)
    ensures b == Leaves(fields)
  {
    var nodes: seq<Node> := [];
    var i := 0;
    while i < |fields|
      invariant i <= FirstMissing(fields)
      invariant |nodes| == i
      invariant forall j :: 0 <= j < i ==> nodes[j] == Leaf(fields[j].0, fields[j].1)
    {
      nodes := nodes + [Leaf(fields[i].0, fields[i].1)];
      if fields[i].1.None? {
        assert FirstMissing(fields) == i;
        SameLeaves(fields, nodes);
        return Built(nodes, false);
      }
      i := i + 1;
    }
    SameLeaves(fields, nodes);
    return Built(nodes, true);
  }

  /** Any run of nodes as long as the kept fields, leaf for leaf, is the one
      `Leaves` builds. */
  lemma {:induction false} SameLeaves(fields: seq<Field>, nodes: seq<Node>)
    requires |nodes| == Kept(fields)
    requires forall j :: 0 <= j < |nodes| ==> nodes[j] == Leaf(fields[j].0, fields[j].1)
    ensures nodes == Leaves(fields).nodes
  {
  }

  /** `generate_xml_doc` step by step: control, then operation and
      authentication, then content and function, leaving the `try` at the
      first missing text. */
  method BuildRequest(sesh: SageIntacct, kind: DocKind, p: DocParams) returns (doc: Node)
    ensures doc == GenerateXmlDoc(sesh, kind, p)
  {
    var control := AppendLeaves(ControlFields(sesh));
    var controlEl := Element("control", map[], control.nodes);
    if !control.complete {
      return Element("request", map[], [controlEl]);
    }
    var auth: Built;
    if kind == Auth {
      var login := AppendLeaves(LoginFields(sesh));
      auth := Built([Element("login", map[], login.nodes)], login.complete);
    } else {
      auth := AppendLeaves([("sessionid", p.sessionId)]);
    }
    var authEl := Element("authentication", map[], auth.nodes);
    if !auth.complete {
      return Element("request", map[], [controlEl, Element("operation", map[], [authEl])]);
    }
    var body := AppendLeaves(OperationFields(kind, p));
    var fn := Element("function", map["controlid" := sesh.controlId],
                      [Element(OperationTag(kind), map[], body.nodes)]);
    var content := Element("content", map[], [fn]);
    doc := Element("request", map[], [controlEl, Element("operation", map[], [authEl, content])]);
  }

  // ---------------------------------------------------------------------------
  // Reading the documents back

  predicate SenderPresent(sesh: SageIntacct) {
    sesh.senderId.Some? && sesh.senderPassword.Some?
  }

  /** The texts the authentication part needs: the three login values for
      `Auth`, the session id otherwise. */
  predicate AuthPresent(sesh: SageIntacct, kind: DocKind, p: DocParams) {
    if kind == Auth then sesh.userId.Some? && sesh.companyId.Some? && sesh.userPassword.Some?
    else p.sessionId.Some?
  }

  predicate DistinctTags(fields: seq<Field>) {
    forall i, j :: 0 <= i < j < |fields| ==> fields[i].0 != fields[j].0
  }

  const ControlPath: seq<string> := ["control"]
  const AuthenticationPath: seq<string> := ["operation", "authentication"]
  const FunctionPath: seq<string> := ["operation", "content", "function"]

  /** Each kept leaf is found by its tag and carries the field's text. */
  lemma {:induction false} LeafFound(tag: string, fields: seq<Field>, i: nat)
    requires DistinctTags(fields) && i < Kept(fields)
    ensures Child(Element(tag, map[], Leaves(fields).nodes), fields[i].0) == Some(Leaf(fields[i].0, fields[i].1))
  {
    var ns := Leaves(fields).nodes;
    forall j | 0 <= j < i ensures !(ns[j].Element? && ns[j].tag == fields[i].0) {
      assert ns[j].tag == fields[j].0;
    }
    FirstWithTagAt(ns, i, fields[i].0);
  }

  /** A field after the first missing text has no element at all. */
  lemma {:induction false} LeafAbsent(tag: string, fields: seq<Field>, i: nat)
    requires DistinctTags(fields) && Kept(fields) <= i < |fields|
    ensures Child(Element(tag, map[], Leaves(fields).nodes), fields[i].0) == None
  {
    var ns := Leaves(fields).nodes;
    forall j | 0 <= j < |ns| ensures !(ns[j].Element? && ns[j].tag == fields[i].0) {
      assert ns[j].tag == fields[j].0;
    }
    FirstWithTagAbsent(ns, fields[i].0);
  }

  /** The child tags of an element built from `fields` are those of the kept
      fields. */
  lemma {:induction false} LeavesTags(tag: string, fields: seq<Field>)
    ensures ChildTags(Element(tag, map[], Leaves(fields).nodes)) == Tags(fields)[..Kept(fields)]
  {
    var ns := Leaves(fields).nodes;
    var t := Tags(fields)[..Kept(fields)];
    TagsOfElements(ns);
    forall i | 0 <= i < |t| ensures TagsOf(ns)[i] == t[i] {
      assert ns[i] == Leaf(fields[i].0, fields[i].1);
    }
  }

  /** Below an element built from `fields` at `path`, a kept field's text is
      found under its tag. */
  lemma {:induction false} FieldText(doc: Node, path: seq<string>, tag: string, fields: seq<Field>, i: nat)
    requires At(doc, path) == Some(Element(tag, map[], Leaves(fields).nodes))
    requires DistinctTags(fields) && i < Kept(fields)
    ensures TextAt(doc, path + [fields[i].0]) == fields[i].1
  {
    LeafFound(tag, fields, i);
    AtAppend(doc, path, [fields[i].0]);
    AtOne(Element(tag, map[], Leaves(fields).nodes), fields[i].0);
  }

  /** Below an element built from `fields` at `path`, a field after the first
      missing text is absent. */
  lemma {:induction false} FieldAbsent(doc: Node, path: seq<string>, tag: string, fields: seq<Field>, i: nat)
    requires At(doc, path) == Some(Element(tag, map[], Leaves(fields).nodes))
    requires DistinctTags(fields) && Kept(fields) <= i < |fields|
    ensures At(doc, path + [fields[i].0]) == None
  {
    LeafAbsent(tag, fields, i);
    AtAppend(doc, path, [fields[i].0]);
    AtOne(Element(tag, map[], Leaves(fields).nodes), fields[i].0);
  }

  /** The authentication part is built to the end exactly when its texts are present. */
  lemma {:induction false} AuthPartComplete(sesh: SageIntacct, kind: DocKind, p: DocParams)
    ensures AuthenticationPart(sesh, kind, p).complete <==> AuthPresent(sesh, kind, p)
  {
    if kind == Auth {
      var f := LoginFields(sesh);
      assert FirstMissing(f) == 3 <==> f[0].1.Some? && f[1].1.Some? && f[2].1.Some?;
    } else {
      var f := [("sessionid", p.sessionId)];
      assert FirstMissing(f) == 1 <==> f[0].1.Some?;
    }
  }

  /** The control block is the first child, whatever the kind and parameters. */
  lemma {:induction false} ControlAt(sesh: SageIntacct, kind: DocKind, p: DocParams)
    ensures At(GenerateXmlDoc(sesh, kind, p), ControlPath) == Some(ControlElement(sesh))
  {
    var doc := GenerateXmlDoc(sesh, kind, p);
    FirstWithTagAt(doc.children, 0, "control");
    AtOne(doc, "control");
  }

  /** With the sender credentials present the request holds the control block
      and then the operation. */
  lemma {:induction false} OperationAt(sesh: SageIntacct, kind: DocKind, p: DocParams)
    requires SenderPresent(sesh)
    ensures GenerateXmlDoc(sesh, kind, p) == Element("request", map[], [ControlElement(sesh), OperationElement(sesh, kind, p)])
    ensures ChildTags(GenerateXmlDoc(sesh, kind, p)) == ["control", "operation"]
    ensures At(GenerateXmlDoc(sesh, kind, p), ["operation"]) == Some(OperationElement(sesh, kind, p))
  {
    var doc := GenerateXmlDoc(sesh, kind, p);
    assert FirstMissing(ControlFields(sesh)) == 6;
    TagsOfElements(doc.children);
    FirstWithTagAt(doc.children, 1, "operation");
    AtOne(doc, "operation");
  }

  /** The operation holds the authentication part and, exactly when that was
      built to the end, the content with the function element. */
  lemma {:induction false} OperationParts(sesh: SageIntacct, kind: DocKind, p: DocParams)
    ensures var op := OperationElement(sesh, kind, p);
      && ChildTags(op) == (if AuthPresent(sesh, kind, p) then ["authentication", "content"] else ["authentication"])
      && At(op, ["authentication"]) == Some(Element("authentication", map[], AuthenticationPart(sesh, kind, p).nodes))
      && At(op, ["content", "function"]) == (if AuthPresent(sesh, kind, p) then Some(FunctionElement(sesh, kind, p)) else None)
  {
    var op := OperationElement(sesh, kind, p);
    AuthPartComplete(sesh, kind, p);
    TagsOfElements(op.children);
    FirstWithTagAt(op.children, 0, "authentication");
    AtOne(op, "authentication");
    ContentAt(sesh, kind, p);
  }

  /** The function element below the operation is there exactly when the
      authentication part was built to the end. */
  lemma {:induction false} ContentAt(sesh: SageIntacct, kind: DocKind, p: DocParams)
    ensures At(OperationElement(sesh, kind, p), ["content", "function"])
         == (if AuthenticationPart(sesh, kind, p).complete then Some(FunctionElement(sesh, kind, p)) else None)
  {
    var op := OperationElement(sesh, kind, p);
    AtAppend(op, ["content"], ["function"]);
    assert ["content"] + ["function"] == ["content", "function"];
    AtOne(op, "content");
    if AuthenticationPart(sesh, kind, p).complete {
      var content := op.children[1];
      FirstWithTagAt(op.children, 1, "content");
      FirstWithTagAt(content.children, 0, "function");
      AtOne(content, "function");
    } else {
      FirstWithTagAbsent(op.children, "content");
    }
  }

  /** With the sender credentials present, the authentication part and the
      function element are found at their paths; the function element is
      there exactly when the authentication texts are present. */
  lemma {:induction false} Skeleton(sesh: SageIntacct, kind: DocKind, p: DocParams)
    requires SenderPresent(sesh)
    ensures var doc := GenerateXmlDoc(sesh, kind, p);
      && ChildTags(doc) == ["control", "operation"]
      && ChildTags(OperationElement(sesh, kind, p))
         == (if AuthPresent(sesh, kind, p) then ["authentication", "content"] else ["authentication"])
      && At(doc, AuthenticationPath) == Some(Element("authentication", map[], AuthenticationPart(sesh, kind, p).nodes))
      && At(doc, FunctionPath) == (if AuthPresent(sesh, kind, p) then Some(FunctionElement(sesh, kind, p)) else None)
  {
    var doc := GenerateXmlDoc(sesh, kind, p);
    OperationAt(sesh, kind, p);
    OperationParts(sesh, kind, p);
    AtAppend(doc, ["operation"], ["authentication"]);
    assert ["operation"] + ["authentication"] == AuthenticationPath;
    AtAppend(doc, ["operation"], ["content", "function"]);
    assert ["operation"] + ["content", "function"] == FunctionPath;
  }

  // ---------------------------------------------------------------------------
  // What each document says

  /** The control fields carry six different tags. */
  lemma {:induction false} ControlFieldsDistinct(sesh: SageIntacct)
    ensures DistinctTags(ControlFields(sesh))
    ensures Tags(ControlFields(sesh))
         == ["senderid", "password", "controlid", "uniqueid", "dtdversion", "includewhitespace"]
  {
    var f := ControlFields(sesh);
    assert f[0].0[0] == 's' && f[1].0[0] == 'p' && f[2].0[0] == 'c';
    assert f[3].0[0] == 'u' && f[4].0[0] == 'd' && f[5].0[0] == 'i';
  }

  /** The login fields carry three different tags. */
  lemma {:induction false} LoginFieldsDistinct(sesh: SageIntacct)
    ensures DistinctTags(LoginFields(sesh))
    ensures Tags(LoginFields(sesh)) == ["userid", "companyid", "password"]
  {
    var f := LoginFields(sesh);
    assert f[0].0[0] == 'u' && f[1].0[0] == 'c' && f[2].0[0] == 'p';
  }

  /** The query fields carry four different tags. */
  lemma {:induction false} QueryFieldsDistinct(p: DocParams)
    ensures DistinctTags(QueryFields(p))
    ensures Tags(QueryFields(p)) == ["object", "fields", "query", "pagesize"]
  {
    var f := QueryFields(p);
    assert f[0].0[0] == 'o' && f[1].0[0] == 'f' && f[2].0[0] == 'q' && f[3].0[0] == 'p';
  }

  /** With both sender credentials the six control fields are all kept. */
  lemma {:induction false} ControlFieldsKept(sesh: SageIntacct)
    requires SenderPresent(sesh)
    ensures Kept(ControlFields(sesh)) == 6 && DistinctTags(ControlFields(sesh))
    ensures Tags(ControlFields(sesh))[..6]
         == ["senderid", "password", "controlid", "uniqueid", "dtdversion", "includewhitespace"]
  {
    assert FirstMissing(ControlFields(sesh)) == 6;
    ControlFieldsDistinct(sesh);
  }

  lemma {:induction false} ControlTexts(doc: Node, sesh: SageIntacct)
    requires SenderPresent(sesh) && At(doc, ControlPath) == Some(ControlElement(sesh))
    ensures ChildTags(ControlElement(sesh))
         == ["senderid", "password", "controlid", "uniqueid", "dtdversion", "includewhitespace"]
    ensures TextAt(doc, ["control", "senderid"]) == sesh.senderId
    ensures TextAt(doc, ["control", "password"]) == sesh.senderPassword
    ensures TextAt(doc, ["control", "controlid"]) == Some(sesh.controlId)
    ensures TextAt(doc, ["control", "uniqueid"]) == Some("false")
    ensures TextAt(doc, ["control", "dtdversion"]) == Some("3.0")
    ensures TextAt(doc, ["control", "includewhitespace"]) == Some("false")
  {
    var fields := ControlFields(sesh);
    ControlFieldsKept(sesh);
    LeavesTags("control", fields);
    FieldText(doc, ControlPath, "control", fields, 0);
    FieldText(doc, ControlPath, "control", fields, 1);
    FieldText(doc, ControlPath, "control", fields, 2);
    FieldText(doc, ControlPath, "control", fields, 3);
    FieldText(doc, ControlPath, "control", fields, 4);
    FieldText(doc, ControlPath, "control", fields, 5);
    assert ControlPath + [fields[0].0] == ["control", "senderid"];
    assert ControlPath + [fields[1].0] == ["control", "password"];
    assert ControlPath + [fields[2].0] == ["control", "controlid"];
    assert ControlPath + [fields[3].0] == ["control", "uniqueid"];
    assert ControlPath + [fields[4].0] == ["control", "dtdversion"];
    assert ControlPath + [fields[5].0] == ["control", "includewhitespace"];
  }

  /** With both sender credentials present the control block holds, in order,
      senderid, password, controlid, uniqueid "false", dtdversion "3.0" and
      includewhitespace "false", with the process's control id. */
  lemma {:induction false} ControlBlock(sesh: SageIntacct, kind: DocKind, p: DocParams)
    requires SenderPresent(sesh)
    ensures var doc := GenerateXmlDoc(sesh, kind, p);
      && ChildTags(ControlElement(sesh))
         == ["senderid", "password", "controlid", "uniqueid", "dtdversion", "includewhitespace"]
      && TextAt(doc, ["control", "senderid"]) == sesh.senderId
      && TextAt(doc, ["control", "password"]) == sesh.senderPassword
      && TextAt(doc, ["control", "controlid"]) == Some(sesh.controlId)
      && TextAt(doc, ["control", "uniqueid"]) == Some("false")
      && TextAt(doc, ["control", "dtdversion"]) == Some("3.0")
      && TextAt(doc, ["control", "includewhitespace"]) == Some("false")
  {
    ControlAt(sesh, kind, p);
    ControlTexts(GenerateXmlDoc(sesh, kind, p), sesh);
  }

  /** A missing sender id or sender password stops construction inside the
      control block: the document is the request with a control block that
      ends at the empty element, and there is no operation. */
  lemma {:induction false} PartialControl(sesh: SageIntacct, kind: DocKind, p: DocParams)
    requires !SenderPresent(sesh)
    ensures var doc := GenerateXmlDoc(sesh, kind, p);
      && ChildTags(doc) == ["control"]
      && ChildTags(ControlElement(sesh))
         == (if sesh.senderId.None? then ["senderid"] else ["senderid", "password"])
      && TextAt(doc, ["control", "senderid"]) == sesh.senderId
      && (sesh.senderId.Some? ==> TextAt(doc, ["control", "password"]) == None)
      && (sesh.senderId.None? ==> At(doc, ["control", "password"]) == None)
      && At(doc, ["operation"]) == None
  {
    var doc := GenerateXmlDoc(sesh, kind, p);
    var fields := ControlFields(sesh);
    assert FirstMissing(fields) == (if sesh.senderId.None? then 0 else 1);
    ControlFieldsDistinct(sesh);
    TagsOfElements(doc.children);
    ControlAt(sesh, kind, p);
    LeavesTags("control", fields);
    FieldText(doc, ControlPath, "control", fields, 0);
    assert ControlPath + [fields[0].0] == ["control", "senderid"];
    assert ControlPath + [fields[1].0] == ["control", "password"];
    if sesh.senderId.Some? {
      FieldText(doc, ControlPath, "control", fields, 1);
    } else {
      FieldAbsent(doc, ControlPath, "control", fields, 1);
    }
    FirstWithTagAbsent(doc.children, "operation");
    AtOne(doc, "operation");
  }

  /** The function element is present exactly when the sender credentials
      and the authentication texts are; it then carries the control id of the
      control block as its `controlid` attribute and holds the operation of
      the document's kind. */
  lemma {:induction false} FunctionCarriesControlId(sesh: SageIntacct, kind: DocKind, p: DocParams)
    ensures var doc := GenerateXmlDoc(sesh, kind, p);
      && (At(doc, FunctionPath).Some? <==> SenderPresent(sesh) && AuthPresent(sesh, kind, p))
      && (At(doc, FunctionPath).Some? ==>
            && Attr(At(doc, FunctionPath).value, "controlid") == Some(sesh.controlId)
            && ChildTags(At(doc, FunctionPath).value) == [OperationTag(kind)])
  {
    if SenderPresent(sesh) {
      FunctionBuilt(sesh, kind, p);
    } else {
      FunctionMissing(sesh, kind, p);
    }
  }

  lemma {:induction false} FunctionBuilt(sesh: SageIntacct, kind: DocKind, p: DocParams)
    requires SenderPresent(sesh)
    ensures var f := At(GenerateXmlDoc(sesh, kind, p), FunctionPath);
      && (f.Some? <==> AuthPresent(sesh, kind, p))
      && (f.Some? ==> f.value == FunctionElement(sesh, kind, p))
      && Attr(FunctionElement(sesh, kind, p), "controlid") == Some(sesh.controlId)
      && ChildTags(FunctionElement(sesh, kind, p)) == [OperationTag(kind)]
  {
    Skeleton(sesh, kind, p);
    TagsOfElements(FunctionElement(sesh, kind, p).children);
  }

  lemma {:induction false} FunctionMissing(sesh: SageIntacct, kind: DocKind, p: DocParams)
    requires !SenderPresent(sesh)
    ensures At(GenerateXmlDoc(sesh, kind, p), FunctionPath) == None
  {
    var doc := GenerateXmlDoc(sesh, kind, p);
    PartialControl(sesh, kind, p);
    AtAppend(doc, ["operation"], ["content", "function"]);
    assert ["operation"] + ["content", "function"] == FunctionPath;
  }

  /** The element found at `path` has, as its first child with that tag, the
      element `c`; then `c` is found one step further. */
  lemma {:induction false} ChildAt(doc: Node, path: seq<string>, el: Node, i: nat)
    requires At(doc, path) == Some(el) && el.Element? && i < |el.children|
    requires el.children[i].Element?
    requires forall j :: 0 <= j < i ==> !(el.children[j].Element? && el.children[j].tag == el.children[i].tag)
    ensures At(doc, path + [el.children[i].tag]) == Some(el.children[i])
  {
    FirstWithTagAt(el.children, i, el.children[i].tag);
    AtAppend(doc, path, [el.children[i].tag]);
    AtOne(el, el.children[i].tag);
  }

  /** An `Auth` document with the sender credentials holds `login` as the only
      child of `authentication`; `login` holds userid, companyid and password,
      as far as their texts are present, and with all three present their texts
      are the user id, company id and user password. */
  lemma {:induction false} LoginBlock(sesh: SageIntacct, p: DocParams)
    requires SenderPresent(sesh)
    ensures var doc := GenerateXmlDoc(sesh, Auth, p);
      var login := AuthenticationPath + ["login"];
      && At(doc, AuthenticationPath).Some?
      && ChildTags(At(doc, AuthenticationPath).value) == ["login"]
      && At(doc, login).Some?
      && ChildTags(At(doc, login).value) == ["userid", "companyid", "password"][..Kept(LoginFields(sesh))]
      && (AuthPresent(sesh, Auth, p) ==>
            && TextAt(doc, login + ["userid"]) == sesh.userId
            && TextAt(doc, login + ["companyid"]) == sesh.companyId
            && TextAt(doc, login + ["password"]) == sesh.userPassword)
  {
    var doc := GenerateXmlDoc(sesh, Auth, p);
    var fields := LoginFields(sesh);
    Skeleton(sesh, Auth, p);
    var authEl := At(doc, AuthenticationPath).value;
    TagsOfElements(authEl.children);
    ChildAt(doc, AuthenticationPath, authEl, 0);
    var path := AuthenticationPath + ["login"];
    LeavesTags("login", fields);
    LoginFieldsDistinct(sesh);
    if AuthPresent(sesh, Auth, p) {
      assert FirstMissing(fields) == 3;
      FieldText(doc, path, "login", fields, 0);
      FieldText(doc, path, "login", fields, 1);
      FieldText(doc, path, "login", fields, 2);
    }
  }

  /** An `Entity` or `NextPage` document with the sender credentials holds
      only `sessionid` under `authentication`, with the session id given. */
  lemma {:induction false} SessionBlock(sesh: SageIntacct, kind: DocKind, p: DocParams)
    requires SenderPresent(sesh) && kind != Auth
    ensures var doc := GenerateXmlDoc(sesh, kind, p);
      && At(doc, AuthenticationPath).Some?
      && ChildTags(At(doc, AuthenticationPath).value) == ["sessionid"]
      && TextAt(doc, AuthenticationPath + ["sessionid"]) == p.sessionId
  {
    var doc := GenerateXmlDoc(sesh, kind, p);
    var fields := [("sessionid", p.sessionId)];
    Skeleton(sesh, kind, p);
    assert Kept(fields) == 1;
    LeavesTags("authentication", fields);
    FieldText(doc, AuthenticationPath, "authentication", fields, 0);
  }

  /** Where the operation element sits in a document whose function element
      was built. */
  lemma {:induction false} OperationElementAt(sesh: SageIntacct, kind: DocKind, p: DocParams)
    requires SenderPresent(sesh) && AuthPresent(sesh, kind, p)
    ensures At(GenerateXmlDoc(sesh, kind, p), FunctionPath + [OperationTag(kind)])
         == Some(Element(OperationTag(kind), map[], Leaves(OperationFields(kind, p)).nodes))
  {
    var doc := GenerateXmlDoc(sesh, kind, p);
    Skeleton(sesh, kind, p);
    ChildAt(doc, FunctionPath, FunctionElement(sesh, kind, p), 0);
  }

  /** An `Entity` document with the sender credentials and a session id holds
      `readByQuery` with object, fields, query and pagesize in that order, up to
      and including the first one whose text is missing: each kept one carries
      its text, the ones after it are absent. */
  lemma {:induction false} QueryBlock(sesh: SageIntacct, p: DocParams)
    requires SenderPresent(sesh) && p.sessionId.Some?
    ensures var doc := GenerateXmlDoc(sesh, Entity, p);
      var query := FunctionPath + ["readByQuery"];
      && At(doc, query).Some?
      && ChildTags(At(doc, query).value) == ["object", "fields", "query", "pagesize"][..Kept(QueryFields(p))]
      && (forall i :: 0 <= i < Kept(QueryFields(p)) ==>
            TextAt(doc, query + [QueryFields(p)[i].0]) == QueryFields(p)[i].1)
      && (forall i :: Kept(QueryFields(p)) <= i < 4 ==> At(doc, query + [QueryFields(p)[i].0]) == None)
  {
    var doc := GenerateXmlDoc(sesh, Entity, p);
    var fields := QueryFields(p);
    var path := FunctionPath + ["readByQuery"];
    OperationElementAt(sesh, Entity, p);
    LeavesTags("readByQuery", fields);
    QueryFieldsDistinct(p);
    forall i | 0 <= i < Kept(fields) ensures TextAt(doc, path + [fields[i].0]) == fields[i].1 {
      FieldText(doc, path, "readByQuery", fields, i);
    }
    forall i | Kept(fields) <= i < 4 ensures At(doc, path + [fields[i].0]) == None {
      FieldAbsent(doc, path, "readByQuery", fields, i);
    }
  }

  /** A `NextPage` document with the sender credentials and a session id holds
      exactly `resultId` under `readMore`, with the result id given. */
  lemma {:induction false} ReadMoreBlock(sesh: SageIntacct, p: DocParams)
    requires SenderPresent(sesh) && p.sessionId.Some?
    ensures var doc := GenerateXmlDoc(sesh, NextPage, p);
      var more := FunctionPath + ["readMore"];
      && At(doc, more).Some?
      && ChildTags(At(doc, more).value) == ["resultId"]
      && TextAt(doc, more + ["resultId"]) == p.resultId
  {
    var doc := GenerateXmlDoc(sesh, NextPage, p);
    var fields := [("resultId", p.resultId)];
    OperationElementAt(sesh, NextPage, p);
    assert Kept(fields) == 1;
    LeavesTags("readMore", fields);
    FieldText(doc, FunctionPath + ["readMore"], "readMore", fields, 0);
  }

  /** The document `get_entity` sends carries the session id, the entity as
      the object, every field (`*`), the query and a page size of 1000. */
  lemma {:induction false} EntityDocFields(sesh: SageIntacct, sessionId: string, entity: string, query: string)
    requires SenderPresent(sesh)
    ensures var doc := EntityDoc(sesh, Some(sessionId), entity, query);
      var q := FunctionPath + ["readByQuery"];
      && TextAt(doc, AuthenticationPath + ["sessionid"]) == Some(sessionId)
      && TextAt(doc, q + ["object"]) == Some(entity)
      && TextAt(doc, q + ["fields"]) == Some("*")
      && TextAt(doc, q + ["query"]) == Some(query)
      && TextAt(doc, q + ["pagesize"]) == Some("1000")
  {
    var p := DocParams(Some(sessionId), Some(entity), Some("*"), Some(query), Some("1000"), None);
    var fields := QueryFields(p);
    assert FirstMissing(fields) == 4;
    SessionBlock(sesh, Entity, p);
    QueryBlock(sesh, p);
    assert fields[0].0 == "object" && fields[1].0 == "fields" && fields[2].0 == "query" && fields[3].0 == "pagesize";
  }

  /** The document `get_next_page` sends carries the session id and the
      result id of the previous page. */
  lemma {:induction false} NextPageDocFields(sesh: SageIntacct, sessionId: string, resultId: Option<string>)
    requires SenderPresent(sesh)
    ensures var doc := NextPageDoc(sesh, Some(sessionId), resultId);
      && TextAt(doc, AuthenticationPath + ["sessionid"]) == Some(sessionId)
      && TextAt(doc, FunctionPath + ["readMore", "resultId"]) == resultId
  {
    var p := DocParams(Some(sessionId), None, None, None, None, resultId);
    SessionBlock(sesh, NextPage, p);
    ReadMoreBlock(sesh, p);
    assert FunctionPath + ["readMore"] + ["resultId"] == FunctionPath + ["readMore", "resultId"];
  }
}
