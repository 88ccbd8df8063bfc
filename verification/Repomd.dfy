/** The SAX handlers of librepo/repomd.c as functions on the parser data, and the declarative reading
    of a repomd.xml document they are compared with. */
module Repomd {
  import opened Wrappers
  import opened Xml
  import opened WarningCallback
  import opened SaxTable
  import opened RepomdTable

  /** LrYumRepoMdRecord; None is a NULL string. */
  datatype Record = Record(
    rtype: string, locationHref: Option<string>, locationBase: Option<string>,
    checksum: Option<string>, checksumType: Option<string>,
    checksumOpen: Option<string>, checksumOpenType: Option<string>,
    headerChecksum: Option<string>, headerChecksumType: Option<string>,
    timestamp: int, size: int, sizeOpen: int, sizeHeader: int, dbVersion: int)

  datatype DistroTag = DistroTag(cpeid: Option<string>, tag: string)

  datatype RepoMd = RepoMd(
    revision: Option<string>, repoid: Option<string>, repoidType: Option<string>,
    repoTags: seq<string>, contentTags: seq<string>, distroTags: seq<DistroTag>, records: seq<Record>)

  function NewRecord(rtype: string): Record {
    Record(rtype, None, None, None, None, None, None, None, None, 0, 0, 0, 0, 0)
  }

  /** `warn`: whether the n-th call of the warning callback asks to stop; without one it never does. */
  datatype Env = Env(toll: Toll, warn: nat -> bool)

  /** LrParserData. A record in progress is always the last one of the list, so the pointer to it becomes
      a flag. */
  datatype Parser = Parser(
    core: Core, err: bool, warnings: nat, found: bool, record: bool, cpeid: Option<string>, r: RepoMd)

  /** The handlers add to a repomd object the caller provides. */
  function Fresh(r: RepoMd): Parser {
    Parser(INITIAL, false, 0, false, false, None, r)
  }

  function WarnIf(p: Parser, env: Env, condition: bool): Parser {
    if condition then p.(warnings := p.warnings + 1, err := p.err || env.warn(p.warnings)) else p
  }

  function OrElse(a: Option<string>, b: Option<string>): Option<string> {
    if a.Some? then a else b
  }

  /** The conversion (int) of a 64-bit number: its lower 32 bits, signed. */
  function ToInt(n: int): int {
    var low := n % 0x1_0000_0000;
    if low >= 0x8000_0000 then low - 0x1_0000_0000 else low
  }

  function SetLast(r: RepoMd, rec: Record): RepoMd {
    if r.records == [] then r else r.(records := r.records[|r.records| - 1 := rec])
  }

  function LastRecord(r: RepoMd): Record {
    if r.records == [] then NewRecord("") else r.records[|r.records| - 1]
  }

  // ---------------------------------------------------------------- the handlers

  /** What entering a child of a data element does to the record. */
  function StartRecord(rec: Record, state: nat, attrs: Attributes): Record {
    match state
    case 9 => // LOCATION
      rec.(locationHref := OrElse(Attr(attrs, "href"), rec.locationHref),
           locationBase := OrElse(Attr(attrs, "xml:base"), rec.locationBase))
    case 10 => rec.(checksumType := OrElse(Attr(attrs, "type"), rec.checksumType))
    case 11 => rec.(checksumOpenType := OrElse(Attr(attrs, "type"), rec.checksumOpenType))
    case 12 => rec.(headerChecksumType := OrElse(Attr(attrs, "type"), rec.headerChecksumType))
    case _ => rec
  }

  function EndRecord(rec: Record, state: nat, text: string, toll: Toll): Record {
    match state
    case 10 => rec.(checksum := Some(text))
    case 11 => rec.(checksumOpen := Some(text))
    case 12 => rec.(headerChecksum := Some(text))
    case 13 => rec.(timestamp := toll(text).0)
    case 14 => rec.(size := toll(text).0)
    case 15 => rec.(sizeOpen := toll(text).0)
    case 16 => rec.(sizeHeader := toll(text).0)
    case 17 => rec.(dbVersion := ToInt(toll(text).0))
    case _ => rec
  }

  /** A missing attribute that is warned about. */
  predicate StartWarns(state: nat, attrs: Attributes) {
    || (state in {DATA, CHECKSUM, OPENCHECKSUM, HEADERCHECKSUM} && Attr(attrs, "type").None?)
    || (state == LOCATION && Attr(attrs, "href").None?)
  }

  /** A missing revision or a text that is not a number. */
  predicate EndWarns(state: nat, text: string, toll: Toll) {
    (state == REVISION && text == "") || (state >= TIMESTAMP && toll(text).1)
  }

  /** The switch of the start handler, warnings aside. */
  function StartData(p: Parser, attrs: Attributes): Parser {
    match p.core.state
    case 1 => p.(found := true)
    case 3 => p.(r := p.r.(repoidType := OrElse(Attr(attrs, "type"), p.r.repoidType)))
    case 7 => p.(cpeid := OrElse(Attr(attrs, "cpeid"), p.cpeid))
    case 8 => p.(r := p.r.(records := p.r.records + [NewRecord(RecordType(attrs))]), record := true)
    case _ =>
      if p.core.state < LOCATION then p
      else p.(r := SetLast(p.r, StartRecord(LastRecord(p.r), p.core.state, attrs)))
  }

  function RecordType(attrs: Attributes): string {
    match Attr(attrs, "type")
    case None => "unknown"
    case Some(t) => t
  }

  function OnStart(p: Parser, name: string, attrs: Attributes, env: Env): Parser {
    if p.err then p
    else
      var q := p.(core := Enter(ROWS, p.core, name));
      if !p.core.Known() || FirstRow(ROWS, p.core.state).None? then q
      else if Lookup(ROWS, p.core.state, name).None? then WarnIf(q, env, true)
      else WarnIf(StartData(q, attrs), env, StartWarns(q.core.state, attrs))
  }

  /** The switch of the end handler for the state just left, warnings aside. */
  function EndData(p: Parser, state: nat, toll: Toll): Parser {
    var text := p.core.content;
    match state
    case 2 => if text == "" then p else p.(r := p.r.(revision := Some(text)))
    case 3 => p.(r := p.r.(repoid := Some(text)))
    case 5 => p.(r := p.r.(repoTags := p.r.repoTags + [text]))
    case 6 => p.(r := p.r.(contentTags := p.r.contentTags + [text]))
    case 7 => p.(r := p.r.(distroTags := p.r.distroTags + [DistroTag(p.cpeid, text)]), cpeid := None)
    case 8 => p.(record := false)
    case _ => if state < LOCATION then p else p.(r := SetLast(p.r, EndRecord(LastRecord(p.r), state, text, toll)))
  }

  function OnEnd(p: Parser, env: Env): Parser {
    if p.err then p
    else
      var q := p.(core := Leave(ROWS, p.core));
      if !p.core.Known() then q
      else WarnIf(EndData(q, p.core.state, env.toll), env, EndWarns(p.core.state, q.core.content, env.toll))
  }

  function OnChars(p: Parser, s: string): Parser {
    if p.err then p else p.(core := AddText(p.core, s))
  }

  function OnEvent(p: Parser, e: Event, env: Env): Parser {
    match e
    case Start(name, attrs) => OnStart(p, name, attrs, env)
    case Chars(s) => OnChars(p, s)
    case End => OnEnd(p, env)
  }

  function Handler(env: Env): (Parser, Event) -> Parser {
    (p: Parser, e: Event) => OnEvent(p, e, env)
  }

  function Fold(p: Parser, events: seq<Event>, env: Env): Parser {
    FoldLeft(Handler(env), p, events)
  }

  // ---------------------------------------------------------------- the declarative reading

  /** The texts of the elements with this name, in order. */
  function Texts(nodes: seq<Node>, name: string): seq<string> {
    if nodes == [] then []
    else (if nodes[0].Elem? && nodes[0].name == name then [Content(nodes[0])] else []) + Texts(nodes[1..], name)
  }

  /** The values of an attribute in the elements with this name that have it, in order. */
  function Values(nodes: seq<Node>, name: string, attr: string): seq<string> {
    if nodes == [] then []
    else
      var n := nodes[0];
      (if n.Elem? && n.name == name && Attr(n.attrs, attr).Some? then [Attr(n.attrs, attr).value] else [])
      + Values(nodes[1..], name, attr)
  }

  function NonEmpty(texts: seq<string>): seq<string> {
    if texts == [] then [] else (if texts[0] == "" then [] else [texts[0]]) + NonEmpty(texts[1..])
  }

  /** The last of xs, or what there was before. */
  function Last(start: Option<string>, xs: seq<string>): Option<string> {
    if xs == [] then start else Some(xs[|xs| - 1])
  }

  function LastNumber(start: int, xs: seq<string>, toll: Toll): int {
    if xs == [] then start else toll(xs[|xs| - 1]).0
  }

  function LastInt(start: int, xs: seq<string>, toll: Toll): int {
    if xs == [] then start else ToInt(toll(xs[|xs| - 1]).0)
  }

  /** What the children of a data element say of its record. */
  function RecordOf(rec: Record, nodes: seq<Node>, toll: Toll): Record {
    Record(
      rec.rtype,
      Last(rec.locationHref, Values(nodes, "location", "href")),
      Last(rec.locationBase, Values(nodes, "location", "xml:base")),
      Last(rec.checksum, Texts(nodes, "checksum")),
      Last(rec.checksumType, Values(nodes, "checksum", "type")),
      Last(rec.checksumOpen, Texts(nodes, "open-checksum")),
      Last(rec.checksumOpenType, Values(nodes, "open-checksum", "type")),
      Last(rec.headerChecksum, Texts(nodes, "header-checksum")),
      Last(rec.headerChecksumType, Values(nodes, "header-checksum", "type")),
      LastNumber(rec.timestamp, Texts(nodes, "timestamp"), toll),
      LastNumber(rec.size, Texts(nodes, "size"), toll),
      LastNumber(rec.sizeOpen, Texts(nodes, "open-size"), toll),
      LastNumber(rec.sizeHeader, Texts(nodes, "header-size"), toll),
      LastInt(rec.dbVersion, Texts(nodes, "database_version"), toll))
  }

  function RecordsOf(n: Node, toll: Toll): seq<Record> {
    if n.Elem? && n.name == "data" then [RecordOf(NewRecord(RecordType(n.attrs)), n.children, toll)] else []
  }

  function Records(nodes: seq<Node>, toll: Toll): seq<Record> {
    if nodes == [] then [] else RecordsOf(nodes[0], toll) + Records(nodes[1..], toll)
  }

  function DistrosOf(n: Node): seq<DistroTag> {
    if n.Elem? && n.name == "distro" then [DistroTag(Attr(n.attrs, "cpeid"), Content(n))] else []
  }

  function Distros(nodes: seq<Node>): seq<DistroTag> {
    if nodes == [] then [] else DistrosOf(nodes[0]) + Distros(nodes[1..])
  }

  /** What the children of tags elements add. */
  function TagsOf(r: RepoMd, nodes: seq<Node>): RepoMd {
    r.(repoTags := r.repoTags + Texts(nodes, "repo"),
       contentTags := r.contentTags + Texts(nodes, "content"),
       distroTags := r.distroTags + Distros(nodes))
  }

  /** What the children of the repomd element add to a repomd object. */
  function Contents(r: RepoMd, nodes: seq<Node>, toll: Toll): RepoMd {
    TagsOf(r, Descend(nodes, "tags")).(
      revision := Last(r.revision, NonEmpty(Texts(nodes, "revision"))),
      repoid := Last(r.repoid, Texts(nodes, "repoid")),
      repoidType := Last(r.repoidType, Values(nodes, "repoid", "type")),
      records := r.records + Records(nodes, toll))
  }

  function Read(r: RepoMd, root: Node, toll: Toll): RepoMd {
    if root.Elem? && root.name == "repomd" then Contents(r, root.children, toll) else r
  }

  // ---------------------------------------------------------------- how much is warned about

  /** The warnings a node raises directly inside the known element of a state. */
  function WarningsAt(state: nat, n: Node, toll: Toll): nat
    decreases n, 0
  {
    if n.Text? || !Inner(state) then 0
    else match Child(state, n.name)
      case None => 1
      case Some(k) =>
        ChildRow(state, n.name);
        var to := ROWS[k].to;
        Count(StartWarns(to, n.attrs)) + WarningsIn(to, n.children, toll) + Count(EndWarns(to, Content(n), toll))
  }

  function WarningsIn(state: nat, nodes: seq<Node>, toll: Toll): nat
    decreases nodes, 1
  {
    if nodes == [] then 0 else WarningsAt(state, nodes[0], toll) + WarningsIn(state, nodes[1..], toll)
  }
}
