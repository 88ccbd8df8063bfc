/** The SAX handlers of librepo/metalink.c as functions on the parser data, and the declarative reading
    of a metalink document they are compared with. */
module Metalink {
  import opened Wrappers
  import opened Xml
  import opened WarningCallback
  import opened SaxTable
  import opened MetalinkTable

  datatype Hash = Hash(htype: string, value: Option<string>)

  datatype Url = Url(
    protocol: Option<string>, utype: Option<string>, location: Option<string>,
    preference: int, url: Option<string>)

  datatype Alternate = Alternate(timestamp: int, size: int, hashes: seq<Hash>)

  datatype Metalink = Metalink(
    filename: Option<string>, timestamp: int, size: int,
    hashes: seq<Hash>, alternates: seq<Alternate>, urls: seq<Url>)

  /** The name looked for, the conversion of strtoll (value, and whether it warns), and whether the n-th
      call of the warning callback asks to stop; without a callback it never does. */
  datatype Env = Env(filename: string, toll: Toll, warn: nat -> bool)

  /** Which list the hash in progress was appended to. */
  datatype HashRef = NoHash | OfFile | OfAlternate

  /** LrParserData. A hash, alternate or url in progress is always the last one of its list, so the
      pointers to them become flags. */
  datatype Parser = Parser(
    core: Core, ignore: bool, found: bool, err: bool, warnings: nat,
    m: Metalink, hash: HashRef, alternate: bool, url: bool)

  /** The handlers add to a metalink object the caller provides. */
  function Fresh(m: Metalink): Parser {
    Parser(INITIAL, true, false, false, 0, m, NoHash, false, false)
  }

  function Warn(p: Parser, env: Env): Parser {
    p.(warnings := p.warnings + 1, err := p.err || env.warn(p.warnings))
  }

  function WarnIf(p: Parser, env: Env, condition: bool): Parser {
    if condition then Warn(p, env) else p
  }

  /** lr_xml_parser_strtoll: the value and the parser after a possible warning. */
  function Number(p: Parser, env: Env, text: string): (int, Parser) {
    (env.toll(text).0, WarnIf(p, env, env.toll(text).1))
  }

  function AddHash(m: Metalink, ref: HashRef, h: Hash): Metalink {
    match ref
    case NoHash => m
    case OfFile => m.(hashes := m.hashes + [h])
    case OfAlternate =>
      var n := |m.alternates|;
      if n == 0 then m
      else m.(alternates := m.alternates[n - 1 := m.alternates[n - 1].(hashes := m.alternates[n - 1].hashes + [h])])
  }

  function SetValue(hashes: seq<Hash>, value: string): seq<Hash> {
    var n := |hashes|;
    if n == 0 then hashes else hashes[n - 1 := hashes[n - 1].(value := Some(value))]
  }

  function SetHash(m: Metalink, ref: HashRef, value: string): Metalink {
    match ref
    case NoHash => m
    case OfFile => m.(hashes := SetValue(m.hashes, value))
    case OfAlternate =>
      var n := |m.alternates|;
      if n == 0 then m
      else m.(alternates := m.alternates[n - 1 := m.alternates[n - 1].(hashes := SetValue(m.alternates[n - 1].hashes, value))])
  }

  function SetAlternate(m: Metalink, a: Alternate -> Alternate): Metalink {
    var n := |m.alternates|;
    if n == 0 then m else m.(alternates := m.alternates[n - 1 := a(m.alternates[n - 1])])
  }

  function SetUrl(m: Metalink, value: string): Metalink {
    var n := |m.urls|;
    if n == 0 then m else m.(urls := m.urls[n - 1 := m.urls[n - 1].(url := Some(value))])
  }

  function Preference(p: Parser, env: Env, attrs: Attributes): (int, Parser) {
    match Attr(attrs, "preference")
    case None => (0, p)
    case Some(text) =>
      var (value, q) := Number(p, env, text);
      if value < 0 || value > 100 then (0, Warn(q, env)) else (value, q)
  }

  /** The switch of the start handler. */
  function StartAction(p: Parser, attrs: Attributes, env: Env): Parser {
    match p.core.state
    case 3 => // FILE
      (match Attr(attrs, "name")
       case None => p.(err := true)
       case Some(name) =>
         if p.found || name != env.filename then p.(ignore := true)
         else p.(ignore := false, found := true, m := p.m.(filename := Some(name))))
    case 9 => // ALTERNATE
      p.(m := p.m.(alternates := p.m.alternates + [Alternate(0, 0, [])]), alternate := true)
    case 7 => StartHash(p, attrs, env, OfFile)
    case 13 => StartHash(p, attrs, env, OfAlternate)
    case 15 => // URL
      var (preference, q) := Preference(p, env, attrs);
      var url := Url(Attr(attrs, "protocol"), Attr(attrs, "type"), Attr(attrs, "location"), preference, None);
      q.(m := p.m.(urls := p.m.urls + [url]), url := true)
    case _ => p
  }

  function StartHash(p: Parser, attrs: Attributes, env: Env, ref: HashRef): Parser {
    match Attr(attrs, "type")
    case None => Warn(p, env)
    case Some(t) => p.(m := AddHash(p.m, ref, Hash(t, None)), hash := ref)
  }

  function OnStart(p: Parser, name: string, attrs: Attributes, env: Env): Parser {
    if p.err then p
    else
      var q := p.(core := Enter(ROWS, p.core, name));
      if !p.core.Known() || FirstRow(ROWS, p.core.state).None? then q
      else if Lookup(ROWS, p.core.state, name).None? then Warn(q, env)
      else if q.ignore && q.core.state != FILE then q
      else StartAction(q, attrs, env)
  }

  /** The switch of the end handler, for the state just left. */
  function EndAction(p: Parser, state: nat, env: Env): Parser {
    match state
    case 4 => var (n, q) := Number(p, env, p.core.content); q.(m := p.m.(timestamp := n))
    case 5 => var (n, q) := Number(p, env, p.core.content); q.(m := p.m.(size := n))
    case 10 =>
      var (n, q) := Number(p, env, p.core.content);
      q.(m := SetAlternate(p.m, (a: Alternate) => a.(timestamp := n)))
    case 11 =>
      var (n, q) := Number(p, env, p.core.content);
      q.(m := SetAlternate(p.m, (a: Alternate) => a.(size := n)))
    case 7 => EndHash(p)
    case 13 => EndHash(p)
    case 9 => p.(alternate := false)
    case 15 => p.(m := SetUrl(p.m, p.core.content), url := false)
    case _ => p
  }

  function EndHash(p: Parser): Parser {
    if p.hash == NoHash then p else p.(m := SetHash(p.m, p.hash, p.core.content), hash := NoHash)
  }

  function OnEnd(p: Parser, env: Env): Parser {
    if p.err then p
    else
      var q := p.(core := Leave(ROWS, p.core));
      if !p.core.Known() || (q.ignore && p.core.state != FILE) then q
      else EndAction(q, p.core.state, env)
  }

  function OnChars(p: Parser, s: string): Parser {
    if p.err then p else p.(core := AddText(p.core, s))
  }

  function OnEvent(p: Parser, e: Event, env: Env): Parser {
    match e
    case Start(name, attrs) => OnStart(p, name, attrs, env)
    case Chars(s) => OnChars(p, s)
    case End => OnEnd(p, env)
  }

  function Handler(env: Env): (Parser, Event) -> Parser {
    (p: Parser, e: Event) => OnEvent(p, e, env)
  }

  function Fold(p: Parser, events: seq<Event>, env: Env): Parser {
    FoldLeft(Handler(env), p, events)
  }

  // ---------------------------------------------------------------- the declarative reading

  /** The number in the last element with this name. */
  function LastNumber(start: int, nodes: seq<Node>, name: string, env: Env): int {
    var found := Select(nodes, name);
    if found == [] then start else env.toll(Content(found[|found| - 1])).0
  }

  /** Hashes without a type are skipped. */
  function Hashes(nodes: seq<Node>): seq<Hash> {
    if nodes == [] then []
    else
      var n := nodes[0];
      (if n.Elem? && n.name == "hash" && Attr(n.attrs, "type").Some?
       then [Hash(Attr(n.attrs, "type").value, Some(Content(n)))] else [])
      + Hashes(nodes[1..])
  }

  function Alternates(nodes: seq<Node>, env: Env): seq<Alternate> {
    if nodes == [] then []
    else
      var n := nodes[0];
      (if n.Elem? && n.name == "mm0:alternate"
       then [AlternateOf(Alternate(0, 0, []), n.children, env)] else [])
      + Alternates(nodes[1..], env)
  }

  /** What the children of an alternate element add to it. */
  function AlternateOf(a: Alternate, nodes: seq<Node>, env: Env): Alternate {
    Alternate(LastNumber(a.timestamp, nodes, "mm0:timestamp", env),
              LastNumber(a.size, nodes, "size", env),
              a.hashes + Hashes(Descend(nodes, "verification")))
  }

  function PreferenceOf(attrs: Attributes, env: Env): int {
    match Attr(attrs, "preference")
    case None => 0
    case Some(text) => if 0 <= env.toll(text).0 <= 100 then env.toll(text).0 else 0
  }

  function Urls(nodes: seq<Node>, env: Env): seq<Url> {
    if nodes == [] then []
    else
      var n := nodes[0];
      (if n.Elem? && n.name == "url"
       then [Url(Attr(n.attrs, "protocol"), Attr(n.attrs, "type"), Attr(n.attrs, "location"),
                 PreferenceOf(n.attrs, env), Some(Content(n)))] else [])
      + Urls(nodes[1..], env)
  }

  /** What the children of a file element add to a metalink. */
  function FileOf(m: Metalink, nodes: seq<Node>, env: Env): Metalink {
    Metalink(m.filename,
             LastNumber(m.timestamp, nodes, "mm0:timestamp", env),
             LastNumber(m.size, nodes, "size", env),
             m.hashes + Hashes(Descend(nodes, "verification")),
             m.alternates + Alternates(Descend(nodes, "mm0:alternates"), env),
             m.urls + Urls(Descend(nodes, "resources"), env))
  }

  predicate IsWanted(n: Node, filename: string) {
    n.Elem? && n.name == "file" && Attr(n.attrs, "name") == Some(filename)
  }

  /** The first file element that has the wanted name. */
  function Wanted(files: seq<Node>, filename: string): Option<Node> {
    if files == [] then None
    else if IsWanted(files[0], filename) then Some(files[0])
    else Wanted(files[1..], filename)
  }

  /** A file element is wanted exactly when the first of its attributes called "name" has the wanted value. */
  lemma WantedExactlyWhen(n: Node, filename: string)
    ensures IsWanted(n, filename)
            <==> n.Elem? && n.name == "file" && exists k: nat :: FirstAt(n.attrs, "name", filename, k)
  {
    if n.Elem? {
      AttrIsFirst(n.attrs, "name");
    }
  }

  /** The wanted file is the first of its kind, whatever comes after it. */
  lemma {:induction false} WantedIsFirst(files: seq<Node>, filename: string)
    ensures Wanted(files, filename).None? <==> forall k :: 0 <= k < |files| ==> !IsWanted(files[k], filename)
    ensures forall k :: 0 <= k < |files| && IsWanted(files[k], filename)
                        && (forall j :: 0 <= j < k ==> !IsWanted(files[j], filename))
                        ==> Wanted(files, filename) == Some(files[k])
  {
    if files != [] && !IsWanted(files[0], filename) {
      WantedIsFirst(files[1..], filename);
      assert forall k :: 1 <= k < |files| ==> files[k] == files[1..][k - 1];
    }
  }

  /** All children of metalink/files elements of the document. */
  function FilesOf(root: Node): seq<Node> {
    Descend(Descend([root], "metalink"), "files")
  }

  /** What a document adds to a metalink for the wanted file name, if it has that file. */
  function Extract(m: Metalink, root: Node, env: Env): Option<Metalink> {
    match Wanted(FilesOf(root), env.filename)
    case None => None
    case Some(file) => Some(Contents(m, file, env))
  }

  function Contents(m: Metalink, file: Node, env: Env): Metalink {
    FileOf(m.(filename := Some(env.filename)), if file.Elem? then file.children else [], env)
  }

  // ---------------------------------------------------------------- how much is warned about

  /** A hash without type, and a preference that is not a number or out of range. */
  function StartWarnings(state: nat, attrs: Attributes, toll: Toll): nat {
    if state == HASH || state == ALTERNATE_HASH then Count(Attr(attrs, "type").None?)
    else if state == URL && Attr(attrs, "preference").Some? then
      var (value, bad) := toll(Attr(attrs, "preference").value);
      Count(bad) + Count(value < 0 || value > 100)
    else 0
  }

  predicate IsNumber(state: nat) {
    state in {TIMESTAMP, SIZE, ALTERNATE_TIMESTAMP, ALTERNATE_SIZE}
  }

  /** A text that is not a number. */
  function EndWarnings(state: nat, text: string, toll: Toll): nat {
    if IsNumber(state) then Count(toll(text).1) else 0
  }

  /** The warnings a node raises directly inside a known element, at a file element or below, or where
      it is unknown. Below a file that is not wanted only unknown elements are warned about. */
  function WarningsAt(state: nat, n: Node, ignored: bool, toll: Toll): nat
    decreases n, 0
  {
    if n.Text? || Leaf(state) then 0
    else match Child(state, n.name)
      case None => 1
      case Some(k) =>
        ChildRow(state, n.name);
        var to := ROWS[k].to;
        (if ignored then 0 else StartWarnings(to, n.attrs, toll) + EndWarnings(to, Content(n), toll))
        + WarningsIn(to, n.children, ignored, toll)
  }

  function WarningsIn(state: nat, nodes: seq<Node>, ignored: bool, toll: Toll): nat
    decreases nodes, 1
  {
    if nodes == [] then 0 else WarningsAt(state, nodes[0], ignored, toll) + WarningsIn(state, nodes[1..], ignored, toll)
  }

  /** Among the children of files elements, when the wanted file was found before or not. */
  function FilesWarnings(nodes: seq<Node>, found: bool, filename: string, toll: Toll): nat {
    if nodes == [] then 0
    else
      var n := nodes[0];
      (if n.Elem? && n.name == "file" then WarningsIn(FILE, n.children, found || !IsWanted(n, filename), toll)
       else WarningsAt(FILES, n, true, toll))
      + FilesWarnings(nodes[1..], found || IsWanted(n, filename), filename, toll)
  }

  function MetalinkWarnings(nodes: seq<Node>, found: bool, filename: string, toll: Toll): nat {
    if nodes == [] then 0
    else
      var n := nodes[0];
      if n.Elem? && n.name == "files" then
        FilesWarnings(n.children, found, filename, toll)
        + MetalinkWarnings(nodes[1..], found || Wanted(n.children, filename).Some?, filename, toll)
      else WarningsAt(METALINK, n, true, toll) + MetalinkWarnings(nodes[1..], found, filename, toll)
  }

  /** All warnings of a document whose files are named. */
  function DocumentWarnings(root: Node, filename: string, toll: Toll): nat {
    if root.Elem? && root.name == "metalink" then MetalinkWarnings(root.children, false, filename, toll)
    else WarningsAt(START, root, true, toll)
  }
}
