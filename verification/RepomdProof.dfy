/** Folding the handlers over any document gives its declarative reading, and the warnings it raises are
    those counted on the tree; a warning callback that asks to stop ends the parse at one of them. */
module RepomdProof {
  import opened Wrappers
  import opened Xml
  import opened WarningCallback
  import opened SaxTable
  import opened RepomdTable
  import opened Repomd

  // ---------------------------------------------------------------- folding

  lemma FoldConcat(p: Parser, a: seq<Event>, b: seq<Event>, env: Env)
    ensures Fold(p, a + b, env) == Fold(Fold(p, a, env), b, env)
  {
    FoldLeftConcat(Handler(env), p, a, b);
  }

  lemma ErrorStays(p: Parser, events: seq<Event>, env: Env)
    requires p.err
    ensures Fold(p, events, env) == p
  {
    FoldLeftStays(Handler(env), p, events);
  }

  function AfterNode(p: Parser, n: Node, env: Env): Parser {
    Fold(p, Events(n), env)
  }

  function AfterNodes(p: Parser, nodes: seq<Node>, env: Env): Parser {
    Fold(p, EventsOf(nodes), env)
  }

  lemma ElementSteps(p: Parser, n: Node, env: Env)
    requires n.Elem?
    ensures AfterNode(p, n, env) == OnEnd(AfterNodes(OnStart(p, n.name, n.attrs, env), n.children, env), env)
  {
    var p1 := OnStart(p, n.name, n.attrs, env);
    var inner := EventsOf(n.children);
    assert Events(n)[1..] == inner + [End];
    FoldConcat(p1, inner, [End], env);
    assert [End][1..] == [];
    assert Fold(AfterNodes(p1, n.children, env), [End], env) == OnEnd(AfterNodes(p1, n.children, env), env);
  }

  lemma TextStep(p: Parser, n: Node, env: Env)
    requires n.Text?
    ensures AfterNode(p, n, env) == OnChars(p, n.text)
  {
    assert Events(n)[1..] == [];
    assert Fold(OnChars(p, n.text), [], env) == OnChars(p, n.text);
  }

  lemma NodesStep(p: Parser, nodes: seq<Node>, env: Env)
    requires nodes != []
    ensures AfterNodes(p, nodes, env) == AfterNodes(AfterNode(p, nodes[0], env), nodes[1..], env)
  {
    FoldConcat(p, Events(nodes[0]), EventsOf(nodes[1..]), env);
  }

  // ---------------------------------------------------------------- the warning callback

  /** The same conversions, with a callback that never asks to stop. */
  function Calm(env: Env): Env {
    env.(warn := Silent())
  }

  lemma WarnStops(p: Parser, env: Env, condition: bool)
    requires !p.err
    ensures var c := WarnIf(p, Calm(env), condition);
            && c.warnings == p.warnings + Count(condition) && !c.err
            && WarnIf(p, env, condition) == c.(err := condition && env.warn(p.warnings))
  {
  }

  lemma StartKeepsCore(p: Parser, attrs: Attributes)
    ensures StartData(p, attrs).core == p.core && StartData(p, attrs).err == p.err
    ensures StartData(p, attrs).warnings == p.warnings
  {
  }

  lemma EndKeepsCore(p: Parser, state: nat, env: Env)
    ensures EndData(p, state, env.toll).core == p.core && EndData(p, state, env.toll).err == p.err
    ensures EndData(p, state, env.toll).warnings == p.warnings
    ensures EndData(p, state, Calm(env).toll) == EndData(p, state, env.toll)
  {
  }

  /** One event under the callback and under one that never stops: at most one warning, and a stop only
      there. */
  ghost predicate OneEvent(p: Parser, c: Parser, e: Parser, env: Env) {
    && p.warnings <= c.warnings <= p.warnings + 1 && !c.err
    && e == c.(err := c.warnings > p.warnings && env.warn(p.warnings))
  }

  lemma StartStops(p: Parser, name: string, attrs: Attributes, env: Env)
    requires !p.err
    ensures OneEvent(p, OnStart(p, name, attrs, Calm(env)), OnStart(p, name, attrs, env), env)
  {
    var q := p.(core := Enter(ROWS, p.core, name));
    StartKeepsCore(q, attrs);
    WarnStops(q, env, true);
    WarnStops(StartData(q, attrs), env, StartWarns(q.core.state, attrs));
  }

  lemma EndStops(p: Parser, env: Env)
    requires !p.err
    ensures OneEvent(p, OnEnd(p, Calm(env)), OnEnd(p, env), env)
  {
    var q := p.(core := Leave(ROWS, p.core));
    EndKeepsCore(q, p.core.state, env);
    WarnStops(EndData(q, p.core.state, env.toll), env, EndWarns(p.core.state, q.core.content, env.toll));
  }

  lemma EventStops(p: Parser, e: Event, env: Env)
    requires !p.err
    ensures OneEvent(p, OnEvent(p, e, Calm(env)), OnEvent(p, e, env), env)
  {
    match e
    case Start(name, attrs) => StartStops(p, name, attrs, env);
    case Chars(s) =>
    case End => EndStops(p, env);
  }

  /** c and e are the results of the same events without and with the callback. */
  ghost predicate StopsAtWarning(p: Parser, c: Parser, e: Parser, env: Env) {
    && p.warnings <= c.warnings && !c.err
    && (e.err <==> Stopped(env.warn, p.warnings, c.warnings))
    && (!e.err ==> e == c)
  }

  lemma FirstEvent(p: Parser, events: seq<Event>, env: Env) returns (c: Parser, e: Parser)
    requires !p.err && events != []
    ensures OneEvent(p, c, e, env)
    ensures Fold(p, events, Calm(env)) == Fold(c, events[1..], Calm(env))
    ensures Fold(p, events, env) == Fold(e, events[1..], env)
  {
    EventStops(p, events[0], env);
    c, e := OnEvent(p, events[0], Calm(env)), OnEvent(p, events[0], env);
  }

  lemma FirstStop(p: Parser, c: Parser, e: Parser, rest: seq<Event>, env: Env)
    requires !p.err && OneEvent(p, c, e, env)
    requires StopsAtWarning(c, Fold(c, rest, Calm(env)), Fold(c, rest, env), env)
    ensures StopsAtWarning(p, Fold(c, rest, Calm(env)), Fold(e, rest, env), env)
  {
    StoppedSplit(env.warn, p.warnings, c.warnings, Fold(c, rest, Calm(env)).warnings);
    if e.err {
      ErrorStays(e, rest, env);
    }
  }

  /** A parse stops with an error exactly when the callback stops it at one of the warnings that the
      whole parse raises; otherwise the callback makes no difference. */
  lemma {:induction false} StopsExactlyAtWarnings(p: Parser, events: seq<Event>, env: Env)
    requires !p.err
    ensures StopsAtWarning(p, Fold(p, events, Calm(env)), Fold(p, events, env), env)
    decreases |events|
  {
    if events != [] {
      var c, e := FirstEvent(p, events, env);
      StopsExactlyAtWarnings(c, events[1..], env);
      FirstStop(p, c, e, events[1..], env);
    }
  }

  // ---------------------------------------------------------------- text and unknown elements

  function WithText(p: Parser, s: string): Parser {
    p.(core := AddText(p.core, s))
  }

  lemma WithTextTwice(p: Parser, a: string, b: string)
    ensures WithText(WithText(p, a), b) == WithText(p, a + b)
    ensures WithText(p, "") == p
  {
    assert (p.core.content + a) + b == p.core.content + (a + b);
    assert p.core.content + "" == p.core.content;
  }

  lemma {:induction false} SkippedNode(p: Parser, n: Node, env: Env)
    requires !p.err && p.core.depth > p.core.statedepth
    ensures AfterNode(p, n, env) == WithText(p, AllText(n))
    decreases n, 0
  {
    if n.Text? {
      TextStep(p, n, env);
    } else {
      ElementSteps(p, n, env);
      SkippedNodes(p.(core := p.core.(depth := p.core.depth + 1)), n.children, env);
    }
  }

  lemma {:induction false} SkippedNodes(p: Parser, nodes: seq<Node>, env: Env)
    requires !p.err && p.core.depth > p.core.statedepth
    ensures AfterNodes(p, nodes, env) == WithText(p, AllTextOf(nodes))
    decreases nodes, 1
  {
    WithTextTwice(p, "", "");
    if nodes != [] {
      NodesStep(p, nodes, env);
      SkippedNode(p, nodes[0], env);
      SkippedNodes(WithText(p, AllText(nodes[0])), nodes[1..], env);
      WithTextTwice(p, AllText(nodes[0]), AllTextOf(nodes[1..]));
    }
  }

  /** Directly inside the known element of a state, under a callback that never stops. */
  ghost predicate At(p: Parser, state: nat, env: Env) {
    && NeverStops(env.warn) && !p.err && p.core.Known() && p.core.state == state && state <= DBVERSION
    && (p.core.docontent <==> Collects(state))
  }

  lemma StrangerStarts(p: Parser, n: Node, env: Env)
    requires At(p, p.core.state, env) && n.Elem? && Child(p.core.state, n.name).None?
    ensures OnStart(p, n.name, n.attrs, env)
            == p.(core := p.core.(depth := p.core.depth + 1), warnings := p.warnings + Count(Inner(p.core.state)))
  {
    LookupIsChild(p.core.state, n.name);
    NoRowsIffLeaf(p.core.state);
    assert Enter(ROWS, p.core, n.name) == p.core.(depth := p.core.depth + 1);
  }

  /** A node the table does not know in this state adds its text, and at an inner state a warning. */
  lemma Stranger(p: Parser, n: Node, env: Env)
    requires At(p, p.core.state, env) && (n.Elem? ==> Child(p.core.state, n.name).None?)
    ensures AfterNode(p, n, env)
            == WithText(p, AllText(n)).(warnings := p.warnings + WarningsAt(p.core.state, n, env.toll))
  {
    if n.Text? {
      TextStep(p, n, env);
    } else {
      StrangerStarts(p, n, env);
      ElementSteps(p, n, env);
      var q := p.(core := p.core.(depth := p.core.depth + 1), warnings := p.warnings + Count(Inner(p.core.state)));
      SkippedNodes(q, n.children, env);
      assert OnEnd(WithText(q, AllText(n)), env) == WithText(q, AllText(n)).(core := AddText(p.core, AllText(n)));
    }
  }

  lemma LeafNode(p: Parser, n: Node, env: Env)
    requires At(p, p.core.state, env) && !Inner(p.core.state)
    ensures AfterNode(p, n, env) == WithText(p, AllText(n)) && WarningsAt(p.core.state, n, env.toll) == 0
  {
    Stranger(p, n, env);
  }

  lemma {:induction false} LeafNodes(p: Parser, nodes: seq<Node>, env: Env)
    requires At(p, p.core.state, env) && !Inner(p.core.state)
    ensures AfterNodes(p, nodes, env) == WithText(p, AllTextOf(nodes))
    ensures WarningsIn(p.core.state, nodes, env.toll) == 0
    decreases nodes
  {
    WithTextTwice(p, "", "");
    if nodes != [] {
      NodesStep(p, nodes, env);
      LeafNode(p, nodes[0], env);
      LeafNodes(WithText(p, AllText(nodes[0])), nodes[1..], env);
      WithTextTwice(p, AllText(nodes[0]), AllTextOf(nodes[1..]));
    }
  }

  // ---------------------------------------------------------------- known elements

  /** The core right after a known element was entered. */
  function EnteredCore(c: Core, k: nat): Core
    requires k < |ROWS|
  {
    Core(c.depth + 1, c.depth + 1, ROWS[k].to, ROWS[k].docontent, "")
  }

  /** The parser right after the start handler. */
  function Entered(p: Parser, k: nat, attrs: Attributes): Parser
    requires k < |ROWS|
  {
    var q := StartData(p.(core := EnteredCore(p.core, k)), attrs);
    q.(warnings := q.warnings + Count(StartWarns(ROWS[k].to, attrs)))
  }

  lemma KnownRow(state: nat, name: string, k: nat)
    requires Child(state, name) == Some(k)
    ensures k < |ROWS| && ROWS[k].from == state && ROWS[k].to <= DBVERSION && Inner(state)
    ensures ROWS[k].docontent <==> Collects(ROWS[k].to)
  {
    ChildRow(state, name);
    RowsInPlace();
  }

  lemma FoundElement(p: Parser, name: string, attrs: Attributes, env: Env, k: nat)
    requires NeverStops(env.warn) && !p.err && p.core.Known() && FirstRow(ROWS, p.core.state).Some?
    requires Lookup(ROWS, p.core.state, name) == Some(k)
    ensures k < |ROWS| && OnStart(p, name, attrs, env) == Entered(p, k, attrs)
  {
    assert Enter(ROWS, p.core, name) == EnteredCore(p.core, k);
  }

  lemma KnownElement(p: Parser, n: Node, env: Env, k: nat)
    requires At(p, p.core.state, env) && n.Elem? && Child(p.core.state, n.name) == Some(k)
    ensures k < |ROWS| && ROWS[k].from == p.core.state && Inner(p.core.state)
    ensures OnStart(p, n.name, n.attrs, env) == Entered(p, k, n.attrs)
    ensures At(Entered(p, k, n.attrs), ROWS[k].to, env)
    ensures Entered(p, k, n.attrs).core == EnteredCore(p.core, k)
  {
    KnownRow(p.core.state, n.name, k);
    LookupIsChild(p.core.state, n.name);
    NoRowsIffLeaf(p.core.state);
    FoundElement(p, n.name, n.attrs, env, k);
    StartKeepsCore(p.(core := EnteredCore(p.core, k)), n.attrs);
  }

  /** The parser after an element whose contents left it at q, directly inside the element. */
  function Left(p: Parser, q: Parser, toll: Toll): Parser {
    var r := q.(core := p.core.(docontent := false, content := q.core.content));
    EndData(r, q.core.state, toll).(warnings := q.warnings + Count(EndWarns(q.core.state, q.core.content, toll)))
  }

  lemma CoreLeavesTo(c: Core, inside: Core, k: nat)
    requires c.Known() && k < |ROWS| && ROWS[k].from == c.state
    requires inside == EnteredCore(c, k).(content := inside.content)
    ensures Leave(ROWS, inside) == c.(docontent := false, content := inside.content)
  {
    TableIsTree();
    LeaveRow(ROWS, inside, k);
  }

  lemma LeavesTo(p: Parser, q: Parser, k: nat, env: Env)
    requires At(p, p.core.state, env) && k < |ROWS| && ROWS[k].from == p.core.state
    requires !q.err && q.core == EnteredCore(p.core, k).(content := q.core.content)
    ensures OnEnd(q, env) == Left(p, q, env.toll)
  {
    CoreLeavesTo(p.core, q.core, k);
  }

  /** A known leaf: its end action sees the text of all its descendants. */
  lemma LeafElement(p: Parser, n: Node, env: Env, k: nat)
    requires At(p, p.core.state, env) && n.Elem? && Child(p.core.state, n.name) == Some(k)
    requires k < |ROWS| && !Inner(ROWS[k].to)
    ensures AfterNode(p, n, env) == Left(p, WithText(Entered(p, k, n.attrs), Content(n)), env.toll)
    ensures WarningsAt(p.core.state, n, env.toll)
            == Count(StartWarns(ROWS[k].to, n.attrs)) + Count(EndWarns(ROWS[k].to, Content(n), env.toll))
  {
    KnownElement(p, n, env, k);
    ElementSteps(p, n, env);
    var q := Entered(p, k, n.attrs);
    LeafNodes(q, n.children, env);
    LeavesTo(p, WithText(q, Content(n)), k, env);
  }

  /** The text a leaf leaves in the buffer. */
  function LeafText(state: nat, n: Node): string {
    if Collects(state) then Content(n) else ""
  }

  /** q differs from p in the collected text only, once its warnings and what it has read are set. */
  ghost predicate Reads(p: Parser, q: Parser, r: RepoMd, warnings: nat) {
    q == p.(core := p.core.(content := q.core.content), r := r, warnings := p.warnings + warnings)
  }
}
