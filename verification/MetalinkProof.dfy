/** Folding the handlers over the events of any document gives exactly the declarative reading. */
module MetalinkProof {
  import opened Wrappers
  import opened Xml
  import opened SaxTable
  import opened MetalinkTable
  import opened Metalink

  // ---------------------------------------------------------------- folding

  lemma FoldConcat(p: Parser, a: seq<Event>, b: seq<Event>, env: Env)
    ensures Fold(p, a + b, env) == Fold(Fold(p, a, env), b, env)
  {
    FoldLeftConcat(Handler(env), p, a, b);
  }

  /** An error is latched: nothing changes any more. */
  lemma ErrorStays(p: Parser, events: seq<Event>, env: Env)
    requires p.err
    ensures Fold(p, events, env) == p
  {
    FoldLeftStays(Handler(env), p, events);
  }

  function AfterNode(p: Parser, n: Node, env: Env): Parser {
    Fold(p, Events(n), env)
  }

  function AfterNodes(p: Parser, nodes: seq<Node>, env: Env): Parser {
    Fold(p, EventsOf(nodes), env)
  }

  lemma ElementSteps(p: Parser, n: Node, env: Env)
    requires n.Elem?
    ensures AfterNode(p, n, env) == OnEnd(AfterNodes(OnStart(p, n.name, n.attrs, env), n.children, env), env)
    ensures !AfterNode(p, n, env).err ==>
              && !OnStart(p, n.name, n.attrs, env).err
              && !AfterNodes(OnStart(p, n.name, n.attrs, env), n.children, env).err
  {
    var p1 := OnStart(p, n.name, n.attrs, env);
    var inner := EventsOf(n.children);
    assert Events(n)[1..] == inner + [End];
    FoldConcat(p1, inner, [End], env);
    assert [End][1..] == [];
    assert Fold(AfterNodes(p1, n.children, env), [End], env) == OnEnd(AfterNodes(p1, n.children, env), env);
    if p1.err {
      ErrorStays(p1, inner, env);
    }
  }

  lemma TextStep(p: Parser, n: Node, env: Env)
    requires n.Text?
    ensures AfterNode(p, n, env) == OnChars(p, n.text)
  {
    assert Events(n)[1..] == [];
    assert Fold(OnChars(p, n.text), [], env) == OnChars(p, n.text);
  }

  lemma NodesStep(p: Parser, nodes: seq<Node>, env: Env)
    requires nodes != []
    ensures AfterNodes(p, nodes, env) == AfterNodes(AfterNode(p, nodes[0], env), nodes[1..], env)
    ensures !AfterNodes(p, nodes, env).err ==> !AfterNode(p, nodes[0], env).err
  {
    FoldConcat(p, Events(nodes[0]), EventsOf(nodes[1..]), env);
    if AfterNode(p, nodes[0], env).err {
      ErrorStays(AfterNode(p, nodes[0], env), EventsOf(nodes[1..]), env);
    }
  }

  // ---------------------------------------------------------------- text and unknown elements

  function WithText(p: Parser, s: string): Parser {
    p.(core := AddText(p.core, s))
  }

  lemma WithTextTwice(p: Parser, a: string, b: string)
    ensures WithText(WithText(p, a), b) == WithText(p, a + b)
    ensures WithText(p, "") == p
  {
    assert (p.core.content + a) + b == p.core.content + (a + b);
    assert p.core.content + "" == p.core.content;
  }

  /** Inside an unknown element everything is skipped, but its text still counts for the leaf around it. */
  lemma {:induction false} SkippedNode(p: Parser, n: Node, env: Env)
    requires !p.err && p.core.depth > p.core.statedepth
    ensures AfterNode(p, n, env) == WithText(p, AllText(n))
    decreases n, 0
  {
    if n.Text? {
      TextStep(p, n, env);
    } else {
      ElementSteps(p, n, env);
      SkippedNodes(p.(core := p.core.(depth := p.core.depth + 1)), n.children, env);
    }
  }

  lemma {:induction false} SkippedNodes(p: Parser, nodes: seq<Node>, env: Env)
    requires !p.err && p.core.depth > p.core.statedepth
    ensures AfterNodes(p, nodes, env) == WithText(p, AllTextOf(nodes))
    decreases nodes, 1
  {
    WithTextTwice(p, "", "");
    if nodes != [] {
      NodesStep(p, nodes, env);
      SkippedNode(p, nodes[0], env);
      SkippedNodes(WithText(p, AllText(nodes[0])), nodes[1..], env);
      WithTextTwice(p, AllText(nodes[0]), AllTextOf(nodes[1..]));
    }
  }

  /** Directly inside the known element of a state, with no error. */
  ghost predicate At(p: Parser, state: nat) {
    !p.err && p.core.Known() && p.core.state == state && state <= URL && (p.core.docontent <==> Leaf(state))
  }

  lemma UnknownStarts(p: Parser, name: string, attrs: Attributes, env: Env)
    requires At(p, p.core.state) && Child(p.core.state, name).None?
    ensures var q := p.(core := p.core.(depth := p.core.depth + 1));
            OnStart(p, name, attrs, env) == if Leaf(p.core.state) then q else Warn(q, env)
  {
    LookupIsChild(p.core.state, name);
    NoRowsIffLeaf(p.core.state);
    assert Enter(ROWS, p.core, name) == p.core.(depth := p.core.depth + 1);
  }

  /** An unknown element, from the state after its start event on. */
  lemma UnknownEnds(p: Parser, q: Parser, n: Node, env: Env)
    requires p.core.Known() && !q.err && q.core == p.core.(depth := p.core.depth + 1) && n.Elem?
    ensures OnEnd(AfterNodes(q, n.children, env), env) == WithText(q, AllText(n)).(core := AddText(p.core, AllText(n)))
  {
    SkippedNodes(q, n.children, env);
  }

  lemma UnknownElement(p: Parser, n: Node, env: Env)
    requires At(p, p.core.state) && n.Elem? && Child(p.core.state, n.name).None?
    ensures Leaf(p.core.state) ==> AfterNode(p, n, env) == WithText(p, AllText(n))
    ensures !Leaf(p.core.state) && !AfterNode(p, n, env).err ==>
              AfterNode(p, n, env) == p.(warnings := p.warnings + 1)
    ensures !Leaf(p.core.state) ==> AfterNode(p, n, env).err == env.warn(p.warnings)
  {
    UnknownStarts(p, n.name, n.attrs, env);
    ElementSteps(p, n, env);
    var p1 := OnStart(p, n.name, n.attrs, env);
    if !p1.err {
      UnknownEnds(p, p1, n, env);
    } else {
      ErrorStays(p1, EventsOf(n.children), env);
    }
  }

  lemma LeafNode(p: Parser, n: Node, env: Env)
    requires At(p, p.core.state) && Leaf(p.core.state)
    ensures AfterNode(p, n, env) == WithText(p, AllText(n))
  {
    if n.Text? {
      TextStep(p, n, env);
    } else {
      UnknownElement(p, n, env);
    }
  }

  /** A leaf collects the text of all its descendants. */
  lemma {:induction false} LeafNodes(p: Parser, nodes: seq<Node>, env: Env)
    requires At(p, p.core.state) && Leaf(p.core.state)
    ensures AfterNodes(p, nodes, env) == WithText(p, AllTextOf(nodes))
    decreases nodes
  {
    WithTextTwice(p, "", "");
    if nodes != [] {
      NodesStep(p, nodes, env);
      LeafNode(p, nodes[0], env);
      LeafNodes(WithText(p, AllText(nodes[0])), nodes[1..], env);
      WithTextTwice(p, AllText(nodes[0]), AllTextOf(nodes[1..]));
    }
  }

  /** The parser as it is after entering, before the handler's switch. */
  function Entered(p: Parser, k: nat): Parser
    requires k < |ROWS|
  {
    p.(core := Core(p.core.depth + 1, p.core.depth + 1, ROWS[k].to, ROWS[k].docontent, ""))
  }

  lemma KnownRow(state: nat, name: string, k: nat)
    requires Child(state, name) == Some(k)
    ensures k < |ROWS| && ROWS[k].from == state && ROWS[k].to <= URL
    ensures !Leaf(state) && (ROWS[k].docontent <==> Leaf(ROWS[k].to))
  {
    ChildRow(state, name);
    RowsInPlace();
  }

  lemma EnteredCore(c: Core, name: string, k: nat)
    requires c.Known() && Lookup(ROWS, c.state, name) == Some(k)
    ensures k < |ROWS| && Enter(ROWS, c, name) == Core(c.depth + 1, c.depth + 1, ROWS[k].to, ROWS[k].docontent, "")
  {
  }

  lemma FoundElement(p: Parser, name: string, attrs: Attributes, env: Env, q: Parser)
    requires !p.err && p.core.Known() && FirstRow(ROWS, p.core.state).Some? && Lookup(ROWS, p.core.state, name).Some?
    requires q == p.(core := Enter(ROWS, p.core, name))
    ensures OnStart(p, name, attrs, env) == if q.ignore && q.core.state != FILE then q else StartAction(q, attrs, env)
  {
  }

  /** A known element is entered with an empty text and left to where it was entered from. */
  lemma KnownElement(p: Parser, n: Node, env: Env, k: nat)
    requires At(p, p.core.state) && n.Elem? && Child(p.core.state, n.name) == Some(k)
    ensures k < |ROWS| && !Leaf(p.core.state) && ROWS[k].to <= URL && (ROWS[k].docontent <==> Leaf(ROWS[k].to))
    ensures var q := Entered(p, k);
            OnStart(p, n.name, n.attrs, env)
            == if q.ignore && q.core.state != FILE then q else StartAction(q, n.attrs, env)
  {
    KnownRow(p.core.state, n.name, k);
    ChildIsFound(p.core.state, n.name);
    EnteredCore(p.core, n.name, k);
    FoundElement(p, n.name, n.attrs, env, Entered(p, k));
  }

  lemma ChildIsFound(state: nat, name: string)
    requires Child(state, name).Some?
    ensures Lookup(ROWS, state, name) == Child(state, name) && FirstRow(ROWS, state).Some?
  {
    LookupIsChild(state, name);
  }

  /** The core after a known element that was entered through row k and is about to be left. */
  lemma LeavesTo(p: Parser, c: Core, k: nat)
    requires At(p, p.core.state) && k < |ROWS| && ROWS[k].from == p.core.state
    requires c.depth == c.statedepth == p.core.depth + 1 && c.state == ROWS[k].to
    ensures Leave(ROWS, c) == p.core.(docontent := false, content := c.content)
  {
    TableIsTree();
    LeaveRow(ROWS, c, k);
  }

  lemma ActionKeepsCore(p: Parser, attrs: Attributes, env: Env)
    requires p.core.state != FILE
    ensures StartAction(p, attrs, env).core == p.core && StartAction(p, attrs, env).ignore == p.ignore
  {
    match p.core.state
    case 7 => HashKeepsCore(p, attrs, env, OfFile);
    case 13 => HashKeepsCore(p, attrs, env, OfAlternate);
    case 15 => PreferenceKeepsCore(p, attrs, env);
    case _ =>
  }

  lemma HashKeepsCore(p: Parser, attrs: Attributes, env: Env, ref: HashRef)
    ensures StartHash(p, attrs, env, ref).core == p.core && StartHash(p, attrs, env, ref).ignore == p.ignore
  {
  }

  lemma PreferenceKeepsCore(p: Parser, attrs: Attributes, env: Env)
    ensures var q := Preference(p, env, attrs).1;
            q == p.(err := q.err, warnings := q.warnings)
  {
  }

  lemma EndOfLeaf(p: Parser, q: Parser, k: nat, text: string, env: Env)
    requires At(p, p.core.state) && k < |ROWS| && ROWS[k].from == p.core.state && !Leaf(p.core.state)
    requires !q.err && q.core == Entered(p, k).core && Leaf(ROWS[k].to) && ROWS[k].docontent && ROWS[k].to != FILE
    ensures var r := q.(core := p.core.(content := text));
            OnEnd(WithText(q, text), env) == if q.ignore then r else EndAction(r, ROWS[k].to, env)
  {
    assert "" + text == text;
    LeavesTo(p, WithText(q, text).core, k);
  }

  /** A known leaf element: its action sees the text of all its descendants. */
  lemma LeafElement(p: Parser, n: Node, env: Env, k: nat)
    requires At(p, p.core.state) && n.Elem? && Child(p.core.state, n.name) == Some(k)
    requires k < |ROWS| && Leaf(ROWS[k].to) && !AfterNode(p, n, env).err
    ensures var q := if p.ignore then Entered(p, k) else StartAction(Entered(p, k), n.attrs, env);
            && !q.err
            && var r := q.(core := p.core.(content := Content(n)));
               AfterNode(p, n, env) == if p.ignore then r else EndAction(r, ROWS[k].to, env)
  {
    KnownElement(p, n, env, k);
    ElementSteps(p, n, env);
    ActionKeepsCore(Entered(p, k), n.attrs, env);
    var p1 := OnStart(p, n.name, n.attrs, env);
    LeafNodes(p1, n.children, env);
    ChildRow(p.core.state, n.name);
    EndOfLeaf(p, p1, k, AllTextOf(n.children), env);
  }

  // ---------------------------------------------------------------- frames

  /** q differs from p at most in the collected text and the number of warnings. */
  ghost predicate Same(p: Parser, q: Parser) {
    q == p.(core := p.core.(content := q.core.content), warnings := q.warnings)
  }

  lemma TextAtInnerState(p: Parser, n: Node, env: Env)
    requires At(p, p.core.state) && !Leaf(p.core.state) && n.Text?
    ensures AfterNode(p, n, env) == p
  {
    TextStep(p, n, env);
  }

  /** A node the table does not know in this state leaves no trace but a warning. */
  lemma StrangerLeavesNoTrace(p: Parser, n: Node, env: Env)
    requires At(p, p.core.state) && !Leaf(p.core.state) && !AfterNode(p, n, env).err
    requires n.Text? || Child(p.core.state, n.name).None?
    ensures Same(p, AfterNode(p, n, env))
  {
    if n.Text? {
      TextAtInnerState(p, n, env);
    } else {
      UnknownElement(p, n, env);
    }
  }

  /** Below an ignored file nothing is recorded. */
  lemma {:induction false} IgnoredNode(p: Parser, n: Node, env: Env)
    requires At(p, p.core.state) && p.ignore && p.core.state >= FILE && !AfterNode(p, n, env).err
    ensures Same(p, AfterNode(p, n, env))
    decreases n, 0
  {
    if n.Text? {
      TextStep(p, n, env);
    } else if Child(p.core.state, n.name).None? {
      UnknownElement(p, n, env);
    } else {
      var k := Child(p.core.state, n.name).value;
      KnownElement(p, n, env, k);
      ElementSteps(p, n, env);
      ChildRow(p.core.state, n.name);
      RowsInPlace();
      var p1 := Entered(p, k);
      IgnoredNodes(p1, n.children, env);
      LeavesTo(p, AfterNodes(p1, n.children, env).core, k);
    }
  }

  lemma {:induction false} IgnoredNodes(p: Parser, nodes: seq<Node>, env: Env)
    requires At(p, p.core.state) && p.ignore && p.core.state >= FILE && !AfterNodes(p, nodes, env).err
    ensures Same(p, AfterNodes(p, nodes, env))
    decreases nodes, 1
  {
    if nodes != [] {
      NodesStep(p, nodes, env);
      IgnoredNode(p, nodes[0], env);
      IgnoredNodes(AfterNode(p, nodes[0], env), nodes[1..], env);
    }
  }
}
