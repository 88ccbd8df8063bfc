/** When metalink parsing fails: exactly when some file element has no name, or the warning callback stops
    the parse at one of its warnings. */
module MetalinkErrors {
  import opened Wrappers
  import opened Xml
  import opened WarningCallback
  import opened SaxTable
  import opened MetalinkTable
  import opened Metalink
  import opened MetalinkProof
  import opened MetalinkExtraction

  /** q has no error, is back at the element p is at, and has raised so many warnings. */
  ghost predicate Back(p: Parser, q: Parser, warnings: nat) {
    !q.err && q.core == p.core.(content := q.core.content) && q.warnings == p.warnings + warnings
  }

  /** Besides, which file is being read has not changed. */
  ghost predicate Within(p: Parser, q: Parser, warnings: nat) {
    Back(p, q, warnings) && q.ignore == p.ignore && q.found == p.found
  }

  lemma NumberIsCalm(p: Parser, text: string, env: Env)
    requires NeverStops(env.warn) && !p.err
    ensures Number(p, env, text) == (env.toll(text).0, p.(warnings := p.warnings + Count(env.toll(text).1)))
  {
  }

  lemma PreferenceIsCalm(p: Parser, attrs: Attributes, env: Env)
    requires NeverStops(env.warn) && !p.err
    ensures Preference(p, env, attrs).1 == p.(warnings := p.warnings + StartWarnings(URL, attrs, env.toll))
  {
    match Attr(attrs, "preference")
    case None =>
    case Some(text) => NumberIsCalm(p, text, env);
  }

  lemma StartIsCalm(p: Parser, attrs: Attributes, env: Env)
    requires NeverStops(env.warn) && !p.err && p.core.state != FILE
    ensures var q := StartAction(p, attrs, env);
            && q.core == p.core && Within(p, q, StartWarnings(p.core.state, attrs, env.toll))
  {
    match p.core.state
    case 7 =>
    case 13 =>
    case 15 => PreferenceIsCalm(p, attrs, env);
    case _ => assert StartAction(p, attrs, env) == p || p.core.state == ALTERNATE;
  }

  lemma FileIsCalm(p: Parser, attrs: Attributes, env: Env)
    requires !p.err && p.core.state == FILE && Attr(attrs, "name").Some?
    ensures var q := StartAction(p, attrs, env);
            && q.core == p.core && Back(p, q, 0)
            && var wanted := Attr(attrs, "name") == Some(env.filename);
               q.ignore == (p.found || !wanted) && q.found == (p.found || wanted)
  {
  }

  lemma EndIsCalm(p: Parser, state: nat, env: Env)
    requires NeverStops(env.warn) && !p.err
    ensures var q := EndAction(p, state, env);
            q.core == p.core && Within(p, q, EndWarnings(state, p.core.content, env.toll))
  {
    if IsNumber(state) {
      NumberIsCalm(p, p.core.content, env);
    }
  }

  /** The end event of an element whose contents led to q, directly inside it. */
  lemma EndOf(p: Parser, q: Parser, k: nat, env: Env)
    requires At(p, p.core.state) && k < |ROWS| && ROWS[k].from == p.core.state && !Leaf(p.core.state)
    requires !q.err && q.core == Entered(p, k).core.(content := q.core.content)
    ensures var r := q.(core := p.core.(content := q.core.content));
            OnEnd(q, env) == if q.ignore && ROWS[k].to != FILE then r else EndAction(r, ROWS[k].to, env)
  {
    LeavesTo(p, q.core, k);
  }

  /** An element that is not a leaf: p1 is the parser after its start event, q after its children. */
  lemma CloseElement(p: Parser, p1: Parser, q: Parser, k: nat, warnings: nat, env: Env)
    requires NeverStops(env.warn) && At(p, p.core.state) && !Leaf(p.core.state)
    requires k < |ROWS| && ROWS[k].from == p.core.state && !IsNumber(ROWS[k].to)
    requires p1.core == Entered(p, k).core && p1.warnings >= p.warnings && Within(p1, q, warnings)
    ensures var r := OnEnd(q, env);
            r.ignore == p1.ignore && r.found == p1.found && Back(p, r, p1.warnings - p.warnings + warnings)
  {
    EndOf(p, q, k, env);
    EndIsCalm(q.(core := p.core.(content := q.core.content)), ROWS[k].to, env);
  }

  /** The start event of a leaf. */
  lemma LeafStarts(p: Parser, n: Node, env: Env, k: nat)
    requires NeverStops(env.warn) && At(p, p.core.state) && n.Elem? && Child(p.core.state, n.name) == Some(k)
    requires k < |ROWS| && Leaf(ROWS[k].to)
    ensures var q := OnStart(p, n.name, n.attrs, env);
            && At(q, ROWS[k].to) && ROWS[k].docontent && ROWS[k].from == p.core.state && !Leaf(p.core.state)
            && q.core == Entered(p, k).core && q.ignore == p.ignore && q.found == p.found
            && q.warnings == p.warnings + (if p.ignore then 0 else StartWarnings(ROWS[k].to, n.attrs, env.toll))
  {
    KnownElement(p, n, env, k);
    ChildRow(p.core.state, n.name);
    StartIsCalm(Entered(p, k), n.attrs, env);
  }

  /** Its end event, after a text. */
  lemma LeafEnds(p: Parser, q: Parser, k: nat, text: string, env: Env)
    requires NeverStops(env.warn) && At(p, p.core.state) && k < |ROWS| && ROWS[k].from == p.core.state
    requires !Leaf(p.core.state) && Leaf(ROWS[k].to) && ROWS[k].docontent && !q.err && q.core == Entered(p, k).core
    ensures var r := OnEnd(WithText(q, text), env);
            && !r.err && r.core == p.core.(content := text) && r.ignore == q.ignore && r.found == q.found
            && r.warnings == q.warnings + (if q.ignore then 0 else EndWarnings(ROWS[k].to, text, env.toll))
  {
    EndOfLeaf(p, q, k, text, env);
    EndIsCalm(q.(core := p.core.(content := text)), ROWS[k].to, env);
  }

  lemma CalmLeaf(p: Parser, n: Node, env: Env, k: nat)
    requires NeverStops(env.warn) && At(p, p.core.state) && n.Elem? && Child(p.core.state, n.name) == Some(k)
    requires k < |ROWS| && Leaf(ROWS[k].to)
    ensures Within(p, AfterNode(p, n, env), WarningsAt(p.core.state, n, p.ignore, env.toll))
  {
    LeafStarts(p, n, env, k);
    var q := OnStart(p, n.name, n.attrs, env);
    ElementSteps(p, n, env);
    LeafNodes(q, n.children, env);
    LeafEnds(p, q, k, Content(n), env);
    LeafWarnsNot(ROWS[k].to, n.children, p.ignore, env.toll);
  }

  lemma {:induction false} LeafWarnsNot(state: nat, nodes: seq<Node>, ignored: bool, toll: Toll)
    requires Leaf(state)
    ensures WarningsIn(state, nodes, ignored, toll) == 0
  {
    if nodes != [] {
      LeafWarnsNot(state, nodes[1..], ignored, toll);
    }
  }

  /** A node the table does not know here. */
  lemma CalmStranger(p: Parser, n: Node, env: Env, ignored: bool)
    requires NeverStops(env.warn) && At(p, p.core.state) && (n.Elem? ==> Child(p.core.state, n.name).None?)
    ensures Within(p, AfterNode(p, n, env), WarningsAt(p.core.state, n, ignored, env.toll))
  {
    if n.Text? {
      TextStep(p, n, env);
    } else {
      UnknownElement(p, n, env);
    }
  }

  /** At a file element or below nothing fails, and the warnings are those counted on the tree. */
  lemma {:induction false} CalmNode(p: Parser, n: Node, env: Env)
    requires NeverStops(env.warn) && At(p, p.core.state) && p.core.state >= FILE
    ensures Within(p, AfterNode(p, n, env), WarningsAt(p.core.state, n, p.ignore, env.toll))
    decreases n, 0
  {
    if n.Text? || Child(p.core.state, n.name).None? {
      CalmStranger(p, n, env, p.ignore);
    } else {
      var k := Child(p.core.state, n.name).value;
      KnownElement(p, n, env, k);
      ChildRow(p.core.state, n.name);
      RowsInPlace();
      if Leaf(ROWS[k].to) {
        CalmLeaf(p, n, env, k);
      } else {
        StartIsCalm(Entered(p, k), n.attrs, env);
        var p1 := OnStart(p, n.name, n.attrs, env);
        CalmNodes(p1, n.children, env);
        ElementSteps(p, n, env);
        CloseElement(p, p1, AfterNodes(p1, n.children, env), k, WarningsIn(ROWS[k].to, n.children, p.ignore, env.toll), env);
      }
    }
  }

  lemma {:induction false} CalmNodes(p: Parser, nodes: seq<Node>, env: Env)
    requires NeverStops(env.warn) && At(p, p.core.state) && p.core.state >= FILE
    ensures Within(p, AfterNodes(p, nodes, env), WarningsIn(p.core.state, nodes, p.ignore, env.toll))
    decreases nodes, 1
  {
    if nodes != [] {
      NodesStep(p, nodes, env);
      CalmNode(p, nodes[0], env);
      CalmNodes(AfterNode(p, nodes[0], env), nodes[1..], env);
    }
  }

  /** The start event of a file element with a name. */
  lemma NamedFileStarts(p: Parser, n: Node, env: Env)
    requires At(p, FILES) && n.Elem? && n.name == "file" && Attr(n.attrs, "name").Some?
    ensures var p1 := OnStart(p, n.name, n.attrs, env);
            && At(p1, FILE) && p1.core == Entered(p, 2).core && p1.warnings == p.warnings
            && p1.ignore == (p.found || !IsWanted(n, env.filename)) && p1.found == (p.found || IsWanted(n, env.filename))
  {
    FileRow();
    KnownElement(p, n, env, 2);
    FileIsCalm(Entered(p, 2), n.attrs, env);
  }

  /** A file element with a name. */
  lemma CalmFile(p: Parser, n: Node, env: Env)
    requires NeverStops(env.warn) && At(p, FILES) && n.Elem? && n.name == "file" && Attr(n.attrs, "name").Some?
    ensures var q := AfterNode(p, n, env);
            && Back(p, q, WarningsIn(FILE, n.children, p.found || !IsWanted(n, env.filename), env.toll))
            && q.found == (p.found || IsWanted(n, env.filename))
  {
    NamedFileStarts(p, n, env);
    FileRow();
    var p1 := OnStart(p, n.name, n.attrs, env);
    CalmNodes(p1, n.children, env);
    ElementSteps(p, n, env);
    CloseElement(p, p1, AfterNodes(p1, n.children, env), 2, WarningsIn(FILE, n.children, p1.ignore, env.toll), env);
  }

  lemma {:induction false} CalmFiles(p: Parser, nodes: seq<Node>, env: Env)
    requires NeverStops(env.warn) && At(p, FILES) && AllNamed(nodes)
    ensures Back(p, AfterNodes(p, nodes, env), FilesWarnings(nodes, p.found, env.filename, env.toll))
    ensures AfterNodes(p, nodes, env).found == (p.found || Wanted(nodes, env.filename).Some?)
    decreases nodes
  {
    if nodes != [] {
      NodesStep(p, nodes, env);
      var n := nodes[0];
      if n.Elem? && n.name == "file" {
        CalmFile(p, n, env);
      } else {
        CalmStranger(p, n, env, true);
      }
      CalmFiles(AfterNode(p, n, env), nodes[1..], env);
    }
  }

  lemma CalmFilesElement(p: Parser, n: Node, env: Env)
    requires NeverStops(env.warn) && At(p, METALINK) && n.Elem? && n.name == "files" && AllNamed(n.children)
    ensures Back(p, AfterNode(p, n, env), FilesWarnings(n.children, p.found, env.filename, env.toll))
    ensures AfterNode(p, n, env).found == (p.found || Wanted(n.children, env.filename).Some?)
  {
    KnownElement(p, n, env, 1);
    CalmFiles(Entered(p, 1), n.children, env);
    ElementSteps(p, n, env);
    CloseOuter(p, AfterNodes(Entered(p, 1), n.children, env), 1,
               FilesWarnings(n.children, p.found, env.filename, env.toll), env);
  }

  /** A files or metalink element; which file is read may have changed inside. */
  lemma CloseOuter(p: Parser, q: Parser, k: nat, warnings: nat, env: Env)
    requires At(p, p.core.state) && !Leaf(p.core.state)
    requires k < |ROWS| && ROWS[k].from == p.core.state && ROWS[k].to in {METALINK, FILES}
    requires Back(Entered(p, k), q, warnings)
    ensures Back(p, OnEnd(q, env), warnings) && OnEnd(q, env).found == q.found
  {
    EndOf(p, q, k, env);
  }

  lemma {:induction false} CalmMetalink(p: Parser, nodes: seq<Node>, env: Env)
    requires NeverStops(env.warn) && At(p, METALINK) && AllNamed(Descend(nodes, "files"))
    ensures Back(p, AfterNodes(p, nodes, env), MetalinkWarnings(nodes, p.found, env.filename, env.toll))
    decreases nodes
  {
    if nodes != [] {
      NodesStep(p, nodes, env);
      DescendStep(nodes, "files");
      var n, rest := nodes[0], Descend(nodes[1..], "files");
      assert forall k :: 0 <= k < |rest| ==> rest[k] == Descend(nodes, "files")[|Descend(nodes[..1], "files")| + k];
      if n.Elem? && n.name == "files" {
        assert forall k :: 0 <= k < |n.children| ==> n.children[k] == Descend(nodes, "files")[k];
        CalmFilesElement(p, n, env);
      } else {
        CalmStranger(p, n, env, true);
      }
      CalmMetalink(AfterNode(p, n, env), nodes[1..], env);
    }
  }

  lemma CalmDocument(m: Metalink, root: Node, env: Env)
    requires NeverStops(env.warn) && root.Elem? && AllNamed(FilesOf(root))
    ensures !AfterNode(Fresh(m), root, env).err && AfterNode(Fresh(m), root, env).warnings == DocumentWarnings(root, env.filename, env.toll)
  {
    DescendStep([root], "metalink");
    assert [root][..1] == [root];
    if root.name == "metalink" {
      KnownElement(Fresh(m), root, env, 0);
      CalmMetalink(Entered(Fresh(m), 0), root.children, env);
      ElementSteps(Fresh(m), root, env);
      CloseOuter(Fresh(m), AfterNodes(Entered(Fresh(m), 0), root.children, env), 0,
                 MetalinkWarnings(root.children, false, env.filename, env.toll), env);
    } else {
      CalmStranger(Fresh(m), root, env, true);
    }
  }

  lemma FailsExactlyOnNamelessFiles(m: Metalink, root: Node, env: Env)
    requires NeverStops(env.warn) && root.Elem?
    ensures AfterNode(Fresh(m), root, env).err <==> !AllNamed(FilesOf(root))
  {
    if AllNamed(FilesOf(root)) {
      CalmDocument(m, root, env);
    } else if !AfterNode(Fresh(m), root, env).err {
      FilesAreNamed(m, root, env);
    }
  }

  lemma FilesAreNamed(m: Metalink, root: Node, env: Env)
    requires root.Elem? && !AfterNode(Fresh(m), root, env).err
    ensures AllNamed(FilesOf(root))
  {
    DescendStep([root], "metalink");
    assert [root][..1] == [root];
    if root.name == "metalink" {
      PassiveElement(Fresh(m), root, env, 0);
      MetalinkChildren(Entered(Fresh(m), 0), root.children, env);
    }
  }

  // ---------------------------------------------------------------- callbacks that stop

  function Calm(env: Env): Env {
    env.(warn := Silent())
  }

  /** One step under the callback, e, and under one that never stops, c: the same but for the stop. A url
      element can raise two warnings. */
  predicate Agrees(p: Parser, c: Parser, e: Parser, env: Env) {
    && p.warnings <= c.warnings <= p.warnings + 2
    && e == c.(err := c.err || (c.warnings > p.warnings && env.warn(p.warnings))
                            || (c.warnings > p.warnings + 1 && env.warn(p.warnings + 1)))
  }

  lemma WarnAgrees(p: Parser, env: Env, condition: bool)
    requires !p.err
    ensures var c := WarnIf(p, Calm(env), condition);
            && c == p.(warnings := p.warnings + (if condition then 1 else 0))
            && WarnIf(p, env, condition) == c.(err := condition && env.warn(p.warnings))
  {
  }

  lemma WarnsTwice(p: Parser, env: Env, first: bool, second: bool)
    requires !p.err
    ensures Agrees(p, WarnIf(WarnIf(p, Calm(env), first), Calm(env), second),
                   WarnIf(WarnIf(p, env, first), env, second), env)
  {
    WarnAgrees(p, env, first);
    WarnAgrees(WarnIf(p, Calm(env), first), env, second);
  }

  /** Reading a preference warns of what is not a number and of what is out of range. */
  lemma PreferenceAgrees(p: Parser, attrs: Attributes, env: Env)
    requires !p.err
    ensures Preference(p, Calm(env), attrs).0 == Preference(p, env, attrs).0
    ensures Agrees(p, Preference(p, Calm(env), attrs).1, Preference(p, env, attrs).1, env)
  {
    match Attr(attrs, "preference")
    case None =>
    case Some(text) =>
      var (value, bad) := env.toll(text);
      WarnsTwice(p, env, bad, value < 0 || value > 100);
  }

  lemma HashAgrees(p: Parser, attrs: Attributes, env: Env, ref: HashRef)
    requires !p.err
    ensures Agrees(p, StartHash(p, attrs, Calm(env), ref), StartHash(p, attrs, env, ref), env)
  {
    WarnAgrees(p, env, true);
  }

  lemma StartActionAgrees(p: Parser, attrs: Attributes, env: Env)
    requires !p.err
    ensures Agrees(p, StartAction(p, attrs, Calm(env)), StartAction(p, attrs, env), env)
  {
    match p.core.state
    case 3 =>
    case 9 =>
    case 7 => HashAgrees(p, attrs, env, OfFile);
    case 13 => HashAgrees(p, attrs, env, OfAlternate);
    case 15 => PreferenceAgrees(p, attrs, env);
    case _ => assert StartAction(p, attrs, env) == p;
  }

  lemma NumberAgrees(p: Parser, state: nat, env: Env)
    requires !p.err && state in {TIMESTAMP, SIZE, ALTERNATE_TIMESTAMP, ALTERNATE_SIZE}
    ensures EndAction(p, state, env).m == EndAction(p, state, Calm(env)).m
    ensures EndAction(p, state, env)
            == WarnIf(p, env, env.toll(p.core.content).1).(m := EndAction(p, state, env).m)
    ensures EndAction(p, state, Calm(env))
            == WarnIf(p, Calm(env), env.toll(p.core.content).1).(m := EndAction(p, state, env).m)
  {
  }

  lemma EndActionAgrees(p: Parser, state: nat, env: Env)
    requires !p.err
    ensures Agrees(p, EndAction(p, state, Calm(env)), EndAction(p, state, env), env)
  {
    if state in {TIMESTAMP, SIZE, ALTERNATE_TIMESTAMP, ALTERNATE_SIZE} {
      NumberAgrees(p, state, env);
      WarnAgrees(p, env, env.toll(p.core.content).1);
    } else {
      assert EndAction(p, state, Calm(env)) == EndAction(p, state, env);
    }
  }

  lemma KnownStartAgrees(p: Parser, name: string, attrs: Attributes, env: Env)
    requires !p.err && p.core.Known() && FirstRow(ROWS, p.core.state).Some? && Lookup(ROWS, p.core.state, name).Some?
    ensures Agrees(p, OnStart(p, name, attrs, Calm(env)), OnStart(p, name, attrs, env), env)
  {
    var q := p.(core := Enter(ROWS, p.core, name));
    if !(q.ignore && q.core.state != FILE) {
      StartActionAgrees(q, attrs, env);
    }
  }

  lemma StartAgrees(p: Parser, name: string, attrs: Attributes, env: Env)
    requires !p.err
    ensures Agrees(p, OnStart(p, name, attrs, Calm(env)), OnStart(p, name, attrs, env), env)
  {
    if p.core.Known() && FirstRow(ROWS, p.core.state).Some? {
      if Lookup(ROWS, p.core.state, name).None? {
        WarnAgrees(p.(core := Enter(ROWS, p.core, name)), env, true);
      } else {
        KnownStartAgrees(p, name, attrs, env);
      }
    }
  }

  lemma EndAgrees(p: Parser, env: Env)
    requires !p.err
    ensures Agrees(p, OnEnd(p, Calm(env)), OnEnd(p, env), env)
  {
    EndActionAgrees(p.(core := Leave(ROWS, p.core)), p.core.state, env);
  }

  lemma EventAgrees(p: Parser, e: Event, env: Env)
    requires !p.err
    ensures Agrees(p, OnEvent(p, e, Calm(env)), OnEvent(p, e, env), env)
  {
    match e
    case Start(name, attrs) => StartAgrees(p, name, attrs, env);
    case Chars(s) =>
    case End => EndAgrees(p, env);
  }

  /** c and e are the results of the same events without and with the callback. */
  ghost predicate StopsAtWarning(p: Parser, c: Parser, e: Parser, env: Env) {
    && p.warnings <= c.warnings
    && (e.err <==> c.err || Stopped(env.warn, p.warnings, c.warnings))
    && (!e.err ==> e == c)
  }

  lemma FirstEvent(p: Parser, events: seq<Event>, env: Env) returns (c: Parser, e: Parser)
    requires !p.err && events != []
    ensures Agrees(p, c, e, env)
    ensures Fold(p, events, Calm(env)) == Fold(c, events[1..], Calm(env))
    ensures Fold(p, events, env) == Fold(e, events[1..], env)
  {
    EventAgrees(p, events[0], env);
    c, e := OnEvent(p, events[0], Calm(env)), OnEvent(p, events[0], env);
  }

  lemma FirstStop(p: Parser, c: Parser, e: Parser, rest: seq<Event>, env: Env)
    requires !p.err && Agrees(p, c, e, env)
    requires !c.err ==> StopsAtWarning(c, Fold(c, rest, Calm(env)), Fold(c, rest, env), env)
    ensures StopsAtWarning(p, Fold(c, rest, Calm(env)), Fold(e, rest, env), env)
  {
    if c.err {
      ErrorStays(c, rest, Calm(env));
      StoppedSplit(env.warn, p.warnings, c.warnings, c.warnings);
    } else {
      StoppedSplit(env.warn, p.warnings, c.warnings, Fold(c, rest, Calm(env)).warnings);
    }
    if e.err {
      ErrorStays(e, rest, env);
    }
  }

  /** The callback makes a difference exactly when it stops the parse at one of the warnings that the
      parse raises otherwise. */
  lemma {:induction false} StopsExactlyAtWarnings(p: Parser, events: seq<Event>, env: Env)
    requires !p.err
    ensures StopsAtWarning(p, Fold(p, events, Calm(env)), Fold(p, events, env), env)
    decreases |events|
  {
    if events != [] {
      var c, e := FirstEvent(p, events, env);
      if !c.err {
        StopsExactlyAtWarnings(c, events[1..], env);
      }
      FirstStop(p, c, e, events[1..], env);
    }
  }

  /** When a document is refused, whatever the callback answers: if some file has no name, or the callback
      stops the parse at one of the warnings. */
  lemma FailsExactlyWhen(m: Metalink, root: Node, env: Env)
    requires root.Elem?
    ensures AfterNode(Fresh(m), root, env).err
            <==> !AllNamed(FilesOf(root)) || Stopped(env.warn, 0, DocumentWarnings(root, env.filename, env.toll))
  {
    StopsExactlyAtWarnings(Fresh(m), Events(root), env);
    FailsExactlyOnNamelessFiles(m, root, Calm(env));
    if AllNamed(FilesOf(root)) {
      CalmDocument(m, root, Calm(env));
    }
  }
}
