/** The main theorem on metalink parsing, built up from the leaves of the table to its root. */
module MetalinkExtraction {
  import opened Wrappers
  import opened Xml
  import opened SaxTable
  import opened MetalinkTable
  import opened Metalink
  import opened MetalinkProof

  // ---------------------------------------------------------------- the readings add up

  lemma {:induction false} HashesConcat(a: seq<Node>, b: seq<Node>)
    ensures Hashes(a + b) == Hashes(a) + Hashes(b)
  {
    if a == [] {
      assert a + b == b;
    } else {
      assert (a + b)[1..] == a[1..] + b;
      HashesConcat(a[1..], b);
    }
  }

  lemma {:induction false} AlternatesConcat(a: seq<Node>, b: seq<Node>, env: Env)
    ensures Alternates(a + b, env) == Alternates(a, env) + Alternates(b, env)
  {
    if a == [] {
      assert a + b == b;
    } else {
      assert (a + b)[1..] == a[1..] + b;
      AlternatesConcat(a[1..], b, env);
    }
  }

  lemma {:induction false} UrlsConcat(a: seq<Node>, b: seq<Node>, env: Env)
    ensures Urls(a + b, env) == Urls(a, env) + Urls(b, env)
  {
    if a == [] {
      assert a + b == b;
    } else {
      assert (a + b)[1..] == a[1..] + b;
      UrlsConcat(a[1..], b, env);
    }
  }

  lemma LastNumberStep(start: int, nodes: seq<Node>, name: string, env: Env)
    requires nodes != []
    ensures LastNumber(start, nodes, name, env)
            == LastNumber(LastNumber(start, nodes[..1], name, env), nodes[1..], name, env)
    ensures LastNumber(start, nodes[..1], name, env)
            == if nodes[0].Elem? && nodes[0].name == name then env.toll(Content(nodes[0])).0 else start
  {
    assert nodes[..1][1..] == [];
    assert Select(nodes[..1], name) == if nodes[0].Elem? && nodes[0].name == name then [nodes[0]] else [];
    assert Select(nodes, name) == Select(nodes[..1], name) + Select(nodes[1..], name);
  }

  lemma HashesStep(hs: seq<Hash>, nodes: seq<Node>)
    requires nodes != []
    ensures hs + Hashes(Descend(nodes, "verification"))
            == (hs + Hashes(Descend(nodes[..1], "verification"))) + Hashes(Descend(nodes[1..], "verification"))
  {
    DescendStep(nodes, "verification");
    HashesConcat(Descend(nodes[..1], "verification"), Descend(nodes[1..], "verification"));
  }

  lemma AlternatesStep(xs: seq<Alternate>, nodes: seq<Node>, env: Env)
    requires nodes != []
    ensures xs + Alternates(Descend(nodes, "mm0:alternates"), env)
            == (xs + Alternates(Descend(nodes[..1], "mm0:alternates"), env))
               + Alternates(Descend(nodes[1..], "mm0:alternates"), env)
  {
    DescendStep(nodes, "mm0:alternates");
    AlternatesConcat(Descend(nodes[..1], "mm0:alternates"), Descend(nodes[1..], "mm0:alternates"), env);
  }

  lemma UrlsStep(xs: seq<Url>, nodes: seq<Node>, env: Env)
    requires nodes != []
    ensures xs + Urls(Descend(nodes, "resources"), env)
            == (xs + Urls(Descend(nodes[..1], "resources"), env)) + Urls(Descend(nodes[1..], "resources"), env)
  {
    DescendStep(nodes, "resources");
    UrlsConcat(Descend(nodes[..1], "resources"), Descend(nodes[1..], "resources"), env);
  }

  lemma AlternateOfStep(a: Alternate, nodes: seq<Node>, env: Env)
    requires nodes != []
    ensures AlternateOf(a, nodes, env) == AlternateOf(AlternateOf(a, nodes[..1], env), nodes[1..], env)
  {
    var first, rest := nodes[..1], nodes[1..];
    var one := AlternateOf(a, first, env);
    assert one.timestamp == LastNumber(a.timestamp, first, "mm0:timestamp", env);
    assert LastNumber(a.timestamp, nodes, "mm0:timestamp", env) == LastNumber(one.timestamp, rest, "mm0:timestamp", env) by {
      LastNumberStep(a.timestamp, nodes, "mm0:timestamp", env);
    }
    assert LastNumber(a.size, nodes, "size", env) == LastNumber(one.size, rest, "size", env) by {
      LastNumberStep(a.size, nodes, "size", env);
    }
    HashesStep(a.hashes, nodes);
  }

  lemma FileOfStep(m: Metalink, nodes: seq<Node>, env: Env)
    requires nodes != []
    ensures FileOf(m, nodes, env) == FileOf(FileOf(m, nodes[..1], env), nodes[1..], env)
  {
    var first, rest := nodes[..1], nodes[1..];
    var one := FileOf(m, first, env);
    assert one.timestamp == LastNumber(m.timestamp, first, "mm0:timestamp", env);
    assert LastNumber(m.timestamp, nodes, "mm0:timestamp", env) == LastNumber(one.timestamp, rest, "mm0:timestamp", env) by {
      LastNumberStep(m.timestamp, nodes, "mm0:timestamp", env);
    }
    assert LastNumber(m.size, nodes, "size", env) == LastNumber(one.size, rest, "size", env) by {
      LastNumberStep(m.size, nodes, "size", env);
    }
    HashesStep(m.hashes, nodes);
    AlternatesStep(m.alternates, nodes, env);
    UrlsStep(m.urls, nodes, env);
  }

  lemma NothingAdded(m: Metalink, a: Alternate, env: Env)
    ensures FileOf(m, [], env) == m && AlternateOf(a, [], env) == a
  {
  }

  // ---------------------------------------------------------------- leaves

  /** A document part that only changes what has been read. */
  ghost predicate Reads(p: Parser, q: Parser, m: Metalink) {
    Same(p.(m := m), q)
  }

  function AddHashes(m: Metalink, ref: HashRef, hs: seq<Hash>): Metalink {
    match ref
    case NoHash => m
    case OfFile => m.(hashes := m.hashes + hs)
    case OfAlternate =>
      var n := |m.alternates|;
      if n == 0 then m
      else m.(alternates := m.alternates[n - 1 := m.alternates[n - 1].(hashes := m.alternates[n - 1].hashes + hs)])
  }

  lemma HashIsSet(m: Metalink, ref: HashRef, t: string, value: string)
    ensures SetHash(AddHash(m, ref, Hash(t, None)), ref, value) == AddHashes(m, ref, [Hash(t, Some(value))])
  {
    var hashes := if ref == OfAlternate && |m.alternates| > 0 then m.alternates[|m.alternates| - 1].hashes else m.hashes;
    assert SetValue(hashes + [Hash(t, None)], value) == hashes + [Hash(t, Some(value))];
  }

  lemma AddHashesTwice(m: Metalink, ref: HashRef, a: seq<Hash>, b: seq<Hash>)
    ensures AddHashes(AddHashes(m, ref, a), ref, b) == AddHashes(m, ref, a + b)
    ensures AddHashes(m, ref, []) == m
  {
    assert (m.hashes + a) + b == m.hashes + (a + b);
    assert m.hashes + [] == m.hashes;
    var n := |m.alternates|;
    if n > 0 {
      var last := m.alternates[n - 1];
      assert (last.hashes + a) + b == last.hashes + (a + b);
      assert last.hashes + [] == last.hashes;
      assert m.alternates[n - 1 := last] == m.alternates;
    }
  }

  function VerificationState(ref: HashRef): nat {
    if ref == OfAlternate then ALTERNATE_VERIFICATION else VERIFICATION
  }

  /** What a leaf does with this text: its start action and then its end action, when neither stops. */
  function LeafResult(p: Parser, k: nat, attrs: Attributes, text: string, env: Env): Parser
    requires k < |ROWS|
  {
    EndAction(StartAction(Entered(p, k), attrs, env).(core := p.core.(content := text)), ROWS[k].to, env)
  }

  lemma LeafIsRead(p: Parser, n: Node, env: Env, k: nat)
    requires At(p, p.core.state) && !p.ignore && n.Elem? && Child(p.core.state, n.name) == Some(k)
    requires k < |ROWS| && Leaf(ROWS[k].to) && !AfterNode(p, n, env).err
    ensures AfterNode(p, n, env) == LeafResult(p, k, n.attrs, Content(n), env)
  {
    LeafElement(p, n, env, k);
  }

  /** The two actions of a hash element. */
  lemma HashActions(p: Parser, attrs: Attributes, text: string, env: Env, ref: HashRef, c: Core)
    requires p.hash == NoHash && ref != NoHash && c.content == text
    ensures var q := EndHash(StartHash(p, attrs, env, ref).(core := c));
            match Attr(attrs, "type")
            case None => q == Warn(p, env).(core := c)
            case Some(t) => q == p.(core := c, m := SetHash(AddHash(p.m, ref, Hash(t, None)), ref, text))
  {
  }

  lemma HashResult(p: Parser, k: nat, attrs: Attributes, text: string, env: Env, ref: HashRef)
    requires p.hash == NoHash && !p.err && ((ref, k) == (OfFile, 8) || (ref, k) == (OfAlternate, 13))
    requires !LeafResult(p, k, attrs, text, env).err
    ensures Attr(attrs, "type").None? ==> Same(p, LeafResult(p, k, attrs, text, env))
    ensures Attr(attrs, "type").Some? ==>
              var t := Attr(attrs, "type").value;
              Reads(p, LeafResult(p, k, attrs, text, env), SetHash(AddHash(p.m, ref, Hash(t, None)), ref, text))
  {
    var c := p.core.(content := text);
    HashActions(Entered(p, k), attrs, text, env, ref, c);
    assert LeafResult(p, k, attrs, text, env) == EndHash(StartHash(Entered(p, k), attrs, env, ref).(core := c));
  }

  lemma UrlResult(p: Parser, attrs: Attributes, text: string, env: Env)
    requires !p.err && !p.url && !LeafResult(p, 14, attrs, text, env).err
    ensures var started := Url(Attr(attrs, "protocol"), Attr(attrs, "type"), Attr(attrs, "location"),
                               PreferenceOf(attrs, env), None);
            Reads(p, LeafResult(p, 14, attrs, text, env), SetUrl(p.m.(urls := p.m.urls + [started]), text))
  {
    var q := Entered(p, 14);
    PreferenceKeepsCore(q, attrs, env);
    PreferenceIsRead(q, attrs, env);
  }

  lemma PreferenceIsRead(p: Parser, attrs: Attributes, env: Env)
    ensures Preference(p, env, attrs).0 == PreferenceOf(attrs, env)
  {
  }

  lemma AlternateNumberResult(p: Parser, k: nat, attrs: Attributes, text: string, env: Env)
    requires !p.err && (k == 10 || k == 11) && |p.m.alternates| > 0 && !LeafResult(p, k, attrs, text, env).err
    ensures var a := Last(p.m);
            Reads(p, LeafResult(p, k, attrs, text, env),
                  WithLast(p.m, if k == 10 then a.(timestamp := env.toll(text).0) else a.(size := env.toll(text).0)))
  {
  }

  lemma FileNumberResult(p: Parser, k: nat, attrs: Attributes, text: string, env: Env)
    requires !p.err && (k == 3 || k == 4) && !LeafResult(p, k, attrs, text, env).err
    ensures Reads(p, LeafResult(p, k, attrs, text, env),
                  if k == 3 then p.m.(timestamp := env.toll(text).0) else p.m.(size := env.toll(text).0))
  {
  }

  /** The hash element of a file (row 8) or of an alternate (row 13). */
  lemma HashElement(p: Parser, n: Node, env: Env, ref: HashRef, k: nat)
    requires At(p, VerificationState(ref)) && !p.ignore && p.hash == NoHash
    requires (ref, k) == (OfFile, 8) || (ref, k) == (OfAlternate, 13)
    requires !AfterNode(p, n, env).err && n.Elem? && n.name == "hash"
    ensures Attr(n.attrs, "type").None? ==> Same(p, AfterNode(p, n, env))
    ensures Attr(n.attrs, "type").Some? ==>
              var t := Attr(n.attrs, "type").value;
              Reads(p, AfterNode(p, n, env), SetHash(AddHash(p.m, ref, Hash(t, None)), ref, Content(n)))
  {
    LeafIsRead(p, n, env, k);
    HashResult(p, k, n.attrs, Content(n), env, ref);
  }

  lemma HashesOfOne(n: Node)
    ensures Hashes([n]) == if n.Elem? && n.name == "hash" && Attr(n.attrs, "type").Some?
                           then [Hash(Attr(n.attrs, "type").value, Some(Content(n)))] else []
  {
    assert [n][1..] == [];
  }

  /** What a hash element does to the metalink is what reading it adds. */
  lemma HashAdds(m: Metalink, ref: HashRef, n: Node)
    ensures AddHashes(m, ref, Hashes([n]))
            == if n.Elem? && n.name == "hash" && Attr(n.attrs, "type").Some?
               then SetHash(AddHash(m, ref, Hash(Attr(n.attrs, "type").value, None)), ref, Content(n)) else m
  {
    HashesOfOne(n);
    AddHashesTwice(m, ref, [], []);
    if n.Elem? && Attr(n.attrs, "type").Some? {
      HashIsSet(m, ref, Attr(n.attrs, "type").value, Content(n));
    }
  }

  lemma HashNode(p: Parser, n: Node, env: Env, ref: HashRef)
    requires ref != NoHash && At(p, VerificationState(ref)) && !p.ignore && p.hash == NoHash
    requires !AfterNode(p, n, env).err
    ensures Reads(p, AfterNode(p, n, env), AddHashes(p.m, ref, Hashes([n])))
  {
    HashAdds(p.m, ref, n);
    if n.Text? || n.name != "hash" {
      StrangerLeavesNoTrace(p, n, env);
    } else {
      HashElement(p, n, env, ref, if ref == OfFile then 8 else 13);
    }
  }

  lemma {:induction false} HashNodes(p: Parser, nodes: seq<Node>, env: Env, ref: HashRef)
    requires ref != NoHash && At(p, VerificationState(ref)) && !p.ignore && p.hash == NoHash
    requires !AfterNodes(p, nodes, env).err
    ensures Reads(p, AfterNodes(p, nodes, env), AddHashes(p.m, ref, Hashes(nodes)))
    decreases nodes
  {
    AddHashesTwice(p.m, ref, [], []);
    if nodes != [] {
      NodesStep(p, nodes, env);
      HashNode(p, nodes[0], env, ref);
      HashNodes(AfterNode(p, nodes[0], env), nodes[1..], env, ref);
      HashesConcat([nodes[0]], nodes[1..]);
      assert [nodes[0]] + nodes[1..] == nodes;
      AddHashesTwice(p.m, ref, Hashes([nodes[0]]), Hashes(nodes[1..]));
    }
  }

  function UrlOf(n: Node, env: Env): Url
    requires n.Elem?
  {
    Url(Attr(n.attrs, "protocol"), Attr(n.attrs, "type"), Attr(n.attrs, "location"),
        PreferenceOf(n.attrs, env), Some(Content(n)))
  }

  lemma UrlIsSet(m: Metalink, started: Url, text: string)
    ensures SetUrl(m.(urls := m.urls + [started]), text) == m.(urls := m.urls + [started.(url := Some(text))])
  {
    assert (m.urls + [started])[|m.urls| := started.(url := Some(text))] == m.urls + [started.(url := Some(text))];
  }

  lemma UrlElement(p: Parser, n: Node, env: Env)
    requires At(p, RESOURCES) && !p.ignore && !p.url && !AfterNode(p, n, env).err
    requires n.Elem? && n.name == "url"
    ensures Reads(p, AfterNode(p, n, env), p.m.(urls := p.m.urls + [UrlOf(n, env)]))
  {
    LeafIsRead(p, n, env, 14);
    UrlResult(p, n.attrs, Content(n), env);
    UrlIsSet(p.m, UrlOf(n, env).(url := None), Content(n));
  }

  lemma UrlNode(p: Parser, n: Node, env: Env)
    requires At(p, RESOURCES) && !p.ignore && !p.url && !AfterNode(p, n, env).err
    ensures Reads(p, AfterNode(p, n, env), p.m.(urls := p.m.urls + Urls([n], env)))
  {
    assert Urls([n][1..], env) == [];
    assert p.m.urls + [] == p.m.urls;
    if n.Text? || n.name != "url" {
      StrangerLeavesNoTrace(p, n, env);
    } else {
      UrlElement(p, n, env);
      assert Urls([n], env) == [UrlOf(n, env)];
    }
  }

  lemma UrlsOneMore(xs: seq<Url>, nodes: seq<Node>, env: Env)
    requires nodes != []
    ensures xs + Urls(nodes, env) == (xs + Urls([nodes[0]], env)) + Urls(nodes[1..], env)
  {
    UrlsConcat([nodes[0]], nodes[1..], env);
    assert [nodes[0]] + nodes[1..] == nodes;
  }

  lemma {:induction false} UrlNodes(p: Parser, nodes: seq<Node>, env: Env)
    requires At(p, RESOURCES) && !p.ignore && !p.url && !AfterNodes(p, nodes, env).err
    ensures Reads(p, AfterNodes(p, nodes, env), p.m.(urls := p.m.urls + Urls(nodes, env)))
    decreases nodes
  {
    if nodes == [] {
      assert p.m.urls + [] == p.m.urls;
    } else {
      NodesStep(p, nodes, env);
      UrlNode(p, nodes[0], env);
      UrlNodes(AfterNode(p, nodes[0], env), nodes[1..], env);
      UrlsOneMore(p.m.urls, nodes, env);
    }
  }

  // ---------------------------------------------------------------- inner elements

  /** States whose switch does nothing on entering and on leaving. */
  predicate Passive(state: nat) {
    state in {VERIFICATION, ALTERNATES, ALTERNATE_VERIFICATION, RESOURCES, METALINK, FILES}
  }

  /** An element of a passive state reads what its children read. */
  lemma PassiveElement(p: Parser, n: Node, env: Env, k: nat)
    requires At(p, p.core.state) && n.Elem? && Child(p.core.state, n.name) == Some(k)
    requires k < |ROWS| && Passive(ROWS[k].to) && !AfterNode(p, n, env).err
    ensures At(Entered(p, k), ROWS[k].to)
    ensures !AfterNodes(Entered(p, k), n.children, env).err
    ensures var q := AfterNodes(Entered(p, k), n.children, env);
            q.core == Entered(p, k).core.(content := q.core.content) ==>
              AfterNode(p, n, env) == q.(core := p.core.(content := q.core.content))
  {
    KnownElement(p, n, env, k);
    ElementSteps(p, n, env);
    ChildRow(p.core.state, n.name);
    var q := AfterNodes(Entered(p, k), n.children, env);
    if q.core == Entered(p, k).core.(content := q.core.content) {
      LeavesTo(p, q.core, k);
    }
  }

  ghost predicate InAlternate(p: Parser) {
    At(p, ALTERNATE) && !p.ignore && p.hash == NoHash && !p.url && |p.m.alternates| > 0
  }

  function WithLast(m: Metalink, a: Alternate): Metalink
    requires |m.alternates| > 0
  {
    m.(alternates := m.alternates[|m.alternates| - 1 := a])
  }

  function Last(m: Metalink): Alternate
    requires |m.alternates| > 0
  {
    m.alternates[|m.alternates| - 1]
  }

  lemma AlternateTimestamp(p: Parser, n: Node, env: Env)
    requires InAlternate(p) && !AfterNode(p, n, env).err && n.Elem? && n.name == "mm0:timestamp"
    ensures Reads(p, AfterNode(p, n, env), WithLast(p.m, Last(p.m).(timestamp := env.toll(Content(n)).0)))
  {
    assert Child(ALTERNATE, n.name) == Some(10);
    LeafIsRead(p, n, env, 10);
    AlternateNumberResult(p, 10, n.attrs, Content(n), env);
  }

  lemma AlternateSize(p: Parser, n: Node, env: Env)
    requires InAlternate(p) && !AfterNode(p, n, env).err && n.Elem? && n.name == "size"
    ensures Reads(p, AfterNode(p, n, env), WithLast(p.m, Last(p.m).(size := env.toll(Content(n)).0)))
  {
    assert Child(ALTERNATE, n.name) == Some(11);
    LeafIsRead(p, n, env, 11);
    AlternateNumberResult(p, 11, n.attrs, Content(n), env);
  }

  lemma AlternateVerification(p: Parser, n: Node, env: Env)
    requires InAlternate(p) && !AfterNode(p, n, env).err && n.Elem? && n.name == "verification"
    ensures Reads(p, AfterNode(p, n, env), AddHashes(p.m, OfAlternate, Hashes(n.children)))
  {
    PassiveElement(p, n, env, 12);
    HashNodes(Entered(p, 12), n.children, env, OfAlternate);
  }

  lemma AlternateOfOne(a: Alternate, n: Node, env: Env)
    ensures AlternateOf(a, [n], env)
            == Alternate(
                 if n.Elem? && n.name == "mm0:timestamp" then env.toll(Content(n)).0 else a.timestamp,
                 if n.Elem? && n.name == "size" then env.toll(Content(n)).0 else a.size,
                 a.hashes + Hashes(if n.Elem? && n.name == "verification" then n.children else []))
  {
    assert [n][..1] == [n];
    LastNumberStep(a.timestamp, [n], "mm0:timestamp", env);
    LastNumberStep(a.size, [n], "size", env);
    DescendStep([n], "verification");
  }

  /** The same by the row the element follows. */
  lemma AlternateOfKnown(a: Alternate, n: Node, env: Env)
    requires n.Elem?
    ensures AlternateOf(a, [n], env)
            == match Child(ALTERNATE, n.name)
               case None => a
               case Some(k) =>
                 if k == 10 then a.(timestamp := env.toll(Content(n)).0)
                 else if k == 11 then a.(size := env.toll(Content(n)).0)
                 else a.(hashes := a.hashes + Hashes(n.children))
  {
    AlternateOfOne(a, n, env);
    assert a.hashes + [] == a.hashes;
  }

  lemma AddHashesToLast(m: Metalink, hs: seq<Hash>)
    requires |m.alternates| > 0
    ensures AddHashes(m, OfAlternate, hs) == WithLast(m, Last(m).(hashes := Last(m).hashes + hs))
  {
  }

  lemma AlternateChild(p: Parser, n: Node, env: Env, b: Alternate)
    requires InAlternate(p) && !AfterNode(p, n, env).err && b == AlternateOf(Last(p.m), [n], env)
    ensures Reads(p, AfterNode(p, n, env), WithLast(p.m, b))
  {
    WithLastTwice(p.m, Last(p.m), b);
    if n.Text? {
      StrangerLeavesNoTrace(p, n, env);
      AlternateOfOne(Last(p.m), n, env);
      assert Last(p.m).hashes + [] == Last(p.m).hashes;
    } else {
      AlternateOfKnown(Last(p.m), n, env);
      match Child(ALTERNATE, n.name)
      case None => StrangerLeavesNoTrace(p, n, env);
      case Some(k) => AlternateKnown(p, n, env, k);
    }
  }

  lemma AlternateKnown(p: Parser, n: Node, env: Env, k: nat)
    requires InAlternate(p) && !AfterNode(p, n, env).err && n.Elem? && Child(ALTERNATE, n.name) == Some(k)
    ensures var a := Last(p.m);
            Reads(p, AfterNode(p, n, env),
                  WithLast(p.m, if k == 10 then a.(timestamp := env.toll(Content(n)).0)
                                else if k == 11 then a.(size := env.toll(Content(n)).0)
                                else a.(hashes := a.hashes + Hashes(n.children))))
  {
    if k == 10 {
      AlternateTimestamp(p, n, env);
    } else if k == 11 {
      AlternateSize(p, n, env);
    } else {
      AlternateVerification(p, n, env);
      AddHashesToLast(p.m, Hashes(n.children));
    }
  }

  lemma WithLastTwice(m: Metalink, a: Alternate, b: Alternate)
    requires |m.alternates| > 0
    ensures |WithLast(m, a).alternates| > 0 && Last(WithLast(m, a)) == a
    ensures WithLast(WithLast(m, a), b) == WithLast(m, b) && WithLast(m, Last(m)) == m
  {
  }

  lemma {:induction false} AlternateChildren(p: Parser, nodes: seq<Node>, env: Env)
    requires InAlternate(p) && !AfterNodes(p, nodes, env).err
    ensures Reads(p, AfterNodes(p, nodes, env), WithLast(p.m, AlternateOf(Last(p.m), nodes, env)))
    decreases nodes
  {
    if nodes == [] {
      NothingAdded(p.m, Last(p.m), env);
      WithLastTwice(p.m, Last(p.m), Last(p.m));
    } else {
      NodesStep(p, nodes, env);
      AlternateChild(p, nodes[0], env, AlternateOf(Last(p.m), [nodes[0]], env));
      WithLastTwice(p.m, AlternateOf(Last(p.m), [nodes[0]], env), AlternateOf(Last(p.m), nodes, env));
      AlternateChildren(AfterNode(p, nodes[0], env), nodes[1..], env);
      assert nodes[..1] == [nodes[0]];
      AlternateOfStep(Last(p.m), nodes, env);
    }
  }

  ghost predicate Closed(p: Parser) {
    p.hash == NoHash && !p.url && !p.alternate
  }

  lemma AlternateStarts(p: Parser, n: Node, env: Env)
    requires At(p, ALTERNATES) && !p.ignore && n.Elem? && n.name == "mm0:alternate"
    ensures OnStart(p, n.name, n.attrs, env)
            == Entered(p, 9).(m := p.m.(alternates := p.m.alternates + [Alternate(0, 0, [])]), alternate := true)
    ensures Entered(p, 9).core == Core(p.core.depth + 1, p.core.depth + 1, ALTERNATE, false, "")
    ensures ROWS[9].from == ALTERNATES
  {
    KnownElement(p, n, env, 9);
  }

  /** q is the parser after the children of an alternate element. */
  lemma AlternateEnds(p: Parser, q: Parser, a: Alternate, env: Env)
    requires At(p, ALTERNATES) && !p.ignore && !p.alternate && ROWS[9].from == ALTERNATES
    requires Reads(Entered(p, 9).(alternate := true), q, p.m.(alternates := p.m.alternates + [a]))
    ensures Reads(p, OnEnd(q, env), p.m.(alternates := p.m.alternates + [a]))
  {
    LeavesTo(p, q.core, 9);
  }

  lemma AlternateElement(p: Parser, n: Node, env: Env)
    requires At(p, ALTERNATES) && !p.ignore && Closed(p) && !AfterNode(p, n, env).err
    requires n.Elem? && n.name == "mm0:alternate"
    ensures var a := AlternateOf(Alternate(0, 0, []), n.children, env);
            Reads(p, AfterNode(p, n, env), p.m.(alternates := p.m.alternates + [a]))
  {
    AlternateStarts(p, n, env);
    ElementSteps(p, n, env);
    var p1 := OnStart(p, n.name, n.attrs, env);
    var a, xs := Alternate(0, 0, []), p.m.alternates;
    assert InAlternate(p1) && Last(p1.m) == a;
    AlternateChildren(p1, n.children, env);
    var b := AlternateOf(a, n.children, env);
    assert (xs + [a])[|xs| := b] == xs + [b];
    AlternateEnds(p, AfterNodes(p1, n.children, env), b, env);
  }

  lemma AlternateNode(p: Parser, n: Node, env: Env)
    requires At(p, ALTERNATES) && !p.ignore && Closed(p) && !AfterNode(p, n, env).err
    ensures Reads(p, AfterNode(p, n, env), p.m.(alternates := p.m.alternates + Alternates([n], env)))
  {
    assert Alternates([n][1..], env) == [];
    assert p.m.alternates + [] == p.m.alternates;
    if n.Text? || n.name != "mm0:alternate" {
      StrangerLeavesNoTrace(p, n, env);
    } else {
      AlternateElement(p, n, env);
      assert Alternates([n], env) == [AlternateOf(Alternate(0, 0, []), n.children, env)];
    }
  }

  lemma AlternatesOneMore(xs: seq<Alternate>, nodes: seq<Node>, env: Env)
    requires nodes != []
    ensures xs + Alternates(nodes, env) == (xs + Alternates([nodes[0]], env)) + Alternates(nodes[1..], env)
  {
    AlternatesConcat([nodes[0]], nodes[1..], env);
    assert [nodes[0]] + nodes[1..] == nodes;
  }

  lemma {:induction false} AlternateNodes(p: Parser, nodes: seq<Node>, env: Env)
    requires At(p, ALTERNATES) && !p.ignore && Closed(p) && !AfterNodes(p, nodes, env).err
    ensures Reads(p, AfterNodes(p, nodes, env), p.m.(alternates := p.m.alternates + Alternates(nodes, env)))
    decreases nodes
  {
    if nodes == [] {
      assert p.m.alternates + [] == p.m.alternates;
    } else {
      NodesStep(p, nodes, env);
      AlternateNode(p, nodes[0], env);
      AlternateNodes(AfterNode(p, nodes[0], env), nodes[1..], env);
      AlternatesOneMore(p.m.alternates, nodes, env);
    }
  }

  // ---------------------------------------------------------------- the file

  lemma FileOfOne(m: Metalink, n: Node, env: Env)
    ensures FileOf(m, [n], env)
            == Metalink(
                 m.filename,
                 if n.Elem? && n.name == "mm0:timestamp" then env.toll(Content(n)).0 else m.timestamp,
                 if n.Elem? && n.name == "size" then env.toll(Content(n)).0 else m.size,
                 m.hashes + Hashes(if n.Elem? && n.name == "verification" then n.children else []),
                 m.alternates + Alternates(if n.Elem? && n.name == "mm0:alternates" then n.children else [], env),
                 m.urls + Urls(if n.Elem? && n.name == "resources" then n.children else [], env))
  {
    assert [n][..1] == [n];
    LastNumberStep(m.timestamp, [n], "mm0:timestamp", env);
    LastNumberStep(m.size, [n], "size", env);
    DescendStep([n], "verification");
    DescendStep([n], "mm0:alternates");
    DescendStep([n], "resources");
  }

  lemma FileTimestamp(p: Parser, n: Node, env: Env)
    requires At(p, FILE) && !p.ignore && !AfterNode(p, n, env).err && n.Elem? && n.name == "mm0:timestamp"
    ensures Reads(p, AfterNode(p, n, env), p.m.(timestamp := env.toll(Content(n)).0))
  {
    assert Child(FILE, n.name) == Some(3);
    LeafIsRead(p, n, env, 3);
    FileNumberResult(p, 3, n.attrs, Content(n), env);
  }

  lemma FileSize(p: Parser, n: Node, env: Env)
    requires At(p, FILE) && !p.ignore && !AfterNode(p, n, env).err && n.Elem? && n.name == "size"
    ensures Reads(p, AfterNode(p, n, env), p.m.(size := env.toll(Content(n)).0))
  {
    assert Child(FILE, n.name) == Some(4);
    LeafIsRead(p, n, env, 4);
    FileNumberResult(p, 4, n.attrs, Content(n), env);
  }

  lemma FileVerification(p: Parser, n: Node, env: Env)
    requires At(p, FILE) && !p.ignore && Closed(p) && !AfterNode(p, n, env).err && n.Elem? && n.name == "verification"
    ensures Reads(p, AfterNode(p, n, env), p.m.(hashes := p.m.hashes + Hashes(n.children)))
  {
    assert Child(FILE, n.name) == Some(5);
    PassiveElement(p, n, env, 5);
    HashNodes(Entered(p, 5), n.children, env, OfFile);
  }

  lemma FileAlternates(p: Parser, n: Node, env: Env)
    requires At(p, FILE) && !p.ignore && Closed(p) && !AfterNode(p, n, env).err && n.Elem? && n.name == "mm0:alternates"
    ensures Reads(p, AfterNode(p, n, env), p.m.(alternates := p.m.alternates + Alternates(n.children, env)))
  {
    assert Child(FILE, n.name) == Some(6);
    PassiveElement(p, n, env, 6);
    AlternateNodes(Entered(p, 6), n.children, env);
  }

  lemma FileResources(p: Parser, n: Node, env: Env)
    requires At(p, FILE) && !p.ignore && Closed(p) && !AfterNode(p, n, env).err && n.Elem? && n.name == "resources"
    ensures Reads(p, AfterNode(p, n, env), p.m.(urls := p.m.urls + Urls(n.children, env)))
  {
    assert Child(FILE, n.name) == Some(7);
    PassiveElement(p, n, env, 7);
    UrlNodes(Entered(p, 7), n.children, env);
  }

  lemma FileChild(p: Parser, n: Node, env: Env)
    requires At(p, FILE) && !p.ignore && Closed(p) && !AfterNode(p, n, env).err
    ensures Reads(p, AfterNode(p, n, env), FileOf(p.m, [n], env))
  {
    FileOfOne(p.m, n, env);
    assert p.m.hashes + [] == p.m.hashes;
    assert p.m.alternates + [] == p.m.alternates;
    assert p.m.urls + [] == p.m.urls;
    if n.Text? || Child(FILE, n.name).None? {
      StrangerLeavesNoTrace(p, n, env);
    } else if n.name == "mm0:timestamp" {
      FileTimestamp(p, n, env);
    } else if n.name == "size" {
      FileSize(p, n, env);
    } else if n.name == "verification" {
      FileVerification(p, n, env);
    } else if n.name == "mm0:alternates" {
      FileAlternates(p, n, env);
    } else {
      FileResources(p, n, env);
    }
  }

  lemma {:induction false} FileChildren(p: Parser, nodes: seq<Node>, env: Env)
    requires At(p, FILE) && !p.ignore && Closed(p) && !AfterNodes(p, nodes, env).err
    ensures Reads(p, AfterNodes(p, nodes, env), FileOf(p.m, nodes, env))
    decreases nodes
  {
    if nodes == [] {
      NothingAdded(p.m, Alternate(0, 0, []), env);
    } else {
      NodesStep(p, nodes, env);
      FileChild(p, nodes[0], env);
      FileChildren(AfterNode(p, nodes[0], env), nodes[1..], env);
      assert nodes[..1] == [nodes[0]];
      FileOfStep(p.m, nodes, env);
    }
  }

  // ---------------------------------------------------------------- choosing the file

  /** Above the file elements. */
  ghost predicate Outside(p: Parser, state: nat) {
    At(p, state) && Closed(p)
  }

  /** Every file element has a name attribute. */
  predicate AllNamed(files: seq<Node>) {
    forall k :: 0 <= k < |files| ==>
      files[k].Elem? && files[k].name == "file" ==> Attr(files[k].attrs, "name").Some?
  }

  /** q is p after these candidate files: back where p was, with the first wanted file read. */
  ghost predicate Chooses(p: Parser, q: Parser, files: seq<Node>, env: Env) {
    && Outside(q, p.core.state)
    && q.core == p.core.(content := q.core.content)
    && AllNamed(files)
    && q.found == (p.found || Wanted(files, env.filename).Some?)
    && q.m == (if p.found || Wanted(files, env.filename).None? then p.m
               else Contents(p.m, Wanted(files, env.filename).value, env))
  }

  lemma {:induction false} WantedConcat(a: seq<Node>, b: seq<Node>, env: Env)
    ensures Wanted(a + b, env.filename) == if Wanted(a, env.filename).Some? then Wanted(a, env.filename) else Wanted(b, env.filename)
    ensures Wanted(a, env.filename).Some? ==> Wanted(a, env.filename).value.Elem?
  {
    if a == [] {
      assert a + b == b;
    } else {
      assert (a + b)[1..] == a[1..] + b;
      WantedConcat(a[1..], b, env);
    }
  }

  lemma ChoosesTwice(p: Parser, q: Parser, r: Parser, a: seq<Node>, b: seq<Node>, env: Env)
    requires Chooses(p, q, a, env) && Chooses(q, r, b, env)
    ensures Chooses(p, r, a + b, env)
  {
    WantedConcat(a, b, env);
  }

  lemma WantedOne(n: Node, env: Env)
    ensures Wanted([n], env.filename)
            == if IsWanted(n, env.filename) then Some(n) else None
  {
    assert [n][1..] == [];
  }

  lemma FileRow()
    ensures ROWS[2].from == FILES && ROWS[2].to == FILE && !ROWS[2].docontent
  {
  }

  lemma FileAction(p: Parser, attrs: Attributes, env: Env)
    requires p.core.state == FILE && !StartAction(p, attrs, env).err
    ensures Attr(attrs, "name").Some?
    ensures StartAction(p, attrs, env)
            == if p.found || Attr(attrs, "name") != Some(env.filename) then p.(ignore := true)
               else p.(ignore := false, found := true, m := p.m.(filename := Some(env.filename)))
  {
  }

  /** The start event of a file element that has a name. */
  lemma FileStarts(p: Parser, n: Node, env: Env)
    requires At(p, FILES) && n.Elem? && n.name == "file" && !OnStart(p, n.name, n.attrs, env).err
    ensures Attr(n.attrs, "name").Some?
    ensures Entered(p, 2).core == Core(p.core.depth + 1, p.core.depth + 1, FILE, false, "")
    ensures OnStart(p, n.name, n.attrs, env)
            == if p.found || !IsWanted(n, env.filename) then Entered(p, 2).(ignore := true)
               else Entered(p, 2).(ignore := false, found := true, m := p.m.(filename := Some(env.filename)))
  {
    FileRow();
    KnownElement(p, n, env, 2);
    FileAction(Entered(p, 2), n.attrs, env);
  }

  /** Its end event: q is the parser after the children. */
  lemma FileEnds(p: Parser, q: Parser, env: Env)
    requires At(p, FILES) && !q.err && q.core == Entered(p, 2).core.(content := q.core.content)
    ensures OnEnd(q, env) == q.(core := p.core.(content := q.core.content))
  {
    FileRow();
    LeavesTo(p, q.core, 2);
  }

  /** A file element that is not wanted, or comes after the wanted one, is ignored. */
  lemma IgnoredFile(p: Parser, n: Node, env: Env)
    requires At(p, FILES) && n.Elem? && n.name == "file" && !AfterNode(p, n, env).err
    requires p.found || !IsWanted(n, env.filename)
    ensures Same(p.(ignore := true), AfterNode(p, n, env))
  {
    ElementSteps(p, n, env);
    FileStarts(p, n, env);
    var p1 := Entered(p, 2).(ignore := true);
    IgnoredNodes(p1, n.children, env);
    FileEnds(p, AfterNodes(p1, n.children, env), env);
  }

  lemma WantedFile(p: Parser, n: Node, env: Env)
    requires Outside(p, FILES) && n.Elem? && !AfterNode(p, n, env).err && !p.found && IsWanted(n, env.filename)
    ensures Reads(p.(ignore := false, found := true), AfterNode(p, n, env), Contents(p.m, n, env))
  {
    ElementSteps(p, n, env);
    FileStarts(p, n, env);
    var p1 := Entered(p, 2).(ignore := false, found := true, m := p.m.(filename := Some(env.filename)));
    FileChildren(p1, n.children, env);
    FileEnds(p, AfterNodes(p1, n.children, env), env);
  }

  lemma FileElement(p: Parser, n: Node, env: Env)
    requires Outside(p, FILES) && n.Elem? && n.name == "file" && !AfterNode(p, n, env).err
    ensures Attr(n.attrs, "name").Some?
    ensures Chooses(p, AfterNode(p, n, env), [n], env)
  {
    ElementSteps(p, n, env);
    FileStarts(p, n, env);
    WantedOne(n, env);
    if !p.found && IsWanted(n, env.filename) {
      WantedFile(p, n, env);
    } else {
      IgnoredFile(p, n, env);
    }
  }

  lemma {:induction false} FilesChildren(p: Parser, nodes: seq<Node>, env: Env)
    requires Outside(p, FILES) && !AfterNodes(p, nodes, env).err
    ensures Chooses(p, AfterNodes(p, nodes, env), nodes, env)
    decreases nodes
  {
    if nodes != [] {
      NodesStep(p, nodes, env);
      var n, q := nodes[0], AfterNode(p, nodes[0], env);
      if n.Elem? && n.name == "file" {
        FileElement(p, n, env);
      } else {
        StrangerLeavesNoTrace(p, n, env);
        WantedOne(n, env);
      }
      FilesChildren(q, nodes[1..], env);
      ChoosesTwice(p, q, AfterNodes(p, nodes, env), [n], nodes[1..], env);
      assert [n] + nodes[1..] == nodes;
    }
  }

  /** One level up: the children of all `files` elements, and of all `metalink` elements, count. */
  lemma {:induction false} MetalinkChildren(p: Parser, nodes: seq<Node>, env: Env)
    requires Outside(p, METALINK) && !AfterNodes(p, nodes, env).err
    ensures Chooses(p, AfterNodes(p, nodes, env), Descend(nodes, "files"), env)
    decreases nodes
  {
    if nodes != [] {
      NodesStep(p, nodes, env);
      DescendStep(nodes, "files");
      var n, q := nodes[0], AfterNode(p, nodes[0], env);
      if n.Elem? && n.name == "files" {
        PassiveElement(p, n, env, 1);
        FilesChildren(Entered(p, 1), n.children, env);
      } else {
        StrangerLeavesNoTrace(p, n, env);
      }
      MetalinkChildren(q, nodes[1..], env);
      ChoosesTwice(p, q, AfterNodes(p, nodes, env), Descend(nodes[..1], "files"), Descend(nodes[1..], "files"), env);
    }
  }

  /** For every document: if no error is latched, the handlers have read exactly what the document
      declares about the wanted file, and `found` says whether it declares anything. */
  lemma ParseIsExtract(m: Metalink, root: Node, env: Env)
    requires root.Elem? && !AfterNode(Fresh(m), root, env).err
    ensures var q := AfterNode(Fresh(m), root, env);
            && (q.found <==> Extract(m, root, env).Some?)
            && q.m == (if q.found then Extract(m, root, env).value else m)
            && (q.core.depth, q.core.statedepth, q.core.state) == (0, 0, START)
  {
    DescendStep([root], "metalink");
    assert [root][..1] == [root];
    if root.name == "metalink" {
      PassiveElement(Fresh(m), root, env, 0);
      MetalinkChildren(Entered(Fresh(m), 0), root.children, env);
    } else {
      StrangerLeavesNoTrace(Fresh(m), root, env);
    }
  }
}
