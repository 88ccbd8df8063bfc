/** What holds between any two events of a document: the hash, alternate and url in progress match the
    state, which is what the assertions of the handlers ask for. */
module MetalinkSafety {
  import opened Wrappers
  import opened Xml
  import opened SaxTable
  import opened MetalinkTable
  import opened Metalink

  predicate InAlternateElement(state: nat) {
    state in {ALTERNATE, ALTERNATE_TIMESTAMP, ALTERNATE_SIZE, ALTERNATE_VERIFICATION, ALTERNATE_HASH}
  }

  ghost predicate Flags(p: Parser) {
    && (p.url <==> !p.ignore && p.core.state == URL)
    && (p.hash == OfFile ==> p.core.state == HASH && |p.m.hashes| > 0)
    && (p.hash == OfAlternate ==> p.core.state == ALTERNATE_HASH && |p.m.alternates| > 0
                                  && |p.m.alternates[|p.m.alternates| - 1].hashes| > 0)
    && (p.alternate <==> !p.ignore && InAlternateElement(p.core.state))
    && (p.alternate ==> |p.m.alternates| > 0)
    && (p.url ==> |p.m.urls| > 0)
    && (p.ignore ==> p.hash == NoHash)
    && p.core.state <= URL
  }

  /** The invariant between two events, for the stack of elements open there. */
  ghost predicate Sound(p: Parser, stack: seq<string>) {
    p.err || (Flags(p) && Located(ROWS, p.core, stack))
  }

  lemma FreshIsSound(m: Metalink)
    ensures Sound(Fresh(m), [])
  {
  }

  lemma EnteredState(p: Parser, name: string)
    requires p.core.Known() && Lookup(ROWS, p.core.state, name).Some?
    ensures var k := Lookup(ROWS, p.core.state, name).value;
            && Child(p.core.state, name) == Some(k) && k < |ROWS| && ROWS[k].from == p.core.state
            && Enter(ROWS, p.core, name).state == ROWS[k].to && ROWS[k].to == Target(k)
            && p.core.state == Source(k)
  {
    LookupIsChild(p.core.state, name);
    ChildRow(p.core.state, name);
    SourcesAndTargets();
  }

  function Target(k: nat): nat {
    match k
    case 0 => METALINK case 1 => FILES case 2 => FILE case 3 => TIMESTAMP case 4 => SIZE case 5 => VERIFICATION
    case 6 => ALTERNATES case 7 => RESOURCES case 8 => HASH case 9 => ALTERNATE case 10 => ALTERNATE_TIMESTAMP
    case 11 => ALTERNATE_SIZE case 12 => ALTERNATE_VERIFICATION case 13 => ALTERNATE_HASH case _ => URL
  }

  function Source(k: nat): nat {
    match k
    case 0 => START case 1 => METALINK case 2 => FILES case 8 => VERIFICATION case 9 => ALTERNATES
    case 10 => ALTERNATE case 11 => ALTERNATE case 12 => ALTERNATE case 13 => ALTERNATE_VERIFICATION
    case 14 => RESOURCES case _ => FILE
  }

  lemma SourcesAndTargets()
    ensures forall k :: 0 <= k < |ROWS| ==> ROWS[k].from == Source(k) && ROWS[k].to == Target(k)
  {
  }

  lemma ActionKeepsFlags(p: Parser, q: Parser, k: nat, attrs: Attributes, env: Env)
    requires Flags(p) && k < |ROWS| && p.core.state == Source(k)
    requires q == p.(core := q.core) && q.core.state == Target(k) && (q.core.state == FILE || !q.ignore)
    ensures StartAction(q, attrs, env).err || Flags(StartAction(q, attrs, env))
    ensures StartAction(q, attrs, env).core == q.core
  {
    var r := StartAction(q, attrs, env);
    if k == 13 {
      var n := |p.m.alternates|;
      assert q.core.state == ALTERNATE_HASH && p.alternate && n > 0;
    } else if k == 9 || k == 8 || k == 14 || k == 2 {
      assert q.core.state in {ALTERNATE, HASH, URL, FILE};
    } else {
      assert r == q;
    }
  }

  lemma KnownStartIsSound(p: Parser, name: string, attrs: Attributes, env: Env)
    requires Flags(p) && !p.err && p.core.Known() && Lookup(ROWS, p.core.state, name).Some?
    ensures OnStart(p, name, attrs, env).err || Flags(OnStart(p, name, attrs, env))
    ensures OnStart(p, name, attrs, env).core == Enter(ROWS, p.core, name)
  {
    var q := p.(core := Enter(ROWS, p.core, name));
    EnteredState(p, name);
    if q.core.state == FILE || !q.ignore {
      ActionKeepsFlags(p, q, Lookup(ROWS, p.core.state, name).value, attrs, env);
    }
  }

  /** An element that is unknown here leaves the flags alone. */
  lemma UnknownStartIsSound(p: Parser, name: string, attrs: Attributes, env: Env)
    requires Flags(p) && !p.err && Follows(ROWS, p.core, name).None?
    ensures OnStart(p, name, attrs, env).err || Flags(OnStart(p, name, attrs, env))
    ensures OnStart(p, name, attrs, env).core == Enter(ROWS, p.core, name)
  {
    var q := p.(core := p.core.(depth := p.core.depth + 1));
    assert Enter(ROWS, p.core, name) == q.core;
    assert OnStart(p, name, attrs, env) == q || OnStart(p, name, attrs, env) == Warn(q, env);
  }

  lemma StartIsSound(p: Parser, stack: seq<string>, name: string, attrs: Attributes, env: Env)
    requires Sound(p, stack)
    ensures Sound(OnStart(p, name, attrs, env), stack + [name])
  {
    if !p.err {
      EnterLocated(ROWS, p.core, stack, name);
      if Follows(ROWS, p.core, name).Some? {
        KnownStartIsSound(p, name, attrs, env);
      } else {
        UnknownStartIsSound(p, name, attrs, env);
      }
    }
  }

  lemma CharsAreSound(p: Parser, stack: seq<string>, s: string)
    requires Sound(p, stack)
    ensures Sound(OnChars(p, s), stack)
  {
  }

  /** Leaving a known element that is open leads to the state its row comes from. */
  lemma LeftState(p: Parser, stack: seq<string>)
    requires Located(ROWS, p.core, stack) && stack != [] && p.core.Known()
    ensures Located(ROWS, Leave(ROWS, p.core), stack[..|stack| - 1])
    ensures exists k: nat :: k < |ROWS| && p.core.state == Target(k) && Leave(ROWS, p.core).state == Source(k)
  {
    TableIsTree();
    LeaveLocated(ROWS, p.core, stack);
    var below := stack[..|stack| - 1];
    KnownPartBound(ROWS, below);
    var k := Lookup(ROWS, KnownPart(ROWS, below).0, stack[|stack| - 1]).value;
    ParentsAreUnique(ROWS, |ROWS|, k);
    SourcesAndTargets();
  }

  lemma EndActionKeepsFlags(p: Parser, q: Parser, k: nat, env: Env)
    requires Flags(p) && k < |ROWS| && p.core.state == Target(k)
    requires q == p.(core := q.core) && q.core.state == Source(k) && !q.ignore
    ensures EndAction(q, p.core.state, env).err || Flags(EndAction(q, p.core.state, env))
    ensures EndAction(q, p.core.state, env).core == q.core
  {
    if Target(k) in {HASH, ALTERNATE_HASH} {
      assert EndAction(q, p.core.state, env) == EndHash(q);
    } else if Target(k) in {ALTERNATE, URL, TIMESTAMP, SIZE, ALTERNATE_TIMESTAMP, ALTERNATE_SIZE} {
    } else {
      assert EndAction(q, p.core.state, env) == q;
    }
  }

  lemma KnownEndIsSound(p: Parser, env: Env, k: nat)
    requires Flags(p) && !p.err && p.core.Known() && k < |ROWS|
    requires p.core.state == Target(k) && Leave(ROWS, p.core).state == Source(k)
    ensures OnEnd(p, env).err || Flags(OnEnd(p, env))
    ensures OnEnd(p, env).core == Leave(ROWS, p.core)
  {
    var q := p.(core := Leave(ROWS, p.core));
    if p.ignore {
      assert EndAction(q, FILE, env) == q;
    } else {
      EndActionKeepsFlags(p, q, k, env);
    }
  }

  lemma EndIsSound(p: Parser, stack: seq<string>, env: Env)
    requires Sound(p, stack) && stack != []
    ensures Sound(OnEnd(p, env), stack[..|stack| - 1])
  {
    if !p.err {
      if p.core.Known() {
        LeftState(p, stack);
        var k: nat :| k < |ROWS| && p.core.state == Target(k) && Leave(ROWS, p.core).state == Source(k);
        KnownEndIsSound(p, env, k);
      } else {
        TableIsTree();
        LeaveLocated(ROWS, p.core, stack);
      }
    }
  }

  lemma EventIsSound(p: Parser, stack: seq<string>, e: Event, env: Env)
    requires Sound(p, stack) && Open(stack, [e]).Some?
    ensures Sound(OnEvent(p, e, env), Open(stack, [e]).value)
  {
    assert [e][1..] == [];
    match e
    case Start(name, attrs) => StartIsSound(p, stack, name, attrs, env);
    case Chars(s) => CharsAreSound(p, stack, s);
    case End => EndIsSound(p, stack, env);
  }

  /** On every prefix of the events of every document the invariant holds, so no handler assertion
      fails, whatever the warning callback answers. */
  lemma {:induction false} FoldIsSound(p: Parser, stack: seq<string>, events: seq<Event>, env: Env)
    requires Sound(p, stack) && Open(stack, events).Some?
    ensures Sound(Fold(p, events, env), Open(stack, events).value)
    decreases |events|
  {
    if events != [] {
      assert events[0..] == events;
      NextEvent(stack, events, 0);
      EventIsSound(p, stack, events[0], env);
      FoldIsSound(OnEvent(p, events[0], env), Open(stack, [events[0]]).value, events[1..], env);
    }
  }

  lemma EveryPrefixIsSound(m: Metalink, root: Node, k: nat, env: Env)
    requires k <= |Events(root)|
    ensures Open([], Events(root)[..k]).Some?
    ensures Sound(Fold(Fresh(m), Events(root)[..k], env), Open([], Events(root)[..k]).value)
  {
    NodeIsBalanced([], root, k);
    FreshIsSound(m);
    FoldIsSound(Fresh(m), [], Events(root)[..k], env);
  }

  // ---------------------------------------------------------------- the assertions of the handlers

  predicate NothingOpen(p: Parser) {
    !p.url && p.hash == NoHash
  }

  /** What the switch of the start handler asserts in the state just entered. */
  predicate StartAsserts(p: Parser, state: nat) {
    && (state in {FILE, ALTERNATE, HASH, ALTERNATE_HASH, URL} ==> NothingOpen(p))
    && (state in {ALTERNATE, HASH} ==> !p.alternate)
    && (state == ALTERNATE_HASH ==> p.alternate)
  }

  /** What the switch of the end handler asserts for the state being left. */
  predicate EndAsserts(p: Parser, state: nat) {
    && (state in {TIMESTAMP, SIZE, ALTERNATE_TIMESTAMP, ALTERNATE_SIZE} ==> NothingOpen(p))
    && (state in {HASH, ALTERNATE_HASH} ==> !p.url)
    && (state in {ALTERNATE, ALTERNATE_TIMESTAMP, ALTERNATE_SIZE, ALTERNATE_HASH} ==> p.alternate)
    && (state == URL ==> p.url && p.hash == NoHash)
  }

  /** What the handler of this event asserts; below an ignored file it returns before its switch. */
  predicate Asserted(p: Parser, e: Event) {
    !p.err ==>
      match e
      case Start(name, _) =>
        var state := Enter(ROWS, p.core, name).state;
        Follows(ROWS, p.core, name).Some? && (state == FILE || !p.ignore) ==> StartAsserts(p, state)
      case Chars(_) => true
      case End =>
        && p.core.depth > 0
        && (p.core.Known() && (p.core.state == FILE || !p.ignore) ==> EndAsserts(p, p.core.state))
  }

  lemma SwitchAsserts(p: Parser, state: nat, k: nat)
    requires Flags(p) && k < |ROWS| && (state == FILE || !p.ignore)
    ensures p.core.state == Source(k) && state == Target(k) ==> StartAsserts(p, state)
    ensures state == Target(k) && p.core.state == state ==> EndAsserts(p, state)
  {
  }

  lemma SoundAsserts(p: Parser, stack: seq<string>, e: Event)
    requires Sound(p, stack) && Open(stack, [e]).Some?
    ensures Asserted(p, e)
  {
    if !p.err {
      match e {
        case Start(name, _) =>
          if Follows(ROWS, p.core, name).Some? && (Enter(ROWS, p.core, name).state == FILE || !p.ignore) {
            EnteredState(p, name);
            SwitchAsserts(p, Enter(ROWS, p.core, name).state, Lookup(ROWS, p.core.state, name).value);
          }
        case Chars(_) =>
        case End =>
          if p.core.Known() && (p.core.state == FILE || !p.ignore) {
            LeftState(p, stack);
            var k: nat :| k < |ROWS| && p.core.state == Target(k) && Leave(ROWS, p.core).state == Source(k);
            SwitchAsserts(p, p.core.state, k);
          }
      }
    }
  }

  /** On every prefix of the events of every document, whatever the warning callback answers, the
      assertions that the next event meets hold. */
  lemma NoAssertionFails(m: Metalink, root: Node, k: nat, env: Env)
    requires k < |Events(root)|
    ensures Asserted(Fold(Fresh(m), Events(root)[..k], env), Events(root)[k])
  {
    PrefixIsBalanced(root, k);
    EveryPrefixIsSound(m, root, k, env);
    SoundAsserts(Fold(Fresh(m), Events(root)[..k], env), Open([], Events(root)[..k]).value, Events(root)[k]);
  }
}
