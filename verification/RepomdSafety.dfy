/** What holds between any two events of a repomd.xml document: the record in progress matches the state,
    which is what the assertions of the handlers ask for. */
module RepomdSafety {
  import opened Wrappers
  import opened Xml
  import opened WarningCallback
  import opened SaxTable
  import opened RepomdTable
  import opened Repomd

  predicate InData(state: nat) {
    state == DATA || state >= LOCATION
  }

  predicate Flags(p: Parser) {
    && (p.record <==> InData(p.core.state)) && (p.record ==> p.r.records != [])
    && (p.cpeid.Some? ==> p.core.state == DISTRO) && p.core.state <= DBVERSION
  }

  /** The invariant between two events, for the stack of elements open there. */
  ghost predicate Sound(p: Parser, stack: seq<string>) {
    p.err || (Flags(p) && Located(ROWS, p.core, stack))
  }

  /** The record assertions of the start handler's switch, for the state just entered. */
  predicate StartAsserts(record: bool, state: nat) {
    && (state in {REPOID, DISTRO, DATA} ==> !record)
    && (state in {LOCATION, CHECKSUM, OPENCHECKSUM, HEADERCHECKSUM} ==> record)
  }

  /** The record assertions of the end handler's switch, for the state being left. */
  predicate EndAsserts(record: bool, state: nat) {
    && (state in {REVISION, REPOID, REPO, CONTENT, DISTRO} ==> !record)
    && (state == DATA || state >= CHECKSUM ==> record)
  }

  /** How a row relates the states at its two ends. */
  predicate Joins(from: nat, to: nat) {
    && to <= DBVERSION
    && (InData(to) <==> InData(from) || to == DATA)
    && (InData(from) ==> from == DATA && to >= LOCATION)
    && (to == DATA ==> !InData(from)) && from != DISTRO && (to == DISTRO ==> from == TAGS)
  }

  lemma RowsJoin()
    ensures forall k :: 0 <= k < |ROWS| ==> Joins(ROWS[k].from, ROWS[k].to)
  {
  }

  lemma StartKeepsFlags(p: Parser, q: Parser, attrs: Attributes, env: Env)
    requires Flags(p) && q == p.(core := q.core) && Joins(p.core.state, q.core.state)
    ensures StartAsserts(q.record, q.core.state)
    ensures Flags(StartData(q, attrs)) && StartData(q, attrs).core == q.core
  {
  }

  lemma StartIsSound(p: Parser, stack: seq<string>, name: string, attrs: Attributes, env: Env)
    requires Sound(p, stack)
    ensures !p.err && Follows(ROWS, p.core, name).Some? ==>
              Flags(p) && Joins(p.core.state, Enter(ROWS, p.core, name).state)
    ensures Sound(OnStart(p, name, attrs, env), stack + [name])
  {
    if !p.err {
      EnterLocated(ROWS, p.core, stack, name);
      RowsJoin();
      if Follows(ROWS, p.core, name).Some? {
        StartKeepsFlags(p, p.(core := Enter(ROWS, p.core, name)), attrs, env);
      }
    }
  }

  lemma EndKeepsFlags(p: Parser, q: Parser, toll: Toll)
    requires Flags(p) && q == p.(core := q.core) && Joins(q.core.state, p.core.state)
    ensures EndAsserts(q.record, p.core.state)
    ensures Flags(EndData(q, p.core.state, toll)) && EndData(q, p.core.state, toll).core == q.core
  {
  }

  lemma LeftState(p: Parser, stack: seq<string>)
    requires Located(ROWS, p.core, stack) && stack != []
    ensures p.core.depth > 0 && Located(ROWS, Leave(ROWS, p.core), stack[..|stack| - 1])
    ensures p.core.Known() ==>
              p.core.state in ParentTable(ROWS, |ROWS|) && Joins(Leave(ROWS, p.core).state, p.core.state)
  {
    TableIsTree();
    LeaveLocated(ROWS, p.core, stack);
    if p.core.Known() {
      var below := stack[..|stack| - 1];
      KnownPartBound(ROWS, below);
      var k := Lookup(ROWS, KnownPart(ROWS, below).0, stack[|stack| - 1]).value;
      ParentsAreUnique(ROWS, |ROWS|, k);
      RowsJoin();
    }
  }

  lemma EndIsSound(p: Parser, stack: seq<string>, env: Env)
    requires Sound(p, stack) && stack != []
    ensures Sound(OnEnd(p, env), stack[..|stack| - 1])
  {
    if !p.err {
      LeftState(p, stack);
      if p.core.Known() {
        EndKeepsFlags(p, p.(core := Leave(ROWS, p.core)), env.toll);
      }
    }
  }

  lemma EventIsSound(p: Parser, stack: seq<string>, e: Event, env: Env)
    requires Sound(p, stack) && Open(stack, [e]).Some?
    ensures Sound(OnEvent(p, e, env), Open(stack, [e]).value)
  {
    assert [e][1..] == [];
    match e
    case Start(name, attrs) => StartIsSound(p, stack, name, attrs, env);
    case Chars(s) => 
    case End => EndIsSound(p, stack, env);
  }

  lemma {:induction false} FoldIsSound(p: Parser, stack: seq<string>, events: seq<Event>, env: Env)
    requires Sound(p, stack) && Open(stack, events).Some?
    ensures Sound(Fold(p, events, env), Open(stack, events).value)
    decreases |events|
  {
    if events != [] {
      assert events[0..] == events;
      NextEvent(stack, events, 0);
      EventIsSound(p, stack, events[0], env);
      FoldIsSound(OnEvent(p, events[0], env), Open(stack, [events[0]]).value, events[1..], env);
    }
  }

  /** What the handler of this event asserts about the record in progress. */
  predicate Asserted(p: Parser, e: Event) {
    !p.err ==>
      match e
      case Start(name, _) =>
        Follows(ROWS, p.core, name).Some? ==> StartAsserts(p.record, Enter(ROWS, p.core, name).state)
      case Chars(_) => true
      case End => p.core.depth > 0 && (p.core.Known() ==> EndAsserts(p.record, p.core.state))
  }

  lemma SoundAsserts(p: Parser, stack: seq<string>, e: Event, env: Env)
    requires Sound(p, stack) && Open(stack, [e]).Some?
    ensures Asserted(p, e)
  {
    if !p.err {
      match e {
        case Start(name, attrs) => StartIsSound(p, stack, name, attrs, env);
        case Chars(_) =>
        case End => LeftState(p, stack);
      }
    }
  }

  /** On every prefix of the events of every document, whatever the warning callback answers, the
      assertions that the next event meets hold. */
  lemma NoAssertionFails(r: RepoMd, root: Node, k: nat, env: Env)
    requires k < |Events(root)|
    ensures Asserted(Fold(Fresh(r), Events(root)[..k], env), Events(root)[k])
  {
    PrefixIsBalanced(root, k);
    var before := Events(root)[..k];
    FoldIsSound(Fresh(r), [], before, env);
    SoundAsserts(Fold(Fresh(r), before, env), Open([], before).value, Events(root)[k], env);
  }
}
