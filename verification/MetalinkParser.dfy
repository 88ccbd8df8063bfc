/** The handlers of librepo/metalink.c on a parser object, with their assertions. */
module MetalinkParser {
  import opened Wrappers
  import opened Xml
  import opened WarningCallback
  import opened SaxTable
  import opened MetalinkTable
  import opened Metalink
  import opened MetalinkSafety
  import opened MetalinkProof
  import opened MetalinkExtraction
  import opened MetalinkErrors
  import opened SaxParser

  class Handlers {
    const env: Env
    const pd: ParserData
    var ignore: bool
    var found: bool
    var err: bool
    var warnings: nat
    var metalink: Metalink
    var metalinkHash: HashRef
    var metalinkAlternate: bool
    var metalinkUrl: bool

    ghost predicate Valid()
      reads this, pd, pd.content
    {
      pd.Valid() && pd.rows == ROWS
    }

    ghost function View(): Parser
      requires Valid()
      reads this, pd, pd.content
    {
      Parser(pd.View(), ignore, found, err, warnings, metalink, metalinkHash, metalinkAlternate, metalinkUrl)
    }

    constructor (metalink: Metalink, env: Env)
      ensures Valid() && View() == Fresh(metalink) && this.env == env && fresh(pd) && fresh(pd.content)
    {
      this.env, this.metalink := env, metalink;
      pd := new ParserData(ROWS);
      ignore, found, err, warnings := true, false, false, 0;
      metalinkHash, metalinkAlternate, metalinkUrl := NoHash, false, false;
    }

    method Warning()
      requires Valid()
      modifies this`warnings, this`err
      ensures Valid() && View() == Warn(old(View()), env)
    {
      err := err || env.warn(warnings);
      warnings := warnings + 1;
    }

    method Strtoll(text: string) returns (value: int)
      requires Valid()
      modifies this`warnings, this`err
      ensures Valid() && (value, View()) == Number(old(View()), env, text)
    {
      var (v, bad) := env.toll(text);
      value := v;
      if bad {
        Warning();
      }
    }

    /** lr_metalink_start_handler */
    method StartHandler(element: string, attrs: Attributes)
      requires Valid() && (err || Flags(View()))
      modifies this, pd, pd.content
      ensures Valid() && pd.content == old(pd.content)
      ensures View() == OnStart(old(View()), element, attrs, env)
    {
      if err {
        return;
      }
      ghost var before := View();
      var entry := pd.EnterElement(element);
      if entry == Skipped || entry == NoChildren {
        return;
      }
      if entry == Unknown {
        Warning();
        return;
      }
      if ignore && pd.state != FILE {
        return;
      }
      EnteredState(before, element);
      StartSwitch(before, attrs);
    }

    /** The switch of the start handler, for the state just entered. */
    method StartSwitch(ghost before: Parser, attrs: Attributes)
      requires Valid() && !err && Flags(before) && View() == before.(core := View().core)
      requires exists k: nat :: k < |ROWS| && before.core.state == Source(k) && pd.state == Target(k)
      requires ignore ==> pd.state == FILE
      modifies this
      ensures Valid() && View() == StartAction(old(View()), attrs, env)
    {
      if pd.state == FILE {
        StartFile(attrs);
      } else if pd.state == ALTERNATE {
        assert !metalinkUrl && metalinkHash == NoHash && !metalinkAlternate;
        metalink := metalink.(alternates := metalink.alternates + [Alternate(0, 0, [])]);
        metalinkAlternate := true;
      } else if pd.state == HASH {
        assert !metalinkUrl && metalinkHash == NoHash && !metalinkAlternate;
        NewHash(attrs, OfFile);
      } else if pd.state == ALTERNATE_HASH {
        assert metalinkAlternate;
        assert !metalinkUrl && metalinkHash == NoHash;
        NewHash(attrs, OfAlternate);
      } else if pd.state == URL {
        assert !metalinkUrl && metalinkHash == NoHash;
        StartUrl(attrs);
      }
    }

    method StartFile(attrs: Attributes)
      requires Valid() && !err && pd.state == FILE
      requires !metalinkUrl && metalinkHash == NoHash
      modifies this
      ensures Valid() && View() == StartAction(old(View()), attrs, env)
    {
      assert !metalinkUrl && metalinkHash == NoHash;
      var name := FindAttr("name", attrs);
      if name.None? {
        err := true;
      } else if found || name.value != env.filename {
        ignore := true;
      } else {
        ignore, found := false, true;
        metalink := metalink.(filename := name);
      }
    }

    method NewHash(attrs: Attributes, ref: HashRef)
      requires Valid() && ref != NoHash
      modifies this
      ensures Valid() && View() == StartHash(old(View()), attrs, env, ref)
    {
      var t := FindAttr("type", attrs);
      if t.None? {
        Warning();
        return;
      }
      metalink := AddHash(metalink, ref, Hash(t.value, None));
      metalinkHash := ref;
    }

    method StartUrl(attrs: Attributes)
      requires Valid() && pd.state == URL
      modifies this
      ensures Valid() && View() == StartAction(old(View()), attrs, env)
    {
      var protocol := FindAttr("protocol", attrs);
      var utype := FindAttr("type", attrs);
      var location := FindAttr("location", attrs);
      var preference := ReadPreference(attrs);
      metalink := metalink.(urls := metalink.urls + [Url(protocol, utype, location, preference, None)]);
      metalinkUrl := true;
    }

    method ReadPreference(attrs: Attributes) returns (preference: int)
      requires Valid()
      modifies this`warnings, this`err
      ensures Valid() && (preference, View()) == Preference(old(View()), env, attrs)
    {
      preference := 0;
      var val := FindAttr("preference", attrs);
      if val.Some? {
        var value := Strtoll(val.value);
        if value < 0 || value > 100 {
          Warning();
        } else {
          preference := value;
        }
      }
    }

    /** An end event that closes an open element finds a parent to go back to. */
    static lemma CanLeave(p: Parser, stack: seq<string>)
      requires Sound(p, stack) && stack != [] && !p.err
      ensures Flags(p) && p.core.depth > 0
      ensures p.core.Known() ==> p.core.state in ParentTable(ROWS, |ROWS|)
    {
      TableIsTree();
      LeaveLocated(ROWS, p.core, stack);
    }

    /** lr_metalink_end_handler; the stack of open elements says that the event is balanced. */
    method EndHandler(ghost stack: seq<string>)
      requires Valid() && Sound(View(), stack) && stack != []
      modifies this, pd
      ensures Valid() && pd.content == old(pd.content)
      ensures View() == OnEnd(old(View()), env)
    {
      if err {
        return;
      }
      ghost var before := View();
      CanLeave(before, stack);
      var known, state := pd.LeaveElement();
      assert View() == before.(core := Leave(ROWS, before.core));
      if !known || (ignore && state != FILE) {
        return;
      }
      EndSwitch(before, state);
    }

    /** The switch of the end handler, for the state just left. */
    method EndSwitch(ghost before: Parser, state: nat)
      requires Valid() && !err && (ignore ==> state == FILE) && Flags(before) && before.core.state == state
      requires View() == before.(core := View().core)
      modifies this
      ensures Valid() && View() == EndAction(old(View()), state, env)
    {
      var text := pd.content[..pd.lcontent];
      if state == TIMESTAMP {
        assert !metalinkUrl && metalinkHash == NoHash;
        var n := Strtoll(text);
        metalink := metalink.(timestamp := n);
      } else if state == SIZE {
        assert !metalinkUrl && metalinkHash == NoHash;
        var n := Strtoll(text);
        metalink := metalink.(size := n);
      } else if state == HASH || state == ALTERNATE_HASH {
        assert !metalinkUrl && (state == ALTERNATE_HASH ==> metalinkAlternate);
        if metalinkHash != NoHash {
          metalink := SetHash(metalink, metalinkHash, text);
          metalinkHash := NoHash;
        }
      } else if state == ALTERNATE {
        assert metalinkAlternate;
        metalinkAlternate := false;
      } else if state == ALTERNATE_TIMESTAMP || state == ALTERNATE_SIZE {
        assert !metalinkUrl && metalinkHash == NoHash && metalinkAlternate;
        SetAlternateNumber(state, text);
      } else if state == URL {
        assert metalinkUrl && metalinkHash == NoHash;
        metalink := SetUrl(metalink, text);
        metalinkUrl := false;
      }
    }

    method SetAlternateNumber(state: nat, text: string)
      requires Valid() && text == pd.content[..pd.lcontent] && |metalink.alternates| > 0
      requires state == ALTERNATE_TIMESTAMP || state == ALTERNATE_SIZE
      modifies this
      ensures Valid() && View() == EndAction(old(View()), state, env)
    {
      var n := Strtoll(text);
      var last := metalink.alternates[|metalink.alternates| - 1];
      var changed := if state == ALTERNATE_SIZE then last.(size := n) else last.(timestamp := n);
      metalink := metalink.(alternates := metalink.alternates[|metalink.alternates| - 1 := changed]);
    }

    method CharHandler(s: string)
      requires Valid()
      modifies pd, pd.content
      ensures Valid() && (pd.content == old(pd.content) || fresh(pd.content))
      ensures View() == OnChars(old(View()), s)
    {
      if !err {
        pd.CharHandler(s);
      }
    }

    /** What libxml2 calls for an event. */
    method Handle(e: Event, ghost stack: seq<string>)
      requires Valid() && Sound(View(), stack) && Open(stack, [e]).Some?
      modifies this, pd, pd.content
      ensures Valid() && (pd.content == old(pd.content) || fresh(pd.content))
      ensures View() == OnEvent(old(View()), e, env)
    {
      match e
      case Start(name, attrs) => StartHandler(name, attrs);
      case Chars(s) => CharHandler(s);
      case End => EndHandler(stack);
    }
  }

  /** lr_metalink_parse_file on a document libxml2 accepts: TRUE exactly when every file has a
      name, the wanted file is there and the warning callback lets all warnings pass; then the object
      has gained what the document declares about the file. */
  method ParseFile(root: Node, metalink: Metalink, env: Env) returns (ok: bool, result: Metalink)
    requires root.Elem?
    ensures ok ==> Extract(metalink, root, env) == Some(result)
    ensures ok <==> && AllNamed(FilesOf(root)) && Wanted(FilesOf(root), env.filename).Some?
                    && !Stopped(env.warn, 0, DocumentWarnings(root, env.filename, env.toll))
  {
    var h := new Handlers(metalink, env);
    var events := Events(root);
    var k := 0;
    ghost var stack: seq<string> := [];
    NodeIsBalanced([], root, 0);
    while k < |events|
      invariant 0 <= k <= |events| && h.Valid() && h.env == env
      invariant fresh(h) && fresh(h.pd) && fresh(h.pd.content)
      invariant Sound(h.View(), stack) && Open(stack, events[k..]) == Some([])
      invariant Fold(h.View(), events[k..], env) == AfterNode(Fresh(metalink), root, env)
      decreases |events| - k
    {
      NextEvent(stack, events, k);
      EventIsSound(h.View(), stack, events[k], env);
      h.Handle(events[k], stack);
      stack := Open(stack, [events[k]]).value;
      k := k + 1;
    }
    ok := !h.err && h.found;
    result := h.metalink;
    FailsExactlyWhen(metalink, root, env);
    if !h.err {
      ParseIsExtract(metalink, root, env);
    }
  }
}
