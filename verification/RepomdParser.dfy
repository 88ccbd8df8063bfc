/** The handlers of librepo/repomd.c on a parser object, with their assertions. */
module RepomdParser {
  import opened Wrappers
  import opened Xml
  import opened WarningCallback
  import opened SaxTable
  import opened RepomdTable
  import opened Repomd
  import opened RepomdSafety
  import opened RepomdProof
  import opened RepomdExtraction
  import opened SaxParser

  class Handlers {
    const env: Env
    const pd: ParserData
    var repomdfound: bool
    var repomdrecord: bool
    var cpeid: Option<string>
    var err: bool
    var warnings: nat
    var repomd: RepoMd

    ghost predicate Valid()
      reads this, pd, pd.content
    {
      pd.Valid() && pd.rows == ROWS
    }

    ghost function View(): Parser
      requires Valid()
      reads this, pd, pd.content
    {
      Parser(pd.View(), err, warnings, repomdfound, repomdrecord, cpeid, repomd)
    }

    constructor (repomd: RepoMd, env: Env)
      ensures Valid() && View() == Fresh(repomd) && this.env == env && fresh(pd) && fresh(pd.content)
    {
      this.env, this.repomd := env, repomd;
      pd := new ParserData(ROWS);
      repomdfound, repomdrecord, cpeid, err, warnings := false, false, None, false, 0;
    }

    method Warning()
      requires Valid()
      modifies this`warnings, this`err
      ensures Valid() && View() == WarnIf(old(View()), env, true)
    {
      err := err || env.warn(warnings);
      warnings := warnings + 1;
    }

    method Strtoll(text: string) returns (value: int)
      requires Valid()
      modifies this`warnings, this`err
      ensures Valid() && value == env.toll(text).0 && View() == WarnIf(old(View()), env, env.toll(text).1)
    {
      var (v, bad) := env.toll(text);
      value := v;
      if bad {
        Warning();
      }
    }

    /** The record in progress is updated where it is. */
    method SetRecord(record: Record)
      requires Valid() && repomd.records != []
      modifies this`repomd
      ensures Valid() && View() == old(View()).(r := SetLast(old(View()).r, record))
    {
      repomd := repomd.(records := repomd.records[|repomd.records| - 1 := record]);
    }

    /** lr_start_handler; the stack of open elements says that the document so far is balanced. */
    method StartHandler(element: string, attrs: Attributes, ghost stack: seq<string>)
      requires Valid() && Sound(View(), stack)
      modifies this, pd, pd.content
      ensures Valid() && pd.content == old(pd.content)
      ensures View() == OnStart(old(View()), element, attrs, env)
    {
      if err {
        return;
      }
      ghost var before := View();
      StartIsSound(before, stack, element, attrs, env);
      var entry := pd.EnterElement(element);
      if entry == Skipped || entry == NoChildren {
        return;
      }
      if entry == Unknown {
        Warning();
        return;
      }
      StartSwitch(before, attrs);
    }

    method StartSwitch(ghost before: Parser, attrs: Attributes)
      requires Valid() && Flags(before) && View() == before.(core := View().core)
      requires Joins(before.core.state, pd.state)
      modifies this
      ensures Valid() && View() == WarnIf(StartData(old(View()), attrs), env, StartWarns(pd.state, attrs))
    {
      StartKeepsFlags(before, View(), attrs, env);
      if pd.state == REPOMD {
        repomdfound := true;
      } else if pd.state == REPOID {
        assert !repomdrecord;
        var val := FindAttr("type", attrs);
        if val.Some? {
          repomd := repomd.(repoidType := val);
        }
      } else if pd.state == DISTRO {
        assert !repomdrecord;
        var val := FindAttr("cpeid", attrs);
        if val.Some? {
          cpeid := val;
        }
      } else if pd.state == DATA {
        assert !repomdrecord;
        NewData(attrs);
      } else if pd.state == LOCATION {
        assert repomdrecord;
        NewLocation(attrs);
      } else if pd.state in {CHECKSUM, OPENCHECKSUM, HEADERCHECKSUM} {
        assert repomdrecord;
        NewChecksum(attrs);
      }
    }

    method NewData(attrs: Attributes)
      requires Valid() && pd.state == DATA
      modifies this
      ensures Valid() && View() == WarnIf(StartData(old(View()), attrs), env, StartWarns(pd.state, attrs))
    {
      var val := FindAttr("type", attrs);
      if val.None? {
        Warning();
        val := Some("unknown");
      }
      repomd := repomd.(records := repomd.records + [NewRecord(val.value)]);
      repomdrecord := true;
    }

    method NewLocation(attrs: Attributes)
      requires Valid() && pd.state == LOCATION && repomd.records != []
      modifies this
      ensures Valid() && View() == WarnIf(StartData(old(View()), attrs), env, StartWarns(pd.state, attrs))
    {
      ghost var r := repomd;
      var href := FindAttr("href", attrs);
      var rec := LastRecord(repomd);
      if href.Some? {
        rec := rec.(locationHref := href);
      } else {
        Warning();
      }
      var base := FindAttr("xml:base", attrs);
      if base.Some? {
        rec := rec.(locationBase := base);
      }
      SetRecord(rec);
    }

    method NewChecksum(attrs: Attributes)
      requires Valid() && pd.state in {CHECKSUM, OPENCHECKSUM, HEADERCHECKSUM} && repomd.records != []
      modifies this
      ensures Valid() && View() == WarnIf(StartData(old(View()), attrs), env, StartWarns(pd.state, attrs))
    {
      var rec := LastRecord(repomd);
      LastIsSet(repomd, rec, rec);
      var val := FindAttr("type", attrs);
      if val.None? {
        Warning();
        return;
      }
      if pd.state == CHECKSUM {
        rec := rec.(checksumType := val);
      } else if pd.state == OPENCHECKSUM {
        rec := rec.(checksumOpenType := val);
      } else {
        rec := rec.(headerChecksumType := val);
      }
      SetRecord(rec);
    }

    /** lr_end_handler */
    method EndHandler(ghost stack: seq<string>)
      requires Valid() && Sound(View(), stack) && stack != []
      modifies this, pd
      ensures Valid() && pd.content == old(pd.content)
      ensures View() == OnEnd(old(View()), env)
    {
      if err {
        return;
      }
      ghost var before := View();
      LeftState(before, stack);
      var known, state := pd.LeaveElement();
      assert View() == before.(core := Leave(ROWS, before.core));
      if !known {
        return;
      }
      EndSwitch(before, state);
    }

    method EndSwitch(ghost before: Parser, state: nat)
      requires Valid() && Flags(before) && before.core.state == state
      requires View() == before.(core := View().core) && Joins(pd.state, state)
      modifies this
      ensures Valid()
      ensures View() == WarnIf(EndData(old(View()), state, env.toll), env,
                               EndWarns(state, old(View()).core.content, env.toll))
    {
      EndKeepsFlags(before, View(), env.toll);
      var text := pd.content[..pd.lcontent];
      if state == REVISION {
        assert !repomdrecord;
        if pd.lcontent == 0 {
          Warning();
        } else {
          repomd := repomd.(revision := Some(text));
        }
      } else if state == REPOID {
        assert !repomdrecord;
        repomd := repomd.(repoid := Some(text));
      } else if state == REPO {
        assert !repomdrecord;
        repomd := repomd.(repoTags := repomd.repoTags + [text]);
      } else if state == CONTENT {
        assert !repomdrecord;
        repomd := repomd.(contentTags := repomd.contentTags + [text]);
      } else if state == DISTRO {
        assert !repomdrecord;
        repomd := repomd.(distroTags := repomd.distroTags + [DistroTag(cpeid, text)]);
        cpeid := None;
      } else if state == DATA {
        assert repomdrecord;
        repomdrecord := false;
      } else if state >= CHECKSUM {
        assert repomdrecord;
        EndOfRecordLeaf(state, text);
      }
    }

    method EndOfRecordLeaf(state: nat, text: string)
      requires Valid() && CHECKSUM <= state <= DBVERSION && repomd.records != [] && text == View().core.content
      modifies this
      ensures Valid()
      ensures View() == WarnIf(EndData(old(View()), state, env.toll), env, EndWarns(state, text, env.toll))
    {
      if state <= HEADERCHECKSUM {
        EndOfChecksum(state, text);
      } else {
        EndOfNumber(state, text);
      }
    }

    method EndOfChecksum(state: nat, text: string)
      requires Valid() && CHECKSUM <= state <= HEADERCHECKSUM && repomd.records != []
      modifies this`repomd
      ensures Valid()
      ensures View() == old(View()).(r := SetLast(old(repomd), EndRecord(LastRecord(old(repomd)), state, text, env.toll)))
    {
      var rec := LastRecord(repomd);
      if state == CHECKSUM {
        rec := rec.(checksum := Some(text));
      } else if state == OPENCHECKSUM {
        rec := rec.(checksumOpen := Some(text));
      } else {
        rec := rec.(headerChecksum := Some(text));
      }
      SetRecord(rec);
    }

    method EndOfNumber(state: nat, text: string)
      requires Valid() && TIMESTAMP <= state <= DBVERSION && repomd.records != []
      modifies this
      ensures Valid()
      ensures View() == WarnIf(old(View()), env, env.toll(text).1)
                        .(r := SetLast(old(repomd), EndRecord(LastRecord(old(repomd)), state, text, env.toll)))
    {
      var n := Strtoll(text);
      var rec := LastRecord(repomd);
      if state == TIMESTAMP {
        rec := rec.(timestamp := n);
      } else if state == SIZE {
        rec := rec.(size := n);
      } else if state == OPENSIZE {
        rec := rec.(sizeOpen := n);
      } else if state == HEADERSIZE {
        rec := rec.(sizeHeader := n);
      } else {
        rec := rec.(dbVersion := ToInt(n));
      }
      SetRecord(rec);
    }

    method CharHandler(s: string)
      requires Valid()
      modifies pd, pd.content
      ensures Valid() && (pd.content == old(pd.content) || fresh(pd.content))
      ensures View() == OnChars(old(View()), s)
    {
      if !err {
        pd.CharHandler(s);
      }
    }

    /** What libxml2 calls for an event. */
    method Handle(e: Event, ghost stack: seq<string>)
      requires Valid() && Sound(View(), stack) && Open(stack, [e]).Some?
      modifies this, pd, pd.content
      ensures Valid() && (pd.content == old(pd.content) || fresh(pd.content))
      ensures View() == OnEvent(old(View()), e, env)
    {
      match e
      case Start(name, attrs) => StartHandler(name, attrs, stack);
      case Chars(s) => CharHandler(s);
      case End => EndHandler(stack);
    }
  }

  /** lr_yum_repomd_parse_file on a document libxml2 accepts: TRUE exactly when its root is a repomd element
      and the warning callback lets all its warnings pass; then the object has gained what the document
      says. */
  method ParseFile(root: Node, repomd: RepoMd, env: Env) returns (ok: bool, result: RepoMd)
    requires root.Elem?
    ensures ok <==> root.name == "repomd" && !Stopped(env.warn, 0, WarningsAt(START, root, env.toll))
    ensures ok ==> result == Read(repomd, root, env.toll)
  {
    var h := new Handlers(repomd, env);
    var events := Events(root);
    var k := 0;
    ghost var stack: seq<string> := [];
    NodeIsBalanced([], root, 0);
    while k < |events|
      invariant 0 <= k <= |events| && h.Valid() && h.env == env
      invariant fresh(h) && fresh(h.pd) && fresh(h.pd.content)
      invariant Sound(h.View(), stack) && Open(stack, events[k..]) == Some([])
      invariant Fold(h.View(), events[k..], env) == AfterNode(Fresh(repomd), root, env)
      decreases |events| - k
    {
      NextEvent(stack, events, k);
      EventIsSound(h.View(), stack, events[k], env);
      h.Handle(events[k], stack);
      stack := Open(stack, [events[k]]).value;
      k := k + 1;
    }
    ParseIsRead(repomd, root, env);
    ok := !h.err && h.repomdfound;
    result := h.repomd;
  }
}
