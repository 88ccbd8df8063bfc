/** The main theorem on repomd.xml, built up from the leaves of the table to its root. */
module RepomdExtraction {
  import opened Wrappers
  import opened Xml
  import opened WarningCallback
  import opened SaxTable
  import opened RepomdTable
  import opened Repomd
  import opened RepomdProof

  // ---------------------------------------------------------------- the readings add up

  predicate Named(n: Node, name: string) {
    n.Elem? && n.name == name
  }

  lemma OneNode(n: Node)
    ensures forall name: string :: Texts([n], name) == if Named(n, name) then [Content(n)] else []
    ensures forall name: string, attr: string ::
              Values([n], name, attr)
              == if Named(n, name) && n.Elem? && Attr(n.attrs, attr).Some? then [Attr(n.attrs, attr).value] else []
  {
    assert [n][1..] == [];
  }

  lemma {:induction false} TextsConcat(a: seq<Node>, b: seq<Node>, name: string)
    ensures Texts(a + b, name) == Texts(a, name) + Texts(b, name)
  {
    if a == [] {
      assert a + b == b;
    } else {
      assert (a + b)[1..] == a[1..] + b;
      TextsConcat(a[1..], b, name);
    }
  }

  lemma {:induction false} DistrosConcat(a: seq<Node>, b: seq<Node>)
    ensures Distros(a + b) == Distros(a) + Distros(b)
  {
    if a == [] {
      assert a + b == b;
    } else {
      assert (a + b)[1..] == a[1..] + b;
      DistrosConcat(a[1..], b);
    }
  }

  lemma {:induction false} NonEmptyConcat(a: seq<string>, b: seq<string>)
    ensures NonEmpty(a + b) == NonEmpty(a) + NonEmpty(b)
  {
    if a == [] {
      assert a + b == b;
    } else {
      assert (a + b)[1..] == a[1..] + b;
      NonEmptyConcat(a[1..], b);
    }
  }

  lemma TextsStep(nodes: seq<Node>, name: string)
    requires nodes != []
    ensures Texts(nodes, name) == Texts([nodes[0]], name) + Texts(nodes[1..], name)
  {
    TextsConcat([nodes[0]], nodes[1..], name);
    assert [nodes[0]] + nodes[1..] == nodes;
  }

  lemma LastAddsUp(start: Option<string>, a: seq<string>, b: seq<string>)
    ensures Last(start, a + b) == Last(Last(start, a), b)
  {
    assert b == [] ==> a + b == a;
  }

  lemma TextAddsUp(start: Option<string>, nodes: seq<Node>, name: string)
    requires nodes != []
    ensures Last(start, Texts(nodes, name)) == Last(Last(start, Texts([nodes[0]], name)), Texts(nodes[1..], name))
  {
    TextsStep(nodes, name);
    LastAddsUp(start, Texts([nodes[0]], name), Texts(nodes[1..], name));
  }

  lemma ValueAddsUp(start: Option<string>, nodes: seq<Node>, name: string, attr: string)
    requires nodes != []
    ensures Last(start, Values(nodes, name, attr))
            == Last(Last(start, Values([nodes[0]], name, attr)), Values(nodes[1..], name, attr))
  {
    OneNode(nodes[0]);
    LastAddsUp(start, Values([nodes[0]], name, attr), Values(nodes[1..], name, attr));
  }

  lemma NumberAddsUp(start: int, nodes: seq<Node>, name: string, toll: Toll)
    requires nodes != []
    ensures LastNumber(start, Texts(nodes, name), toll)
            == LastNumber(LastNumber(start, Texts([nodes[0]], name), toll), Texts(nodes[1..], name), toll)
    ensures LastInt(start, Texts(nodes, name), toll)
            == LastInt(LastInt(start, Texts([nodes[0]], name), toll), Texts(nodes[1..], name), toll)
  {
    TextsStep(nodes, name);
  }

  lemma RecordAddsUp(rec: Record, nodes: seq<Node>, toll: Toll)
    requires nodes != []
    ensures RecordOf(rec, nodes, toll) == RecordOf(RecordOf(rec, [nodes[0]], toll), nodes[1..], toll)
  {
    ValueAddsUp(rec.locationHref, nodes, "location", "href");
    ValueAddsUp(rec.locationBase, nodes, "location", "xml:base");
    TextAddsUp(rec.checksum, nodes, "checksum");
    ValueAddsUp(rec.checksumType, nodes, "checksum", "type");
    TextAddsUp(rec.checksumOpen, nodes, "open-checksum");
    ValueAddsUp(rec.checksumOpenType, nodes, "open-checksum", "type");
    TextAddsUp(rec.headerChecksum, nodes, "header-checksum");
    ValueAddsUp(rec.headerChecksumType, nodes, "header-checksum", "type");
    NumberAddsUp(rec.timestamp, nodes, "timestamp", toll);
    NumberAddsUp(rec.size, nodes, "size", toll);
    NumberAddsUp(rec.sizeOpen, nodes, "open-size", toll);
    NumberAddsUp(rec.sizeHeader, nodes, "header-size", toll);
    NumberAddsUp(rec.dbVersion, nodes, "database_version", toll);
  }

  lemma TagsAddUp(r: RepoMd, a: seq<Node>, b: seq<Node>)
    ensures TagsOf(r, a + b) == TagsOf(TagsOf(r, a), b)
  {
    TextsConcat(a, b, "repo");
    TextsConcat(a, b, "content");
    DistrosConcat(a, b);
    ConcatIsAssociative(r.repoTags, Texts(a, "repo"), Texts(b, "repo"));
    ConcatIsAssociative(r.contentTags, Texts(a, "content"), Texts(b, "content"));
    ConcatIsAssociative(r.distroTags, Distros(a), Distros(b));
  }

  lemma RecordsAddUp(xs: seq<Record>, nodes: seq<Node>, toll: Toll)
    requires nodes != []
    ensures xs + Records(nodes, toll) == (xs + Records([nodes[0]], toll)) + Records(nodes[1..], toll)
  {
    assert [nodes[0]][1..] == [];
  }

  lemma RevisionAddsUp(start: Option<string>, nodes: seq<Node>)
    requires nodes != []
    ensures Last(start, NonEmpty(Texts(nodes, "revision")))
            == Last(Last(start, NonEmpty(Texts([nodes[0]], "revision"))), NonEmpty(Texts(nodes[1..], "revision")))
  {
    var (first, rest) := (Texts([nodes[0]], "revision"), Texts(nodes[1..], "revision"));
    TextsStep(nodes, "revision");
    NonEmptyConcat(first, rest);
    LastAddsUp(start, NonEmpty(first), NonEmpty(rest));
  }

  lemma ContentsAddUp(r: RepoMd, nodes: seq<Node>, toll: Toll)
    requires nodes != []
    ensures Contents(r, nodes, toll) == Contents(Contents(r, [nodes[0]], toll), nodes[1..], toll)
  {
    var (first, rest) := (Descend([nodes[0]], "tags"), Descend(nodes[1..], "tags"));
    DescendStep(nodes, "tags");
    assert nodes[..1] == [nodes[0]];
    TagsAddUp(r, first, rest);
    RevisionAddsUp(r.revision, nodes);
    TextAddsUp(r.repoid, nodes, "repoid");
    ValueAddsUp(r.repoidType, nodes, "repoid", "type");
    RecordsAddUp(r.records, nodes, toll);
  }

  // ---------------------------------------------------------------- records

  predicate IsChild(n: Node, state: nat, k: nat) {
    n.Elem? && Child(state, n.name) == Some(k)
  }

  function TextOf(n: Node, state: nat, k: nat): seq<string> {
    if IsChild(n, state, k) then [Content(n)] else []
  }

  function ValueOf(n: Node, state: nat, k: nat, attr: string): seq<string> {
    if IsChild(n, state, k) && n.Elem? && Attr(n.attrs, attr).Some? then [Attr(n.attrs, attr).value] else []
  }

  /** In its state, the name of an element and the row it follows mean the same. */
  lemma RowOfOne(n: Node, state: nat, k: nat, name: string)
    requires Child(state, name) == Some(k)
    ensures Texts([n], name) == TextOf(n, state, k)
    ensures forall attr: string :: Values([n], name, attr) == ValueOf(n, state, k, attr)
    ensures Named(n, name) <==> IsChild(n, state, k)
  {
    OneNode(n);
    ChildRow(state, name);
    if n.Elem? {
      ChildRow(state, n.name);
    }
  }

  lemma SumRows(n: Node)
    ensures forall attr: string :: Values([n], "location", attr) == ValueOf(n, DATA, 8, attr)
    ensures forall attr: string :: Values([n], "checksum", attr) == ValueOf(n, DATA, 9, attr)
    ensures forall attr: string :: Values([n], "open-checksum", attr) == ValueOf(n, DATA, 10, attr)
    ensures forall attr: string :: Values([n], "header-checksum", attr) == ValueOf(n, DATA, 11, attr)
    ensures Texts([n], "checksum") == TextOf(n, DATA, 9)
    ensures Texts([n], "open-checksum") == TextOf(n, DATA, 10)
    ensures Texts([n], "header-checksum") == TextOf(n, DATA, 11)
  {
    RowOfOne(n, DATA, 8, "location");
    RowOfOne(n, DATA, 9, "checksum");
    RowOfOne(n, DATA, 10, "open-checksum");
    RowOfOne(n, DATA, 11, "header-checksum");
  }

  lemma NumberRows(n: Node)
    ensures Texts([n], "timestamp") == TextOf(n, DATA, 12)
    ensures Texts([n], "size") == TextOf(n, DATA, 13)
    ensures Texts([n], "open-size") == TextOf(n, DATA, 14)
    ensures Texts([n], "header-size") == TextOf(n, DATA, 15)
    ensures Texts([n], "database_version") == TextOf(n, DATA, 16)
  {
    RowOfOne(n, DATA, 12, "timestamp");
    RowOfOne(n, DATA, 13, "size");
    RowOfOne(n, DATA, 14, "open-size");
    RowOfOne(n, DATA, 15, "header-size");
    RowOfOne(n, DATA, 16, "database_version");
  }

  lemma RecordOfOne(rec: Record, n: Node, toll: Toll)
    ensures RecordOf(rec, [n], toll)
            == Record(
                 rec.rtype,
                 Last(rec.locationHref, ValueOf(n, DATA, 8, "href")),
                 Last(rec.locationBase, ValueOf(n, DATA, 8, "xml:base")),
                 Last(rec.checksum, TextOf(n, DATA, 9)), Last(rec.checksumType, ValueOf(n, DATA, 9, "type")),
                 Last(rec.checksumOpen, TextOf(n, DATA, 10)), Last(rec.checksumOpenType, ValueOf(n, DATA, 10, "type")),
                 Last(rec.headerChecksum, TextOf(n, DATA, 11)), Last(rec.headerChecksumType, ValueOf(n, DATA, 11, "type")),
                 LastNumber(rec.timestamp, TextOf(n, DATA, 12), toll), LastNumber(rec.size, TextOf(n, DATA, 13), toll),
                 LastNumber(rec.sizeOpen, TextOf(n, DATA, 14), toll), LastNumber(rec.sizeHeader, TextOf(n, DATA, 15), toll),
                 LastInt(rec.dbVersion, TextOf(n, DATA, 16), toll))
  {
    SumRows(n);
    NumberRows(n);
  }

  lemma LocationLeaf(rec: Record, n: Node, toll: Toll)
    requires n.Elem? && Child(DATA, n.name) == Some(8)
    ensures EndRecord(StartRecord(rec, 9, n.attrs), 9, LeafText(9, n), toll) == RecordOf(rec, [n], toll)
  {
    RecordOfOne(rec, n, toll);
  }

  lemma ChecksumLeaf(rec: Record, n: Node, toll: Toll)
    requires n.Elem? && Child(DATA, n.name) == Some(9)
    ensures EndRecord(StartRecord(rec, 10, n.attrs), 10, LeafText(10, n), toll) == RecordOf(rec, [n], toll)
  {
    RecordOfOne(rec, n, toll);
  }

  lemma OpenChecksumLeaf(rec: Record, n: Node, toll: Toll)
    requires n.Elem? && Child(DATA, n.name) == Some(10)
    ensures EndRecord(StartRecord(rec, 11, n.attrs), 11, LeafText(11, n), toll) == RecordOf(rec, [n], toll)
  {
    RecordOfOne(rec, n, toll);
  }

  lemma HeaderChecksumLeaf(rec: Record, n: Node, toll: Toll)
    requires n.Elem? && Child(DATA, n.name) == Some(11)
    ensures EndRecord(StartRecord(rec, 12, n.attrs), 12, LeafText(12, n), toll) == RecordOf(rec, [n], toll)
  {
    RecordOfOne(rec, n, toll);
  }

  lemma NumberLeaf(rec: Record, n: Node, k: nat, toll: Toll)
    requires n.Elem? && Child(DATA, n.name) == Some(k) && k >= 12
    ensures k <= 16 && EndRecord(StartRecord(rec, k + 1, n.attrs), k + 1, LeafText(k + 1, n), toll) == RecordOf(rec, [n], toll)
  {
    RecordOfOne(rec, n, toll);
  }

  /** A leaf of a data element changes the record as the reading says. */
  lemma RecordLeaf(rec: Record, n: Node, k: nat, toll: Toll)
    requires n.Elem? && Child(DATA, n.name) == Some(k)
    ensures 8 <= k < |ROWS| && ROWS[k].to == k + 1
    ensures EndRecord(StartRecord(rec, k + 1, n.attrs), k + 1, LeafText(k + 1, n), toll) == RecordOf(rec, [n], toll)
  {
    match k
    case 8 => LocationLeaf(rec, n, toll);
    case 9 => ChecksumLeaf(rec, n, toll);
    case 10 => OpenChecksumLeaf(rec, n, toll);
    case 11 => HeaderChecksumLeaf(rec, n, toll);
    case _ => NumberLeaf(rec, n, k, toll);
  }

  lemma RecordStranger(rec: Record, n: Node, toll: Toll)
    requires n.Elem? ==> Child(DATA, n.name).None?
    ensures RecordOf(rec, [n], toll) == rec
  {
    RecordOfOne(rec, n, toll);
  }

  lemma LastIsSet(r: RepoMd, a: Record, b: Record)
    requires r.records != []
    ensures LastRecord(SetLast(r, a)) == a && SetLast(SetLast(r, a), b) == SetLast(r, b)
    ensures SetLast(r, LastRecord(r)) == r
  {
    var n := |r.records|;
    assert r.records[n - 1 := a][n - 1 := b] == r.records[n - 1 := b];
    assert r.records[n - 1 := r.records[n - 1]] == r.records;
  }

  ghost predicate InRecord(p: Parser, env: Env) {
    At(p, DATA, env) && p.record && p.r.records != []
  }

  lemma EnteredRecord(p: Parser, k: nat, attrs: Attributes)
    requires 8 <= k < |ROWS| && ROWS[k].to == k + 1
    ensures Entered(p, k, attrs)
            == p.(core := EnteredCore(p.core, k), r := SetLast(p.r, StartRecord(LastRecord(p.r), k + 1, attrs)),
                  warnings := p.warnings + Count(StartWarns(k + 1, attrs)))
  {
  }

  lemma LeftRecord(p: Parser, q: Parser, toll: Toll)
    requires q.core.state >= LOCATION
    ensures Left(p, q, toll)
            == q.(core := p.core.(docontent := false, content := q.core.content),
                  r := SetLast(q.r, EndRecord(LastRecord(q.r), q.core.state, q.core.content, toll)),
                  warnings := q.warnings + Count(EndWarns(q.core.state, q.core.content, toll)))
  {
  }

  /** What a leaf of a data element does with this text, before it is said what this means for the record. */
  lemma RecordEnds(p: Parser, k: nat, attrs: Attributes, text: string, toll: Toll, rec: Record)
    requires 8 <= k < |ROWS| && ROWS[k].to == k + 1 && p.r.records != [] && !p.core.docontent
    requires ROWS[k].docontent <==> Collects(k + 1)
    requires EndRecord(StartRecord(LastRecord(p.r), k + 1, attrs), k + 1, if Collects(k + 1) then text else "", toll) == rec
    ensures Reads(p, Left(p, WithText(Entered(p, k, attrs), text), toll), SetLast(p.r, rec),
                  Count(StartWarns(k + 1, attrs)) + Count(EndWarns(k + 1, text, toll)))
  {
    assert "" + text == text;
    EnteredRecord(p, k, attrs);
    LeftRecord(p, WithText(Entered(p, k, attrs), text), toll);
    LastIsSet(p.r, StartRecord(LastRecord(p.r), k + 1, attrs), rec);
  }

  lemma RecordElement(p: Parser, n: Node, env: Env, k: nat, rec: Record)
    requires InRecord(p, env) && n.Elem? && Child(DATA, n.name) == Some(k) && 8 <= k < |ROWS| && ROWS[k].to == k + 1
    requires EndRecord(StartRecord(LastRecord(p.r), k + 1, n.attrs), k + 1, LeafText(k + 1, n), env.toll) == rec
    ensures Reads(p, AfterNode(p, n, env), SetLast(p.r, rec), WarningsAt(DATA, n, env.toll))
  {
    KnownRow(DATA, n.name, k);
    RecordEnds(p, k, n.attrs, Content(n), env.toll, rec);
    LeafElement(p, n, env, k);
  }

  lemma TextOfLeaf(p: Parser, n: Node, k: nat)
    requires k < |ROWS|
    ensures AddText(EnteredCore(p.core, k), Content(n)).content == LeafText(ROWS[k].to, n)
  {
    RowsInPlace();
    assert "" + Content(n) == Content(n);
  }

  lemma RecordChild(p: Parser, n: Node, env: Env, rec: Record)
    requires InRecord(p, env) && rec == RecordOf(LastRecord(p.r), [n], env.toll)
    ensures Reads(p, AfterNode(p, n, env), SetLast(p.r, rec), WarningsAt(DATA, n, env.toll))
  {
    if n.Text? || Child(DATA, n.name).None? {
      Stranger(p, n, env);
      RecordStranger(LastRecord(p.r), n, env.toll);
      LastIsSet(p.r, rec, rec);
    } else {
      var k := Child(DATA, n.name).value;
      RecordLeaf(LastRecord(p.r), n, k, env.toll);
      RecordElement(p, n, env, k, rec);
    }
  }

  lemma NoRecordChildren(rec: Record, toll: Toll)
    ensures RecordOf(rec, [], toll) == rec
  {
  }

  lemma {:induction false} RecordChildren(p: Parser, nodes: seq<Node>, env: Env, rec: Record)
    requires InRecord(p, env) && rec == RecordOf(LastRecord(p.r), nodes, env.toll)
    ensures Reads(p, AfterNodes(p, nodes, env), SetLast(p.r, rec), WarningsIn(DATA, nodes, env.toll))
    decreases nodes
  {
    var before := LastRecord(p.r);
    LastIsSet(p.r, before, before);
    if nodes == [] {
      NoRecordChildren(before, env.toll);
    } else {
      var first := RecordOf(before, [nodes[0]], env.toll);
      NodesStep(p, nodes, env);
      RecordChild(p, nodes[0], env, first);
      RecordAddsUp(before, nodes, env.toll);
      LastIsSet(p.r, first, rec);
      RecordChildren(AfterNode(p, nodes[0], env), nodes[1..], env, rec);
    }
  }

  // ---------------------------------------------------------------- tags

  ghost predicate InTags(p: Parser, env: Env) {
    At(p, TAGS, env) && p.cpeid == None
  }

  lemma TagsOfOne(r: RepoMd, n: Node)
    ensures TagsOf(r, [n])
            == r.(repoTags := r.repoTags + TextOf(n, TAGS, 5), contentTags := r.contentTags + TextOf(n, TAGS, 6),
                  distroTags := r.distroTags + DistrosOf(n))
    ensures DistrosOf(n) == if IsChild(n, TAGS, 7) && n.Elem? then [DistroTag(Attr(n.attrs, "cpeid"), Content(n))] else []
  {
    RowOfOne(n, TAGS, 5, "repo");
    RowOfOne(n, TAGS, 6, "content");
    RowOfOne(n, TAGS, 7, "distro");
    assert [n][1..] == [];
    assert Distros([n]) == DistrosOf(n);
    assert Texts([n], "repo") == TextOf(n, TAGS, 5);
    assert Texts([n], "content") == TextOf(n, TAGS, 6);
    assert TagsOf(r, [n]).repoTags == r.repoTags + TextOf(n, TAGS, 5);
    assert TagsOf(r, [n]).contentTags == r.contentTags + TextOf(n, TAGS, 6);
    assert TagsOf(r, [n]).distroTags == r.distroTags + DistrosOf(n);
  }

  /** What a leaf of a tags element does, with this text. */
  lemma TagEnds(p: Parser, k: nat, attrs: Attributes, text: string, toll: Toll)
    requires 5 <= k <= 7 && p.cpeid == None && !p.core.docontent
    ensures k < |ROWS| && ROWS[k].to == k
    ensures Reads(p, Left(p, WithText(Entered(p, k, attrs), text), toll),
                  if k == 5 then p.r.(repoTags := p.r.repoTags + [text])
                  else if k == 6 then p.r.(contentTags := p.r.contentTags + [text])
                  else p.r.(distroTags := p.r.distroTags + [DistroTag(Attr(attrs, "cpeid"), text)]),
                  0)
  {
    assert "" + text == text;
    StartKeepsCore(p.(core := EnteredCore(p.core, k)), attrs);
  }

  lemma TagElement(p: Parser, n: Node, env: Env, k: nat)
    requires InTags(p, env) && n.Elem? && Child(TAGS, n.name) == Some(k)
    ensures 5 <= k <= 7
    ensures Reads(p, AfterNode(p, n, env),
                  if k == 5 then p.r.(repoTags := p.r.repoTags + [Content(n)])
                  else if k == 6 then p.r.(contentTags := p.r.contentTags + [Content(n)])
                  else p.r.(distroTags := p.r.distroTags + [DistroTag(Attr(n.attrs, "cpeid"), Content(n))]),
                  WarningsAt(TAGS, n, env.toll))
  {
    TagEnds(p, k, n.attrs, Content(n), env.toll);
    LeafElement(p, n, env, k);
  }

  lemma TagsChild(p: Parser, n: Node, env: Env)
    requires InTags(p, env)
    ensures Reads(p, AfterNode(p, n, env), TagsOf(p.r, [n]), WarningsAt(TAGS, n, env.toll))
  {
    TagsOfOne(p.r, n);
    assert p.r.repoTags + [] == p.r.repoTags && p.r.contentTags + [] == p.r.contentTags;
    assert p.r.distroTags + [] == p.r.distroTags;
    if n.Text? || Child(TAGS, n.name).None? {
      Stranger(p, n, env);
    } else {
      TagElement(p, n, env, Child(TAGS, n.name).value);
    }
  }

  lemma {:induction false} TagsChildren(p: Parser, nodes: seq<Node>, env: Env)
    requires InTags(p, env)
    ensures Reads(p, AfterNodes(p, nodes, env), TagsOf(p.r, nodes), WarningsIn(TAGS, nodes, env.toll))
    decreases nodes
  {
    if nodes == [] {
      assert TagsOf(p.r, []) == p.r;
    } else {
      NodesStep(p, nodes, env);
      TagsChild(p, nodes[0], env);
      TagsChildren(AfterNode(p, nodes[0], env), nodes[1..], env);
      assert [nodes[0]] + nodes[1..] == nodes;
      TagsAddUp(p.r, [nodes[0]], nodes[1..]);
    }
  }

  // ---------------------------------------------------------------- the repomd element

  ghost predicate InRepomd(p: Parser, env: Env) {
    At(p, REPOMD, env) && p.cpeid == None && !p.record
  }

  lemma RevisionOfOne(start: Option<string>, n: Node)
    ensures Last(start, NonEmpty(Texts([n], "revision")))
            == if IsChild(n, REPOMD, 1) && Content(n) != "" then Some(Content(n)) else start
  {
    RowOfOne(n, REPOMD, 1, "revision");
    assert [Content(n)][1..] == [];
  }

  lemma RepoidOfOne(n: Node)
    ensures Texts([n], "repoid") == TextOf(n, REPOMD, 2)
    ensures Values([n], "repoid", "type") == ValueOf(n, REPOMD, 2, "type")
  {
    RowOfOne(n, REPOMD, 2, "repoid");
  }

  lemma TagsAndRecordsOfOne(n: Node, toll: Toll)
    ensures Descend([n], "tags") == if IsChild(n, REPOMD, 3) && n.Elem? then n.children else []
    ensures Records([n], toll) == RecordsOf(n, toll)
    ensures RecordsOf(n, toll) == if IsChild(n, REPOMD, 4) && n.Elem?
                                  then [RecordOf(NewRecord(RecordType(n.attrs)), n.children, toll)] else []
  {
    RowOfOne(n, REPOMD, 3, "tags");
    RowOfOne(n, REPOMD, 4, "data");
    DescendStep([n], "tags");
    assert [n][..1] == [n] && [n][1..] == [];
  }

  lemma ContentsOfOne(r: RepoMd, n: Node, toll: Toll)
    ensures Contents(r, [n], toll)
            == TagsOf(r, if IsChild(n, REPOMD, 3) && n.Elem? then n.children else []).(
                 revision := if IsChild(n, REPOMD, 1) && Content(n) != "" then Some(Content(n)) else r.revision,
                 repoid := Last(r.repoid, TextOf(n, REPOMD, 2)),
                 repoidType := Last(r.repoidType, ValueOf(n, REPOMD, 2, "type")),
                 records := r.records + RecordsOf(n, toll))
  {
    RevisionOfOne(r.revision, n);
    RepoidOfOne(n);
    TagsAndRecordsOfOne(n, toll);
  }

  lemma EnteredData(p: Parser, attrs: Attributes)
    ensures Entered(p, 4, attrs)
            == p.(core := EnteredCore(p.core, 4), r := p.r.(records := p.r.records + [NewRecord(RecordType(attrs))]),
                  record := true, warnings := p.warnings + Count(StartWarns(DATA, attrs)))
    ensures EnteredCore(p.core, 4) == Core(p.core.depth + 1, p.core.depth + 1, DATA, false, "")
  {
  }

  /** q is the parser after the start event of a data element, r after its children. */
  lemma DataCloses(p: Parser, q: Parser, r: Parser, rec: Record, warnings: nat, toll: Toll)
    requires !p.core.docontent && !p.record && q.core == EnteredCore(p.core, 4)
    requires exists first :: q == p.(core := q.core, record := true, warnings := q.warnings,
                                     r := p.r.(records := p.r.records + [first]))
    requires q.warnings >= p.warnings && Reads(q, r, SetLast(q.r, rec), warnings)
    ensures Reads(p, Left(p, r, toll), p.r.(records := p.r.records + [rec]), q.warnings - p.warnings + warnings)
  {
    assert SetLast(q.r, rec).records == p.r.records + [rec];
  }

  lemma DataElement(p: Parser, n: Node, env: Env, rec: Record)
    requires InRepomd(p, env) && Named(n, "data") && n.Elem?
    requires rec == RecordOf(NewRecord(RecordType(n.attrs)), n.children, env.toll)
    ensures Reads(p, AfterNode(p, n, env), p.r.(records := p.r.records + [rec]), WarningsAt(REPOMD, n, env.toll))
  {
    KnownElement(p, n, env, 4);
    ElementSteps(p, n, env);
    EnteredData(p, n.attrs);
    var q := Entered(p, 4, n.attrs);
    RecordChildren(q, n.children, env, rec);
    LeavesTo(p, AfterNodes(q, n.children, env), 4, env);
    DataCloses(p, q, AfterNodes(q, n.children, env), rec, WarningsIn(DATA, n.children, env.toll), env.toll);
  }

  lemma EnteredTags(p: Parser, attrs: Attributes)
    ensures Entered(p, 3, attrs) == p.(core := EnteredCore(p.core, 3))
    ensures EnteredCore(p.core, 3) == Core(p.core.depth + 1, p.core.depth + 1, TAGS, false, "")
  {
  }

  lemma LeftTags(p: Parser, q: Parser, toll: Toll)
    requires q.core.state == TAGS
    ensures Left(p, q, toll) == q.(core := p.core.(docontent := false, content := q.core.content))
  {
  }

  lemma TagsElement(p: Parser, n: Node, env: Env, r: RepoMd)
    requires InRepomd(p, env) && Named(n, "tags") && n.Elem? && r == TagsOf(p.r, n.children)
    ensures Reads(p, AfterNode(p, n, env), r, WarningsAt(REPOMD, n, env.toll))
  {
    KnownElement(p, n, env, 3);
    ElementSteps(p, n, env);
    EnteredTags(p, n.attrs);
    var q := Entered(p, 3, n.attrs);
    TagsChildren(q, n.children, env);
    LeavesTo(p, AfterNodes(q, n.children, env), 3, env);
    LeftTags(p, AfterNodes(q, n.children, env), env.toll);
  }

  lemma NothingAdded(r: RepoMd)
    ensures TagsOf(r, []) == r && r.(records := r.records + []) == r
  {
  }

  lemma RepomdLeaf(p: Parser, n: Node, env: Env, k: nat)
    requires InRepomd(p, env) && n.Elem? && Child(REPOMD, n.name) == Some(k) && (k == 1 || k == 2)
    ensures Reads(p, AfterNode(p, n, env),
                  if k == 1 then p.r.(revision := if Content(n) != "" then Some(Content(n)) else p.r.revision)
                  else p.r.(repoid := Some(Content(n)), repoidType := OrElse(Attr(n.attrs, "type"), p.r.repoidType)),
                  WarningsAt(REPOMD, n, env.toll))
  {
    LeafElement(p, n, env, k);
    TextOfLeaf(p, n, k);
    StartKeepsCore(p.(core := EnteredCore(p.core, k)), n.attrs);
  }

  lemma RepomdStranger(r: RepoMd, n: Node, toll: Toll)
    requires n.Elem? ==> Child(REPOMD, n.name).None?
    ensures Contents(r, [n], toll) == r
  {
    ContentsOfOne(r, n, toll);
    TagsAndRecordsOfOne(n, toll);
    NothingAdded(r);
  }

  /** The contents one known child gives, by its row. */
  lemma RepomdKnown(r: RepoMd, n: Node, k: nat, toll: Toll)
    requires n.Elem? && Child(REPOMD, n.name) == Some(k)
    ensures 1 <= k <= 4
    ensures Contents(r, [n], toll)
            == if k == 1 then r.(revision := if Content(n) != "" then Some(Content(n)) else r.revision)
               else if k == 2 then
                 r.(repoid := Some(Content(n)), repoidType := OrElse(Attr(n.attrs, "type"), r.repoidType))
               else if k == 3 then TagsOf(r, n.children)
               else r.(records := r.records + [RecordOf(NewRecord(RecordType(n.attrs)), n.children, toll)])
  {
    ContentsOfOne(r, n, toll);
    TagsAndRecordsOfOne(n, toll);
    NothingAdded(r);
    NothingAdded(TagsOf(r, n.children));
  }

  lemma RepomdChild(p: Parser, n: Node, env: Env, r: RepoMd)
    requires InRepomd(p, env) && r == Contents(p.r, [n], env.toll)
    ensures Reads(p, AfterNode(p, n, env), r, WarningsAt(REPOMD, n, env.toll))
  {
    if n.Text? || Child(REPOMD, n.name).None? {
      Stranger(p, n, env);
      RepomdStranger(p.r, n, env.toll);
    } else {
      var k := Child(REPOMD, n.name).value;
      RepomdKnown(p.r, n, k, env.toll);
      if k == 4 {
        RowOfOne(n, REPOMD, 4, "data");
        DataElement(p, n, env, RecordOf(NewRecord(RecordType(n.attrs)), n.children, env.toll));
      } else if k == 3 {
        RowOfOne(n, REPOMD, 3, "tags");
        TagsElement(p, n, env, TagsOf(p.r, n.children));
      } else {
        RepomdLeaf(p, n, env, k);
      }
    }
  }

  lemma {:induction false} RepomdChildren(p: Parser, nodes: seq<Node>, env: Env)
    requires InRepomd(p, env)
    ensures Reads(p, AfterNodes(p, nodes, env), Contents(p.r, nodes, env.toll), WarningsIn(REPOMD, nodes, env.toll))
    decreases nodes
  {
    if nodes == [] {
      NothingAdded(p.r);
      assert Contents(p.r, [], env.toll) == p.r;
    } else {
      NodesStep(p, nodes, env);
      RepomdChild(p, nodes[0], env, Contents(p.r, [nodes[0]], env.toll));
      RepomdChildren(AfterNode(p, nodes[0], env), nodes[1..], env);
      ContentsAddUp(p.r, nodes, env.toll);
    }
  }

  lemma CalmDocument(r: RepoMd, root: Node, env: Env)
    requires NeverStops(env.warn) && root.Elem?
    ensures var q := AfterNode(Fresh(r), root, env);
            && q.r == Read(r, root, env.toll) && (q.found <==> root.name == "repomd")
            && q.warnings == WarningsAt(START, root, env.toll)
            && (q.core.depth, q.core.statedepth, q.core.state) == (0, 0, START)
  {
    var p := Fresh(r);
    if root.name != "repomd" {
      Stranger(p, root, env);
    } else {
      KnownElement(p, root, env, 0);
      ElementSteps(p, root, env);
      var q := Entered(p, 0, root.attrs);
      RepomdChildren(q, root.children, env);
      LeavesTo(p, AfterNodes(q, root.children, env), 0, env);
    }
  }

  /** Whatever the warning callback answers: the parse fails exactly when it asks to stop at one of the
      warnings the document has, and otherwise adds exactly what the document says. */
  lemma ParseIsRead(r: RepoMd, root: Node, env: Env)
    requires root.Elem?
    ensures var q := AfterNode(Fresh(r), root, env);
            && (q.err <==> Stopped(env.warn, 0, WarningsAt(START, root, env.toll)))
            && (!q.err ==> q.r == Read(r, root, env.toll) && (q.found <==> root.name == "repomd"))
  {
    CalmDocument(r, root, Calm(env));
    StopsExactlyAtWarnings(Fresh(r), Events(root), env);
  }
}
