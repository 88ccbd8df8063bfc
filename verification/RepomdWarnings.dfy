/** What the reading of a repomd.xml document and the count of its warnings come to, by the names of elements
    and attributes. */
module RepomdWarnings {
  import opened Wrappers
  import opened Xml
  import opened WarningCallback
  import opened RepomdTable
  import opened Repomd

  ghost predicate Has(attrs: Attributes, name: string) {
    exists k :: 0 <= k < |attrs| && attrs[k].0 == name
  }

  /** The type of a record is the value of the first attribute "type" of its data element, or "unknown" if
      there is none; a data element without children says nothing else. */
  lemma RecordTypeIsFirst(attrs: Attributes, toll: Toll)
    ensures !Has(attrs, "type") ==> RecordType(attrs) == "unknown"
    ensures forall v: string, k: nat :: FirstAt(attrs, "type", v, k) ==> RecordType(attrs) == v
    ensures Records([Elem("data", attrs, [])], toll)
            == [Record(RecordType(attrs), None, None, None, None, None, None, None, None, 0, 0, 0, 0, 0)]
  {
    AttrIsFirst(attrs, "type");
    assert [Elem("data", attrs, [])][1..] == [];
  }

  /** The version of a database keeps the lower 32 bits of the number, as a signed integer. */
  lemma VersionIsCut(n: int)
    ensures -0x8000_0000 <= ToInt(n) < 0x8000_0000
    ensures (n - ToInt(n)) % 0x1_0000_0000 == 0
    ensures -0x8000_0000 <= n < 0x8000_0000 ==> ToInt(n) == n
  {
    var q := n / 0x1_0000_0000;
    assert n == q * 0x1_0000_0000 + n % 0x1_0000_0000;
  }

  lemma {:induction false} NothingInLeaf(state: nat, nodes: seq<Node>, toll: Toll)
    requires !Inner(state)
    ensures WarningsIn(state, nodes, toll) == 0
  {
    if nodes != [] {
      NothingInLeaf(state, nodes[1..], toll);
    }
  }

  function Bit(condition: bool): nat {
    if condition then 1 else 0
  }

  /** Below data: a checksum without a type, a location without href, a number that is none, and an unknown
      element are warned about once each, and nothing is warned about inside them. */
  lemma DataChildWarns(n: Node, toll: Toll)
    requires n.Elem?
    ensures WarningsAt(DATA, n, toll)
            == if n.name in {"checksum", "open-checksum", "header-checksum"} then Bit(!Has(n.attrs, "type"))
               else if n.name == "location" then Bit(!Has(n.attrs, "href"))
               else if n.name in {"timestamp", "size", "open-size", "header-size", "database_version"}
               then Bit(toll(Content(n)).1)
               else 1
  {
    AttrIsFirst(n.attrs, "type");
    AttrIsFirst(n.attrs, "href");
    if Child(DATA, n.name).Some? {
      NothingInLeaf(ROWS[Child(DATA, n.name).value].to, n.children, toll);
    }
  }

  /** Below tags: only unknown elements. */
  lemma TagWarns(n: Node, toll: Toll)
    requires n.Elem?
    ensures WarningsAt(TAGS, n, toll) == Bit(n.name !in {"repo", "content", "distro"})
  {
    if Child(TAGS, n.name).Some? {
      NothingInLeaf(ROWS[Child(TAGS, n.name).value].to, n.children, toll);
    }
  }

  /** Below repomd: an empty revision, a record without a type, an unknown element, and what is below. */
  lemma RepomdChildWarns(n: Node, toll: Toll)
    requires n.Elem?
    ensures WarningsAt(REPOMD, n, toll)
            == if n.name == "revision" then Bit(Content(n) == "")
               else if n.name == "repoid" then 0
               else if n.name == "tags" then WarningsIn(TAGS, n.children, toll)
               else if n.name == "data" then Bit(!Has(n.attrs, "type")) + WarningsIn(DATA, n.children, toll)
               else 1
  {
    AttrIsFirst(n.attrs, "type");
    if n.name in {"revision", "repoid"} {
      NothingInLeaf(ROWS[Child(REPOMD, n.name).value].to, n.children, toll);
    }
  }

  /** A document is warned about for what is below its root, or for its root. */
  lemma RootWarns(n: Node, toll: Toll)
    requires n.Elem?
    ensures WarningsAt(START, n, toll) == if n.name == "repomd" then WarningsIn(REPOMD, n.children, toll) else 1
  {
  }
}
