/** The transition table of librepo/repomd.c. */
module RepomdTable {
  import opened Wrappers
  import opened SaxTable

  const START := 0
  const REPOMD := 1
  const REVISION := 2
  const REPOID := 3
  const TAGS := 4
  const REPO := 5
  const CONTENT := 6
  const DISTRO := 7
  const DATA := 8
  const LOCATION := 9
  const CHECKSUM := 10
  const OPENCHECKSUM := 11
  const HEADERCHECKSUM := 12
  const TIMESTAMP := 13
  const SIZE := 14
  const OPENSIZE := 15
  const HEADERSIZE := 16
  const DBVERSION := 17

  const ROWS: seq<Row> := [
    Row(START, "repomd", REPOMD, false),
    Row(REPOMD, "revision", REVISION, true),
    Row(REPOMD, "repoid", REPOID, true),
    Row(REPOMD, "tags", TAGS, false),
    Row(REPOMD, "data", DATA, false),
    Row(TAGS, "repo", REPO, true),
    Row(TAGS, "content", CONTENT, true),
    Row(TAGS, "distro", DISTRO, true),
    Row(DATA, "location", LOCATION, false),
    Row(DATA, "checksum", CHECKSUM, true),
    Row(DATA, "open-checksum", OPENCHECKSUM, true),
    Row(DATA, "header-checksum", HEADERCHECKSUM, true),
    Row(DATA, "timestamp", TIMESTAMP, true),
    Row(DATA, "size", SIZE, true),
    Row(DATA, "open-size", OPENSIZE, true),
    Row(DATA, "header-size", HEADERSIZE, true),
    Row(DATA, "database_version", DBVERSION, true)
  ]

  /** The row that leads to a state. */
  function Place(to: nat): nat {
    match to
    case 1 => 0 case 2 => 1 case 3 => 2 case 4 => 3 case 8 => 4 case 5 => 5 case 6 => 6 case 7 => 7
    case 9 => 8 case 10 => 9 case 11 => 10 case 12 => 11 case 13 => 12 case 14 => 13 case 15 => 14
    case 16 => 15 case 17 => 16 case _ => |ROWS|
  }

  /** The rows that leave a state: from the first up to the second number. */
  function Group(from: nat): (nat, nat) {
    match from
    case 0 => (0, 1) case 1 => (1, 5) case 4 => (5, 8) case 8 => (8, 17)
    case _ => (|ROWS|, |ROWS|)
  }

  predicate Inner(state: nat) {
    state in {START, REPOMD, TAGS, DATA}
  }

  /** The states whose text is wanted: all leaves but the location, which has attributes only. */
  predicate Collects(state: nat) {
    !Inner(state) && state != LOCATION
  }

  lemma RowsInPlace()
    ensures forall i :: 0 <= i < |ROWS| ==> Place(ROWS[i].to) == i && ROWS[i].from < ROWS[i].to
    ensures forall i :: 0 <= i < |ROWS| ==> Inner(ROWS[i].from) && ROWS[i].to <= DBVERSION
    ensures forall i :: 0 <= i < |ROWS| ==> (ROWS[i].docontent <==> Collects(ROWS[i].to))
  {
  }

  lemma RowsInGroups()
    ensures forall i :: 0 <= i < |ROWS| ==> Group(ROWS[i].from).0 <= i < Group(ROWS[i].from).1
    ensures forall i, s: nat :: 0 <= i < |ROWS| && Group(s).0 <= i < Group(s).1 ==> ROWS[i].from == s
  {
  }

  lemma TableIsTree()
    ensures TreeTable(ROWS)
  {
    RowsInPlace();
    RowsInGroups();
  }

  /** The table as a function: the row for an element inside a state. */
  function Child(state: nat, name: string): Option<nat> {
    match state
    case 0 => if name == "repomd" then Some(0) else None
    case 1 =>
      if name == "revision" then Some(1) else if name == "repoid" then Some(2)
      else if name == "tags" then Some(3) else if name == "data" then Some(4) else None
    case 4 =>
      if name == "repo" then Some(5) else if name == "content" then Some(6)
      else if name == "distro" then Some(7) else None
    case 8 =>
      if name == "location" then Some(8) else if name == "checksum" then Some(9)
      else if name == "open-checksum" then Some(10) else if name == "header-checksum" then Some(11)
      else if name == "timestamp" then Some(12) else if name == "size" then Some(13)
      else if name == "open-size" then Some(14) else if name == "header-size" then Some(15)
      else if name == "database_version" then Some(16) else None
    case _ => None
  }

  lemma ChildRow(state: nat, name: string)
    ensures Child(state, name).Some? ==>
              && Child(state, name).value < |ROWS|
              && ROWS[Child(state, name).value].from == state && ROWS[Child(state, name).value].ename == name
  {
  }

  lemma RowChild()
    ensures forall k :: 0 <= k < |ROWS| ==> Child(ROWS[k].from, ROWS[k].ename) == Some(k)
  {
    UpperRowChild();
    LowerRowChild();
  }

  lemma UpperRowChild()
    ensures forall k :: 0 <= k < 8 ==> Child(ROWS[k].from, ROWS[k].ename) == Some(k)
  {
  }

  lemma LowerRowChild()
    ensures forall k :: 8 <= k < |ROWS| ==> Child(ROWS[k].from, ROWS[k].ename) == Some(k)
  {
  }

  lemma LookupIsChild(state: nat, name: string)
    ensures Lookup(ROWS, state, name) == Child(state, name)
  {
    TableIsTree();
    ChildRow(state, name);
    RowChild();
    if Child(state, name).Some? {
      LookupFinds(ROWS, Child(state, name).value);
    }
  }

  lemma NoRowsIffLeaf(state: nat)
    ensures FirstRow(ROWS, state).None? <==> !Inner(state)
  {
    if Inner(state) {
      var k := Group(state).0;
      RowsInGroups();
      assert ROWS[k].from == state;
    } else {
      RowsInPlace();
    }
  }
}
