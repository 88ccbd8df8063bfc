/** The transition table of librepo/metalink.c. */
module MetalinkTable {
  import opened Wrappers
  import opened SaxTable

  const START := 0
  const METALINK := 1
  const FILES := 2
  const FILE := 3
  const TIMESTAMP := 4
  const SIZE := 5
  const VERIFICATION := 6
  const HASH := 7
  const ALTERNATES := 8
  const ALTERNATE := 9
  const ALTERNATE_TIMESTAMP := 10
  const ALTERNATE_SIZE := 11
  const ALTERNATE_VERIFICATION := 12
  const ALTERNATE_HASH := 13
  const RESOURCES := 14
  const URL := 15

  const ROWS: seq<Row> := [
    Row(START, "metalink", METALINK, false),
    Row(METALINK, "files", FILES, false),
    Row(FILES, "file", FILE, false),
    Row(FILE, "mm0:timestamp", TIMESTAMP, true),
    Row(FILE, "size", SIZE, true),
    Row(FILE, "verification", VERIFICATION, false),
    Row(FILE, "mm0:alternates", ALTERNATES, false),
    Row(FILE, "resources", RESOURCES, false),
    Row(VERIFICATION, "hash", HASH, true),
    Row(ALTERNATES, "mm0:alternate", ALTERNATE, false),
    Row(ALTERNATE, "mm0:timestamp", ALTERNATE_TIMESTAMP, true),
    Row(ALTERNATE, "size", ALTERNATE_SIZE, true),
    Row(ALTERNATE, "verification", ALTERNATE_VERIFICATION, false),
    Row(ALTERNATE_VERIFICATION, "hash", ALTERNATE_HASH, true),
    Row(RESOURCES, "url", URL, true)
  ]

  /** The row that leads to a state. */
  function Place(to: nat): nat {
    match to
    case 1 => 0 case 2 => 1 case 3 => 2 case 4 => 3 case 5 => 4 case 6 => 5 case 8 => 6 case 14 => 7
    case 7 => 8 case 9 => 9 case 10 => 10 case 11 => 11 case 12 => 12 case 13 => 13 case 15 => 14
    case _ => |ROWS|
  }

  /** The rows that leave a state: from the first up to the second number. */
  function Group(from: nat): (nat, nat) {
    match from
    case 0 => (0, 1) case 1 => (1, 2) case 2 => (2, 3) case 3 => (3, 8) case 6 => (8, 9) case 8 => (9, 10)
    case 9 => (10, 13) case 12 => (13, 14) case 14 => (14, 15)
    case _ => (|ROWS|, |ROWS|)
  }

  predicate Leaf(state: nat) {
    state in {TIMESTAMP, SIZE, HASH, ALTERNATE_TIMESTAMP, ALTERNATE_SIZE, ALTERNATE_HASH, URL}
  }

  lemma RowsInPlace()
    ensures forall i :: 0 <= i < |ROWS| ==> Place(ROWS[i].to) == i && ROWS[i].from < ROWS[i].to
    ensures forall i :: 0 <= i < |ROWS| ==> !Leaf(ROWS[i].from) && (ROWS[i].docontent <==> Leaf(ROWS[i].to))
  {
  }

  lemma RowsInGroups()
    ensures forall i :: 0 <= i < |ROWS| ==> Group(ROWS[i].from).0 <= i < Group(ROWS[i].from).1
    ensures forall i, s: nat :: 0 <= i < |ROWS| && Group(s).0 <= i < Group(s).1 ==> ROWS[i].from == s
  {
  }

  lemma TableIsTree()
    ensures TreeTable(ROWS)
  {
    RowsInPlace();
    RowsInGroups();
  }

  /** The table as a function: the row for an element inside a state. */
  function Child(state: nat, name: string): Option<nat> {
    match state
    case 0 => if name == "metalink" then Some(0) else None
    case 1 => if name == "files" then Some(1) else None
    case 2 => if name == "file" then Some(2) else None
    case 3 =>
      if name == "mm0:timestamp" then Some(3) else if name == "size" then Some(4)
      else if name == "verification" then Some(5) else if name == "mm0:alternates" then Some(6)
      else if name == "resources" then Some(7) else None
    case 6 => if name == "hash" then Some(8) else None
    case 8 => if name == "mm0:alternate" then Some(9) else None
    case 9 =>
      if name == "mm0:timestamp" then Some(10) else if name == "size" then Some(11)
      else if name == "verification" then Some(12) else None
    case 12 => if name == "hash" then Some(13) else None
    case 14 => if name == "url" then Some(14) else None
    case _ => None
  }

  lemma ChildRow(state: nat, name: string)
    ensures Child(state, name).Some? ==>
              && Child(state, name).value < |ROWS|
              && ROWS[Child(state, name).value].from == state && ROWS[Child(state, name).value].ename == name
  {
  }

  lemma RowChild()
    ensures forall k :: 0 <= k < |ROWS| ==> Child(ROWS[k].from, ROWS[k].ename) == Some(k)
  {
  }

  lemma LookupIsChild(state: nat, name: string)
    ensures Lookup(ROWS, state, name) == Child(state, name)
  {
    TableIsTree();
    ChildRow(state, name);
    RowChild();
    if Child(state, name).Some? {
      LookupFinds(ROWS, Child(state, name).value);
    }
  }

  lemma NoRowsIffLeaf(state: nat)
    requires state <= URL
    ensures FirstRow(ROWS, state).None? <==> Leaf(state)
  {
    if Leaf(state) {
      RowsInPlace();
    } else {
      var k := Group(state).0;
      assert k < Group(state).1 <= |ROWS|;
      RowsInGroups();
      assert ROWS[k].from == state;
    }
  }
}
