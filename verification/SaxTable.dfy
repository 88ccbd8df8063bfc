/** The parsing scheme metalink.c and repomd.c share: a transition table, two depth counters and a table
    of parents instead of a stack (librepo/xmlparser_internal.h). */
module SaxTable {
  import opened Wrappers
  import opened Xml

  /** LrStatesSwitch; state 0 is STATE_START. */
  datatype Row = Row(from: nat, ename: string, to: nat, docontent: bool)

  /** First row of a state, as stored in swtab. */
  function FirstRow(rows: seq<Row>, state: nat): (r: Option<nat>)
    ensures r.Some? ==> r.value < |rows| && rows[r.value].from == state
    ensures r.None? ==> forall k :: 0 <= k < |rows| ==> rows[k].from != state
  {
    if rows == [] then None
    else if rows[0].from == state then Some(0)
    else match FirstRow(rows[1..], state)
      case None => assert forall k :: 1 <= k < |rows| ==> rows[k] == rows[1..][k - 1]; None
      case Some(k) => Some(k + 1)
  }

  /** swtab as the set-up loop fills it: the first row of each state. */
  function FirstTable(rows: seq<Row>, n: nat): map<nat, nat>
    requires n <= |rows|
  {
    if n == 0 then map[]
    else
      var t := FirstTable(rows, n - 1);
      if rows[n - 1].from in t then t else t[rows[n - 1].from := n - 1]
  }

  lemma {:induction false} FirstTableHolds(rows: seq<Row>, n: nat, state: nat)
    requires n <= |rows|
    ensures state in FirstTable(rows, n) <==> exists k :: 0 <= k < n && rows[k].from == state
    ensures state in FirstTable(rows, n) ==>
              && FirstTable(rows, n)[state] < n && rows[FirstTable(rows, n)[state]].from == state
              && forall k :: 0 <= k < FirstTable(rows, n)[state] ==> rows[k].from != state
  {
    if n > 0 {
      FirstTableHolds(rows, n - 1, state);
    }
  }

  lemma {:induction false} FirstRowIs(rows: seq<Row>, k: nat)
    requires k < |rows| && forall j :: 0 <= j < k ==> rows[j].from != rows[k].from
    ensures FirstRow(rows, rows[k].from) == Some(k)
  {
    if k > 0 {
      FirstRowIs(rows[1..], k - 1);
    }
  }

  lemma FirstTableIsFirstRow(rows: seq<Row>, state: nat)
    ensures state in FirstTable(rows, |rows|) <==> FirstRow(rows, state).Some?
    ensures state in FirstTable(rows, |rows|) ==> FirstRow(rows, state) == Some(FirstTable(rows, |rows|)[state])
  {
    FirstTableHolds(rows, |rows|, state);
    if state in FirstTable(rows, |rows|) {
      FirstRowIs(rows, FirstTable(rows, |rows|)[state]);
    }
  }

  /** The scan of the rows of one state that the start handlers make. */
  function Scan(rows: seq<Row>, k: nat, state: nat, name: string): (r: Option<nat>)
    requires k <= |rows|
    ensures r.Some? ==> k <= r.value < |rows| && rows[r.value].from == state && rows[r.value].ename == name
    decreases |rows| - k
  {
    if k == |rows| || rows[k].from != state then None
    else if rows[k].ename == name then Some(k)
    else Scan(rows, k + 1, state, name)
  }

  function Lookup(rows: seq<Row>, state: nat, name: string): (r: Option<nat>)
    ensures r.Some? ==> r.value < |rows| && rows[r.value].from == state && rows[r.value].ename == name
  {
    if FirstRow(rows, state).None? then None else Scan(rows, FirstRow(rows, state).value, state, name)
  }

  function ParentTable(rows: seq<Row>, n: nat): map<nat, nat>
    requires n <= |rows|
  {
    if n == 0 then map[] else ParentTable(rows, n - 1)[rows[n - 1].to := rows[n - 1].from]
  }

  /** What both tables satisfy: every known element has one place, and only leaves collect text. */
  ghost predicate TreeTable(rows: seq<Row>) {
    && (forall i, j :: 0 <= i < |rows| && 0 <= j < |rows| && rows[i].to == rows[j].to ==> i == j)
    && (forall i :: 0 <= i < |rows| ==> rows[i].from < rows[i].to)
    && (forall i, j :: 0 <= i < |rows| && 0 <= j < |rows| && rows[i].docontent ==> rows[j].from != rows[i].to)
    && (forall i, j, k :: 0 <= i < j < k < |rows| && rows[i].from == rows[k].from ==> rows[j].from == rows[i].from)
  }

  lemma {:induction false} ScanFinds(rows: seq<Row>, j: nat, k: nat)
    requires TreeTable(rows) && j <= k < |rows| && rows[j].from == rows[k].from
    requires forall i :: j <= i < k && rows[i].from == rows[k].from ==> rows[i].ename != rows[k].ename
    ensures Scan(rows, j, rows[k].from, rows[k].ename) == Some(k)
    decreases k - j
  {
    if j < k {
      ScanFinds(rows, j + 1, k);
    }
  }

  /** Because the rows of a state stand together, the scan misses none of them. */
  lemma LookupFinds(rows: seq<Row>, k: nat)
    requires TreeTable(rows) && k < |rows|
    requires forall i :: 0 <= i < k && rows[i].from == rows[k].from ==> rows[i].ename != rows[k].ename
    ensures Lookup(rows, rows[k].from, rows[k].ename) == Some(k)
  {
    var j := FirstRow(rows, rows[k].from);
    FirstIsFirst(rows, rows[k].from, k);
    ScanFinds(rows, j.value, k);
  }

  lemma {:induction false} FirstIsFirst(rows: seq<Row>, state: nat, k: nat)
    requires k < |rows| && rows[k].from == state
    ensures FirstRow(rows, state).Some? && FirstRow(rows, state).value <= k
  {
    if rows[0].from != state {
      FirstIsFirst(rows[1..], state, k - 1);
    }
  }

  lemma {:induction false} ParentsAreUnique(rows: seq<Row>, n: nat, k: nat)
    requires TreeTable(rows) && k < n <= |rows|
    ensures rows[k].to in ParentTable(rows, n) && ParentTable(rows, n)[rows[k].to] == rows[k].from
  {
    if k < n - 1 {
      ParentsAreUnique(rows, n - 1, k);
    }
  }

  // ---------------------------------------------------------------- the automaton

  datatype Core = Core(depth: nat, statedepth: nat, state: nat, docontent: bool, content: string) {
    predicate Known() {
      depth == statedepth
    }
  }

  const INITIAL := Core(0, 0, 0, false, "")

  /** The row a start event follows, if it enters a known element. */
  function Follows(rows: seq<Row>, c: Core, name: string): Option<nat> {
    if c.Known() then Lookup(rows, c.state, name) else None
  }

  function Enter(rows: seq<Row>, c: Core, name: string): Core {
    match Follows(rows, c, name)
    case None => c.(depth := c.depth + 1)
    case Some(k) => Core(c.depth + 1, c.depth + 1, rows[k].to, rows[k].docontent, "")
  }

  /** The end handler's bookkeeping. An end event at depth 0, or one that leaves a state without a
      parent, does not occur between balanced events; the totality here is only for definedness. */
  function Leave(rows: seq<Row>, c: Core): Core {
    if !c.Known() then c.(depth := Max(0, c.depth - 1))
    else
      var parents := ParentTable(rows, |rows|);
      Core(Max(0, c.depth - 1), Max(0, c.statedepth - 1),
           if c.state in parents then parents[c.state] else 0, false, c.content)
  }

  /** A known element goes back to the state its row comes from. */
  lemma LeaveRow(rows: seq<Row>, c: Core, k: nat)
    requires TreeTable(rows) && k < |rows| && c.Known() && c.depth > 0 && c.state == rows[k].to
    ensures c.state in ParentTable(rows, |rows|)
    ensures Leave(rows, c) == Core(c.depth - 1, c.statedepth - 1, rows[k].from, false, c.content)
  {
    ParentsAreUnique(rows, |rows|, k);
  }

  function AddText(c: Core, s: string): Core {
    if c.docontent then c.(content := c.content + s) else c
  }

  // ---------------------------------------------------------------- the stack it stands for

  /** State and length of the longest part of the stack, from the root, that the table knows. */
  function KnownPart(rows: seq<Row>, stack: seq<string>): (nat, nat) {
    if stack == [] then (0, 0)
    else
      var n := |stack|;
      var (state, k) := KnownPart(rows, stack[..n - 1]);
      var row := Lookup(rows, state, stack[n - 1]);
      if k == n - 1 && row.Some? then (rows[row.value].to, n) else (state, k)
  }

  lemma {:induction false} KnownPartBound(rows: seq<Row>, stack: seq<string>)
    ensures KnownPart(rows, stack).1 <= |stack|
  {
    if stack != [] {
      KnownPartBound(rows, stack[..|stack| - 1]);
    }
  }

  /** The two counters and the state are exactly what the stack says. In particular depth equals
      statedepth exactly when every open element is known. */
  ghost predicate Located(rows: seq<Row>, c: Core, stack: seq<string>) {
    c.depth == |stack| && (c.state, c.statedepth) == KnownPart(rows, stack)
  }

  lemma EnterLocated(rows: seq<Row>, c: Core, stack: seq<string>, name: string)
    requires Located(rows, c, stack)
    ensures Located(rows, Enter(rows, c, name), stack + [name])
  {
    assert (stack + [name])[..|stack|] == stack;
  }

  lemma LeaveLocated(rows: seq<Row>, c: Core, stack: seq<string>)
    requires TreeTable(rows) && Located(rows, c, stack) && stack != []
    ensures Located(rows, Leave(rows, c), stack[..|stack| - 1])
    ensures c.Known() ==> c.state in ParentTable(rows, |rows|)
  {
    var below := stack[..|stack| - 1];
    KnownPartBound(rows, below);
    if c.Known() {
      var row := Lookup(rows, KnownPart(rows, below).0, stack[|stack| - 1]);
      ParentsAreUnique(rows, |rows|, row.value);
    }
  }

  /** Folding the bookkeeping over events. */
  function Run(rows: seq<Row>, c: Core, events: seq<Event>): Core
    decreases |events|
  {
    if events == [] then c
    else match events[0]
      case Start(name, _) => Run(rows, Enter(rows, c, name), events[1..])
      case Chars(s) => Run(rows, AddText(c, s), events[1..])
      case End => Run(rows, Leave(rows, c), events[1..])
  }

  /** Counters and parent table refine the stack: after any events that close only what they opened,
      they are what the stack determines. */
  lemma {:induction false} RunLocated(rows: seq<Row>, c: Core, stack: seq<string>, events: seq<Event>)
    requires TreeTable(rows) && Located(rows, c, stack) && Open(stack, events).Some?
    ensures Located(rows, Run(rows, c, events), Open(stack, events).value)
    decreases |events|
  {
    if events != [] {
      match events[0] {
        case Start(name, _) =>
          EnterLocated(rows, c, stack, name);
          RunLocated(rows, Enter(rows, c, name), stack + [name], events[1..]);
        case Chars(s) =>
          RunLocated(rows, AddText(c, s), stack, events[1..]);
        case End =>
          LeaveLocated(rows, c, stack);
          RunLocated(rows, Leave(rows, c), stack[..|stack| - 1], events[1..]);
      }
    }
  }

  /** Any balanced element restores depth, statedepth and state, known to the table or not. */
  lemma ElementRestores(rows: seq<Row>, c: Core, stack: seq<string>, n: Node)
    requires TreeTable(rows) && Located(rows, c, stack)
    ensures var r := Run(rows, c, Events(n));
            (r.depth, r.statedepth, r.state) == (c.depth, c.statedepth, c.state)
  {
    NodeIsBalanced(stack, n, 0);
    RunLocated(rows, c, stack, Events(n));
  }
}
