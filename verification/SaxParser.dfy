/** The part of LrParserData that both parsers share, with its tables and its text buffer. */
module SaxParser {
  import opened Wrappers
  import opened SaxTable

  const CONTENT_REALLOC_STEP := 256

  datatype Entry = Skipped | NoChildren | Unknown | Entered

  class ParserData {
    const rows: seq<Row>
    var depth: nat
    var statedepth: nat
    var state: nat
    var docontent: bool
    var content: array<char>
    var lcontent: nat
    var acontent: nat
    var swtab: map<nat, nat>
    var sbtab: map<nat, nat>

    /** The buffer always has room for the text and the NUL that ends it. */
    ghost predicate Valid()
      reads this, content
    {
      && content.Length == acontent && lcontent < acontent && content[lcontent] == '\0'
      && swtab == FirstTable(rows, |rows|)
      && sbtab == ParentTable(rows, |rows|)
    }

    ghost function View(): Core
      requires Valid()
      reads this, content
    {
      Core(depth, statedepth, state, docontent, content[..lcontent])
    }

    constructor (rows: seq<Row>)
      ensures Valid() && View() == INITIAL && fresh(content) && this.rows == rows
    {
      this.rows := rows;
      depth, statedepth, state, docontent, lcontent := 0, 0, 0, false, 0;
      acontent := CONTENT_REALLOC_STEP;
      content := new char[CONTENT_REALLOC_STEP](_ => '\0');
      swtab, sbtab := map[], map[];
      new;
      swtab, sbtab := FillTables(rows);
    }

    /** The set-up loop of the parse functions. */
    static method FillTables(rows: seq<Row>) returns (swtab: map<nat, nat>, sbtab: map<nat, nat>)
      ensures swtab == FirstTable(rows, |rows|) && sbtab == ParentTable(rows, |rows|)
    {
      swtab, sbtab := map[], map[];
      var k := 0;
      while k < |rows|
        invariant 0 <= k <= |rows|
        invariant swtab == FirstTable(rows, k) && sbtab == ParentTable(rows, k)
      {
        if rows[k].from !in swtab {
          swtab := swtab[rows[k].from := k];
        }
        sbtab := sbtab[rows[k].to := rows[k].from];
        k := k + 1;
      }
    }

    /** The first half of a start handler: which state the element leads to, if any. */
    method EnterElement(name: string) returns (entry: Entry)
      requires Valid()
      modifies this, content
      ensures Valid() && content == old(content)
      ensures View() == Enter(rows, old(View()), name)
      ensures entry == if !old(View()).Known() then Skipped
                       else if FirstRow(rows, old(state)).None? then NoChildren
                       else if Lookup(rows, old(state), name).None? then Unknown
                       else Entered
    {
      if depth != statedepth {
        depth := depth + 1;
        return Skipped;
      }
      depth := depth + 1;
      FirstTableIsFirstRow(rows, state);
      if state !in swtab {
        return NoChildren;
      }
      var k := swtab[state];
      while k < |rows| && rows[k].from == state && rows[k].ename != name
        invariant k <= |rows| && Scan(rows, k, state, name) == Lookup(rows, state, name)
      {
        k := k + 1;
      }
      if k == |rows| || rows[k].from != state {
        return Unknown;
      }
      state := rows[k].to;
      docontent := rows[k].docontent;
      statedepth := depth;
      lcontent := 0;
      content[0] := '\0';
      return Entered;
    }

    /** The first half of an end handler: the state left, and whether it was a known element. */
    method LeaveElement() returns (known: bool, left: nat)
      requires Valid() && depth > 0 && (depth == statedepth ==> state in ParentTable(rows, |rows|))
      modifies this
      ensures Valid() && content == old(content)
      ensures View() == Leave(rows, old(View()))
      ensures known == old(View()).Known() && left == old(state)
    {
      left := state;
      if depth != statedepth {
        depth := depth - 1;
        return false, left;
      }
      depth := depth - 1;
      statedepth := statedepth - 1;
      state := sbtab[state];
      docontent := false;
      known := true;
    }

    /** lr_char_handler: appends text, growing the buffer first when it would not fit. */
    method CharHandler(s: string)
      requires Valid()
      modifies this, content
      ensures Valid() && (content == old(content) || fresh(content))
      ensures View() == AddText(old(View()), s)
    {
      if !docontent {
        return;
      }
      ghost var before := content[..lcontent];
      var l := lcontent + |s| + 1;
      if l > acontent {
        Grow(l + CONTENT_REALLOC_STEP);
      }
      var buffer := content;
      var c, k := lcontent, 0;
      lcontent := lcontent + |s|;
      while k < |s|
        invariant 0 <= k <= |s| && c == |before| + k
        invariant |before| + |s| < buffer.Length
        invariant buffer[..c] == before + s[..k]
        modifies buffer
      {
        buffer[c] := s[k];
        c := c + 1;
        k := k + 1;
      }
      buffer[c] := '\0';
      assert s[..k] == s;
    }

    /** realloc: a larger buffer with the same text. */
    method Grow(size: nat)
      requires Valid() && size > acontent
      modifies this`acontent, this`content
      ensures Valid() && fresh(content) && acontent == size && View() == old(View())
      ensures content[..lcontent] == old(content[..lcontent])
    {
      var bigger := new char[size](_ => '\0');
      forall i | 0 <= i < content.Length {
        bigger[i] := content[i];
      }
      acontent := size;
      content := bigger;
    }
  }
}
