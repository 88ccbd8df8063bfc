/** lr_pathconcat of librepo/util.c: joining path components in a buffer sized beforehand. */
module PathConcat {
  import opened Wrappers

  const SEPARATOR := '/'

  function LStrip(s: string): (r: string)
    ensures |r| <= |s|
  {
    if s != "" && s[0] == SEPARATOR then LStrip(s[1..]) else s
  }

  function RStrip(s: string): (r: string)
    ensures |r| <= |s| && r == s[..|r|]
    ensures r != "" ==> r[|r| - 1] != SEPARATOR
    ensures (s == "" || s[|s| - 1] != SEPARATOR) ==> r == s
  {
    if s != "" && s[|s| - 1] == SEPARATOR then RStrip(s[..|s| - 1]) else s
  }

  /** The part of the first argument from its '?' on; it goes to the very end of the result. */
  function Query(s: string): (r: string)
    ensures |r| <= |s|
  {
    if s == "" || s[0] == '?' then s else Query(s[1..])
  }

  /** The loop's state: what is in the buffer, whether nothing has been taken yet, and whether the last
      argument was empty. */
  datatype Acc = Acc(out: string, isFirst: bool, previousWasEmpty: bool)

  const EMPTY := Acc("", true, false)

  /** What an argument contributes: nothing if it is only separators. */
  function Piece(isFirst: bool, chunk: string, queryLen: nat): string
    requires isFirst ==> queryLen <= |chunk|
  {
    if isFirst then RStrip(chunk[..|chunk| - queryLen])
    else
      var body := RStrip(LStrip(chunk));
      if body == "" then "" else [SEPARATOR] + body
  }

  function Step(acc: Acc, chunk: string, queryLen: nat): Acc
    requires acc.isFirst ==> queryLen <= |chunk|
  {
    if chunk == "" then acc.(previousWasEmpty := true)
    else Acc(acc.out + Piece(acc.isFirst, chunk, queryLen), false, false)
  }

  /** The state after n arguments. Only the first argument can have a query. */
  function Steps(parts: seq<string>, n: nat): Acc
    requires n <= |parts|
  {
    if n == 0 then EMPTY else Step(Steps(parts, n - 1), parts[n - 1], if n == 1 then |Query(parts[0])| else 0)
  }

  function Join(parts: seq<string>): string
    requires parts != []
  {
    var acc := Steps(parts, |parts|);
    var out := acc.out + Query(parts[0]);
    if out == "" then parts[0]
    else if acc.previousWasEmpty && !acc.isFirst then out + [SEPARATOR]
    else out
  }

  /** The length counted beforehand for the first n arguments. */
  function Counted(parts: seq<string>, n: nat): nat
    requires n <= |parts|
  {
    if n == 0 then 0 else Counted(parts, n - 1) + |parts[n - 1]| + (if n > 1 then 1 else 0)
  }

  /** The buffer never holds more than was counted: the query still to come is paid for, and an empty
      argument leaves room for the separator it may add. */
  lemma {:induction false} StaysWithinCount(parts: seq<string>, n: nat)
    requires 1 <= n <= |parts|
    ensures var acc := Steps(parts, n);
            && |acc.out| + |Query(parts[0])| <= Counted(parts, n)
            && (acc.previousWasEmpty && !acc.isFirst ==> |acc.out| + |Query(parts[0])| + 1 <= Counted(parts, n))
            && (acc.isFirst ==> acc.out == "" && Query(parts[0]) == "")
  {
    if n > 1 {
      StaysWithinCount(parts, n - 1);
    } else {
      assert Steps(parts, 0) == EMPTY;
    }
  }

  /** memcpy into the buffer. */
  method Append(buffer: array<char>, offset: nat, text: string) returns (next: nat)
    requires offset + |text| <= buffer.Length
    modifies buffer
    ensures next == offset + |text| && buffer[..next] == old(buffer[..offset]) + text
  {
    next := offset;
    var k := 0;
    while k < |text|
      invariant 0 <= k <= |text| && next == offset + k
      invariant buffer[..next] == old(buffer[..offset]) + text[..k]
    {
      buffer[next] := text[k];
      next := next + 1;
      k := k + 1;
    }
    assert text[..k] == text;
  }

  /** Leading separators are skipped. */
  method TrimLeft(chunk: string) returns (start: nat)
    ensures start <= |chunk| && chunk[start..] == LStrip(chunk)
  {
    start := 0;
    while start < |chunk| && chunk[start] == SEPARATOR
      invariant 0 <= start <= |chunk| && LStrip(chunk[start..]) == LStrip(chunk)
    {
      start := start + 1;
    }
  }

  lemma OneSeparatorLess(s: string, n: nat)
    requires 0 < n <= |s| && s[n - 1] == SEPARATOR
    ensures RStrip(s[..n]) == RStrip(s[..n - 1])
  {
    assert s[..n][..n - 1] == s[..n - 1];
  }

  /** Trailing separators are skipped. */
  method TrimRight(chunk: string, start: nat, last: nat, ghost whole: string) returns (end: nat)
    requires start <= last <= |chunk| && whole == chunk[start..last]
    ensures start <= end <= last && chunk[start..end] == RStrip(whole)
  {
    end := last;
    assert whole[..last - start] == whole;
    while start + 1 <= end && chunk[end - 1] == SEPARATOR
      invariant start <= end <= last && RStrip(whole[..end - start]) == RStrip(whole)
    {
      OneSeparatorLess(whole, end - start);
      end := end - 1;
    }
    NoSeparatorAtEnd(whole[..end - start]);
    assert whole[..end - start] == chunk[start..end];
  }

  lemma NoSeparatorAtEnd(s: string)
    requires s == "" || s[|s| - 1] != SEPARATOR
    ensures RStrip(s) == s
  {
  }

  /** The limits between which the loop copies an argument. */
  method Trim(chunk: string, isFirst: bool, queryLen: nat) returns (start: nat, end: nat)
    requires queryLen <= |chunk| || !isFirst
    ensures start <= end <= |chunk|
    ensures chunk[start..end] == if isFirst then RStrip(chunk[..|chunk| - queryLen]) else RStrip(LStrip(chunk))
  {
    start, end := 0, |chunk|;
    if isFirst {
      end := end - queryLen;
    } else {
      start := TrimLeft(chunk);
      assert chunk[start..] == chunk[start..end];
    }
    end := TrimRight(chunk, start, end, chunk[start..end]);
  }

  lemma PieceOfTrimmed(chunk: string, isFirst: bool, queryLen: nat, text: string)
    requires isFirst ==> queryLen <= |chunk|
    requires text == if isFirst then RStrip(chunk[..|chunk| - queryLen]) else RStrip(LStrip(chunk))
    ensures Piece(isFirst, chunk, queryLen) == if text == "" || isFirst then text else [SEPARATOR] + text
  {
  }

  /** One argument that is not empty goes into the buffer. */
  method AddPart(buffer: array<char>, offset: nat, chunk: string, isFirst: bool, queryLen: nat) returns (next: nat)
    requires isFirst ==> queryLen <= |chunk|
    requires offset + |Piece(isFirst, chunk, queryLen)| <= buffer.Length
    modifies buffer
    ensures next == offset + |Piece(isFirst, chunk, queryLen)|
    ensures buffer[..next] == old(buffer[..offset]) + Piece(isFirst, chunk, queryLen)
  {
    var start, end := Trim(chunk, isFirst, queryLen);
    PieceOfTrimmed(chunk, isFirst, queryLen, chunk[start..end]);
    next := offset;
    if start < end {
      next := AppendPiece(buffer, offset, chunk[start..end], isFirst);
    }
  }

  /** A separator, except before the first piece, and the piece. */
  method AppendPiece(buffer: array<char>, offset: nat, text: string, isFirst: bool) returns (next: nat)
    requires offset + |text| + (if isFirst then 0 else 1) <= buffer.Length
    modifies buffer
    ensures var piece := if isFirst then text else [SEPARATOR] + text;
            next == offset + |piece| && buffer[..next] == old(buffer[..offset]) + piece
  {
    next := offset;
    if !isFirst {
      ConcatIsAssociative(buffer[..offset], [SEPARATOR], text);
      next := Append(buffer, next, [SEPARATOR]);
    }
    next := Append(buffer, next, text);
  }

  function QueryLength(parts: seq<string>, k: nat): nat
    requires parts != []
  {
    if k == 0 then |Query(parts[0])| else 0
  }

  /** One argument more, and the room there is for it. */
  lemma OneMorePart(parts: seq<string>, k: nat)
    requires k < |parts|
    ensures k == 0 || !Steps(parts, k).isFirst || QueryLength(parts, k) <= |parts[k]|
    ensures k == 0 ==> QueryLength(parts, k) <= |parts[k]|
    ensures Steps(parts, k + 1) == Step(Steps(parts, k), parts[k], QueryLength(parts, k))
    ensures |Steps(parts, k + 1).out| <= Counted(parts, |parts|)
  {
    StaysWithinCount(parts, k + 1);
    CountGrows(parts, k + 1);
  }

  /** The body of the loop. */
  method TakePart(res: array<char>, chunk: string, queryLen: nat, isFirst: bool, ghost acc: Acc, offset: nat)
    returns (next: nat)
    requires isFirst == acc.isFirst && (isFirst ==> queryLen <= |chunk|)
    requires offset <= res.Length && acc.out == res[..offset] && |Step(acc, chunk, queryLen).out| <= res.Length
    modifies res
    ensures next <= res.Length && Step(acc, chunk, queryLen).out == res[..next]
  {
    next := offset;
    if |chunk| != 0 {
      next := AddPart(res, offset, chunk, isFirst, queryLen);
    }
  }

  /** The loop over the arguments. */
  method FillBuffer(parts: seq<string>, res: array<char>, queryLen: nat)
    returns (offset: nat, isFirst: bool, previousWasEmpty: bool)
    requires parts != [] && queryLen == |Query(parts[0])| && res.Length == Counted(parts, |parts|) + 2
    modifies res
    ensures offset <= res.Length && Steps(parts, |parts|) == Acc(res[..offset], isFirst, previousWasEmpty)
  {
    offset, isFirst, previousWasEmpty := 0, true, false;
    var k := 0;
    while k < |parts|
      invariant 0 <= k <= |parts| && 0 <= offset <= res.Length
      invariant Steps(parts, k) == Acc(res[..offset], isFirst, previousWasEmpty)
    {
      OneMorePart(parts, k);
      offset := TakePart(res, parts[k], if k == 0 then queryLen else 0, isFirst, Steps(parts, k), offset);
      previousWasEmpty := |parts[k]| == 0;
      isFirst := isFirst && previousWasEmpty;
      k := k + 1;
    }
  }

  method Pathconcat(parts: seq<string>) returns (r: string)
    requires parts != []
    ensures r == Join(parts)
  {
    var total := CountLength(parts);
    if total == 0 {
      NothingCounted(parts);
      return "";
    }
    var query := Query(parts[0]);
    var res := new char[total + 2];
    var offset, isFirst, previousWasEmpty := FillBuffer(parts, res, |query|);
    StaysWithinCount(parts, |parts|);
    if query != "" {
      offset := Append(res, offset, query);
    } else {
      assert res[..offset] + query == res[..offset];
    }
    assert offset <= total;
    if offset == 0 {
      return parts[0];
    }
    if previousWasEmpty && !isFirst {
      offset := Append(res, offset, [SEPARATOR]);
    }
    assert offset <= total;
    res[offset] := '\0';
    r := res[..offset];
  }

  method CountLength(parts: seq<string>) returns (total: nat)
    requires parts != []
    ensures total == Counted(parts, |parts|)
  {
    total := |parts[0]|;
    var k := 1;
    while k < |parts|
      invariant 1 <= k <= |parts| && total == Counted(parts, k)
    {
      total := total + |parts[k]| + 1;
      k := k + 1;
    }
  }

  lemma NothingCounted(parts: seq<string>)
    requires parts != [] && Counted(parts, |parts|) == 0
    ensures Join(parts) == ""
  {
    CountGrows(parts, Min(2, |parts|));
    assert |parts| == 1;
    assert Steps(parts, 1) == Step(Steps(parts, 0), "", 0);
  }

  lemma {:induction false} CountGrows(parts: seq<string>, n: nat)
    requires n <= |parts|
    ensures Counted(parts, n) <= Counted(parts, |parts|)
    decreases |parts| - n
  {
    if n < |parts| {
      CountGrows(parts, n + 1);
    }
  }

  // ---------------------------------------------------------------- joining is associative

  lemma {:induction false} NoQuery(s: string)
    requires '?' !in s
    ensures Query(s) == ""
  {
    if s != "" {
      NoQuery(s[1..]);
    }
  }

  lemma FirstStep(parts: seq<string>)
    requires parts != [] && parts[0] != "" && '?' !in parts[0]
    ensures Query(parts[0]) == "" && Steps(parts, 1) == Acc(RStrip(parts[0]), false, false)
  {
    NoQuery(parts[0]);
    assert parts[0][..|parts[0]|] == parts[0];
    assert Steps(parts, 0) == EMPTY;
    assert "" + RStrip(parts[0]) == RStrip(parts[0]);
  }

  /** What one more non-empty component does to what has been joined. */
  function Extend(out: string, part: string): string {
    out + Piece(false, part, 0)
  }

  lemma NextStep(parts: seq<string>, n: nat, out: string)
    requires 1 <= n < |parts| && parts[n] != "" && Steps(parts, n) == Acc(out, false, false)
    ensures Steps(parts, n + 1) == Acc(Extend(out, parts[n]), false, false)
  {
  }

  function OrElse(out: string, first: string): string {
    if out == "" then first else out
  }

  lemma JoinTwo(a: string, b: string)
    requires a != "" && b != "" && '?' !in a
    ensures Join([a, b]) == OrElse(Extend(RStrip(a), b), a)
  {
    var parts := [a, b];
    FirstStep(parts);
    NextStep(parts, 1, RStrip(a));
    var out := Extend(RStrip(a), b);
    assert out + "" == out;
  }

  lemma JoinThree(a: string, b: string, c: string)
    requires a != "" && b != "" && c != "" && '?' !in a
    ensures Join([a, b, c]) == OrElse(Extend(Extend(RStrip(a), b), c), a)
  {
    var parts := [a, b, c];
    FirstStep(parts);
    NextStep(parts, 1, RStrip(a));
    NextStep(parts, 2, Extend(RStrip(a), b));
    var out := Extend(Extend(RStrip(a), b), c);
    assert out + "" == out;
  }

  predicate Stripped(out: string) {
    out != "" ==> out[|out| - 1] != SEPARATOR
  }

  lemma {:induction false} LStripIsSuffix(s: string)
    ensures LStrip(s) == s[|s| - |LStrip(s)|..]
  {
    if s != "" && s[0] == SEPARATOR {
      LStripIsSuffix(s[1..]);
    }
  }

  lemma ExtendHasNoQuery(out: string, part: string)
    requires '?' !in out && '?' !in part
    ensures '?' !in Extend(out, part)
  {
    LStripIsSuffix(part);
    assert '?' !in LStrip(part) && '?' !in RStrip(LStrip(part));
  }

  /** What has been joined ends in no separator. */
  lemma ExtendIsStripped(out: string, part: string)
    requires Stripped(out)
    ensures Stripped(Extend(out, part))
  {
    var body := RStrip(LStrip(part));
    if body != "" {
      var piece := [SEPARATOR] + body;
      assert (out + piece)[|out + piece| - 1] == body[|body| - 1];
    } else {
      assert Extend(out, part) == out;
    }
  }

  // ---------------------------------------------------------------- joining in stages

  /** A component that is not empty and does not start a query. */
  predicate Plain(part: string) {
    part != "" && '?' !in part
  }

  predicate PlainParts(parts: seq<string>) {
    forall k :: 0 <= k < |parts| ==> Plain(parts[k])
  }

  function Extending(): (string, string) -> string {
    (out, part) => Extend(out, part)
  }

  /** What has been joined after n components. */
  function Joined(parts: seq<string>, n: nat): string
    requires 1 <= n <= |parts|
  {
    FoldLeft(Extending(), RStrip(parts[0]), parts[1..n])
  }

  lemma JoinedNext(parts: seq<string>, n: nat, before: string)
    requires 1 < n <= |parts| && Joined(parts, n - 1) == before
    ensures Joined(parts, n) == Extend(before, parts[n - 1])
  {
    FoldLeftConcat(Extending(), RStrip(parts[0]), parts[1..n - 1], [parts[n - 1]]);
    assert parts[1..n - 1] + [parts[n - 1]] == parts[1..n];
    assert [parts[n - 1]][1..] == [];
  }

  lemma OneJoined(parts: seq<string>, out: string)
    requires parts != [] && Plain(parts[0]) && out == Joined(parts, 1)
    ensures Steps(parts, 1) == Acc(out, false, false)
  {
    FirstStep(parts);
  }

  predicate NoneEmpty(parts: seq<string>) {
    forall k :: 0 <= k < |parts| ==> parts[k] != ""
  }

  lemma OneMoreJoined(parts: seq<string>, n: nat, before: string)
    requires 1 < n <= |parts| && parts[n - 1] != "" && before == Joined(parts, n - 1)
    requires Steps(parts, n - 1) == Acc(before, false, false)
    ensures Steps(parts, n) == Acc(Extend(before, parts[n - 1]), false, false)
    ensures Joined(parts, n) == Extend(before, parts[n - 1])
  {
    NextStep(parts, n - 1, before);
    JoinedNext(parts, n, before);
  }

  lemma {:induction false} StepsAreJoined(parts: seq<string>, n: nat) returns (out: string)
    requires 1 <= n <= |parts| && Plain(parts[0]) && NoneEmpty(parts)
    ensures out == Joined(parts, n) && Steps(parts, n) == Acc(out, false, false)
  {
    if n == 1 {
      out := Joined(parts, 1);
      OneJoined(parts, out);
    } else {
      var before := StepsAreJoined(parts, n - 1);
      OneMoreJoined(parts, n, before);
      out := Extend(before, parts[n - 1]);
    }
  }

  lemma {:induction false} JoinedHasNoQuery(parts: seq<string>, n: nat)
    requires PlainParts(parts) && 1 <= n <= |parts|
    ensures '?' !in Joined(parts, n)
  {
    assert Plain(parts[n - 1]);
    if n == 1 {
      assert '?' !in RStrip(parts[0]);
    } else {
      JoinedHasNoQuery(parts, n - 1);
      JoinedNext(parts, n, Joined(parts, n - 1));
      ExtendHasNoQuery(Joined(parts, n - 1), parts[n - 1]);
    }
  }

  lemma {:induction false} JoinedIsStripped(parts: seq<string>, n: nat)
    requires 1 <= n <= |parts|
    ensures Stripped(Joined(parts, n))
  {
    if n > 1 {
      JoinedIsStripped(parts, n - 1);
      JoinedNext(parts, n, Joined(parts, n - 1));
      ExtendIsStripped(Joined(parts, n - 1), parts[n - 1]);
    }
  }

  /** If everything is stripped away, so was the beginning. */
  lemma {:induction false} EmptyFromTheStart(parts: seq<string>, k: nat, n: nat)
    requires 1 <= k <= n <= |parts| && Joined(parts, n) == ""
    ensures Joined(parts, k) == ""
    decreases n
  {
    if k < n {
      JoinedNext(parts, n, Joined(parts, n - 1));
      EmptyFromTheStart(parts, k, n - 1);
    }
  }

  /** Going on from what k components were joined to, as one component, is going on with the components. */
  lemma JoinedGoesOn(parts: seq<string>, k: nat, stages: seq<string>)
    requires 1 <= k <= |parts| && |stages| == |parts| - k + 1
    requires stages[1..] == parts[k..] && RStrip(stages[0]) == Joined(parts, k)
    ensures Joined(stages, |stages|) == Joined(parts, |parts|)
  {
    FoldLeftConcat(Extending(), RStrip(parts[0]), parts[1..k], parts[k..]);
    assert parts[1..k] + parts[k..] == parts[1..|parts|];
    assert stages[1..|stages|] == stages[1..];
  }

  lemma JoinWithoutQuery(parts: seq<string>, acc: Acc)
    requires parts != [] && Steps(parts, |parts|) == acc && Query(parts[0]) == ""
    ensures Join(parts) == if acc.out == "" then parts[0]
                           else if acc.previousWasEmpty && !acc.isFirst then acc.out + "/" else acc.out
  {
    assert acc.out + "" == acc.out;
  }

  lemma JoinIsJoined(parts: seq<string>, out: string)
    requires PlainParts(parts) && parts != [] && out == Joined(parts, |parts|)
    ensures Join(parts) == OrElse(out, parts[0])
  {
    assert forall k :: 0 <= k < |parts| ==> Plain(parts[k]);
    var same := StepsAreJoined(parts, |parts|);
    NoQuery(parts[0]);
    JoinWithoutQuery(parts, Acc(out, false, false));
  }

  /** What the first stage gives, as the first component of the second. */
  lemma FirstStage(parts: seq<string>, k: nat, first: string)
    requires PlainParts(parts) && 1 <= k <= |parts| && first == Join(parts[..k])
    ensures Plain(first) && RStrip(first) == Joined(parts, k)
    ensures Joined(parts, k) == "" ==> first == parts[0]
  {
    assert PlainParts(parts[..k]) && Plain(parts[0]);
    assert parts[..k][1..k] == parts[1..k];
    JoinIsJoined(parts[..k], Joined(parts, k));
    JoinedHasNoQuery(parts, k);
    JoinedIsStripped(parts, k);
    if Joined(parts, k) == "" {
      EmptyFromTheStart(parts, 1, k);
    }
  }

  lemma SecondStage(parts: seq<string>, k: nat, stages: seq<string>)
    requires PlainParts(parts) && PlainParts(stages) && 1 <= k <= |parts| && |stages| == |parts| - k + 1
    requires stages[1..] == parts[k..] && RStrip(stages[0]) == Joined(parts, k)
    requires Joined(parts, k) == "" ==> stages[0] == parts[0]
    ensures Join(stages) == Join(parts)
  {
    var out := Joined(parts, |parts|);
    JoinedGoesOn(parts, k, stages);
    JoinIsJoined(stages, out);
    JoinIsJoined(parts, out);
    if out == "" {
      EmptyFromTheStart(parts, k, |parts|);
    }
  }

  /** For any number of non-empty components without '?', joining some of them first and then the result with
      the rest is joining all at once. */
  lemma JoinInStages(parts: seq<string>, k: nat)
    requires PlainParts(parts) && 1 <= k <= |parts|
    ensures Join([Join(parts[..k])] + parts[k..]) == Join(parts)
  {
    var first := Join(parts[..k]);
    FirstStage(parts, k, first);
    SecondStage(parts, k, [first] + parts[k..]);
  }

  lemma ThreeInStages(parts: seq<string>, two: seq<string>, stages: seq<string>)
    requires |parts| == 3 && PlainParts(parts) && two == parts[..2] && stages == [Join(two), parts[2]]
    ensures Join(stages) == Join(parts)
  {
    assert stages == [Join(parts[..2])] + parts[2..];
    JoinInStages(parts, 2);
  }

  /** For three components: joining is associative. */
  lemma JoinIsAssociative(a: string, b: string, c: string)
    requires a != "" && b != "" && c != "" && '?' !in a && '?' !in b && '?' !in c
    ensures Join([Join([a, b]), c]) == Join([a, b, c])
  {
    assert [a, b, c][..2] == [a, b];
    ThreeInStages([a, b, c], [a, b], [Join([a, b]), c]);
  }
}
