/** What lr_pathconcat's join is, on the characters of its components: bodies between single separators, with
    the query of the first component at the end; and which components make no difference. */
module PathJoining {
  import opened Wrappers
  import opened PathConcat

  function Slashes(n: nat): string {
    seq(n, _ => '/')
  }

  predicate OnlySlashes(s: string) {
    forall k :: 0 <= k < |s| ==> s[k] == '/'
  }

  predicate NoText(parts: seq<string>) {
    NoTextBefore(parts, |parts|)
  }

  predicate NoTextBefore(parts: seq<string>, n: nat)
    requires n <= |parts|
  {
    forall k :: 0 <= k < n ==> OnlySlashes(parts[k])
  }

  /** Text with no separator at either end. */
  predicate Body(s: string) {
    s != "" && s[0] != '/' && s[|s| - 1] != '/'
  }

  /** Nothing, or a question mark and anything. */
  predicate IsQuery(q: string) {
    q == "" || q[0] == '?'
  }

  ghost predicate Padded(part: string, body: string) {
    Body(body) && exists l: nat, r: nat :: part == Slashes(l) + body + Slashes(r)
  }

  /** The components from the given one on are these bodies, with any separators around them. */
  ghost predicate AllPadded(parts: seq<string>, first: nat, bodies: seq<string>) {
    |parts| == first + |bodies| && forall k :: first <= k < |parts| ==> Padded(parts[k], bodies[k - first])
  }

  /** The first n bodies, each behind a separator. */
  function Chain(bodies: seq<string>, n: nat): string
    requires n <= |bodies|
  {
    if n == 0 then "" else Chain(bodies, n - 1) + ("/" + bodies[n - 1])
  }

  // ---------------------------------------------------------------- stripping

  lemma {:induction false} LStripSlashes(n: nat, s: string)
    requires s == "" || s[0] != '/'
    ensures LStrip(Slashes(n) + s) == s
  {
    if n > 0 {
      assert (Slashes(n) + s)[1..] == Slashes(n - 1) + s;
      LStripSlashes(n - 1, s);
    } else {
      assert Slashes(n) + s == s;
    }
  }

  lemma {:induction false} RStripSlashes(s: string, n: nat)
    requires s == "" || s[|s| - 1] != '/'
    ensures RStrip(s + Slashes(n)) == s
  {
    if n > 0 {
      assert (s + Slashes(n))[..|s| + n - 1] == s + Slashes(n - 1);
      RStripSlashes(s, n - 1);
    } else {
      assert s + Slashes(n) == s;
    }
  }

  lemma {:induction false} NothingLeft(s: string)
    ensures LStrip(s) == "" <==> OnlySlashes(s)
  {
    if s != "" && s[0] == '/' {
      NothingLeft(s[1..]);
      assert forall k :: 1 <= k < |s| ==> s[k] == s[1..][k - 1];
    }
  }

  lemma {:induction false} NothingRight(s: string)
    ensures RStrip(s) == "" <==> OnlySlashes(s)
  {
    if s != "" && s[|s| - 1] == '/' {
      NothingRight(s[..|s| - 1]);
      assert forall k :: 0 <= k < |s| - 1 ==> s[k] == s[..|s| - 1][k];
    }
  }

  lemma {:induction false} StripsTheSame(s: string)
    ensures OnlySlashes(LStrip(s)) <==> OnlySlashes(s)
  {
    if s != "" && s[0] == '/' {
      StripsTheSame(s[1..]);
      assert forall k :: 1 <= k < |s| ==> s[k] == s[1..][k - 1];
    }
  }

  /** A component adds nothing exactly when it is only separators. */
  lemma AddsNothing(s: string)
    ensures Piece(false, s, 0) == "" <==> OnlySlashes(s)
    ensures Piece(true, s, 0) == "" <==> OnlySlashes(s)
  {
    NothingRight(s);
    NothingRight(LStrip(s));
    StripsTheSame(s);
    assert s[..|s| - 0] == s;
  }

  lemma PaddedAdds(part: string, body: string, out: string)
    requires Padded(part, body)
    ensures Step(Acc(out, false, false), part, 0) == Acc(out + ("/" + body), false, false)
  {
    var l: nat, r: nat :| part == Slashes(l) + body + Slashes(r);
    assert part == Slashes(l) + (body + Slashes(r));
    LStripSlashes(l, body + Slashes(r));
    RStripSlashes(body, r);
  }

  // ---------------------------------------------------------------- bodies between separators

  lemma NextSteps(parts: seq<string>, n: nat, acc: Acc)
    requires 1 < n <= |parts| && Steps(parts, n - 1) == acc
    ensures Steps(parts, n) == Step(acc, parts[n - 1], 0)
  {
  }

  lemma {:induction false} ChainSteps(parts: seq<string>, head: string, bodies: seq<string>, first: nat, n: nat)
    returns (out: string)
    requires 1 <= first <= n <= |parts| && AllPadded(parts, first, bodies)
    requires Steps(parts, first) == Acc(head, false, false)
    ensures out == head + Chain(bodies, n - first) && Steps(parts, n) == Acc(out, false, false)
    decreases n
  {
    if n == first {
      out := head;
    } else {
      var before := ChainSteps(parts, head, bodies, first, n - 1);
      var body := bodies[n - 1 - first];
      assert Padded(parts[n - 1], body);
      PaddedAdds(parts[n - 1], body, before);
      NextSteps(parts, n, Acc(before, false, false));
      ConcatIsAssociative(head, Chain(bodies, n - 1 - first), "/" + body);
      out := before + ("/" + body);
    }
  }

  lemma {:induction false} QueryOf(b: string, q: string)
    requires '?' !in b && IsQuery(q)
    ensures Query(b + q) == q
  {
    if b == "" {
      assert b + q == q;
    } else {
      assert (b + q)[1..] == b[1..] + q;
      QueryOf(b[1..], q);
    }
  }

  /** The first component, in front of its query. */
  lemma FirstComponent(parts: seq<string>, b: string, q: string)
    requires parts != [] && parts[0] == b + q != "" && '?' !in b && IsQuery(q)
    ensures Query(parts[0]) == q && Steps(parts, 1) == Acc(RStrip(b), false, false)
  {
    QueryOf(b, q);
    assert (b + q)[..|b + q| - |q|] == b;
    assert Steps(parts, 0) == EMPTY;
    assert "" + RStrip(b) == RStrip(b);
  }

  lemma JoinOfSteps(parts: seq<string>, out: string, q: string)
    requires parts != [] && Steps(parts, |parts|) == Acc(out, false, false) && Query(parts[0]) == q
    ensures Join(parts) == if out + q == "" then parts[0] else out + q
  {
  }

  /** A first component with text keeps its leading separators and gives its query away to the end of the
      result; what comes between are the other bodies, each behind one separator. */
  lemma JoinOfBodies(parts: seq<string>, l: nat, b: string, r: nat, q: string, bodies: seq<string>)
    requires AllPadded(parts, 1, bodies) && Body(b) && '?' !in b && IsQuery(q)
    requires parts[0] == Slashes(l) + b + Slashes(r) + q
    ensures Join(parts) == Slashes(l) + b + Chain(bodies, |bodies|) + q
  {
    var (whole, head) := (Slashes(l) + b + Slashes(r), Slashes(l) + b);
    assert '?' !in whole;
    FirstComponent(parts, whole, q);
    RStripSlashes(head, r);
    var out := ChainSteps(parts, head, bodies, 1, |parts|);
    JoinOfSteps(parts, out, q);
  }

  /** A first component of separators only leaves just the separator of the next body, and with no other
      component and no query it is the result. */
  lemma JoinAfterSlashes(parts: seq<string>, n: nat, q: string, bodies: seq<string>)
    requires AllPadded(parts, 1, bodies) && IsQuery(q) && parts[0] == Slashes(n) + q != ""
    ensures Join(parts) == if bodies == [] && q == "" then Slashes(n) else Chain(bodies, |bodies|) + q
  {
    FirstComponent(parts, Slashes(n), q);
    RStripSlashes("", n);
    assert "" + Slashes(n) == Slashes(n);
    var out := ChainSteps(parts, "", bodies, 1, |parts|);
    JoinOfSteps(parts, out, q);
    assert out == Chain(bodies, |bodies|);
    assert q == "" ==> Slashes(n) + q == Slashes(n);
  }

  lemma EmptyHasNoQuery(part: string)
    requires |part| == 0
    ensures |Query(part)| == 0
  {
  }

  /** An empty component gives nothing, and the next one is still the first. */
  lemma EmptyIsSkipped(parts: seq<string>, acc: Acc)
    requires parts != [] && |parts[0]| == 0 && |Query(parts[0])| == 0 && acc == Steps(parts, 1)
    ensures |acc.out| == 0 && acc.isFirst && acc.previousWasEmpty
  {
  }

  lemma FirstAfterEmpty(parts: seq<string>, second: string)
    requires |parts| >= 2 && parts[1] == second != "" && Steps(parts, 1) == Acc("", true, true)
    ensures Steps(parts, 2) == Acc(RStrip(second), false, false)
  {
    NextSteps(parts, 2, Acc("", true, true));
    assert second[..|second|] == second;
    assert "" + RStrip(second) == RStrip(second);
  }

  lemma JoinOfChain(parts: seq<string>, head: string, chain: string, out: string)
    requires parts != [] && Steps(parts, |parts|) == Acc(out, false, false) && Query(parts[0]) == ""
    requires head != "" && out == head + chain
    ensures Join(parts) == head + chain
  {
    JoinWithoutQuery(parts, Acc(out, false, false));
  }

  /** After an empty first component the second keeps its leading separators instead, and no query is looked
      for in it. */
  lemma JoinAfterEmpty(parts: seq<string>, head: string, r: nat, bodies: seq<string>)
    requires AllPadded(parts, 2, bodies) && head != "" && head[|head| - 1] != '/'
    requires parts[0] == "" && parts[1] == head + Slashes(r)
    ensures Join(parts) == head + Chain(bodies, |bodies|)
  {
    EmptyHasNoQuery(parts[0]);
    EmptyIsSkipped(parts, Steps(parts, 1));
    FirstAfterEmpty(parts, parts[1]);
    RStripSlashes(head, r);
    var out := ChainSteps(parts, head, bodies, 2, |parts|);
    JoinOfChain(parts, head, Chain(bodies, |bodies|), out);
  }

  // ---------------------------------------------------------------- the query

  lemma {:induction false} QuerySteps(parts: seq<string>, plain: seq<string>, b: string, q: string, n: nat)
    returns (acc: Acc)
    requires b != "" && '?' !in b && IsQuery(q) && 1 <= n <= |parts| == |plain|
    requires parts[0] == b + q && plain[0] == b && parts[1..] == plain[1..]
    ensures acc == Steps(parts, n) == Steps(plain, n)
  {
    if n == 1 {
      FirstComponent(parts, b, q);
      assert b + "" == b;
      FirstComponent(plain, b, "");
      acc := Acc(RStrip(b), false, false);
    } else {
      acc := QuerySteps(parts, plain, b, q, n - 1);
      assert parts[n - 1] == parts[1..][n - 2] == plain[n - 1];
      NextSteps(parts, n, acc);
      NextSteps(plain, n, acc);
      acc := Step(acc, plain[n - 1], 0);
    }
  }

  /** What is empty, what is first, and what is empty last. */
  lemma {:induction false} StepsFlags(parts: seq<string>, n: nat)
    requires n <= |parts|
    ensures Steps(parts, n).isFirst <==> forall k :: 0 <= k < n ==> parts[k] == ""
    ensures Steps(parts, n).previousWasEmpty <==> n > 0 && parts[n - 1] == ""
  {
    if n > 0 {
      StepsFlags(parts, n - 1);
    }
  }

  lemma StepText(acc: Acc, part: string, acc': Acc)
    requires acc' == Step(acc, part, 0)
    ensures acc'.out == "" <==> acc.out == "" && OnlySlashes(part)
  {
    AddsNothing(part);
  }

  lemma {:induction false} StepsText(parts: seq<string>, n: nat) returns (acc: Acc)
    requires n <= |parts| && parts != [] && Query(parts[0]) == ""
    ensures acc == Steps(parts, n) && (acc.out == "" <==> NoTextBefore(parts, n))
  {
    if n == 0 {
      acc := EMPTY;
    } else {
      var before := StepsText(parts, n - 1);
      acc := Step(before, parts[n - 1], 0);
      StepText(before, parts[n - 1], acc);
      NoTextNext(parts, n);
    }
  }

  lemma NoTextNext(parts: seq<string>, n: nat)
    requires 1 <= n <= |parts|
    ensures NoTextBefore(parts, n) <==> NoTextBefore(parts, n - 1) && OnlySlashes(parts[n - 1])
  {
  }

  /** There is nothing to put after the components exactly when they hold nothing but separators. */
  lemma NothingJoined(parts: seq<string>)
    requires parts != []
    ensures Steps(parts, |parts|).out + Query(parts[0]) == "" <==> NoText(parts)
  {
    QueryIsPart(parts[0]);
    if '?' !in parts[0] {
      var acc := StepsText(parts, |parts|);
      assert acc.out + "" == acc.out;
    }
  }

  lemma {:induction false} QueryIsPart(s: string)
    ensures Query(s) == "" <==> '?' !in s
    ensures '?' in s ==> !OnlySlashes(s)
  {
    if s != "" && s[0] != '?' {
      QueryIsPart(s[1..]);
    }
  }

  lemma QueryAtEnd(parts: seq<string>, plain: seq<string>, q: string, acc: Acc)
    requires parts != [] && plain != [] && q != "" && Query(parts[0]) == q && Query(plain[0]) == ""
    requires acc == Steps(parts, |parts|) == Steps(plain, |plain|) && !acc.previousWasEmpty
    requires acc.out == "" <==> NoText(plain)
    ensures Join(parts) == (if NoText(plain) then "" else Join(plain)) + q
  {
    JoinWithoutQuery(plain, acc);
  }

  /** The query of the first component goes to the end of what is joined without it; after separators only it
      is all there is. */
  lemma QueryGoesToTheEnd(b: string, q: string, rest: seq<string>)
    requires b != "" && '?' !in b && q != "" && q[0] == '?'
    requires rest != [] ==> rest[|rest| - 1] != ""
    ensures Join([b + q] + rest) == (if NoText([b] + rest) then "" else Join([b] + rest)) + q
  {
    var (parts, plain) := ([b + q] + rest, [b] + rest);
    var acc := QuerySteps(parts, plain, b, q, |plain|);
    QueryOf(b, q);
    NoQuery(b);
    StepsFlags(plain, |plain|);
    var same := StepsText(plain, |plain|);
    QueryAtEnd(parts, plain, q, acc);
  }

  // ---------------------------------------------------------------- components without text

  lemma {:induction false} StepsPrefix(pre: seq<string>, post: seq<string>, n: nat)
    requires n <= |pre| && pre != []
    ensures Steps(pre + post, n) == Steps(pre, n)
  {
    if n > 0 {
      StepsPrefix(pre, post, n - 1);
    }
  }

  /** An empty last component puts a separator at the end, once, unless there is nothing to put it after. */
  lemma EmptyLast(parts: seq<string>)
    requires parts != []
    ensures Join(parts + [""])
            == if parts[|parts| - 1] == "" || NoText(parts) then Join(parts) else Join(parts) + "/"
  {
    var more := parts + [""];
    StepsPrefix(parts, [""], |parts|);
    StepsFlags(parts, |parts|);
    NothingJoined(parts);
    NothingJoined(more);
    assert Steps(more, |more|) == Steps(parts, |parts|).(previousWasEmpty := true);
  }

  /** Of components that are nothing but separators, or empty, the result is the first. */
  lemma JoinOfNothing(parts: seq<string>)
    requires parts != [] && NoText(parts)
    ensures Join(parts) == parts[0]
  {
    NothingJoined(parts);
  }

  /** A component without text only says whether the last one was empty, which the next one forgets. */
  lemma StepsOver(acc: Acc, x: string, y: string)
    requires OnlySlashes(x) && !acc.isFirst
    ensures Step(Step(acc, x, 0), y, 0) == Step(acc, y, 0)
  {
    AddsNothing(x);
    assert acc.out + "" == acc.out;
  }

  lemma StepsPast(pre: seq<string>, x: string, more: seq<string>, less: seq<string>) returns (acc: Acc)
    requires pre != [] && pre[0] != "" && OnlySlashes(x)
    requires |pre| + 2 <= |more| && |pre| < |less|
    requires more[..|pre|] == pre == less[..|pre|] && more[|pre|] == x && more[|pre| + 1] == less[|pre|]
    ensures acc == Steps(more, |pre| + 2) && acc == Steps(less, |pre| + 1)
  {
    var k := |pre|;
    var before := Steps(pre, k);
    StepsPrefix(pre, more[k..], k);
    StepsPrefix(pre, less[k..], k);
    assert pre + more[k..] == more && pre + less[k..] == less;
    StepsFlags(pre, k);
    NextSteps(more, k + 1, before);
    NextSteps(more, k + 2, Step(before, x, 0));
    NextSteps(less, k + 1, before);
    StepsOver(before, x, less[k]);
    acc := Step(before, less[k], 0);
  }

  lemma {:induction false} StepsWithout(pre: seq<string>, x: string, more: seq<string>, less: seq<string>, n: nat)
    returns (acc: Acc)
    requires pre != [] && pre[0] != "" && OnlySlashes(x) && |more| == |less| + 1 && |pre| < n <= |less|
    requires more[..|pre|] == pre == less[..|pre|] && more[|pre|] == x
    requires forall k :: |pre| <= k < |less| ==> more[k + 1] == less[k]
    ensures acc == Steps(more, n + 1) && acc == Steps(less, n)
    decreases n
  {
    if n == |pre| + 1 {
      acc := StepsPast(pre, x, more, less);
    } else {
      acc := StepsWithout(pre, x, more, less, n - 1);
      NextSteps(more, n + 1, acc);
      NextSteps(less, n, acc);
      acc := Step(acc, less[n - 1], 0);
    }
  }

  lemma SameSteps(a: seq<string>, b: seq<string>, acc: Acc)
    requires a != [] && b != [] && a[0] == b[0] && Steps(a, |a|) == acc == Steps(b, |b|)
    ensures Join(a) == Join(b)
  {
  }

  /** Between others, a component that is empty or only separators makes no difference. */
  lemma NothingBetween(pre: seq<string>, x: string, post: seq<string>)
    requires pre != [] && pre[0] != "" && OnlySlashes(x) && post != []
    ensures Join(pre + [x] + post) == Join(pre + post)
  {
    var (more, less) := (pre + [x] + post, pre + post);
    var acc := StepsWithout(pre, x, more, less, |less|);
    SameSteps(more, less, acc);
  }

  /** At the end, separators alone make none either. */
  lemma SlashesLast(parts: seq<string>, n: nat)
    requires parts != [] && parts[0] != "" && parts[|parts| - 1] != "" && n > 0
    ensures Join(parts + [Slashes(n)]) == Join(parts)
  {
    SlashesAdded(parts, Slashes(n), parts + [Slashes(n)]);
  }

  lemma SlashesAdded(parts: seq<string>, x: string, more: seq<string>)
    requires parts != [] && parts[0] != "" && parts[|parts| - 1] != "" && x != "" && OnlySlashes(x)
    requires more == parts + [x]
    ensures Join(more) == Join(parts)
  {
    var acc := Steps(parts, |parts|);
    StepsPrefix(parts, [x], |parts|);
    StepsFlags(parts, |parts|);
    NextSteps(more, |more|, acc);
    AddsNothing(x);
    assert acc.out + "" == acc.out;
    SameSteps(more, parts, acc);
  }

  lemma {:induction false} StepsAfterEmpty(parts: seq<string>, more: seq<string>, n: nat) returns (acc: Acc)
    requires parts != [] && Query(parts[0]) == "" && more == [""] + parts && 1 <= n <= |parts|
    ensures acc == Steps(more, n + 1) == Steps(parts, n)
  {
    assert more[n] == parts[n - 1];
    if n == 1 {
      assert Steps(more, 0) == EMPTY && Steps(parts, 0) == EMPTY;
      NextSteps(more, 2, Acc("", true, true));
      acc := Steps(parts, 1);
    } else {
      acc := StepsAfterEmpty(parts, more, n - 1);
      NextSteps(more, n + 1, acc);
      NextSteps(parts, n, acc);
      acc := Step(acc, parts[n - 1], 0);
    }
  }

  lemma EmptyInFront(parts: seq<string>, more: seq<string>)
    requires parts != [] && Query(parts[0]) == "" && more == [""] + parts
    ensures Join(more) == if NoText(parts) then "" else Join(parts)
  {
    EmptyHasNoQuery(more[0]);
    var acc := StepsAfterEmpty(parts, more, |parts|);
    var same := StepsText(parts, |parts|);
    JoinWithoutQuery(parts, acc);
    JoinWithoutQuery(more, acc);
  }

  /** An empty component in front makes a difference only to a query, and when there is no text. */
  lemma EmptyFirst(parts: seq<string>)
    requires parts != [] && '?' !in parts[0]
    ensures Join([""] + parts) == if NoText(parts) then "" else Join(parts)
  {
    QueryIsPart(parts[0]);
    EmptyInFront(parts, [""] + parts);
  }
}
