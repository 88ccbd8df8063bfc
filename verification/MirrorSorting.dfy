/** sort_mirrors moves one mirror by one exchange, and a rank-based exchange is always progress towards
    the order by success rate. */
module MirrorSorting {
  import opened Wrappers
  import opened Schedule

  predicate Ranked(m: Mirror) {
    m.successful + m.failed >= 3
  }

  /** Both mirrors are ranked and the first has a strictly lower share of successes: the comparison of the
      two fractions, multiplied out. */
  predicate Worse(a: Mirror, b: Mirror) {
    && Ranked(a) && Ranked(b)
    && a.successful * (b.successful + b.failed) < b.successful * (a.successful + a.failed)
  }

  ghost predicate Counters(ms: seq<Mirror>) {
    forall k :: 0 <= k < |ms| ==> ms[k].successful >= 0 && ms[k].failed >= 0
  }

  function BetterLater(ms: seq<Mirror>, x: nat, rest: seq<nat>): nat
    requires x < |ms| && ListShape(rest, |ms|)
  {
    if rest == [] then 0
    else (if Worse(ms[x], ms[rest[0]]) then 1 else 0) + BetterLater(ms, x, rest[1..])
  }

  /** Pairs of ranked mirrors that stand in the wrong order. */
  function Inversions(ms: seq<Mirror>, list: seq<nat>): nat
    requires ListShape(list, |ms|)
  {
    if list == [] then 0 else BetterLater(ms, list[0], list[1..]) + Inversions(ms, list[1..])
  }

  lemma {:induction false} BetterLaterSwap(ms: seq<Mirror>, x: nat, list: seq<nat>, k: nat)
    requires x < |ms| && ListShape(list, |ms|) && k + 1 < |list|
    ensures BetterLater(ms, x, Swap(list, k, k + 1)) == BetterLater(ms, x, list)
  {
    var r := Swap(list, k, k + 1);
    if k == 0 {
      assert r[1..][1..] == list[1..][1..];
    } else {
      assert r[1..] == Swap(list[1..], k - 1, k);
      BetterLaterSwap(ms, x, list[1..], k - 1);
    }
  }

  lemma {:induction false} NeighbourSwap(ms: seq<Mirror>, list: seq<nat>, k: nat)
    requires ListShape(list, |ms|) && k + 1 < |list|
    requires !Worse(ms[list[k + 1]], ms[list[k]])
    ensures ListShape(Swap(list, k, k + 1), |ms|)
    ensures Inversions(ms, Swap(list, k, k + 1)) + (if Worse(ms[list[k]], ms[list[k + 1]]) then 1 else 0)
            == Inversions(ms, list)
  {
    var r := Swap(list, k, k + 1);
    if k == 0 {
      assert r[1..][1..] == list[1..][1..];
    } else {
      assert r[1..] == Swap(list[1..], k - 1, k);
      BetterLaterSwap(ms, list[0], list[1..], k - 1);
      NeighbourSwap(ms, list[1..], k - 1);
    }
  }

  lemma RankSign(m: Mirror)
    requires m.successful >= 0 && m.failed >= 0
    ensures Rank(m) < 0.0 <==> !Ranked(m)
  {
    if Ranked(m) {
      var (a, b) := (m.successful as real, (m.successful + m.failed) as real);
      assert a / b >= 0.0;
    }
  }

  lemma FractionsCompare(a: real, n: real, b: real, m: real)
    requires n > 0.0 && m > 0.0
    ensures a / n < b / m <==> a * m < b * n
  {
    var (x, y) := (a / n, b / m);
    assert a == x * n && b == y * m;
    assert a * m == x * (n * m) && b * n == y * (n * m);
    if x < y {
      assert x * (n * m) < y * (n * m);
    } else {
      assert x * (n * m) >= y * (n * m);
    }
  }

  /** The rank of the source orders ranked mirrors by their share of successes. */
  lemma RankCompares(a: Mirror, b: Mirror)
    requires Ranked(a) && Ranked(b)
    ensures Rank(a) < Rank(b) <==> Worse(a, b)
  {
    var (n, m) := (a.successful + a.failed, b.successful + b.failed);
    FractionsCompare(a.successful as real, n as real, b.successful as real, m as real);
    assert (a.successful * m) as real == a.successful as real * m as real;
    assert (b.successful * n) as real == b.successful as real * n as real;
  }

  /** The list stays a permutation of itself and at most two positions change: the mirror moves back
      after an error, forward after a success. */
  lemma SortMirrorsExchanges(list: seq<nat>, ms: seq<Mirror>, m: nat, success: bool, serious: bool)
    requires m in list && ListShape(list, |ms|)
    ensures var r := SortMirrors(list, ms, m, success, serious);
            var (i, j) := SwapPair(list, ms, m, success, serious);
            && i < |list| && j < |list| && list[i] == m && |r| == |list|
            && multiset(r) == multiset(list)
            && r[j] == list[i] && r[i] == list[j]
            && (forall k :: 0 <= k < |list| && k != i && k != j ==> r[k] == list[k])
            && (if success && !(serious && ms[m].successful == 0) then j == i || j == i - 1 else i <= j)
  {
    var (i, j) := SwapPair(list, ms, m, success, serious);
    SwapExchanges(list, i, j);
  }

  lemma SwapExchanges(list: seq<nat>, i: nat, j: nat)
    requires i < |list| && j < |list|
    ensures multiset(Swap(list, i, j)) == multiset(list)
    ensures Swap(list, i, j)[j] == list[i] && Swap(list, i, j)[i] == list[j]
    ensures forall k :: 0 <= k < |list| && k != i && k != j ==> Swap(list, i, j)[k] == list[k]
  {
  }

  /** "Moved to the end of the list", as the source puts it. */
  function MovedToEnd(list: seq<nat>, i: nat): seq<nat>
    requires i < |list|
  {
    list[..i] + list[i + 1..] + [list[i]]
  }

  /** The exchange with the last mirror moves a mirror to the end exactly when at most one mirror stands
      behind it. */
  lemma ExchangeMovesToEnd(list: seq<nat>, i: nat)
    requires i < |list| && Distinct(list)
    ensures Swap(list, i, |list| - 1) == MovedToEnd(list, i) <==> i + 2 >= |list|
  {
    var (r, moved) := (Swap(list, i, |list| - 1), MovedToEnd(list, i));
    if i + 2 >= |list| {
      assert forall k :: 0 <= k < |list| ==> r[k] == moved[k];
    } else {
      assert r[i] == list[|list| - 1] && moved[i] == list[i + 1];
    }
  }

  /** For a serious error of a mirror without success this decides whether the source's comment holds. */
  lemma SeriousErrorMovesToEnd(list: seq<nat>, ms: seq<Mirror>, m: nat)
    requires m in list && ListShape(list, |ms|) && Distinct(list) && ms[m].successful == 0
    ensures var i := IndexOf(list, m);
            SortMirrors(list, ms, m, false, true) == MovedToEnd(list, i) <==> i + 2 >= |list|
  {
    ExchangeMovesToEnd(list, IndexOf(list, m));
  }

  /** With three mirrors the first one changes places with the last, which thereby gets ahead of the
      second. */
  lemma FirstOfThree(ms: seq<Mirror>)
    requires |ms| == 3 && ms[0].successful == 0
    ensures SortMirrors([0, 1, 2], ms, 0, false, true) == [2, 1, 0] && MovedToEnd([0, 1, 2], 0) == [1, 2, 0]
  {
    assert IndexOf([0, 1, 2], 0) == 0;
  }

  /** Why a rank-based exchange happens: with a neighbour that is not better placed by its rank. */
  lemma RankedPair(list: seq<nat>, ms: seq<Mirror>, m: nat, success: bool, serious: bool)
    requires m in list && ListShape(list, |ms|)
    requires Counters(ms)
    requires !(serious && ms[m].successful == 0)
    ensures var (i, j) := SwapPair(list, ms, m, success, serious);
            i != j ==>
              var k := Min(i, j);
              && 0 <= k && k + 1 < |list| && {i, j} == {k, k + 1}
              && Ranked(ms[m])
              && !Worse(ms[list[k + 1]], ms[list[k]])
              && (Ranked(ms[list[i]]) && Ranked(ms[list[j]]) ==> Worse(ms[list[k]], ms[list[k + 1]]))
  {
    var (i, j) := SwapPair(list, ms, m, success, serious);
    RankSign(ms[list[i]]);
    RankSign(ms[list[j]]);
    if Ranked(ms[list[i]]) && Ranked(ms[list[j]]) {
      RankCompares(ms[list[i]], ms[list[j]]);
      RankCompares(ms[list[j]], ms[list[i]]);
    }
  }

  /** After an error the mirror at position i changes places with the next one exactly when that one has had
      fewer than three transfers or a higher share of successes; with the last one after a serious error
      without any success; and with none when it is last or has had fewer than three transfers itself. */
  lemma PenalizedExactlyWhen(list: seq<nat>, ms: seq<Mirror>, i: nat, serious: bool)
    requires i < |list| && Distinct(list) && ListShape(list, |ms|) && Counters(ms)
    ensures var r := SortMirrors(list, ms, list[i], false, serious);
            var cur := ms[list[i]];
            if i + 1 == |list| then r == list
            else if serious && cur.successful == 0 then r == list[i := list[|list| - 1]][|list| - 1 := list[i]]
            else
              var next := ms[list[i + 1]];
              && (r == list[i := list[i + 1]][i + 1 := list[i]]
                  <==> cur.successful + cur.failed >= 3
                       && (next.successful + next.failed < 3
                           || next.successful * (cur.successful + cur.failed)
                              > cur.successful * (next.successful + next.failed)))
              && (r == list || r == list[i := list[i + 1]][i + 1 := list[i]])
  {
    PositionIs(list, i);
    if i + 1 < |list| {
      var (cur, next) := (ms[list[i]], ms[list[i + 1]]);
      RankSign(cur);
      RankSign(next);
      if Ranked(cur) && Ranked(next) {
        RankCompares(cur, next);
      }
      assert list[i := list[i + 1]][i + 1 := list[i]][i] != list[i];
    }
  }

  /** After a success it changes places with the previous one exactly when that one has had fewer than three
      transfers or a lower share of successes. */
  lemma AwardedExactlyWhen(list: seq<nat>, ms: seq<Mirror>, i: nat)
    requires i < |list| && Distinct(list) && ListShape(list, |ms|) && Counters(ms)
    ensures var r := SortMirrors(list, ms, list[i], true, false);
            var cur := ms[list[i]];
            if i == 0 then r == list
            else
              var prev := ms[list[i - 1]];
              && (r == list[i := list[i - 1]][i - 1 := list[i]]
                  <==> cur.successful + cur.failed >= 3
                       && (prev.successful + prev.failed < 3
                           || prev.successful * (cur.successful + cur.failed)
                              < cur.successful * (prev.successful + prev.failed)))
              && (r == list || r == list[i := list[i - 1]][i - 1 := list[i]])
  {
    PositionIs(list, i);
    if i > 0 {
      var (cur, prev) := (ms[list[i]], ms[list[i - 1]]);
      RankSign(cur);
      RankSign(prev);
      if Ranked(cur) && Ranked(prev) {
        RankCompares(prev, cur);
      }
      assert list[i := list[i - 1]][i - 1 := list[i]][i] != list[i];
    }
  }

  lemma PositionIs(list: seq<nat>, i: nat)
    requires i < |list| && Distinct(list)
    ensures list[i] in list && IndexOf(list, list[i]) == i
  {
    var j := IndexOf(list, list[i]);
    assert forall k :: 0 <= k < j ==> list[k] in list[..j];
  }

  /** Unless a serious error sends a mirror without success to the end, an exchange between two ranked
      mirrors removes exactly one inversion, and any other exchange neither adds nor removes one. */
  lemma SortMirrorsImproves(list: seq<nat>, ms: seq<Mirror>, m: nat, success: bool, serious: bool)
    requires m in list && ListShape(list, |ms|)
    requires Counters(ms)
    requires !(serious && ms[m].successful == 0)
    ensures var r := SortMirrors(list, ms, m, success, serious);
            var (i, j) := SwapPair(list, ms, m, success, serious);
            && i < |list| && j < |list| && ListShape(r, |ms|)
            && Inversions(ms, r) + (if i != j && Ranked(ms[list[i]]) && Ranked(ms[list[j]]) then 1 else 0)
               == Inversions(ms, list)
  {
    var (i, j) := SwapPair(list, ms, m, success, serious);
    RankedPair(list, ms, m, success, serious);
    if i != j {
      var k := Min(i, j);
      assert Swap(list, i, j) == Swap(list, k, k + 1);
      NeighbourSwap(ms, list, k);
    } else {
      assert Swap(list, i, j) == list;
    }
  }
}
