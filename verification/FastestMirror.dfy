/** librepo/fastestmirror.c: sorting by connect time, shuffling the nearby mirrors, and applying the
    order of hosts to the mirror list of each handle. */
module FastestMirror {
  import opened Wrappers

  /** A measured mirror; a negative time means that the measurement failed. */
  datatype Mirror = Mirror(url: string, time: real)

  /** cmp_fastestmirrors: failures last, otherwise by time. */
  function Compare(a: Mirror, b: Mirror): int {
    if a.time < 0.0 && b.time < 0.0 then 0
    else if a.time < 0.0 then 1
    else if b.time < 0.0 then -1
    else if a.time < b.time then -1
    else if a.time == b.time then 0
    else 1
  }

  ghost predicate Sorted(ms: seq<Mirror>) {
    forall i, j :: 0 <= i < j < |ms| ==> Compare(ms[i], ms[j]) <= 0
  }

  lemma CompareTransitive(a: Mirror, b: Mirror, c: Mirror)
    requires Compare(a, b) <= 0 && Compare(b, c) <= 0
    ensures Compare(a, c) <= 0
  {
  }

  /** Insertion into a sorted list, behind equal elements. */
  function Insert(m: Mirror, ms: seq<Mirror>): (r: seq<Mirror>)
    ensures multiset(r) == multiset(ms) + multiset{m}
  {
    if ms == [] then [m]
    else if Compare(m, ms[0]) < 0 then
      assert [m] + ms == [m] + ms;
      [m] + ms
    else
      assert ms == [ms[0]] + ms[1..];
      [ms[0]] + Insert(m, ms[1..])
  }

  /** g_slist_sort is stable, so its result is the one of insertion from the left. */
  function Sort(ms: seq<Mirror>): (r: seq<Mirror>)
    ensures multiset(r) == multiset(ms)
  {
    if ms == [] then []
    else
      assert ms == ms[..|ms| - 1] + [ms[|ms| - 1]];
      Insert(ms[|ms| - 1], Sort(ms[..|ms| - 1]))
  }

  lemma {:induction false} InsertSorted(m: Mirror, ms: seq<Mirror>)
    requires Sorted(ms)
    ensures Sorted(Insert(m, ms))
  {
    if ms != [] {
      var rest := ms[1..];
      if Compare(m, ms[0]) < 0 {
        forall j | 0 <= j < |ms|
          ensures Compare(m, ms[j]) <= 0
        {
          CompareTransitive(m, ms[0], ms[j]);
        }
        PrependSorted(m, ms);
      } else {
        InsertSorted(m, rest);
        var r := Insert(m, rest);
        forall j | 0 <= j < |r|
          ensures Compare(ms[0], r[j]) <= 0
        {
          assert r[j] in multiset(r);
          assert r[j] in multiset(rest) || r[j] == m;
        }
        PrependSorted(ms[0], r);
      }
    }
  }

  lemma PrependSorted(m: Mirror, ms: seq<Mirror>)
    requires Sorted(ms) && forall j :: 0 <= j < |ms| ==> Compare(m, ms[j]) <= 0
    ensures Sorted([m] + ms)
  {
  }

  lemma {:induction false} SortSorted(ms: seq<Mirror>)
    ensures Sorted(Sort(ms))
  {
    if ms != [] {
      SortSorted(ms[..|ms| - 1]);
      InsertSorted(ms[|ms| - 1], Sort(ms[..|ms| - 1]));
    }
  }

  // ---------------------------------------------------------------- the shuffle

  /** Closer than twice the best. */
  predicate Near(m: Mirror, best: real) {
    0.0 <= m.time && m.time < 2.0 * best
  }

  function InsertAt<T>(xs: seq<T>, x: T, k: nat): (r: seq<T>)
    requires k <= |xs|
    ensures multiset(r) == multiset(xs) + multiset{x}
  {
    assert xs == xs[..k] + xs[k..];
    xs[..k] + [x] + xs[k..]
  }

  function Best(sorted: seq<Mirror>): real {
    if sorted == [] then 0.0 else sorted[0].time
  }

  /** In a sorted list the nearby mirrors are a prefix. */
  lemma NearIsPrefix(sorted: seq<Mirror>, i: nat, j: nat)
    requires Sorted(sorted) && i < j < |sorted| && Near(sorted[j], Best(sorted))
    ensures Near(sorted[i], Best(sorted))
  {
    assert Compare(sorted[i], sorted[j]) <= 0;
  }

  /** The result puts some order of the nearby mirrors first, then the others as they were sorted. */
  ghost predicate Shuffled(sorted: seq<Mirror>, r: seq<Mirror>) {
    exists n: nat :: n <= |sorted| && |r| == |sorted|
      && (forall i :: 0 <= i < |sorted| ==> (Near(sorted[i], Best(sorted)) <==> i < n))
      && multiset(r[..n]) == multiset(sorted[..n]) && r[n..] == sorted[n..]
  }

  /** The result so far: the first n mirrors seen were near and have been shuffled. */
  ghost predicate PartlyShuffled(sorted: seq<Mirror>, r: seq<Mirror>, k: nat, n: nat) {
    && n <= k <= |sorted| && |r| == k
    && (forall i :: 0 <= i < k ==> (Near(sorted[i], Best(sorted)) <==> i < n))
    && multiset(r[..n]) == multiset(sorted[..n]) && r[n..] == sorted[n..k]
  }

  lemma NearInserted(sorted: seq<Mirror>, r: seq<Mirror>, k: nat, n: nat, at: nat)
    requires Sorted(sorted) && k < |sorted| && PartlyShuffled(sorted, r, k, n) && at <= |r|
    requires Near(sorted[k], Best(sorted))
    ensures n == k && PartlyShuffled(sorted, InsertAt(r, sorted[k], at), k + 1, n + 1)
  {
    if n < k {
      NearIsPrefix(sorted, n, k);
    }
    assert r[..n] == r && InsertAt(r, sorted[k], at)[..n + 1] == InsertAt(r, sorted[k], at);
    assert sorted[..k + 1] == sorted[..k] + [sorted[k]];
  }

  lemma FarAppended(sorted: seq<Mirror>, r: seq<Mirror>, k: nat, n: nat)
    requires k < |sorted| && PartlyShuffled(sorted, r, k, n) && !Near(sorted[k], Best(sorted))
    ensures PartlyShuffled(sorted, r + [sorted[k]], k + 1, n)
  {
    assert (r + [sorted[k]])[..n] == r[..n];
    assert (r + [sorted[k]])[n..] == r[n..] + [sorted[k]] == sorted[n..k + 1];
  }

  /** The loop of lr_fastestmirror. `random` stands for g_random_int_range(0, bound): any value below
      the bound, and every call of a run has another bound. */
  method Shuffle(sorted: seq<Mirror>, random: nat -> nat) returns (r: seq<Mirror>)
    requires Sorted(sorted)
    requires forall bound: nat :: bound > 0 ==> random(bound) < bound
    ensures Shuffled(sorted, r)
  {
    var best := 0.0;
    if sorted != [] {
      best := sorted[0].time;
    }
    r := [];
    var k := 0;
    ghost var n := 0;
    while k < |sorted|
      invariant 0 <= k <= |sorted| && PartlyShuffled(sorted, r, k, n)
    {
      var m := sorted[k];
      if 0.0 <= m.time && m.time < 2.0 * best {
        NearInserted(sorted, r, k, n, random(|r| + 1));
        r := InsertAt(r, m, random(|r| + 1));
        n := n + 1;
      } else {
        FarAppended(sorted, r, k, n);
        r := r + [m];
      }
      k := k + 1;
    }
    assert sorted[n..k] == sorted[n..];
  }

  /** lr_fastestmirror for an online handle, on the measured mirrors. */
  method FastestMirror(measured: seq<Mirror>, random: nat -> nat) returns (r: seq<Mirror>)
    requires forall bound: nat :: bound > 0 ==> random(bound) < bound
    ensures Shuffled(Sort(measured), r)
  {
    SortSorted(measured);
    r := Shuffle(Sort(measured), random);
  }

  /** What a shuffled list holds at position i, when the first n mirrors are the nearby ones. */
  lemma ResultAt(sorted: seq<Mirror>, r: seq<Mirror>, n: nat, i: nat)
    requires n <= |sorted| == |r| && i < |r|
    requires forall k :: 0 <= k < |sorted| ==> (Near(sorted[k], Best(sorted)) <==> k < n)
    requires multiset(r[..n]) == multiset(sorted[..n]) && r[n..] == sorted[n..]
    ensures Near(r[i], Best(sorted)) <==> i < n
    ensures i >= n ==> r[i] == sorted[i]
  {
    if i < n {
      assert r[i] in r[..n] && r[i] in multiset(r[..n]);
      assert r[i] in sorted[..n];
    } else {
      assert r[i] == r[n..][i - n] == sorted[n..][i - n];
    }
  }

  /** Any result of the shuffle, hence every outcome of the random generator: a permutation of the
      input; every mirror nearer than twice the best before every other one; the others in ascending
      order with the failures last. */
  lemma OrderOfResult(measured: seq<Mirror>, r: seq<Mirror>)
    requires Shuffled(Sort(measured), r)
    ensures multiset(r) == multiset(measured)
    ensures forall i, j :: 0 <= i < j < |r| && Near(r[j], Best(Sort(measured))) ==> Near(r[i], Best(Sort(measured)))
    ensures forall i, j :: 0 <= i < j < |r| && !Near(r[i], Best(Sort(measured))) ==> Compare(r[i], r[j]) <= 0
    ensures forall i, j :: 0 <= i < j < |r| && r[i].time < 0.0 ==> r[j].time < 0.0
  {
    var sorted, n := Sort(measured), NearCount(Sort(measured), r);
    SortSorted(measured);
    assert multiset(r) == multiset(measured) by {
      assert r == r[..n] + r[n..] && sorted == sorted[..n] + sorted[n..];
    }
    forall i, j | 0 <= i < j < |r|
      ensures Near(r[j], Best(sorted)) ==> Near(r[i], Best(sorted))
      ensures !Near(r[i], Best(sorted)) ==> Compare(r[i], r[j]) <= 0
      ensures r[i].time < 0.0 ==> r[j].time < 0.0
    {
      ResultAt(sorted, r, n, i);
      ResultAt(sorted, r, n, j);
    }
  }

  /** Mirrors below twice the best time b come first in any order, then the others from the fastest on, and
      those that could not be measured last. */
  predicate InTimeOrder(x: Mirror, y: Mirror, b: real) {
    && (0.0 <= y.time < 2.0 * b ==> 0.0 <= x.time < 2.0 * b)
    && (x.time < 0.0 ==> y.time < 0.0)
    && (2.0 * b <= x.time && 0.0 <= y.time ==> x.time <= y.time)
  }

  lemma PairInOrder(x: Mirror, y: Mirror, b: real)
    requires Near(y, b) ==> Near(x, b)
    requires !Near(x, b) ==> Compare(x, y) <= 0
    requires x.time < 0.0 ==> y.time < 0.0
    ensures InTimeOrder(x, y, b)
  {
  }

  lemma ResultInOrder(measured: seq<Mirror>, r: seq<Mirror>, b: real, i: nat, j: nat)
    requires Shuffled(Sort(measured), r) && b == Best(Sort(measured)) && i < j < |r|
    ensures InTimeOrder(r[i], r[j], b)
  {
    OrderOfResult(measured, r);
    PairInOrder(r[i], r[j], b);
  }

  /** The shortest time of those that could be measured. */
  predicate Shortest(measured: seq<Mirror>, k: nat) {
    && k < |measured| && measured[k].time >= 0.0
    && forall j :: 0 <= j < |measured| && measured[j].time >= 0.0 ==> measured[k].time <= measured[j].time
  }

  lemma ShortestIsBest(measured: seq<Mirror>, k: nat)
    requires Shortest(measured, k)
    ensures Best(Sort(measured)) == measured[k].time
  {
    var sorted := Sort(measured);
    SortSorted(measured);
    assert measured[k] in multiset(measured);
    assert measured[k] in sorted;
    var i :| 0 <= i < |sorted| && sorted[i] == measured[k];
    assert i > 0 ==> Compare(sorted[0], sorted[i]) <= 0;
    assert sorted[0] in multiset(sorted);
    assert sorted[0] in measured;
  }

  /** Any two mirrors of a result are in the order of their times, whatever was measured. */
  lemma OrderInTimes(measured: seq<Mirror>, r: seq<Mirror>, k: nat, i: nat, j: nat)
    requires Shuffled(Sort(measured), r) && Shortest(measured, k) && i < j < |r|
    ensures InTimeOrder(r[i], r[j], measured[k].time)
  {
    ShortestIsBest(measured, k);
    ResultInOrder(measured, r, measured[k].time, i, j);
  }

  ghost function NearCount(sorted: seq<Mirror>, r: seq<Mirror>): (n: nat)
    requires Shuffled(sorted, r)
    ensures n <= |sorted| == |r| && multiset(r[..n]) == multiset(sorted[..n]) && r[n..] == sorted[n..]
    ensures forall i :: 0 <= i < |sorted| ==> (Near(sorted[i], Best(sorted)) <==> i < n)
  {
    var n: nat :| n <= |sorted| && |r| == |sorted|
      && (forall i :: 0 <= i < |sorted| ==> (Near(sorted[i], Best(sorted)) <==> i < n))
      && multiset(r[..n]) == multiset(sorted[..n]) && r[n..] == sorted[n..];
    n
  }

  // ---------------------------------------------------------------- the order of a handle

  /** LrInternalMirror; `host` is lr_url_without_path(url). */
  datatype InternalMirror = InternalMirror(host: string, url: string)

  /** Position of the first mirror with this host, or the length of the list. */
  function FirstOf(ms: seq<InternalMirror>, host: string): (k: nat)
    ensures k <= |ms| && (k < |ms| ==> ms[k].host == host)
    ensures forall j :: 0 <= j < k ==> ms[j].host != host
  {
    if ms == [] || ms[0].host == host then 0
    else
      var k := FirstOf(ms[1..], host);
      assert forall j :: 1 <= j < k + 1 ==> ms[j] == ms[1..][j - 1];
      k + 1
  }

  function Without(ms: seq<InternalMirror>, k: nat): seq<InternalMirror>
    requires k < |ms|
  {
    ms[..k] + ms[k + 1..]
  }

  /** The first mirror of each host, in host order, and then what is left. */
  function Reordered(ms: seq<InternalMirror>, hosts: seq<string>): seq<InternalMirror> {
    if hosts == [] then ms
    else
      var k := FirstOf(ms, hosts[0]);
      if k == |ms| then Reordered(ms, hosts[1..])
      else [ms[k]] + Reordered(Without(ms, k), hosts[1..])
  }

  function Reverse<T>(xs: seq<T>): seq<T> {
    if xs == [] then [] else Reverse(xs[1..]) + [xs[0]]
  }

  /** The loop that looks for a mirror of one host. */
  method FindHost(mirrors: seq<InternalMirror>, host: string) returns (k: nat)
    ensures k == FirstOf(mirrors, host)
  {
    k := 0;
    while k < |mirrors| && mirrors[k].host != host
      invariant 0 <= k <= |mirrors| && forall j :: 0 <= j < k ==> mirrors[j].host != host
    {
      k := k + 1;
    }
  }

  /** The loop over what is left. */
  method PrependAll(mirrors: seq<InternalMirror>, list: seq<InternalMirror>) returns (r: seq<InternalMirror>)
    ensures Reverse(r) == Reverse(list) + mirrors
  {
    r := list;
    var e := 0;
    while e < |mirrors|
      invariant 0 <= e <= |mirrors|
      invariant Reverse(r) == Reverse(list) + mirrors[..e]
    {
      r := [mirrors[e]] + r;
      assert mirrors[..e + 1] == mirrors[..e] + [mirrors[e]];
      e := e + 1;
    }
    assert mirrors[..e] == mirrors;
  }

  lemma OneMoreTaken(taken: seq<InternalMirror>, m: InternalMirror, rest: seq<InternalMirror>)
    ensures Reverse([m] + taken) + rest == Reverse(taken) + ([m] + rest)
  {
    assert ([m] + taken)[1..] == taken;
  }

  /** The loops over hosts and mirrors: items are prepended and the list is reversed at the end. */
  method ApplyOrder(internal: seq<InternalMirror>, hosts: seq<string>) returns (r: seq<InternalMirror>)
    ensures r == Reordered(internal, hosts)
  {
    var mirrors := internal;
    var newList: seq<InternalMirror> := [];
    var h := 0;
    while h < |hosts|
      invariant 0 <= h <= |hosts|
      invariant Reverse(newList) + Reordered(mirrors, hosts[h..]) == Reordered(internal, hosts)
    {
      var k := FindHost(mirrors, hosts[h]);
      assert hosts[h..][1..] == hosts[h + 1..];
      if k < |mirrors| {
        OneMoreTaken(newList, mirrors[k], Reordered(Without(mirrors, k), hosts[h + 1..]));
        newList := [mirrors[k]] + newList;
        mirrors := Without(mirrors, k);
      }
      h := h + 1;
    }
    newList := PrependAll(mirrors, newList);
    r := Reverse(newList);
  }

  /** How many hosts of the list have a mirror. */
  function Served(ms: seq<InternalMirror>, hosts: seq<string>): nat {
    if hosts == [] then 0
    else (if FirstOf(ms, hosts[0]) < |ms| then 1 else 0) + Served(ms, hosts[1..])
  }

  lemma WithoutOne(ms: seq<InternalMirror>, k: nat)
    requires k < |ms|
    ensures multiset(ms) == multiset{ms[k]} + multiset(Without(ms, k))
  {
    assert ms == ms[..k] + [ms[k]] + ms[k + 1..];
  }

  lemma {:induction false} ReorderedIsPermutation(ms: seq<InternalMirror>, hosts: seq<string>)
    ensures multiset(Reordered(ms, hosts)) == multiset(ms)
    decreases |hosts|
  {
    if hosts != [] {
      var k := FirstOf(ms, hosts[0]);
      if k == |ms| {
        ReorderedIsPermutation(ms, hosts[1..]);
      } else {
        ReorderedIsPermutation(Without(ms, k), hosts[1..]);
        WithoutOne(ms, k);
      }
    }
  }

  /** Taking out a mirror of another host does not change which mirror of a host is first. */
  lemma FirstOfWithout(ms: seq<InternalMirror>, k: nat, host: string)
    requires k < |ms| && ms[k].host != host
    ensures var (i, j) := (FirstOf(ms, host), FirstOf(Without(ms, k), host));
            && (i < |ms| <==> j < |Without(ms, k)|)
            && (i < |ms| ==> Without(ms, k)[j] == ms[i])
  {
    var i, j := FirstOf(ms, host), FirstOf(Without(ms, k), host);
    var w := Without(ms, k);
    if i < |ms| {
      assert w[if i < k then i else i - 1] == ms[i];
    }
    if j < |w| {
      assert ms[if j < k then j else j + 1] == w[j];
    }
    if i < |ms| && j < |w| {
      var i', j' := (if i < k then i else i - 1), (if j < k then j else j + 1);
      assert w[i'].host == host && ms[j'].host == host;
    }
  }

  lemma {:induction false} ServedWithout(ms: seq<InternalMirror>, k: nat, hosts: seq<string>)
    requires k < |ms| && ms[k].host !in hosts
    ensures Served(Without(ms, k), hosts) == Served(ms, hosts)
  {
    if hosts != [] {
      FirstOfWithout(ms, k, hosts[0]);
      ServedWithout(ms, k, hosts[1..]);
    }
  }

  /** With distinct hosts the list begins with the first mirror of every host that has one, in the
      order of the hosts. */
  lemma {:induction false} FirstMirrorsInHostOrder(ms: seq<InternalMirror>, hosts: seq<string>, h: nat)
    requires Distinct(hosts) && h < |hosts| && FirstOf(ms, hosts[h]) < |ms|
    ensures |Reordered(ms, hosts)| == |ms|
    ensures Served(ms, hosts[..h]) < |ms|
    ensures Reordered(ms, hosts)[Served(ms, hosts[..h])] == ms[FirstOf(ms, hosts[h])]
    decreases |hosts|
  {
    ReorderedIsPermutation(ms, hosts);
    SameLength(Reordered(ms, hosts), ms);
    var k := FirstOf(ms, hosts[0]);
    if h > 0 {
      assert hosts[..h][1..] == hosts[1..][..h - 1];
      if k == |ms| {
        FirstMirrorsInHostOrder(ms, hosts[1..], h - 1);
      } else {
        assert hosts[0] !in hosts[1..][..h - 1];
        FirstOfWithout(ms, k, hosts[h]);
        FirstMirrorsInHostOrder(Without(ms, k), hosts[1..], h - 1);
        ServedWithout(ms, k, hosts[1..][..h - 1]);
      }
    }
  }

  lemma SameLength<T>(a: seq<T>, b: seq<T>)
    requires multiset(a) == multiset(b)
    ensures |a| == |b|
  {
    assert |multiset(a)| == |multiset(b)|;
  }

  /** What is left after the first mirrors of all hosts, in the original order. */
  function Rest(ms: seq<InternalMirror>, hosts: seq<string>): seq<InternalMirror> {
    if hosts == [] then ms
    else
      var k := FirstOf(ms, hosts[0]);
      Rest(if k == |ms| then ms else Without(ms, k), hosts[1..])
  }

  /** a can be obtained from b by leaving elements out. */
  predicate Subsequence(a: seq<InternalMirror>, b: seq<InternalMirror>) {
    if a == [] then true
    else if b == [] then false
    else if a[0] == b[0] && Subsequence(a[1..], b[1..]) then true
    else Subsequence(a, b[1..])
  }

  lemma {:induction false} SubsequenceOfSelf(a: seq<InternalMirror>)
    ensures Subsequence(a, a)
  {
    if a != [] {
      SubsequenceOfSelf(a[1..]);
    }
  }

  /** A subsequence of a list without one of its elements is one of the list. */
  lemma {:induction false} SubsequenceOfMore(a: seq<InternalMirror>, b: seq<InternalMirror>, k: nat)
    requires k < |b| && Subsequence(a, Without(b, k))
    ensures Subsequence(a, b)
    decreases |b|
  {
    var w := Without(b, k);
    if a != [] {
      if k == 0 {
        assert w == b[1..];
      } else {
        assert w[0] == b[0] && w[1..] == Without(b[1..], k - 1);
        if a[0] == b[0] && Subsequence(a[1..], w[1..]) {
          SubsequenceOfMore(a[1..], b[1..], k - 1);
        } else {
          SubsequenceOfMore(a, b[1..], k - 1);
        }
      }
    }
  }

  /** The tail of the reordered list is the rest, which is a subsequence of the original list. */
  lemma {:induction false} RestFollows(ms: seq<InternalMirror>, hosts: seq<string>)
    ensures EndsWith(Reordered(ms, hosts), Rest(ms, hosts))
    decreases |hosts|
  {
    if hosts != [] {
      var k := FirstOf(ms, hosts[0]);
      var left := if k == |ms| then ms else Without(ms, k);
      RestFollows(left, hosts[1..]);
      if k < |ms| {
        OneBefore(ms[k], Reordered(left, hosts[1..]), Rest(left, hosts[1..]));
      }
    }
  }

  predicate EndsWith(a: seq<InternalMirror>, b: seq<InternalMirror>) {
    |b| <= |a| && a[|a| - |b|..] == b
  }

  lemma OneBefore(m: InternalMirror, a: seq<InternalMirror>, b: seq<InternalMirror>)
    requires EndsWith(a, b)
    ensures EndsWith([m] + a, b)
  {
    assert ([m] + a)[1..] == a;
  }

  /** The mirrors that are left keep their order. */
  lemma {:induction false} RestIsSubsequence(ms: seq<InternalMirror>, hosts: seq<string>)
    ensures Subsequence(Rest(ms, hosts), ms)
    decreases |hosts|
  {
    if hosts == [] {
      SubsequenceOfSelf(ms);
    } else {
      var k := FirstOf(ms, hosts[0]);
      RestIsSubsequence(if k == |ms| then ms else Without(ms, k), hosts[1..]);
      if k < |ms| {
        SubsequenceOfMore(Rest(ms, hosts), ms, k);
      }
    }
  }

  /** The first mirrors and the rest make up the whole list, so the rest begins where they end. */
  lemma {:induction false} FirstsAndRest(ms: seq<InternalMirror>, hosts: seq<string>)
    requires Distinct(hosts)
    ensures Served(ms, hosts) + |Rest(ms, hosts)| == |ms|
    decreases |hosts|
  {
    if hosts != [] {
      var k := FirstOf(ms, hosts[0]);
      if k == |ms| {
        FirstsAndRest(ms, hosts[1..]);
      } else {
        FirstsAndRest(Without(ms, k), hosts[1..]);
        ServedWithout(ms, k, hosts[1..]);
      }
    }
  }
}
