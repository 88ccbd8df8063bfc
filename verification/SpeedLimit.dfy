/** set_max_speeds_to_transfers: the bandwidth of a repository is shared among its running transfers. */
module SpeedLimit {
  class LrHandle {
    const maxspeed: int

    constructor (maxspeed: int)
      ensures this.maxspeed == maxspeed
    {
      this.maxspeed := maxspeed;
    }
  }

  /** A running transfer; `limit` is the CURLOPT_MAX_RECV_SPEED_LARGE of its curl handle. */
  class Transfer {
    const handle: LrHandle?
    var limit: int

    constructor (handle: LrHandle?)
      ensures this.handle == handle && limit == 0
    {
      this.handle := handle;
      limit := 0;
    }
  }

  predicate Limited(h: LrHandle?) {
    h != null && h.maxspeed != 0
  }

  /** How many of the transfers belong to h. */
  function CountOf(running: seq<Transfer>, h: LrHandle): nat {
    if running == [] then 0
    else CountOf(running[..|running| - 1], h) + (if running[|running| - 1].handle == h then 1 else 0)
  }

  /** What all transfers of h may receive together. */
  function TotalLimit(running: seq<Transfer>, h: LrHandle): int
    reads running
  {
    if running == [] then 0
    else
      var last := running[|running| - 1];
      TotalLimit(running[..|running| - 1], h) + (if last.handle == h then last.limit else 0)
  }

  /** n transfers with this limit get at least the speed, and less than one byte each in excess. */
  predicate Shares(speed: int, n: int, limit: int) {
    n >= 1 && speed <= limit * n < speed + n
  }

  /** A limit a transfer may be given: its share of the speed of its repository. */
  predicate FairLimit(running: seq<Transfer>, t: Transfer, limit: int) {
    Limited(t.handle) && Shares(t.handle.maxspeed, CountOf(running, t.handle), limit)
  }

  /** Every transfer of a limited repository gets the repository's speed divided by the number of its
      running transfers, rounded up; the others keep what they had. When curl refuses a limit, the
      transfers not reached keep theirs. */
  method SetMaxSpeedsToTransfers(running: seq<Transfer>) returns (ok: bool)
    requires forall k :: 0 <= k < |running| && running[k].handle != null ==> running[k].handle.maxspeed >= 0
    modifies running
    ensures forall k :: 0 <= k < |running| ==>
              || running[k].limit == old(running[k].limit)
              || FairLimit(running, running[k], running[k].limit)
    ensures ok ==> forall k :: 0 <= k < |running| && running[k].handle != null && running[k].handle.maxspeed != 0 ==>
                     Shares(running[k].handle.maxspeed, CountOf(running, running[k].handle), running[k].limit)
    ensures !(exists k :: 0 <= k < |running| && Limited(running[k].handle)) ==> ok
  {
    if |running| == 0 {
      return true;
    }
    var counts := CountPerRepo(running);
    var todo := counts.Keys;
    while todo != {}
      invariant todo <= counts.Keys
      invariant forall k :: 0 <= k < |running| && (!Limited(running[k].handle) || running[k].handle in todo) ==>
                  running[k].limit == old(running[k].limit)
      invariant forall k :: 0 <= k < |running| && Limited(running[k].handle) && running[k].handle !in todo ==>
                  FairLimit(running, running[k], running[k].limit)
      decreases |todo|
    {
      var repo :| repo in todo;
      todo := todo - {repo};
      var n := counts[repo];
      var single := (repo.maxspeed + (n - 1)) / n;
      DivideUp(repo.maxspeed, n);
      ok := SetLimit(running, repo, single);
      if !ok {
        RepoIsRunning(running, repo);
        return;
      }
    }
    ok := true;
  }

  lemma {:induction false} RepoIsRunning(running: seq<Transfer>, repo: LrHandle)
    requires CountOf(running, repo) >= 1
    ensures exists k :: 0 <= k < |running| && running[k].handle == repo
  {
    var n := |running| - 1;
    if running[n].handle != repo {
      RepoIsRunning(running[..n], repo);
      var k :| 0 <= k < n && running[..n][k].handle == repo;
      assert running[k].handle == repo;
    }
  }

  /** The hash table of the first loop: a count for every limited repository with a running transfer. */
  method CountPerRepo(running: seq<Transfer>) returns (counts: map<LrHandle, nat>)
    ensures forall h :: h in counts ==> Limited(h) && counts[h] == CountOf(running, h) >= 1
    ensures forall k :: 0 <= k < |running| && Limited(running[k].handle) ==> running[k].handle in counts
  {
    counts := map[];
    var k := 0;
    while k < |running|
      invariant 0 <= k <= |running|
      invariant forall h :: h in counts ==> Limited(h) && counts[h] == CountOf(running[..k], h) >= 1
      invariant forall j :: 0 <= j < k && Limited(running[j].handle) ==> running[j].handle in counts
      invariant forall h :: Limited(h) && h !in counts ==> CountOf(running[..k], h) == 0
    {
      var h := running[k].handle;
      assert running[..k + 1][..k] == running[..k];
      if Limited(h) {
        counts := counts[h := if h in counts then counts[h] + 1 else 1];
      }
      k := k + 1;
    }
    assert running[..k] == running;
  }

  lemma DivideUp(speed: int, n: int)
    requires n >= 1
    ensures Shares(speed, n, (speed + (n - 1)) / n)
  {
    var q := (speed + (n - 1)) / n;
    assert speed + (n - 1) == q * n + (speed + (n - 1)) % n;
  }

  /** The inner loop: curl_easy_setopt for every transfer of a repository, until curl refuses. */
  method SetLimit(running: seq<Transfer>, repo: LrHandle, single: int) returns (ok: bool)
    modifies running
    ensures forall k :: 0 <= k < |running| ==>
              || running[k].limit == old(running[k].limit)
              || (running[k].handle == repo && running[k].limit == single)
    ensures ok ==> forall k :: 0 <= k < |running| && running[k].handle == repo ==> running[k].limit == single
  {
    var k := 0;
    while k < |running|
      invariant 0 <= k <= |running|
      invariant forall j :: 0 <= j < |running| ==>
                  || running[j].limit == old(running[j].limit)
                  || (running[j].handle == repo && running[j].limit == single)
      invariant forall j :: 0 <= j < k && running[j].handle == repo ==> running[j].limit == single
    {
      if running[k].handle == repo {
        var refused: bool := *;
        if refused {
          return false;
        }
        running[k].limit := single;
      }
      k := k + 1;
    }
    ok := true;
  }

  lemma {:induction false} EqualLimitsAddUp(running: seq<Transfer>, h: LrHandle, limit: int)
    requires forall k :: 0 <= k < |running| && running[k].handle == h ==> running[k].limit == limit
    ensures TotalLimit(running, h) == CountOf(running, h) * limit
  {
    if running != [] {
      EqualLimitsAddUp(running[..|running| - 1], h, limit);
    }
  }

  /** In any state the method's postcondition describes, all transfers of a limited repository have the
      same limit and together they may receive at least maxspeed, and less than one byte per transfer
      more. */
  lemma SharesAddUp(running: seq<Transfer>, h: LrHandle, j: nat)
    requires h.maxspeed > 0 && j < |running| && running[j].handle == h
    requires forall k :: 0 <= k < |running| && running[k].handle == h ==>
               Shares(h.maxspeed, CountOf(running, h), running[k].limit)
    ensures forall k :: 0 <= k < |running| && running[k].handle == h ==> running[k].limit == running[j].limit
    ensures h.maxspeed <= TotalLimit(running, h) <= h.maxspeed + CountOf(running, h) - 1
  {
    var n := CountOf(running, h);
    forall k | 0 <= k < |running| && running[k].handle == h
      ensures running[k].limit == running[j].limit
    {
      ShareIsUnique(h.maxspeed, n, running[k].limit, running[j].limit);
    }
    EqualLimitsAddUp(running, h, running[j].limit);
  }

  lemma ShareIsUnique(speed: int, n: int, a: int, b: int)
    requires Shares(speed, n, a) && Shares(speed, n, b)
    ensures a == b
  {
    SmallMultiple(a - b, n);
    SmallMultiple(b - a, n);
  }

  lemma SmallMultiple(x: int, n: int)
    requires n >= 1 && x * n < n
    ensures x <= 0
  {
  }
}
