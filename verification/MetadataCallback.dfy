/** lr_metadata_target_end_func: many files of a repository report, the repository reports once. */
module MetadataCallback {
  import opened Schedule
  import opened ScheduleInvariants
  import opened ScheduleTheorems

  class LrMetadataTarget {
    var repomdRecordsToDownload: int
    var repomdRecordsDownloaded: int

    constructor ()
      ensures repomdRecordsToDownload == 0 && repomdRecordsDownloaded == 0
    {
      repomdRecordsToDownload := 0;
      repomdRecordsDownloaded := 0;
    }

    /** One file of the repository ended; says whether the repository's own end callback is called. */
    method EndFunc() returns (called: bool)
      modifies this`repomdRecordsDownloaded
      ensures repomdRecordsDownloaded == old(repomdRecordsDownloaded) + 1
      ensures called <==> repomdRecordsDownloaded == repomdRecordsToDownload
    {
      repomdRecordsDownloaded := repomdRecordsDownloaded + 1;
      if repomdRecordsToDownload != repomdRecordsDownloaded {
        return false;
      }
      return true;
    }
  }

  /** Notifications that reach repository r, when target t belongs to repository owner(t). */
  ghost function Arrived(notes: seq<Note>, owner: nat -> nat, r: nat): nat {
    if notes == [] then 0
    else
      Arrived(notes[..|notes| - 1], owner, r) + (if owner(notes[|notes| - 1].target) == r then 1 else 0)
  }

  /** Calls of the repository's end callback: EndFunc folded over the notifications. */
  ghost function Calls(notes: seq<Note>, owner: nat -> nat, r: nat, expected: nat): nat {
    if notes == [] then 0
    else
      Calls(notes[..|notes| - 1], owner, r, expected)
      + (if owner(notes[|notes| - 1].target) == r && Arrived(notes, owner, r) == expected then 1 else 0)
  }

  /** Targets below n that belong to r: the value of repomdRecordsToDownload. */
  ghost function Owned(owner: nat -> nat, r: nat, n: nat): nat {
    if n == 0 then 0 else Owned(owner, r, n - 1) + (if owner(n - 1) == r then 1 else 0)
  }

  /** prepare_repo_download_targets counts the files of r; then every notification of one of them goes
      through EndFunc. Returns how often the repository's end callback was called. */
  method Deliver(target: LrMetadataTarget, notes: seq<Note>, owner: nat -> nat, r: nat, n: nat) returns (calls: nat)
    requires target.repomdRecordsToDownload == 0 && target.repomdRecordsDownloaded == 0
    modifies target
    ensures target.repomdRecordsToDownload == Owned(owner, r, n)
    ensures target.repomdRecordsDownloaded == Arrived(notes, owner, r)
    ensures calls == Calls(notes, owner, r, Owned(owner, r, n))
  {
    var t := 0;
    while t < n
      invariant 0 <= t <= n && target.repomdRecordsDownloaded == 0
      invariant target.repomdRecordsToDownload == Owned(owner, r, t)
    {
      if owner(t) == r {
        target.repomdRecordsToDownload := target.repomdRecordsToDownload + 1;
      }
      t := t + 1;
    }
    calls := 0;
    var k := 0;
    while k < |notes|
      invariant 0 <= k <= |notes| && target.repomdRecordsToDownload == Owned(owner, r, n)
      invariant target.repomdRecordsDownloaded == Arrived(notes[..k], owner, r)
      invariant calls == Calls(notes[..k], owner, r, Owned(owner, r, n))
    {
      assert notes[..k + 1][..k] == notes[..k];
      if owner(notes[k].target) == r {
        var called := target.EndFunc();
        if called {
          calls := calls + 1;
        }
      }
      k := k + 1;
    }
    assert notes[..k] == notes;
  }

  lemma {:induction false} CalledAtExpected(notes: seq<Note>, owner: nat -> nat, r: nat, expected: nat)
    requires expected >= 1
    ensures Calls(notes, owner, r, expected) == if Arrived(notes, owner, r) >= expected then 1 else 0
  {
    if notes != [] {
      CalledAtExpected(notes[..|notes| - 1], owner, r, expected);
    }
  }

  /** Notifications of targets below n that reach r, counted target by target. */
  ghost function ArrivedByTarget(notes: seq<Note>, owner: nat -> nat, r: nat, n: nat): nat {
    if n == 0 then 0
    else ArrivedByTarget(notes, owner, r, n - 1) + (if owner(n - 1) == r then Count(notes, n - 1) else 0)
  }

  lemma {:induction false} ByTargetAppend(notes: seq<Note>, owner: nat -> nat, r: nat, n: nat)
    requires notes != []
    ensures var last := notes[|notes| - 1];
            ArrivedByTarget(notes, owner, r, n)
            == ArrivedByTarget(notes[..|notes| - 1], owner, r, n)
               + (if last.target < n && owner(last.target) == r then 1 else 0)
  {
    if n > 0 {
      ByTargetAppend(notes, owner, r, n - 1);
    }
  }

  lemma {:induction false} CountedEitherWay(notes: seq<Note>, owner: nat -> nat, r: nat, n: nat)
    requires forall k :: 0 <= k < |notes| ==> notes[k].target < n
    ensures Arrived(notes, owner, r) == ArrivedByTarget(notes, owner, r, n)
  {
    if notes == [] {
      NoArrivals(owner, r, n);
    } else {
      CountedEitherWay(notes[..|notes| - 1], owner, r, n);
      ByTargetAppend(notes, owner, r, n);
    }
  }

  lemma {:induction false} NoArrivals(owner: nat -> nat, r: nat, n: nat)
    ensures ArrivedByTarget([], owner, r, n) == 0
  {
    if n > 0 {
      NoArrivals(owner, r, n - 1);
    }
  }

  /** When every file of r is notified, at least as many notifications arrive as r has files, and just as
      many exactly when no file is notified again. */
  lemma {:induction false} AtLeastOneEach(notes: seq<Note>, owner: nat -> nat, r: nat, n: nat)
    requires forall t :: 0 <= t < n && owner(t) == r ==> Count(notes, t) >= 1
    ensures ArrivedByTarget(notes, owner, r, n) >= Owned(owner, r, n)
    ensures ArrivedByTarget(notes, owner, r, n) == Owned(owner, r, n)
            <==> forall t :: 0 <= t < n && owner(t) == r ==> Count(notes, t) == 1
  {
    if n > 0 {
      AtLeastOneEach(notes, owner, r, n - 1);
    }
  }

  /** On a TRUE return of lr_download the end callback of every repository that owns a file has been
      called exactly once, however its files interleaved. As many files reported as it owns, so that the
      call came with the last of them, if and only if none of its files is blocked. */
  lemma EachRepositoryReportsOnce(s: State, events: seq<Event>, env: Env, owner: nat -> nat, r: nat)
    requires Init(s) && ReturnsTrue(s, events, env)
    requires Owned(owner, r, |s.targets|) >= 1
    ensures var notes := Execute(s, events, env).s.notes;
            var expected := Owned(owner, r, |s.targets|);
            && Calls(notes, owner, r, expected) == 1
            && Arrived(notes, owner, r) >= expected
            && (Arrived(notes, owner, r) == expected
                <==> forall t :: 0 <= t < |s.targets| && owner(t) == r ==> !s.targets[t].req.Blocked())
  {
    InitOk(s);
    ExecuteKeepsInv(s, events, env);
    ExecuteEvolves(s, events, env);
    var notes := Execute(s, events, env).s.notes;
    var n := |s.targets|;
    forall t | 0 <= t < n
      ensures Count(notes, t) >= 1 && (Count(notes, t) == 1 <==> !s.targets[t].req.Blocked())
    {
      NormalReturn(s, events, env, t);
    }
    AtLeastOneEach(notes, owner, r, n);
    CountedEitherWay(notes, owner, r, n);
    CalledAtExpected(notes, owner, r, Owned(owner, r, n));
  }
}
