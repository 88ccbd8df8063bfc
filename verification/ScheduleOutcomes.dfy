/** What a finished transfer does to its target, its mirror and everything else, on the fields themselves;
    and, over whole runs, why a target can have failed. */
module ScheduleOutcomes {
  import opened Wrappers
  import opened Schedule
  import opened ScheduleInvariants
  import opened ScheduleTheorems

  // ---------------------------------------------------------------- one finished transfer

  predicate Cancels(o: Outcome) {
    o.TransferError? && (o.fatal || o.failureCb != CbOk)
  }

  /** The bookkeeping of a failure, and then the decision about its target. */
  lemma DecisionAfterError(s: State, t: nat, o: Outcome, env: Env, s2: State)
    requires Inv(s) && t in s.running && o.TransferError? && s2 == AfterError(s, t, o.serious, Cancels(o))
    ensures |s2.targets| == |s.targets| && s2.notes == s.notes
    ensures s2.targets[t].req == s.targets[t].req && s2.targets[t].rcode == s.targets[t].rcode
    ensures var p := Finish(s, t, o, env);
            && p.s.mirrors == s2.mirrors && |p.s.targets| == |s.targets| && p.s.targets[t].tried == s2.targets[t].tried
            && p == if !Cancels(o) && CanRetry(s.cfg, s.targets[t].req, |s2.targets[t].tried|)
                    then Progress(Retry(s2, t), !o.truncateFails)
                    else Progress(Conclude(s2, t, Failed, Error),
                                  !(s.cfg.failfast || o.failureCb == CbError || o.progressError || env.endCb(|s.notes|)))
  {
  }

  /** A failed transfer is tried again exactly while nobody cancelled it and it has tries left: a complete URL
      or base URL that is no file: fewer than allowed failures; a path on mirrors: fewer than the mirrors to
      try, unless that option is off. Otherwise the target has failed and is notified. */
  lemma RetriedExactlyWhen(s: State, t: nat, o: Outcome, env: Env)
    requires Inv(s) && t in s.running && o.TransferError?
    ensures var p := Finish(s, t, o, env);
            && |p.s.targets| == |s.targets|
            && var (tg, n) := (s.targets[t], |p.s.targets[t].tried|);
            && var again := && !o.fatal && o.failureCb == CbOk
                            && if tg.req.completeUrl || tg.req.baseUrl
                               then !tg.req.fileUrl && n < s.cfg.allowedFailures
                               else s.cfg.maxMirrorsToTry <= 0 || n < s.cfg.maxMirrorsToTry;
            && (p.s.targets[t].phase == Waiting <==> again)
            && (p.s.targets[t].phase == Failed <==> !again)
            && p.s.targets[t].rcode == (if again then tg.rcode else Error)
            && p.s.notes == (if again then s.notes else s.notes + [Note(t, false)])
            && (p.ok <==> if again then !o.truncateFails
                          else !s.cfg.failfast && o.failureCb != CbError && !o.progressError && !env.endCb(|s.notes|))
  {
    DecisionAfterError(s, t, o, env, AfterError(s, t, o.serious, Cancels(o)));
  }

  lemma MirrorSettled(s: State, t: nat, serious: bool, s1: State)
    requires Shape(s) && t in s.running && s1 == Settle(s, t, false, serious) && s.targets[t].mirror.Some?
    ensures |s1.targets| == |s.targets| && |s1.mirrors| == |s.mirrors| && s1.targets[t].mirror == s.targets[t].mirror
    ensures var was := s.mirrors[s.targets[t].mirror.value];
            s1.mirrors[s.targets[t].mirror.value] == was.(running := was.running - 1, failed := was.failed + 1)
    ensures s1.targets[t].tried == s.targets[t].tried + [s.targets[t].mirror]
  {
  }

  lemma MirrorForgiven(s1: State, t: nat)
    requires t < |s1.targets| && s1.targets[t].mirror.Some? && s1.targets[t].mirror.value < |s1.mirrors|
    requires s1.targets[t].mirror in s1.targets[t].tried && s1.mirrors[s1.targets[t].mirror.value].running >= 0
    ensures var s2 := Forgive(s1, t);
            var m := s1.targets[t].mirror.value;
            && |s2.targets| == |s1.targets| && |s2.mirrors| == |s1.mirrors|
            && s2.mirrors[m] == s1.mirrors[m].(allowed := Max(1, s1.mirrors[m].running))
            && multiset(s2.targets[t].tried) == multiset(s1.targets[t].tried) - multiset{Some(m)}
  {
    RemoveFirstMultiset(s1.targets[t].tried, s1.targets[t].mirror);
  }

  lemma UserIsCounted(s: State, t: nat)
    requires Inv(s) && t in s.running && s.targets[t].mirror.Some?
    ensures s.mirrors[s.targets[t].mirror.value].running >= 1
  {
    var m := s.targets[t].mirror.value;
    assert MirrorOk(s, m);
    assert t in Users(s, m);
  }

  /** The mirror of a failed transfer has one running transfer less and one failure more. After a serious
      error it gets a second chance if it still has transfers running, or has had a success and fewer failures
      than connections at once: it is allowed just those transfers, but at least one, and the try does not
      count. */
  lemma MirrorAfterError(s: State, t: nat, o: Outcome, env: Env)
    requires Inv(s) && t in s.running && o.TransferError? && s.targets[t].mirror.Some?
    ensures var p := Finish(s, t, o, env);
            var m := s.targets[t].mirror.value;
            && |p.s.targets| == |s.targets| && |p.s.mirrors| == |s.mirrors| && m < |s.mirrors|
            && var was := s.mirrors[m];
            var forgiven := && o.serious && !o.fatal && o.failureCb == CbOk
                            && (was.running > 1 || (was.successful > 0 && was.failed + 1 < was.maxTried));
            && p.s.mirrors[m] == was.(running := was.running - 1, failed := was.failed + 1,
                                      allowed := if !forgiven then was.allowed else Max(1, was.running - 1))
            && multiset(p.s.targets[t].tried)
               == multiset(s.targets[t].tried) + (if forgiven then multiset{} else multiset{s.targets[t].mirror})
  {
    var s1 := Settle(s, t, false, o.serious);
    UserIsCounted(s, t);
    MirrorSettled(s, t, o.serious, s1);
    var (tried, mirror) := (s.targets[t].tried, s.targets[t].mirror);
    assert (tried + [mirror])[|tried|] == mirror;
    MirrorForgiven(s1, t);
    DecisionAfterError(s, t, o, env, AfterError(s, t, o.serious, Cancels(o)));
  }

  lemma {:induction false} RemoveFirstMultiset<T>(xs: seq<T>, x: T)
    requires x in xs
    ensures multiset(RemoveFirst(xs, x)) == multiset(xs) - multiset{x}
  {
    assert xs == [xs[0]] + xs[1..];
    if xs[0] != x {
      RemoveFirstMultiset(xs[1..], x);
    }
  }

  /** A failed transfer without a mirror counts as one more try and leaves the mirrors alone. */
  lemma DirectAfterError(s: State, t: nat, o: Outcome, env: Env)
    requires Inv(s) && t in s.running && o.TransferError? && s.targets[t].mirror.None?
    ensures var p := Finish(s, t, o, env);
            && |p.s.targets| == |s.targets| && p.s.mirrors == s.mirrors && p.s.lists == s.lists
            && p.s.targets[t].tried == s.targets[t].tried + [None]
  {
  }

  /** A transfer that succeeds ends its target with LRE_OK and one notification, and counts for its mirror. */
  lemma AfterSuccess(s: State, t: nat, env: Env)
    requires Inv(s) && t in s.running
    ensures var p := Finish(s, t, Success, env);
            var mirror := s.targets[t].mirror;
            && (p.ok <==> !env.endCb(|s.notes|))
            && p.s.targets == s.targets[t := s.targets[t].(phase := Finished, rcode := Ok,
                                                           tried := s.targets[t].tried + [mirror])]
            && p.s.notes == s.notes + [Note(t, true)]
            && |p.s.mirrors| == |s.mirrors| && (mirror.None? ==> p.s.mirrors == s.mirrors && p.s.lists == s.lists)
            && (mirror.Some? ==>
                  var was := s.mirrors[mirror.value];
                  p.s.mirrors[mirror.value] == was.(running := was.running - 1, successful := was.successful + 1))
  {
  }

  /** Other targets and other mirrors than the one used stay as they are. */
  ghost predicate OnlyHere(s: State, s': State, t: nat)
    requires t < |s.targets|
  {
    && s'.cfg == s.cfg && |s'.targets| == |s.targets| && |s'.mirrors| == |s.mirrors| && |s'.lists| == |s.lists|
    && (forall u :: 0 <= u < |s.targets| && u != t ==> s'.targets[u] == s.targets[u])
    && (forall m :: 0 <= m < |s.mirrors| && Some(m) != s.targets[t].mirror ==> s'.mirrors[m] == s.mirrors[m])
    && s'.targets[t].req == s.targets[t].req && s'.targets[t].mirror == s.targets[t].mirror
    && s'.targets[t].starts == s.targets[t].starts
  }

  lemma SettlesHere(s: State, t: nat, success: bool, serious: bool, s': State)
    requires Shape(s) && t in s.running && s' == Settle(s, t, success, serious)
    ensures OnlyHere(s, s', t) && s'.running == RemoveFirst(s.running, t)
  {
  }

  lemma AfterErrorHere(s: State, t: nat, serious: bool, cancelled: bool, s': State)
    requires Shape(s) && t in s.running && s' == AfterError(s, t, serious, cancelled)
    ensures OnlyHere(s, s', t) && s'.running == RemoveFirst(s.running, t)
  {
    SettlesHere(s, t, false, serious, Settle(s, t, false, serious));
  }

  lemma EndsHere(s: State, s1: State, t: nat, phase: Phase, rcode: RCode)
    requires t < |s.targets| && OnlyHere(s, s1, t)
    ensures OnlyHere(s, Conclude(s1, t, phase, rcode), t) && Conclude(s1, t, phase, rcode).running == s1.running
    ensures OnlyHere(s, Retry(s1, t), t) && Retry(s1, t).running == s1.running
  {
  }

  /** Nothing else changes, and of all running transfers just this one ends. */
  lemma NothingElseChanges(s: State, t: nat, o: Outcome, env: Env)
    requires Inv(s) && t in s.running && !o.ChecksumUnavailable?
    ensures OnlyHere(s, Finish(s, t, o, env).s, t)
    ensures multiset(Finish(s, t, o, env).s.running) == multiset(s.running) - multiset{t}
  {
    RemoveFirstMultiset(s.running, t);
    match o
    case Success =>
      var s1 := Settle(s, t, true, false);
      SettlesHere(s, t, true, false, s1);
      EndsHere(s, s1, t, Finished, Ok);
    case TransferError(serious, fatal, progressError, failureCb, truncateFails) =>
      var cancelled := fatal || failureCb != CbOk;
      var s1 := AfterError(s, t, serious, cancelled);
      AfterErrorHere(s, t, serious, cancelled, s1);
      EndsHere(s, s1, t, Failed, Error);
  }

  /** Only with adaptive sorting, and only in the list of this target, a mirror may change its place: as
      sort_mirrors says for the counters after this transfer. */
  lemma ListsAfterFinish(s: State, t: nat, o: Outcome, env: Env)
    requires Inv(s) && t in s.running && !o.ChecksumUnavailable? && s.targets[t].mirror.Some?
    ensures var s' := Finish(s, t, o, env).s;
            var m := s.targets[t].mirror.value;
            var l := s.targets[t].req.list;
            var was := s.mirrors[m];
            var counted := if o.Success? then was.(running := was.running - 1, successful := was.successful + 1)
                           else was.(running := was.running - 1, failed := was.failed + 1);
            && m in s.lists[l]
            && s'.lists == if s.cfg.adaptive
                           then s.lists[l := SortMirrors(s.lists[l], s.mirrors[m := counted], m, o.Success?,
                                                         o.TransferError? && o.serious)]
                           else s.lists
  {
    assert TargetOk(s, t);
  }

  /** When the checksum cannot be computed the download stops as it stands, and a transfer that does not run is
      not reported. */
  lemma OtherReports(s: State, t: nat, o: Outcome, env: Env)
    requires Inv(s) && (t !in s.running || o.ChecksumUnavailable?)
    ensures Finish(s, t, o, env) == Progress(s, t !in s.running)
  {
  }
}
