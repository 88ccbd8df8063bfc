/** Why things go wrong, over whole runs: a target fails only for a reason that a caller can see, a run breaks
    off only for such a reason, and no end callback is ignored. */
module ScheduleReasons {
  import opened Wrappers
  import opened Schedule
  import opened ScheduleInvariants
  import opened ScheduleTheorems
  import opened ScheduleOutcomes
  import opened ScheduleChoice

  // ---------------------------------------------------------------- refilling gives a target up

  /** Running transfers have no part in which mirrors are eligible. */
  lemma SameEligible(s: State, s': State, t: nat)
    requires Shape(s) && Shape(s') && t < |s.targets| && t < |s'.targets| && s'.targets[t] == s.targets[t]
    requires s'.cfg == s.cfg && s'.lists == s.lists && |s'.mirrors| == |s.mirrors|
    requires forall m :: 0 <= m < |s.mirrors| ==>
               s'.mirrors[m] == s.mirrors[m].(running := s'.mirrors[m].running, maxTried := s'.mirrors[m].maxTried)
    ensures AnyEligible(s', t) == AnyEligible(s, t)
  {
    assert forall p :: 0 <= p < |ListOf(s, t)| ==> Eligible(s', t, p) == Eligible(s, t, p);
  }

  /** Selection fails a target only when it waits, and then it is blocked or has no eligible mirror. */
  lemma {:induction false} SelectFails(s: State, i: nat, env: Env, t: nat)
    requires Shape(s) && i <= |s.targets| && t < |s.targets| && !s.targets[t].req.Blocked()
    ensures var sel := SelectFrom(s, i, env);
            && Shape(sel.s) && |sel.s.targets| == |s.targets|
            && (sel.s.targets[t] == s.targets[t]
                || (s.targets[t].phase == Waiting && !s.targets[t].req.Direct() && !AnyEligible(s, t)
                    && sel.s.targets[t].phase == Failed))
    decreases |s.targets| - i
  {
    SelectKeepsShape(s, i, env);
    if i < |s.targets| {
      ConsiderChanges(s, i, env);
      if Consider(s, i, env).Next? {
        var s1 := Consider(s, i, env).s;
        SelectFails(s1, i + 1, env, t);
        if i != t {
          EligibleFrame(s, s1, t);
        }
      }
    }
  }

  /** What one preparation does to the targets after the selection. */
  lemma PreparedTargets(s: State, env: Env)
    requires Shape(s)
    ensures var (sel, p) := (SelectFrom(s, 0, env), PrepareOne(s, env));
            && Shape(p.s) && |p.s.targets| == |sel.s.targets|
            && (p.Started? ==> sel.Chosen?)
            && (!sel.Chosen? ==> p.s == sel.s)
            && (sel.Chosen? ==>
                  && sel.target < |sel.s.targets|
                  && var tg := sel.s.targets[sel.target].(mirror := sel.mirror);
                     p.s.targets == sel.s.targets[sel.target := if p.Started? then tg.(phase := Running, starts := tg.starts + 1)
                                                                else tg])
  {
    SelectKeepsShape(s, 0, env);
    PrepareKeepsShape(s, env);
  }

  /** One preparation fails a target only when it waits and has no eligible mirror. */
  lemma PrepareOneFails(s: State, env: Env, t: nat)
    requires Shape(s) && t < |s.targets| && !s.targets[t].req.Blocked()
    ensures var p := PrepareOne(s, env);
            && Shape(p.s) && |p.s.targets| == |s.targets| && p.s.targets[t].req == s.targets[t].req
            && (p.s.targets[t].phase == Failed && s.targets[t].phase != Failed ==>
                  s.targets[t].phase == Waiting && !s.targets[t].req.Direct() && !AnyEligible(s, t))
            && (p.Started? && p.s.targets[t].phase == Waiting ==> p.s.targets[t] == s.targets[t])
  {
    SelectFails(s, 0, env, t);
    StillTheSame(s, 0, env, t);
    PreparedTargets(s, env);
  }

  lemma EligibleAfterStart(s: State, env: Env, t: nat)
    requires Shape(s) && t < |s.targets| && PrepareOne(s, env).Started?
    requires Shape(PrepareOne(s, env).s) && |PrepareOne(s, env).s.targets| == |s.targets|
    requires PrepareOne(s, env).s.targets[t] == s.targets[t]
    ensures AnyEligible(PrepareOne(s, env).s, t) == AnyEligible(s, t)
  {
    var u := StartedOnFields(s, env);
    SameEligible(s, PrepareOne(s, env).s, t);
  }

  lemma {:induction false} RefillFails(s: State, slots: nat, env: Env, t: nat)
    requires Shape(s) && t < |s.targets| && !s.targets[t].req.Blocked() && s.targets[t].phase != Failed
    ensures var s' := PrepareAll(s, slots, env).s;
            && |s'.targets| == |s.targets|
            && (s'.targets[t].phase == Failed ==>
                  s.targets[t].phase == Waiting && !s.targets[t].req.Direct() && !AnyEligible(s, t))
    decreases slots
  {
    if slots > 0 {
      PrepareOneFails(s, env, t);
      var p := PrepareOne(s, env);
      if p.Started? && p.s.targets[t].phase != Failed {
        RefillFails(p.s, slots - 1, env, t);
        if p.s.targets[t].phase == Waiting {
          EligibleAfterStart(s, env, t);
        }
      } else if p.Started? {
        RefillKeepsTargets(p.s, slots - 1, env, t);
      }
    }
  }

  lemma {:induction false} RefillKeepsTargets(s: State, slots: nat, env: Env, t: nat)
    requires Shape(s) && t < |s.targets|
    ensures |PrepareAll(s, slots, env).s.targets| == |s.targets|
    decreases slots
  {
    if slots > 0 {
      SelectKeepsShape(s, 0, env);
      PrepareKeepsShape(s, env);
      if PrepareOne(s, env).Started? {
        RefillKeepsTargets(PrepareOne(s, env).s, slots - 1, env, t);
      }
    }
  }

  // ---------------------------------------------------------------- why a target fails

  /** The mirror failure callback asks to abort, or the error is fatal. */
  predicate CancelledBy(s: State, e: Event, t: nat) {
    && e.Report? && e.target == t && t in s.running
    && e.outcome.TransferError? && (e.outcome.fatal || e.outcome.failureCb != CbOk)
  }

  /** Slots are refilled while the target waits and none of its mirrors can serve it. */
  ghost predicate OutOfMirrors(s: State, e: Event, t: nat) {
    && e.Refill? && Shape(s) && t < |s.targets| && s.targets[t].phase == Waiting
    && forall p :: 0 <= p < |ListOf(s, t)| ==> !Eligible(s, t, p)
  }

  /** It has used all its tries. */
  predicate OutOfTries(cfg: Config, tg: Target) {
    if tg.req.completeUrl || tg.req.baseUrl then tg.req.fileUrl || |tg.tried| >= cfg.allowedFailures
    else |tg.tried| == cfg.maxMirrorsToTry > 0
  }

  /** One event fails a target only for one of these reasons. */
  lemma FailsForAReason(s: State, e: Event, env: Env, t: nat)
    requires Inv(s) && t < |s.targets| && !s.targets[t].req.Blocked() && !s.targets[t].Terminal()
    ensures var s' := Apply(s, e, env).s;
            && |s'.targets| == |s.targets|
            && (s'.targets[t].phase == Failed ==>
                  || CancelledBy(s, e, t) || OutOfTries(s.cfg, s'.targets[t])
                  || (OutOfMirrors(s, e, t) && !s.targets[t].req.completeUrl && !s.targets[t].req.baseUrl))
  {
    match e
    case Interruption =>
    case Refill => RefillFails(s, s.cfg.maxParallel - |s.running|, env, t);
    case Report(u, o) =>
      FinishEvolves(s, u, o, env);
      if u in s.running && !o.ChecksumUnavailable? {
        NothingElseChanges(s, u, o, env);
        if u == t && o.TransferError? {
          RetriedExactlyWhen(s, t, o, env);
          FinishKeepsInv(s, t, o, env);
          assert TargetOk(Finish(s, t, o, env).s, t);
        }
      }
  }

  /** The state in which the k-th event of a run finds it. */
  ghost predicate Finds(s: State, events: seq<Event>, k: nat, env: Env, b: State)
    requires Shape(s)
  {
    k < |events| && Execute(s, events[..k], env) == Progress(b, true)
  }

  lemma FindsLater(s: State, events: seq<Event>, k: nat, env: Env, b: State)
    requires Shape(s) && events != [] && Apply(s, events[0], env).ok && Shape(Apply(s, events[0], env).s)
    requires Finds(Apply(s, events[0], env).s, events[1..], k, env, b)
    ensures Finds(s, events, k + 1, env, b)
  {
    assert events[..k + 1][0] == events[0] && events[..k + 1][1..] == events[1..][..k];
  }

  /** A target that is failed after a run has used all its tries, or it was cancelled at some event, or at some
      event no mirror of its list could serve it; only offline-blocked targets may fail without a reason. */
  lemma {:induction false} EveryFailureHasAReason(s: State, events: seq<Event>, env: Env, t: nat)
    returns (k: nat, b: State)
    requires Inv(s) && t < |s.targets| && !s.targets[t].Terminal()
    requires !((s.targets[t].req.completeUrl || s.targets[t].req.baseUrl)
               && s.targets[t].req.offline && !s.targets[t].req.localUrl)
    requires t < |Execute(s, events, env).s.targets| && Execute(s, events, env).s.targets[t].phase == Failed
    ensures var tg := Execute(s, events, env).s.targets[t];
            && tg.req == s.targets[t].req
            && (|| (Finds(s, events, k, env, b) && CancelledBy(b, events[k], t))
                || (Finds(s, events, k, env, b) && OutOfMirrors(b, events[k], t) && !tg.req.completeUrl && !tg.req.baseUrl)
                || OutOfTries(s.cfg, tg))
    decreases |events|
  {
    var e := events[0];
    ApplyKeepsInv(s, e, env);
    FailsForAReason(s, e, env, t);
    var p := Apply(s, e, env);
    ApplyEvolves(s, e, env);
    assert Proceeds(s.targets[t], p.s.targets[t]);
    if p.s.targets[t].Terminal() {
      k, b := 0, s;
      assert events[..0] == [];
      ExecuteEvolves(p.s, events[1..], env);
      assert p.ok ==> Proceeds(p.s.targets[t], Execute(p.s, events[1..], env).s.targets[t]);
    } else {
      k, b := EveryFailureHasAReason(p.s, events[1..], env, t);
      if Finds(p.s, events[1..], k, env, b) {
        FindsLater(s, events, k, env, b);
      }
      k := k + 1;
    }
  }

  // ---------------------------------------------------------------- why a run breaks off

  /** No end callback from the first up to the last notification asked to stop, and none of them was a failure
      that failfast does not allow. */
  ghost predicate Heard(s: State, s': State, env: Env) {
    && |s.notes| <= |s'.notes| && s.notes == s'.notes[..|s.notes|] && s'.cfg == s.cfg
    && forall k :: |s.notes| <= k < |s'.notes| ==> !env.endCb(k) && (s.cfg.failfast ==> s'.notes[k].success)
  }

  lemma HeardTwice(a: State, b: State, c: State, env: Env)
    requires Heard(a, b, env) && Heard(b, c, env)
    ensures Heard(a, c, env)
  {
    assert c.notes[..|b.notes|][..|a.notes|] == c.notes[..|a.notes|];
    forall k | |a.notes| <= k < |c.notes|
      ensures !env.endCb(k) && (a.cfg.failfast ==> c.notes[k].success)
    {
      if k < |b.notes| {
        assert b.notes[k] == c.notes[k];
      }
    }
  }

  lemma {:induction false} SelectionHears(s: State, i: nat, env: Env)
    requires Shape(s) && i <= |s.targets|
    ensures !SelectFrom(s, i, env).Abort? ==> Heard(s, SelectFrom(s, i, env).s, env)
    decreases |s.targets| - i
  {
    if i < |s.targets| {
      ConsiderChanges(s, i, env);
      if Consider(s, i, env).Next? {
        var s1 := Consider(s, i, env).s;
        SelectionHears(s1, i + 1, env);
        if !SelectFrom(s, i, env).Abort? {
          HeardTwice(s, s1, SelectFrom(s1, i + 1, env).s, env);
        }
      }
    }
  }

  lemma {:induction false} RefillHears(s: State, slots: nat, env: Env)
    requires Shape(s) && PrepareAll(s, slots, env).ok
    ensures Heard(s, PrepareAll(s, slots, env).s, env)
    decreases slots
  {
    if slots > 0 {
      SelectKeepsShape(s, 0, env);
      SelectionHears(s, 0, env);
      PrepareKeepsShape(s, env);
      var p := PrepareOne(s, env);
      if p.Started? {
        RefillHears(p.s, slots - 1, env);
        HeardTwice(s, p.s, PrepareAll(p.s, slots - 1, env).s, env);
      }
    }
  }

  lemma FinishHears(s: State, t: nat, o: Outcome, env: Env)
    requires Inv(s) && Finish(s, t, o, env).ok
    ensures Heard(s, Finish(s, t, o, env).s, env)
  {
    if t in s.running && !o.ChecksumUnavailable? {
      NothingElseChanges(s, t, o, env);
      if o.TransferError? {
        RetriedExactlyWhen(s, t, o, env);
      }
    }
  }

  /** While a run goes on no end callback has asked to stop it, and with failfast nothing has failed. */
  lemma {:induction false} NoCallbackIsIgnored(s: State, events: seq<Event>, env: Env)
    requires Inv(s) && Execute(s, events, env).ok
    ensures Heard(s, Execute(s, events, env).s, env)
    decreases |events|
  {
    if events != [] {
      var e := events[0];
      ApplyKeepsInv(s, e, env);
      match e {
        case Report(t, o) => FinishHears(s, t, o, env);
        case Refill => RefillHears(s, s.cfg.maxParallel - |s.running|, env);
        case Interruption =>
      }
      var s1 := Apply(s, e, env).s;
      NoCallbackIsIgnored(s1, events[1..], env);
      HeardTwice(s, s1, Execute(s1, events[1..], env).s, env);
    }
  }

  /** A target waits whose transfer cannot be set up, or that has no URL and no mirrors at all. */
  ghost predicate CannotBePrepared(s: State, env: Env, t: nat) {
    && Shape(s) && t < |s.targets| && s.targets[t].phase == Waiting
    && (env.setupFails(t, s.targets[t].starts)
        || (!s.targets[t].req.completeUrl && !s.targets[t].req.baseUrl && ListOf(s, t) == []))
  }

  /** The last notification of s' is a new one, and it stops the run. */
  ghost predicate StoppedByNote(s: State, s': State, env: Env) {
    |s.notes| < |s'.notes| && (s.cfg.failfast || env.endCb(|s'.notes| - 1))
  }

  lemma {:induction false} SelectionBreaks(s: State, i: nat, env: Env) returns (t: nat)
    requires Shape(s) && i <= |s.targets|
    ensures var sel := SelectFrom(s, i, env);
            && |s.notes| <= |sel.s.notes| && sel.s.cfg == s.cfg
            && (sel.Abort? ==> CannotBePrepared(s, env, t) || StoppedByNote(s, sel.s, env))
    decreases |s.targets| - i
  {
    t := i;
    if i < |s.targets| {
      ConsiderChanges(s, i, env);
      if Consider(s, i, env).Next? {
        t := SelectionBreaks(Consider(s, i, env).s, i + 1, env);
      }
    }
  }

  lemma PreparationBreaks(s: State, env: Env) returns (t: nat)
    requires Shape(s)
    ensures var p := PrepareOne(s, env);
            && |s.notes| <= |p.s.notes| && p.s.cfg == s.cfg
            && (p.Broken? ==> CannotBePrepared(s, env, t) || StoppedByNote(s, p.s, env))
            && (p.Started? ==> forall u :: CannotBePrepared(p.s, env, u) ==> CannotBePrepared(s, env, u))
  {
    SelectKeepsShape(s, 0, env);
    t := SelectionBreaks(s, 0, env);
    var sel := SelectFrom(s, 0, env);
    PreparedTargets(s, env);
    if sel.Chosen? {
      SelectionIsSelected(s, 0, env);
      t := sel.target;
      forall u | CannotBePrepared(PrepareOne(s, env).s, env, u) && PrepareOne(s, env).Started?
        ensures CannotBePrepared(s, env, u)
      {
        SelectionKeepsWaiting(s, 0, env, u);
      }
    }
  }

  lemma {:induction false} SelectionKeepsWaiting(s: State, i: nat, env: Env, u: nat)
    requires Shape(s) && i <= |s.targets| && u < |s.targets|
    ensures var sel := SelectFrom(s, i, env);
            && |sel.s.targets| == |s.targets| && sel.s.cfg == s.cfg && sel.s.lists == s.lists
            && (sel.s.targets[u].phase == Waiting ==> sel.s.targets[u] == s.targets[u])
    decreases |s.targets| - i
  {
    if i < |s.targets| {
      ConsiderChanges(s, i, env);
      if Consider(s, i, env).Next? {
        SelectionKeepsWaiting(Consider(s, i, env).s, i + 1, env, u);
      }
    }
  }

  /** A refill breaks off only because of the last notification, which failfast or its end callback stops at, or
      because a waiting target cannot be prepared. */
  lemma {:induction false} RefillBreaks(s: State, slots: nat, env: Env) returns (t: nat)
    requires Shape(s) && !PrepareAll(s, slots, env).ok
    ensures CannotBePrepared(s, env, t) || StoppedByNote(s, PrepareAll(s, slots, env).s, env)
    decreases slots
  {
    PrepareKeepsShape(s, env);
    t := PreparationBreaks(s, env);
    if PrepareOne(s, env).Started? {
      t := RefillBreaks(PrepareOne(s, env).s, slots - 1, env);
    }
  }

  /** What ends a run before its time: an interruption from outside, a report that cannot be handled or whose
      callbacks ask to stop, a target that cannot be prepared, and the last notification of the run. */
  ghost predicate Ends(b: State, e: Event, env: Env, after: State) {
    match e
    case Interruption => true
    case Refill => StoppedByNote(b, after, env) || exists t :: CannotBePrepared(b, env, t)
    case Report(t, o) =>
      t in b.running
      && match o
         case Success => StoppedByNote(b, after, env)
         case ChecksumUnavailable => true
         case TransferError(_, _, progressError, failureCb, truncateFails) =>
           truncateFails || progressError || failureCb == CbError || StoppedByNote(b, after, env)
  }

  lemma StepEnds(s: State, e: Event, env: Env)
    requires Inv(s) && !Apply(s, e, env).ok
    ensures Ends(s, e, env, Apply(s, e, env).s)
  {
    match e
    case Interruption =>
    case Refill => var t := RefillBreaks(s, s.cfg.maxParallel - |s.running|, env);
    case Report(t, o) =>
      match o {
        case Success => AfterSuccess(s, t, env);
        case ChecksumUnavailable =>
        case TransferError(_, _, _, _, _) => RetriedExactlyWhen(s, t, o, env);
      }
  }

  /** A run that is broken off was ended by its last event. */
  lemma {:induction false} EveryEndHasAReason(s: State, events: seq<Event>, env: Env) returns (k: nat, b: State)
    requires Inv(s) && !Execute(s, events, env).ok
    ensures Finds(s, events, k, env, b) && Ends(b, events[k], env, Execute(s, events, env).s)
    decreases |events|
  {
    var e := events[0];
    ApplyKeepsInv(s, e, env);
    var p := Apply(s, e, env);
    if p.ok {
      k, b := EveryEndHasAReason(p.s, events[1..], env);
      FindsLater(s, events, k, env, b);
      k := k + 1;
    } else {
      StepEnds(s, e, env);
      k, b := 0, s;
      assert events[..0] == [];
    }
  }

  // ---------------------------------------------------------------- connections at once

  lemma {:induction false} RefillRaisesMark(s: State, slots: nat, env: Env, m: nat)
    requires Shape(s) && m < |s.mirrors| && s.mirrors[m].running <= s.mirrors[m].maxTried
    ensures var s' := PrepareAll(s, slots, env).s;
            && |s'.mirrors| == |s.mirrors| && s'.mirrors[m].running >= s.mirrors[m].running
            && s'.mirrors[m].maxTried == Max(s.mirrors[m].maxTried, s'.mirrors[m].running)
    decreases slots
  {
    if slots > 0 {
      SelectKeepsShape(s, 0, env);
      PrepareKeepsShape(s, env);
      var p := PrepareOne(s, env);
      if p.Started? {
        var t := StartedOnFields(s, env);
        RefillRaisesMark(p.s, slots - 1, env, m);
      }
    }
  }

  /** The connections a mirror has had at once, against which its failures are weighed, are a high-water mark:
      every event raises it exactly to the transfers then running. */
  lemma HighWaterMark(s: State, e: Event, env: Env, m: nat)
    requires Inv(s) && m < |s.mirrors|
    ensures var s' := Apply(s, e, env).s;
            && |s'.mirrors| == |s.mirrors|
            && s'.mirrors[m].maxTried == Max(s.mirrors[m].maxTried, s'.mirrors[m].running)
  {
    assert MirrorOk(s, m);
    match e
    case Interruption =>
    case Refill => RefillRaisesMark(s, s.cfg.maxParallel - |s.running|, env, m);
    case Report(t, o) =>
      if t in s.running && !o.ChecksumUnavailable? {
        NothingElseChanges(s, t, o, env);
        if s.targets[t].mirror == Some(m) {
          if o.Success? {
            AfterSuccess(s, t, env);
          } else {
            MirrorAfterError(s, t, o, env);
          }
        }
      }
  }
}
