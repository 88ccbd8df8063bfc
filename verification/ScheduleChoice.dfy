/** Which mirror and which target come next, and that no free connection is left unused: selection and
    refilling on the fields of targets and mirrors. */
module ScheduleChoice {
  import opened Wrappers
  import opened Schedule
  import opened ScheduleInvariants
  import opened ScheduleTheorems

  // ---------------------------------------------------------------- choosing a mirror

  /** In the first pass over its list a target takes a mirror it has not tried, unless the mirror has used up
      the allowed failures without a single success. */
  predicate Fresh(cfg: Config, tg: Target, m: nat, mirror: Mirror) {
    && Some(m) !in tg.tried
    && (mirror.successful > 0 || cfg.allowedFailures <= 0 || mirror.failed < cfg.allowedFailures)
  }

  /** A mirror can serve a target if its protocol can be used, and it is fresh or may be tried again: mirrors
      other than local paths, while target and mirror have had fewer than the allowed failures. */
  lemma EligibleExactlyWhen(s: State, t: nat, p: nat)
    requires Inv(s) && t < |s.targets| && p < |ListOf(s, t)|
    ensures var tg := s.targets[t];
            var m := ListOf(s, t)[p];
            && m < |s.mirrors|
            && var mirror := s.mirrors[m];
            Eligible(s, t, p) <==>
              && mirror.protocol != Rsync && (tg.req.offline ==> mirror.protocol == File)
              && (Fresh(s.cfg, tg, m, mirror)
                  || (mirror.protocol != File && |tg.tried| < s.cfg.allowedFailures
                      && mirror.failed < s.cfg.allowedFailures && 1 < s.cfg.allowedFailures))
  {
    assert MirrorOk(s, ListOf(s, t)[p]);
  }

  /** A mirror is chosen exactly when some eligible one has a connection left. */
  lemma ChoosesExactlyWhen(s: State, t: nat)
    requires Inv(s) && t < |s.targets|
    ensures Choose(s, t).Some? <==>
              exists p :: 0 <= p < |ListOf(s, t)| && Eligible(s, t, p)
                && var mirror := s.mirrors[ListOf(s, t)[p]];
                   mirror.allowed == -1 || mirror.running < mirror.allowed
  {
    if p :| 0 <= p < |ListOf(s, t)| && Eligible(s, t, p)
            && (s.mirrors[ListOf(s, t)[p]].allowed == -1
                || s.mirrors[ListOf(s, t)[p]].running < s.mirrors[ListOf(s, t)[p]].allowed) {
      assert Free(s, t, p);
    }
  }

  /** The pass in which a mirror is taken: fresh ones in the first, the others the later the more they failed. */
  function Pass(cfg: Config, tg: Target, m: nat, mirror: Mirror): int {
    if Fresh(cfg, tg, m, mirror) then 0 else if mirror.failed <= 1 then 1 else mirror.failed
  }

  /** Of the eligible mirrors with a connection left it is the first in the list among those of the first pass. */
  lemma ChoiceIsFirst(s: State, t: nat, p: nat, q: nat)
    requires Inv(s) && t < |s.targets| && Choose(s, t) == Some(p) && q < |ListOf(s, t)| && Eligible(s, t, q)
    requires var other := s.mirrors[ListOf(s, t)[q]]; other.allowed == -1 || other.running < other.allowed
    ensures p < |ListOf(s, t)| && Eligible(s, t, p)
    ensures var (m, n) := (ListOf(s, t)[p], ListOf(s, t)[q]);
            var (mirror, other) := (s.mirrors[m], s.mirrors[n]);
            && (mirror.allowed == -1 || mirror.running < mirror.allowed)
            && var (a, b) := (Pass(s.cfg, s.targets[t], m, mirror), Pass(s.cfg, s.targets[t], n, other));
            a < b || (a == b && p <= q)
  {
    assert Free(s, t, q);
    assert NotAfter(s, t, p, q);
    assert MirrorOk(s, ListOf(s, t)[p]);
    assert MirrorOk(s, ListOf(s, t)[q]);
  }

  // ---------------------------------------------------------------- choosing a target

  /** Nothing of what a choice depends on has changed. */
  ghost predicate SameChoice(s: State, s': State, t: nat) {
    && Shape(s) && Shape(s') && t < |s.targets| && t < |s'.targets| && s'.targets[t] == s.targets[t]
    && s'.cfg == s.cfg && s'.mirrors == s.mirrors && s'.lists == s.lists
  }

  lemma ChoiceFrame(s: State, s': State, t: nat)
    requires SameChoice(s, s', t)
    ensures Choose(s', t) == Choose(s, t)
  {
    if Choose(s, t).Some? {
      var p := Choose(s, t).value;
      forall q | 0 <= q < |ListOf(s, t)| && Free(s', t, q)
        ensures NotAfter(s', t, p, q)
      {
        assert NotAfter(s, t, p, q);
      }
      BestIsUnique(s', t, p);
    } else if Choose(s', t).Some? {
      assert Free(s, t, Choose(s', t).value);
    }
  }

  /** Offline, a complete URL or a base URL is blocked unless the complete one names a local path. */
  lemma BlockedExactlyWhen(req: Request)
    ensures req.Blocked() <==> (req.completeUrl || req.baseUrl) && req.offline && !req.localUrl
    ensures req.Direct() <==> req.completeUrl || req.baseUrl
  {
  }

  /** The target selected at i or later, and the mirror for it. */
  ghost predicate Selected(s: State, i: nat, sel: Selection) {
    && Shape(s) && sel.Chosen? && i <= sel.target < |s.targets| && |sel.s.targets| == |s.targets|
    && var t := sel.target;
    && s.targets[t].phase == Waiting
    && sel.mirror == (if s.targets[t].req.Direct() || Choose(s, t).None? then None else Some(ListOf(s, t)[Choose(s, t).value]))
    && (!s.targets[t].req.Direct() ==> Choose(s, t).Some?)
    && sel.s == sel.s.(cfg := s.cfg, mirrors := s.mirrors, lists := s.lists, running := s.running)
    && sel.s.targets[t] == (if s.targets[t].req.Blocked() then s.targets[t].(phase := Failed, rcode := Error)
                            else s.targets[t])
    && Count(sel.s.notes, t) == Count(s.notes, t) + (if s.targets[t].req.Blocked() then 1 else 0)
  }

  lemma SelectedHere(s: State, i: nat, env: Env)
    requires Shape(s) && i < |s.targets| && Consider(s, i, env).Stop? && Consider(s, i, env).selection.Chosen?
    ensures Selected(s, i, Consider(s, i, env).selection)
  {
    ConsiderChanges(s, i, env);
    CountAppend(s.notes, Note(i, false), i);
  }

  lemma SelectedLater(s: State, s1: State, i: nat, sel: Selection)
    requires Shape(s) && Shape(s1) && i < |s.targets| && Selected(s1, i + 1, sel)
    requires s1 == s || s1 == GiveUp(s, i)
    ensures Selected(s, i, sel)
  {
    CountAppend(s.notes, Note(i, false), sel.target);
    ChoiceFrame(s, s1, sel.target);
  }

  lemma {:induction false} SelectionIsSelected(s: State, i: nat, env: Env)
    requires Shape(s) && i <= |s.targets| && SelectFrom(s, i, env).Chosen?
    ensures Selected(s, i, SelectFrom(s, i, env))
    decreases |s.targets| - i
  {
    ConsiderChanges(s, i, env);
    match Consider(s, i, env)
    case Next(s1) =>
      SelectionIsSelected(s1, i + 1, env);
      SelectedLater(s, s1, i, SelectFrom(s1, i + 1, env));
    case Stop(_) => SelectedHere(s, i, env);
  }

  /** What starting a transfer changes: the target runs, on the mirror chosen for it if it has no URL of its
      own, and this mirror carries one transfer more. An offline-blocked target has been notified first. */
  lemma StartedOnFields(s: State, env: Env) returns (t: nat)
    requires Shape(s) && PrepareOne(s, env).Started?
    ensures t < |s.targets| && s.targets[t].phase == Waiting && !env.setupFails(t, s.targets[t].starts)
    ensures var s' := PrepareOne(s, env).s;
            var (tg, req) := (s.targets[t], s.targets[t].req);
            var direct := req.completeUrl || req.baseUrl;
            var blocked := direct && req.offline && !req.localUrl;
            && |s'.targets| == |s.targets| && s'.running == s.running + [t] && s'.lists == s.lists && s'.cfg == s.cfg
            && (!direct ==> Choose(s, t).Some? && ListOf(s, t)[Choose(s, t).value] < |s.mirrors|)
            && s'.targets[t] == tg.(phase := Running, starts := tg.starts + 1,
                                    mirror := if direct then None else Some(ListOf(s, t)[Choose(s, t).value]),
                                    rcode := if blocked then Error else tg.rcode)
            && Count(s'.notes, t) == Count(s.notes, t) + (if blocked then 1 else 0)
            && s'.mirrors == if direct then s.mirrors
                             else
                               var m := ListOf(s, t)[Choose(s, t).value];
                               var was := s.mirrors[m];
                               s.mirrors[m := was.(running := was.running + 1,
                                                   maxTried := if was.maxTried > was.running then was.maxTried
                                                               else was.running + 1)]
  {
    SelectKeepsShape(s, 0, env);
    SelectionIsSelected(s, 0, env);
    t := SelectFrom(s, 0, env).target;
    BlockedExactlyWhen(s.targets[t].req);
  }

  lemma {:induction false} PassedOverStarves(s: State, i: nat, env: Env, u: nat)
    requires Shape(s) && i <= u < |s.targets| && !SelectFrom(s, i, env).Abort?
    requires SelectFrom(s, i, env).Chosen? ==> u < SelectFrom(s, i, env).target
    ensures |SelectFrom(s, i, env).s.targets| == |s.targets|
    ensures SelectFrom(s, i, env).s.targets[u].phase == Waiting ==> Starving(s, u) && !s.targets[u].req.Direct()
    decreases |s.targets| - i
  {
    SelectKeepsShape(s, i, env);
    ConsiderChanges(s, i, env);
    if Consider(s, i, env).Next? {
      var s1 := Consider(s, i, env).s;
      if i < u {
        PassedOverStarves(s1, i + 1, env, u);
        if Starving(s1, u) {
          StarvingFrame(s1, s, u);
        }
      } else {
        SelectLeavesEarlier(s1, i + 1, env, u);
      }
    }
  }

  /** Every mirror that could serve the target is used by as many transfers as it allows. */
  lemma StarvingExactlyWhen(s: State, t: nat)
    requires Shape(s) && t < |s.targets|
    ensures Starving(s, t) <==>
              && (exists p :: 0 <= p < |ListOf(s, t)| && Eligible(s, t, p))
              && (forall p :: 0 <= p < |ListOf(s, t)| && Eligible(s, t, p) ==>
                    var mirror := s.mirrors[ListOf(s, t)[p]];
                    mirror.allowed != -1 && mirror.running >= mirror.allowed)
  {
    if Starving(s, t) {
      forall p | 0 <= p < |ListOf(s, t)| && Eligible(s, t, p)
        ensures var mirror := s.mirrors[ListOf(s, t)[p]]; mirror.allowed != -1 && mirror.running >= mirror.allowed
      {
        assert !Free(s, t, p);
      }
    }
  }

  /** Targets are served in their order: one that still waits before the one started has no URL of its own, and
      all mirrors that could serve it are used by as many transfers as they allow. */
  lemma ServedInOrder(s: State, env: Env, t: nat, u: nat)
    requires Shape(s) && PrepareOne(s, env).Started? && PrepareOne(s, env).s.running == s.running + [t]
    requires u < t < |s.targets| == |PrepareOne(s, env).s.targets| && PrepareOne(s, env).s.targets[u].phase == Waiting
    ensures !s.targets[u].req.completeUrl && !s.targets[u].req.baseUrl
    ensures forall p :: 0 <= p < |ListOf(s, u)| && Eligible(s, u, p) ==>
              var mirror := s.mirrors[ListOf(s, u)[p]];
              mirror.allowed != -1 && mirror.running >= mirror.allowed
  {
    SelectKeepsShape(s, 0, env);
    var sel := SelectFrom(s, 0, env);
    assert (s.running + [sel.target])[|s.running|] == sel.target;
    PassedOverStarves(s, 0, env, u);
    StarvingExactlyWhen(s, u);
  }

  lemma NobodyLeft(s: State, env: Env, t: nat)
    requires Shape(s) && t < |s.targets| && SelectFrom(s, 0, env).Nobody?
    ensures var s' := SelectFrom(s, 0, env).s;
            && Shape(s') && |s'.targets| == |s.targets|
            && (s'.targets[t].phase == Waiting ==>
                  && !s'.targets[t].req.completeUrl && !s'.targets[t].req.baseUrl
                  && (exists p :: 0 <= p < |ListOf(s', t)| && Eligible(s', t, p))
                  && (forall p :: 0 <= p < |ListOf(s', t)| && Eligible(s', t, p) ==>
                        var mirror := s'.mirrors[ListOf(s', t)[p]];
                        mirror.allowed != -1 && mirror.running >= mirror.allowed))
  {
    NobodyMeansStarving(s, 0, env, t);
    PassedOverStarves(s, 0, env, t);
    StillTheSame(s, 0, env, t);
    StarvingExactlyWhen(SelectFrom(s, 0, env).s, t);
  }

  /** Work is conserved: after a refill that succeeds as many transfers run as may run at once, or every
      target still waiting has mirrors that could serve it, and all of those are used by as many transfers as
      they allow. */
  lemma {:induction false} NoConnectionIsLeftUnused(s: State, slots: nat, env: Env, t: nat)
    requires Inv(s) && slots == s.cfg.maxParallel - |s.running| && t < |s.targets|
    requires PrepareAll(s, slots, env).ok
    ensures var s' := PrepareAll(s, slots, env).s;
            && Shape(s') && |s'.targets| == |s.targets|
            && (|s'.running| < s.cfg.maxParallel && s'.targets[t].phase == Waiting ==>
                  && !s'.targets[t].req.completeUrl && !s'.targets[t].req.baseUrl
                  && (exists p :: 0 <= p < |ListOf(s', t)| && Eligible(s', t, p))
                  && (forall p :: 0 <= p < |ListOf(s', t)| && Eligible(s', t, p) ==>
                        var mirror := s'.mirrors[ListOf(s', t)[p]];
                        mirror.allowed != -1 && mirror.running >= mirror.allowed))
            && |s'.running| <= s.cfg.maxParallel
    decreases slots
  {
    if slots > 0 {
      SelectKeepsShape(s, 0, env);
      PrepareOneKeepsInv(s, env);
      var p := PrepareOne(s, env);
      if p.Started? {
        NoConnectionIsLeftUnused(p.s, slots - 1, env, t);
      } else {
        NobodyLeft(s, env, t);
      }
    }
  }

  /** The same for a refill as lr_perform makes it. */
  lemma RefillUsesEveryConnection(s: State, env: Env, t: nat)
    requires Inv(s) && t < |s.targets| && Apply(s, Refill, env).ok
    ensures var s' := Apply(s, Refill, env).s;
            && Shape(s') && |s'.targets| == |s.targets|
            && (|s'.running| == s.cfg.maxParallel
                || (s'.targets[t].phase == Waiting ==>
                      && !s'.targets[t].req.completeUrl && !s'.targets[t].req.baseUrl
                      && (exists p :: 0 <= p < |ListOf(s', t)| && Eligible(s', t, p))
                      && (forall p :: 0 <= p < |ListOf(s', t)| && Eligible(s', t, p) ==>
                            var mirror := s'.mirrors[ListOf(s', t)[p]];
                            mirror.allowed != -1 && mirror.running >= mirror.allowed)))
  {
    NoConnectionIsLeftUnused(s, s.cfg.maxParallel - |s.running|, env, t);
  }

  lemma {:induction false} StillTheSame(s: State, i: nat, env: Env, t: nat)
    requires Shape(s) && i <= |s.targets| && t < |s.targets|
    ensures |SelectFrom(s, i, env).s.targets| == |s.targets|
    ensures SelectFrom(s, i, env).s.targets[t].req == s.targets[t].req
    decreases |s.targets| - i
  {
    if i < |s.targets| {
      ConsiderChanges(s, i, env);
      if Consider(s, i, env).Next? {
        StillTheSame(Consider(s, i, env).s, i + 1, env, t);
      }
    }
  }
}
