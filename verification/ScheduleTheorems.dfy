/** What lr_download promises its caller: no target is left waiting, every target is notified, limits
    only tighten, and the one exception (offline targets without failfast) is exactly delimited. */
module ScheduleTheorems {
  import opened Wrappers
  import opened Schedule
  import opened ScheduleInvariants
  import opened ScheduleTermination
  import opened MirrorSorting

  // ---------------------------------------------------------------- no starvation

  /** A starving target implies a full mirror, and a full mirror implies a running transfer. */
  lemma StarvingNeedsRunning(s: State, t: nat)
    requires Inv(s) && t < |s.targets| && Starving(s, t)
    ensures s.running != []
  {
    var p :| 0 <= p < |ListOf(s, t)| && Eligible(s, t, p);
    assert !Free(s, t, p);
    var m := ListOf(s, t)[p];
    assert MirrorOk(s, m);
    FewUsers(s, m);
  }

  lemma {:induction false} PrepareAllStarvesNobody(s: State, slots: nat, env: Env, t: nat)
    requires Inv(s) && slots == s.cfg.maxParallel - |s.running| && t < |s.targets|
    requires PrepareAll(s, slots, env).ok && PrepareAll(s, slots, env).s.running == []
    ensures |PrepareAll(s, slots, env).s.targets| == |s.targets|
    ensures PrepareAll(s, slots, env).s.targets[t].phase != Waiting
    decreases slots
  {
    PrepareOneKeepsInv(s, env);
    SelectKeepsShape(s, 0, env);
    var p := PrepareOne(s, env);
    if p.Started? {
      PrepareAllStarvesNobody(p.s, slots - 1, env, t);
    } else {
      NobodyMeansStarving(s, 0, env, t);
      if p.s.targets[t].phase == Waiting {
        StarvingNeedsRunning(p.s, t);
      }
    }
  }

  lemma {:induction false} ExecuteAppend(s: State, events: seq<Event>, e: Event, env: Env)
    requires Shape(s) && Execute(s, events, env).ok
    ensures Shape(Execute(s, events, env).s)
    ensures Execute(s, events + [e], env) == Apply(Execute(s, events, env).s, e, env)
    decreases |events|
  {
    if events == [] {
      assert [e][1..] == [];
      ApplyKeepsShape(s, e, env);
    } else {
      ApplyKeepsShape(s, events[0], env);
      assert (events + [e])[1..] == events[1..] + [e];
      ExecuteAppend(Apply(s, events[0], env).s, events[1..], e, env);
    }
  }

  lemma {:induction false} ExecuteConcat(s: State, a: seq<Event>, b: seq<Event>, env: Env)
    requires Shape(s) && Execute(s, a, env).ok
    ensures Shape(Execute(s, a, env).s)
    ensures Execute(s, a + b, env) == Execute(Execute(s, a, env).s, b, env)
    decreases |a|
  {
    if a == [] {
      assert a + b == b;
    } else {
      ApplyKeepsShape(s, a[0], env);
      assert (a + b)[1..] == a[1..] + b;
      ExecuteConcat(Apply(s, a[0], env).s, a[1..], b, env);
    }
  }

  /** A run that went well goes on. */
  lemma GoesOn(s: State, a: seq<Event>, s1: State, b: seq<Event>, p: Progress, env: Env)
    requires Shape(s) && Execute(s, a, env) == Progress(s1, true)
    requires Shape(s1) && Execute(s1, b, env) == p
    ensures Execute(s, a + b, env) == p
  {
    ExecuteConcat(s, a, b, env);
  }

  ghost predicate Quiet(s: State) {
    s.running == [] && forall t :: 0 <= t < |s.targets| ==> s.targets[t].phase != Waiting
  }

  lemma {:induction false} NobodySelected(s: State, i: nat, env: Env)
    requires Shape(s) && Quiet(s) && i <= |s.targets|
    ensures SelectFrom(s, i, env) == Nobody(s)
    decreases |s.targets| - i
  {
    if i < |s.targets| {
      assert Consider(s, i, env) == Next(s);
      NobodySelected(s, i + 1, env);
    }
  }

  /** Once nothing runs and nobody waits, nothing happens any more, except that the run may be broken off. */
  lemma {:induction false} QuietStays(s: State, events: seq<Event>, env: Env)
    requires Shape(s) && Quiet(s)
    ensures Execute(s, events, env) == Progress(s, Interruption !in events)
    decreases |events|
  {
    if events != [] {
      NobodySelected(s, 0, env);
      QuietStays(s, events[1..], env);
    }
  }

  // ---------------------------------------------------------------- what is never undone

  ghost predicate Evolves(s: State, s': State)
  {
    && s'.cfg == s.cfg && |s'.targets| == |s.targets| && |s'.mirrors| == |s.mirrors| && |s'.lists| == |s.lists|
    && s.notes <= s'.notes
    && (forall m :: 0 <= m < |s.mirrors| ==> Tightens(s.mirrors[m], s'.mirrors[m]))
    && (forall l :: 0 <= l < |s.lists| ==> multiset(s'.lists[l]) == multiset(s.lists[l]))
    && (forall t :: 0 <= t < |s.targets| ==> Proceeds(s.targets[t], s'.targets[t]))
  }

  /** A finite connection limit never rises again; the other counters only grow. */
  predicate Tightens(m: Mirror, m': Mirror) {
    && m'.protocol == m.protocol
    && (m.allowed != -1 ==> m'.allowed != -1 && m'.allowed <= m.allowed)
    && m.maxTried <= m'.maxTried && m.successful <= m'.successful && m.failed <= m'.failed
  }

  predicate Proceeds(tg: Target, tg': Target) {
    tg'.req == tg.req && (tg.Terminal() && !tg.req.Blocked() ==> tg' == tg)
  }

  lemma EvolvesTransitive(a: State, b: State, c: State)
    requires Evolves(a, b) && Evolves(b, c)
    ensures Evolves(a, c)
  {
    forall m | 0 <= m < |a.mirrors|
      ensures Tightens(a.mirrors[m], c.mirrors[m])
    {
      assert Tightens(a.mirrors[m], b.mirrors[m]) && Tightens(b.mirrors[m], c.mirrors[m]);
    }
    forall t | 0 <= t < |a.targets|
      ensures Proceeds(a.targets[t], c.targets[t])
    {
      assert Proceeds(a.targets[t], b.targets[t]) && Proceeds(b.targets[t], c.targets[t]);
    }
  }

  lemma {:induction false} SelectEvolves(s: State, i: nat, env: Env)
    requires Shape(s) && i <= |s.targets|
    ensures Evolves(s, SelectFrom(s, i, env).s)
    decreases |s.targets| - i
  {
    if i < |s.targets| {
      var s1 := ConsiderEvolves(s, i, env);
      if Consider(s, i, env).Next? {
        SelectEvolves(s1, i + 1, env);
        EvolvesTransitive(s, s1, SelectFrom(s1, i + 1, env).s);
      }
    }
  }

  lemma ConsiderEvolves(s: State, i: nat, env: Env) returns (s1: State)
    requires Shape(s) && i < |s.targets|
    ensures Shape(s1) && Evolves(s, s1) && |s1.targets| == |s.targets|
    ensures SelectFrom(s, i, env).s == if Consider(s, i, env).Next? then SelectFrom(s1, i + 1, env).s else s1
  {
    ConsiderChanges(s, i, env);
    if s.targets[i].phase == Waiting {
      ConcludeEvolves(s, i, Failed, Error);
    }
    s1 := if Consider(s, i, env).Next? then Consider(s, i, env).s else Consider(s, i, env).selection.s;
  }

  lemma LaunchEvolves(s: State, s': State, t: nat, mirror: Option<nat>)
    requires Shape(s) && Startable(s, t, mirror)
    requires s' == Start(s, t, mirror) || s' == s.With(t, s.targets[t].(mirror := mirror))
    ensures Evolves(s, s')
  {
  }

  lemma PrepareOneEvolves(s: State, env: Env)
    requires Inv(s)
    ensures Evolves(s, PrepareOne(s, env).s)
  {
    SelectEvolves(s, 0, env);
    SelectKeepsShape(s, 0, env);
    SelectKeepsInv(s, 0, env);
    var sel := SelectFrom(s, 0, env);
    if sel.Chosen? {
      LaunchEvolves(sel.s, PrepareOne(s, env).s, sel.target, sel.mirror);
      EvolvesTransitive(s, sel.s, PrepareOne(s, env).s);
    }
  }

  lemma {:induction false} PrepareAllEvolves(s: State, slots: nat, env: Env)
    requires Inv(s) && slots == s.cfg.maxParallel - |s.running|
    ensures Evolves(s, PrepareAll(s, slots, env).s)
    decreases slots
  {
    if slots > 0 {
      PrepareOneEvolves(s, env);
      PrepareOneKeepsInv(s, env);
      var p := PrepareOne(s, env);
      if p.Started? {
        PrepareAllEvolves(p.s, slots - 1, env);
        EvolvesTransitive(s, p.s, PrepareAll(p.s, slots - 1, env).s);
      }
    }
  }

  lemma SettleKeepsMultiset(s: State, t: nat, success: bool, serious: bool, l: nat)
    requires Shape(s) && t < |s.targets| && l < |s.lists|
    ensures |Settle(s, t, success, serious).lists| == |s.lists|
    ensures multiset(Settle(s, t, success, serious).lists[l]) == multiset(s.lists[l])
  {
    if Settle(s, t, success, serious).lists[l] != s.lists[l] {
      var m := s.targets[t].mirror.value;
      var ms := s.mirrors[m := UpdateStatistics(s.mirrors[m], success)];
      var (i, j) := SwapPair(s.lists[l], ms, m, success, serious);
      SwapExchanges(s.lists[l], i, j);
    }
  }

  lemma SettleEvolves(s: State, t: nat, success: bool, serious: bool)
    requires Shape(s) && t < |s.targets| && !s.targets[t].Terminal()
    ensures Evolves(s, Settle(s, t, success, serious))
  {
    var s' := Settle(s, t, success, serious);
    forall l | 0 <= l < |s.lists|
      ensures multiset(s'.lists[l]) == multiset(s.lists[l])
    {
      SettleKeepsMultiset(s, t, success, serious, l);
    }
  }

  lemma LoweredTightens(cfg: Config, m: Mirror, users: nat)
    requires WithinLimits(cfg, m, users)
    ensures Tightens(m, Lowered(m))
  {
  }

  lemma ForgiveEvolves(s: State, t: nat)
    requires Shape(s) && t < |s.targets| && s.targets[t].mirror.Some? && !s.targets[t].Terminal()
    requires MirrorOk(s, s.targets[t].mirror.value)
    ensures Evolves(s, Forgive(s, t))
  {
    var m := s.targets[t].mirror.value;
    LoweredTightens(s.cfg, s.mirrors[m], |Users(s, m)|);
  }

  lemma AfterErrorEvolves(s: State, t: nat, serious: bool, cancelled: bool)
    requires Inv(s) && t in s.running
    ensures Evolves(s, AfterError(s, t, serious, cancelled))
    ensures AfterError(s, t, serious, cancelled).targets[t].phase == Running
  {
    assert TargetOk(s, t);
    var s1 := Settle(s, t, false, serious);
    SettleEvolves(s, t, false, serious);
    SettleKeeps(s, t, false, serious);
    if AfterError(s, t, serious, cancelled) != s1 {
      assert MirrorOk(s1, s.targets[t].mirror.value);
      ForgiveEvolves(s1, t);
      EvolvesTransitive(s, s1, Forgive(s1, t));
    }
  }

  lemma ConcludeEvolves(s: State, t: nat, phase: Phase, rcode: RCode)
    requires t < |s.targets| && !s.targets[t].Terminal()
    ensures Evolves(s, Conclude(s, t, phase, rcode))
  {
  }

  lemma RetryEvolves(s: State, t: nat)
    requires t < |s.targets| && !s.targets[t].Terminal()
    ensures Evolves(s, Retry(s, t))
  {
  }

  lemma SuccessEvolves(s: State, t: nat)
    requires Shape(s) && t < |s.targets| && !s.targets[t].Terminal()
    ensures Evolves(s, Conclude(Settle(s, t, true, false), t, Finished, Ok))
  {
    SettleEvolves(s, t, true, false);
    ConcludeEvolves(Settle(s, t, true, false), t, Finished, Ok);
    EvolvesTransitive(s, Settle(s, t, true, false), Conclude(Settle(s, t, true, false), t, Finished, Ok));
  }

  lemma ErrorEvolves(s: State, t: nat, serious: bool, cancelled: bool, s2: State)
    requires Inv(s) && t in s.running && s2 == AfterError(s, t, serious, cancelled)
    ensures t < |s2.targets| && Evolves(s, Conclude(s2, t, Failed, Error)) && Evolves(s, Retry(s2, t))
  {
    AfterErrorEvolves(s, t, serious, cancelled);
    ConcludeEvolves(s2, t, Failed, Error);
    EvolvesTransitive(s, s2, Conclude(s2, t, Failed, Error));
    RetryEvolves(s2, t);
    EvolvesTransitive(s, s2, Retry(s2, t));
  }

  lemma FinishEvolves(s: State, t: nat, o: Outcome, env: Env)
    requires Inv(s)
    ensures Evolves(s, Finish(s, t, o, env).s)
  {
    if t in s.running {
      assert TargetOk(s, t);
      match o
      case ChecksumUnavailable =>
      case Success => SuccessEvolves(s, t);
      case TransferError(serious, fatal, progressError, failureCb, truncateFails) =>
        var cancelled := fatal || failureCb != CbOk;
        ErrorEvolves(s, t, serious, cancelled, AfterError(s, t, serious, cancelled));
    }
  }

  lemma ApplyEvolves(s: State, e: Event, env: Env)
    requires Inv(s)
    ensures Evolves(s, Apply(s, e, env).s)
  {
    match e
    case Report(t, o) => FinishEvolves(s, t, o, env);
    case Refill => PrepareAllEvolves(s, s.cfg.maxParallel - |s.running|, env);
    case Interruption =>
  }

  /** Over any run: limits only tighten, mirror lists are only permuted, notifications are only added,
      and a finished or failed target never changes again unless it is blocked. */
  lemma {:induction false} ExecuteEvolves(s: State, events: seq<Event>, env: Env)
    requires Inv(s)
    ensures Evolves(s, Execute(s, events, env).s)
    decreases |events|
  {
    if events != [] {
      ApplyKeepsInv(s, events[0], env);
      ApplyEvolves(s, events[0], env);
      var p := Apply(s, events[0], env);
      if p.ok {
        ExecuteEvolves(p.s, events[1..], env);
        EvolvesTransitive(s, p.s, Execute(p.s, events[1..], env).s);
      }
    }
  }

  // ---------------------------------------------------------------- blocked targets fall through

  /** While a run goes on, a blocked target that has ended was started before. */
  ghost predicate FellThrough(tg: Target) {
    tg.req.Blocked() && tg.Terminal() ==> tg.starts >= 1
  }

  ghost predicate AllFellThrough(s: State) {
    forall t :: 0 <= t < |s.targets| ==> FellThrough(s.targets[t])
  }

  lemma {:induction false} SelectFallsThrough(s: State, i: nat, env: Env, t: nat)
    requires Shape(s) && i <= |s.targets| && t < |s.targets| && FellThrough(s.targets[t])
    ensures var sel := SelectFrom(s, i, env);
            && |sel.s.targets| == |s.targets|
            && (!sel.Abort? && !(sel.Chosen? && sel.target == t) ==> FellThrough(sel.s.targets[t]))
    decreases |s.targets| - i
  {
    if i < |s.targets| {
      ConsiderChanges(s, i, env);
      if Consider(s, i, env).Next? {
        SelectFallsThrough(Consider(s, i, env).s, i + 1, env, t);
      }
    }
  }

  lemma {:induction false} PrepareAllFallsThrough(s: State, slots: nat, env: Env)
    requires Inv(s) && slots == s.cfg.maxParallel - |s.running| && AllFellThrough(s)
    ensures PrepareAll(s, slots, env).ok ==> AllFellThrough(PrepareAll(s, slots, env).s)
    decreases slots
  {
    if slots > 0 {
      SelectKeepsShape(s, 0, env);
      PrepareOneKeepsInv(s, env);
      var p := PrepareOne(s, env);
      forall t | 0 <= t < |s.targets|
        ensures !p.Broken? ==> |p.s.targets| == |s.targets| && FellThrough(p.s.targets[t])
      {
        SelectFallsThrough(s, 0, env, t);
      }
      if p.Started? {
        PrepareAllFallsThrough(p.s, slots - 1, env);
      }
    }
  }

  lemma FinishFallsThrough(s: State, t: nat, o: Outcome, env: Env)
    requires Inv(s) && AllFellThrough(s)
    ensures AllFellThrough(Finish(s, t, o, env).s)
  {
    if t in s.running {
      assert TargetOk(s, t);
      if !o.ChecksumUnavailable? {
        FinishStops(s, t, o, env);
        StopFallsThrough(s, Finish(s, t, o, env).s, t);
      }
    }
  }

  lemma StopFallsThrough(s: State, s': State, t: nat)
    requires Inv(s) && AllFellThrough(s) && Stops(s, s', t)
    requires s.targets[t].phase == Running
    ensures AllFellThrough(s')
  {
    assert TargetOk(s, t);
  }

  lemma {:induction false} ExecuteFallsThrough(s: State, events: seq<Event>, env: Env)
    requires Inv(s) && AllFellThrough(s)
    ensures Execute(s, events, env).ok ==> AllFellThrough(Execute(s, events, env).s)
    decreases |events|
  {
    if events != [] {
      var e := events[0];
      ApplyKeepsInv(s, e, env);
      match e {
        case Report(t, o) => FinishFallsThrough(s, t, o, env);
        case Refill => PrepareAllFallsThrough(s, s.cfg.maxParallel - |s.running|, env);
        case Interruption =>
      }
      if Apply(s, e, env).ok {
        ExecuteFallsThrough(Apply(s, e, env).s, events[1..], env);
      }
    }
  }

  // ---------------------------------------------------------------- results of lr_download

  predicate EndsInRefill(events: seq<Event>) {
    events != [] && events[|events| - 1] == Refill
  }

  lemma EndsInRefillConcat(a: seq<Event>, b: seq<Event>)
    requires EndsInRefill(b)
    ensures EndsInRefill(a + b)
  {
  }

  /** lr_perform stops when nothing runs after a refill: this is when lr_download returns TRUE. */
  ghost predicate ReturnsTrue(s: State, events: seq<Event>, env: Env)
    requires Shape(s)
  {
    var p := Execute(s, events, env);
    EndsInRefill(events) && p.ok && p.s.running == []
  }

  lemma LastRefill(s: State, events: seq<Event>, env: Env) returns (b: State)
    requires Inv(s) && ReturnsTrue(s, events, env)
    ensures Inv(b) && b.cfg == s.cfg && |b.targets| == |s.targets|
    ensures Execute(s, events, env) == Apply(b, Refill, env)
  {
    var before := events[..|events| - 1];
    assert events == before + [Refill];
    ExecutePrefix(s, before, Refill, env);
    ExecuteAppend(s, before, Refill, env);
    ExecuteKeepsInv(s, before, env);
    ExecuteEvolves(s, before, env);
    b := Execute(s, before, env).s;
  }

  lemma RefillStarvesNobody(b: State, env: Env, t: nat, s': State)
    requires Inv(b) && t < |b.targets| && Apply(b, Refill, env) == Progress(s', true) && s'.running == []
    ensures |s'.targets| == |b.targets| && s'.targets[t].phase != Waiting
  {
    PrepareAllStarvesNobody(b, b.cfg.maxParallel - |b.running|, env, t);
  }

  lemma NobodyIsLeftWaiting(s: State, events: seq<Event>, env: Env, t: nat)
    requires Inv(s) && t < |s.targets| && ReturnsTrue(s, events, env)
    ensures var s' := Execute(s, events, env).s;
            |s'.targets| == |s.targets| && s'.targets[t].phase != Waiting && s'.running == []
  {
    var b := LastRefill(s, events, env);
    RefillStarvesNobody(b, env, t, Execute(s, events, env).s);
  }

  /** On a TRUE return every target is over; its result code says which way it went; the end callback
      was called exactly once, except that a blocked target was called again for every start. */
  lemma NormalReturn(s: State, events: seq<Event>, env: Env, t: nat)
    requires Init(s) && t < |s.targets| && ReturnsTrue(s, events, env)
    ensures var s' := Execute(s, events, env).s;
            && |s'.targets| == |s.targets| && s'.targets[t].req == s.targets[t].req
            && s'.targets[t].Terminal()
            && (s'.targets[t].rcode == Ok <==> s'.targets[t].phase == Finished)
            && (s.cfg.failfast ==> s'.targets[t].phase == Finished)
            && (Count(s'.notes, t) == 1 <==> !s.targets[t].req.Blocked())
            && Count(s'.notes, t) == 1 + (if s.targets[t].req.Blocked() then s'.targets[t].starts else 0)
            && (s.targets[t].req.Direct() ==>
                  1 <= s'.targets[t].starts <= DirectAttempts(s.cfg, s.targets[t].req))
  {
    InitOk(s);
    NobodyIsLeftWaiting(s, events, env, t);
    ExecuteEvolves(s, events, env);
    var s' := Execute(s, events, env).s;
    assert Proceeds(s.targets[t], s'.targets[t]);
    assert TargetOk(s', t) && NobodyFailed(s') by {
      ExecuteKeepsInv(s, events, env);
    }
    assert FellThrough(s'.targets[t]) by {
      ExecuteFallsThrough(s, events, env);
    }
  }

  lemma {:induction false} ExecutePrefix(s: State, events: seq<Event>, e: Event, env: Env)
    requires Shape(s) && Execute(s, events + [e], env).ok
    ensures Execute(s, events, env).ok
    decreases |events|
  {
    if events != [] {
      ApplyKeepsShape(s, events[0], env);
      assert (events + [e])[1..] == events[1..] + [e];
      ExecutePrefix(Apply(s, events[0], env).s, events[1..], e, env);
    }
  }

  lemma {:induction false} AbandonNotifies(s: State, t: nat)
    requires Distinct(s.running) && t < |s.targets|
    requires forall k :: 0 <= k < |s.running| ==> s.running[k] < |s.targets|
    ensures Abandon(s).running == [] && |Abandon(s).targets| == |s.targets|
    ensures Count(Abandon(s).notes, t) == Count(s.notes, t) + (if t in s.running then 1 else 0)
    ensures Abandon(s).targets[t]
            == if t in s.running then s.targets[t].(rcode := Unfinished) else s.targets[t]
    decreases |s.running|
  {
    if s.running != [] {
      var u := s.running[0];
      var s1 := s.With(u, s.targets[u].(rcode := Unfinished))
                 .(notes := s.notes + [Note(u, false)], running := s.running[1..]);
      AbandonNotifies(s1, t);
      CountAppend(s.notes, Note(u, false), t);
      assert u !in s1.running;
      assert t in s.running <==> t == u || t in s1.running;
    }
  }

  /** However a run breaks off, a target that was still waiting is not notified of its end and every other
      target is, once; a blocked target has been notified once more for every start. */
  lemma AbortedReturn(s: State, events: seq<Event>, env: Env, t: nat)
    requires Init(s) && t < |s.targets|
    ensures var s1 := Execute(s, events, env).s;
            && Inv(s1) && |s1.targets| == |s.targets|
            && var s' := Abandon(s1);
            && |s'.targets| == |s.targets| && s'.running == []
            && Count(s'.notes, t) == (if s1.targets[t].phase == Waiting then 0 else 1)
                                     + (if s.targets[t].req.Blocked() then s1.targets[t].starts else 0)
            && (s'.targets[t].rcode == Ok <==> s'.targets[t].phase == Finished)
            && (s1.targets[t].phase == Running ==> s'.targets[t].rcode == Unfinished)
  {
    InitOk(s);
    ExecuteKeepsInv(s, events, env);
    ExecuteEvolves(s, events, env);
    var s1 := Execute(s, events, env).s;
    assert Proceeds(s.targets[t], s1.targets[t]);
    assert TargetOk(s1, t);
    AbandonNotifies(s1, t);
  }

  /** In every reachable state the limits hold for every mirror. */
  lemma LimitsHold(s: State, events: seq<Event>, env: Env, m: nat)
    requires Init(s) && m < |s.mirrors|
    ensures var s' := Execute(s, events, env).s;
            && Shape(s') && |s'.mirrors| == |s.mirrors|
            && var mm := s'.mirrors[m];
            && mm.running == |Users(s', m)|
            && |s'.running| <= s.cfg.maxParallel
            && (mm.allowed != -1 ==> mm.running <= mm.allowed)
            && (s.cfg.maxPerHost != -1 ==> mm.running <= mm.allowed <= s.cfg.maxPerHost)
            && (mm.successful == 0 && s.cfg.allowedFailures > 0 ==>
                  mm.failed + mm.running <= s.cfg.allowedFailures - 1 + s.cfg.Cap())
  {
    InitOk(s);
    ExecuteKeepsInv(s, events, env);
    ExecuteEvolves(s, events, env);
    assert MirrorOk(Execute(s, events, env).s, m);
  }

  // ---------------------------------------------------------------- giving up

  /** Selection marks a waiting mirror target FAILED exactly when no mirror of its list is eligible,
      fullness disregarded; it never touches a target with an eligible mirror. */
  lemma {:induction false} GivesUpOnlyWithoutMirrors(s: State, i: nat, env: Env, t: nat)
    requires Shape(s) && i <= t < |s.targets| && s.targets[t].phase == Waiting && !s.targets[t].req.Direct()
    ensures var sel := SelectFrom(s, i, env);
            && |sel.s.targets| == |s.targets|
            && (sel.s.targets[t].phase == Failed ==> !AnyEligible(s, t))
            && (sel.Nobody? && !AnyEligible(s, t) ==> sel.s.targets[t].phase == Failed)
            && (AnyEligible(s, t) ==> sel.s.targets[t] == s.targets[t])
    decreases |s.targets| - i
  {
    SelectKeepsShape(s, i, env);
    ConsiderChanges(s, i, env);
    if i == t {
      GivesUpHere(s, t, env);
    }
    if Consider(s, i, env).Next? {
      var s1 := Consider(s, i, env).s;
      if i == t {
        SelectLeavesEarlier(s1, i + 1, env, t);
      } else {
        GivesUpOnlyWithoutMirrors(s1, i + 1, env, t);
        EligibleFrame(s, s1, t);
      }
    }
  }

  lemma GivesUpHere(s: State, t: nat, env: Env)
    requires Shape(s) && t < |s.targets| && s.targets[t].phase == Waiting && !s.targets[t].req.Direct()
    ensures match Consider(s, t, env)
            case Next(s1) => s1 == (if AnyEligible(s, t) then s else GiveUp(s, t))
            case Stop(sel) => sel.s == s || (!AnyEligible(s, t) && sel.s == GiveUp(s, t))
  {
  }

  lemma EligibleFrame(s: State, s': State, t: nat)
    requires Shape(s) && Shape(s') && t < |s.targets| && t < |s'.targets| && s'.targets[t] == s.targets[t]
    requires s'.cfg == s.cfg && s'.mirrors == s.mirrors && s'.lists == s.lists
    ensures AnyEligible(s', t) == AnyEligible(s, t)
  {
    assert forall p :: 0 <= p < |ListOf(s, t)| ==> Eligible(s', t, p) == Eligible(s, t, p);
  }

  lemma {:induction false} SelectLeavesEarlier(s: State, i: nat, env: Env, t: nat)
    requires Shape(s) && t < i <= |s.targets|
    ensures |SelectFrom(s, i, env).s.targets| == |s.targets|
    ensures SelectFrom(s, i, env).s.targets[t] == s.targets[t]
    decreases |s.targets| - i
  {
    if i < |s.targets| {
      ConsiderChanges(s, i, env);
      if Consider(s, i, env).Next? {
        SelectLeavesEarlier(Consider(s, i, env).s, i + 1, env, t);
      }
    }
  }

  /** The exception is real: one offline target with a remote base URL, failfast off, is reported as
      failed, downloaded anyway, and reported again as finished. */
  lemma BlockedTargetIsReportedTwice(cfg: Config, env: Env)
    requires cfg.Valid() && !cfg.failfast
    requires !env.endCb(0) && !env.setupFails(0, 0)
    ensures var req := Request(false, true, false, false, true, 0);
            var s := State(cfg, [Target(req, Waiting, None, [], Unfinished, 0)], [], [[]], [], []);
            && Init(s)
            && Execute(s, [Refill, Report(0, Success)], env).s.notes == [Note(0, false), Note(0, true)]
            && |Execute(s, [Refill, Report(0, Success)], env).s.targets| == 1
            && Execute(s, [Refill, Report(0, Success)], env).s.targets[0].phase == Finished
  {
    var s := State(cfg, [Target(Request(false, true, false, false, true, 0), Waiting, None, [], Unfinished, 0)], [], [[]], [], []);
    BlockedRun(s, env);
  }

  lemma BlockedRun(s: State, env: Env)
    requires Init(s) && !s.cfg.failfast && |s.targets| == 1 && s.targets[0].req.Blocked()
    requires !env.endCb(0) && !env.setupFails(0, 0)
    ensures var p := Execute(s, [Refill, Report(0, Success)], env);
            && p.s.notes == [Note(0, false), Note(0, true)] && |p.s.targets| == 1 && p.s.targets[0].phase == Finished
  {
    var s1 := Start(Conclude(s, 0, Failed, Error), 0, None);
    BlockedIsStarted(s, env);
    FinishedAlone(s1, env);
    assert [Refill, Report(0, Success)][1..] == [Report(0, Success)];
    ApplyKeepsShape(s, Refill, env);
  }

  lemma BlockedIsStarted(s: State, env: Env)
    requires Init(s) && !s.cfg.failfast && |s.targets| == 1 && s.targets[0].req.Blocked()
    requires !env.endCb(0) && !env.setupFails(0, 0)
    ensures Apply(s, Refill, env) == Progress(Start(Conclude(s, 0, Failed, Error), 0, None), true)
  {
    assert SelectFrom(s, 0, env) == Chosen(Conclude(s, 0, Failed, Error), 0, None);
    var s1 := Start(Conclude(s, 0, Failed, Error), 0, None);
    PrepareKeepsShape(s, env);
    assert PrepareOne(s, env) == Started(s1);
    StartedAloneStays(s1, s.cfg.maxParallel - 1, env);
  }

  lemma FinishedAlone(s: State, env: Env)
    requires Shape(s) && |s.targets| == 1 && s.targets[0].mirror == None && s.running == [0]
    ensures var p := Execute(s, [Report(0, Success)], env);
            p.s.notes == s.notes + [Note(0, true)] && |p.s.targets| == 1 && p.s.targets[0].phase == Finished
  {
    ApplyKeepsShape(s, Report(0, Success), env);
    assert [Report(0, Success)][1..] == [];
  }

  lemma StartedAloneStays(s: State, slots: nat, env: Env)
    requires Shape(s) && |s.targets| == 1 && s.targets[0].phase == Running
    ensures PrepareAll(s, slots, env) == Progress(s, true)
  {
    assert Consider(s, 0, env) == Next(s);
    assert SelectFrom(s, 1, env) == Nobody(s);
    assert SelectFrom(s, 0, env) == Nobody(s);
  }
}
