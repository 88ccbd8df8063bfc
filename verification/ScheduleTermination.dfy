/** Every run ends: each finished transfer uses up some of a fixed supply of attempts and second
    chances, so the number of transfers has an explicit bound. */
module ScheduleTermination {
  import opened Wrappers
  import opened Schedule
  import opened ScheduleInvariants

  ghost function Untried(s: State, t: nat): set<nat>
    requires Shape(s) && t < |s.targets|
  {
    set m | m in ListOf(s, t) && Some(m) !in s.targets[t].tried
  }

  /** Attempts target t can still make that end without a second chance. */
  ghost function Attempts(s: State, t: nat): nat
    requires Shape(s) && t < |s.targets|
  {
    var tg := s.targets[t];
    var left := s.cfg.allowedFailures - |tg.tried|;
    if !tg.req.Direct() then |Untried(s, t)| + Max(0, left)
    else if tg.tried == [] then DirectAttempts(s.cfg, tg.req)
    else if tg.req.fileUrl then 0
    else Max(0, left)
  }

  /** Second chances mirror m can still be given: each one lowers its connections, or happens within
      its first maxParallel failures. */
  function SecondChances(cfg: Config, m: Mirror): nat {
    Max(0, if m.allowed == -1 then cfg.maxParallel else m.allowed) + Max(0, cfg.maxParallel - m.failed)
  }

  ghost function AttemptsUpTo(s: State, n: nat): nat
    requires Shape(s) && n <= |s.targets|
  {
    if n == 0 then 0 else AttemptsUpTo(s, n - 1) + Attempts(s, n - 1)
  }

  function ChancesUpTo(cfg: Config, ms: seq<Mirror>, n: nat): nat
    requires n <= |ms|
  {
    if n == 0 then 0 else ChancesUpTo(cfg, ms, n - 1) + SecondChances(cfg, ms[n - 1])
  }

  function StartsUpTo(targets: seq<Target>, n: nat): int
    requires n <= |targets|
  {
    if n == 0 then 0 else StartsUpTo(targets, n - 1) + targets[n - 1].starts
  }

  ghost function Potential(s: State): nat
    requires Shape(s)
  {
    AttemptsUpTo(s, |s.targets|) + ChancesUpTo(s.cfg, s.mirrors, |s.mirrors|)
  }

  function TotalStarts(s: State): int {
    StartsUpTo(s.targets, |s.targets|)
  }

  // ---------------------------------------------------------------- sums

  lemma {:induction false} AttemptsSum(s: State, s': State, n: nat, t: nat)
    requires Shape(s) && Shape(s') && |s'.targets| == |s.targets| && n <= |s.targets|
    requires forall i :: 0 <= i < n ==> Attempts(s', i) <= Attempts(s, i)
    ensures AttemptsUpTo(s', n) <= AttemptsUpTo(s, n)
    ensures t < n ==> AttemptsUpTo(s', n) - Attempts(s', t) <= AttemptsUpTo(s, n) - Attempts(s, t)
  {
    if n > 0 {
      AttemptsSum(s, s', n - 1, t);
    }
  }

  lemma {:induction false} ChancesSum(cfg: Config, ms: seq<Mirror>, ms': seq<Mirror>, n: nat, m: nat)
    requires |ms'| == |ms| && n <= |ms|
    requires forall i :: 0 <= i < n ==> SecondChances(cfg, ms'[i]) <= SecondChances(cfg, ms[i])
    ensures ChancesUpTo(cfg, ms', n) <= ChancesUpTo(cfg, ms, n)
    ensures m < n ==>
              ChancesUpTo(cfg, ms', n) - SecondChances(cfg, ms'[m]) <= ChancesUpTo(cfg, ms, n) - SecondChances(cfg, ms[m])
  {
    if n > 0 {
      ChancesSum(cfg, ms, ms', n - 1, m);
    }
  }

  lemma {:induction false} StartsSum(a: seq<Target>, b: seq<Target>, n: nat, t: nat)
    requires |a| == |b| && n <= |a| && t < |a|
    requires forall i :: 0 <= i < n && i != t ==> b[i].starts == a[i].starts
    ensures StartsUpTo(b, n) == StartsUpTo(a, n) + (if t < n then b[t].starts - a[t].starts else 0)
  {
    if n > 0 {
      StartsSum(a, b, n - 1, t);
    }
  }

  // ---------------------------------------------------------------- a finished transfer costs something

  lemma {:induction false} RemoveAppended(xs: seq<Option<nat>>, x: Option<nat>)
    ensures RemoveFirst(xs + [x], x) == if x in xs then RemoveFirst(xs, x) + [x] else xs
  {
    if xs != [] {
      assert (xs + [x])[1..] == xs[1..] + [x];
      RemoveAppended(xs[1..], x);
    }
  }

  /** Attempts depend on the target's own request and tries, and on which mirrors its list holds. */
  lemma AttemptsFrame(s: State, s': State, t: nat)
    requires Shape(s) && Shape(s') && t < |s.targets| && t < |s'.targets| && s'.cfg == s.cfg
    requires s'.targets[t].req == s.targets[t].req && Elements(ListOf(s', t)) == Elements(ListOf(s, t))
    requires |s'.targets[t].tried| == |s.targets[t].tried|
    requires forall x :: x in s.targets[t].tried ==> x in s'.targets[t].tried
    ensures Attempts(s', t) <= Attempts(s, t)
  {
    forall m
      ensures m in Untried(s', t) ==> m in Untried(s, t)
    {
      assert m in Elements(ListOf(s', t)) <==> m in Elements(ListOf(s, t));
    }
    SubsetCardinality(Untried(s', t), Untried(s, t));
  }

  /** Bookkeeping spends an attempt: a new mirror is crossed off, or the number of tries, which was
      below the limit when the transfer was started, grows. */
  lemma SettleSpends(s: State, t: nat, success: bool, serious: bool)
    requires Inv(s) && t in s.running
    ensures Shape(Settle(s, t, success, serious))
    ensures Attempts(Settle(s, t, success, serious), t) < Attempts(s, t)
  {
    var s' := Settle(s, t, success, serious);
    SettleKeepsShape(s, t, success, serious);
    assert TargetOk(s, t);
    var tg := s.targets[t];
    if !tg.req.Direct() {
      SettleKeepsElements(s, t, success, serious, tg.req.list);
      var m := tg.mirror.value;
      forall x
        ensures x in Untried(s', t) <==> x in Untried(s, t) && x != m
      {
        assert x in Elements(ListOf(s', t)) <==> x in Elements(ListOf(s, t));
      }
      assert Untried(s', t) == Untried(s, t) - {m};
      if Some(m) !in tg.tried {
        assert m in Untried(s, t);
      }
    }
  }

  lemma ForgivenMirrorSpends(cfg: Config, m: Mirror, users: nat)
    requires cfg.Valid() && WithinLimits(cfg, m, users) && users >= 1
    requires Forgivable(UpdateStatistics(m, false))
    ensures SecondChances(cfg, Lowered(UpdateStatistics(m, false))) < SecondChances(cfg, m)
  {
  }

  lemma OthersKeepAttempts(s: State, t: nat, success: bool, serious: bool, u: nat)
    requires Inv(s) && t in s.running && u < |s.targets| && u != t
    ensures Shape(Settle(s, t, success, serious))
    ensures Attempts(Settle(s, t, success, serious), u) <= Attempts(s, u)
  {
    SettleKeepsShape(s, t, success, serious);
    SettleKeepsElements(s, t, success, serious, s.targets[u].req.list);
    AttemptsFrame(s, Settle(s, t, success, serious), u);
  }

  lemma SettleLowersPotential(s: State, t: nat, success: bool, serious: bool)
    requires Inv(s) && t in s.running
    ensures Shape(Settle(s, t, success, serious))
    ensures Potential(Settle(s, t, success, serious)) < Potential(s)
  {
    var s' := Settle(s, t, success, serious);
    SettleSpends(s, t, success, serious);
    SettleKeepsShape(s, t, success, serious);
    forall u | 0 <= u < |s.targets|
      ensures Attempts(s', u) <= Attempts(s, u)
    {
      if u != t {
        OthersKeepAttempts(s, t, success, serious, u);
      }
    }
    AttemptsSum(s, s', |s.targets|, t);
    ChancesSum(s.cfg, s.mirrors, s'.mirrors, |s.mirrors|, 0);
  }

  /** A forgiven target gets its attempt back. */
  lemma ForgivenKeepsAttempts(s: State, s1: State, t: nat, serious: bool, u: nat)
    requires Inv(s) && t in s.running && s.targets[t].mirror.Some? && u < |s.targets|
    requires s1 == Settle(s, t, false, serious) && Shape(s1)
    ensures Shape(Forgive(s1, t)) && Attempts(Forgive(s1, t), u) <= Attempts(s, u)
  {
    RemoveAppended(s.targets[t].tried, s.targets[t].mirror);
    SettleKeepsElements(s, t, false, serious, s.targets[u].req.list);
    AttemptsFrame(s, Forgive(s1, t), u);
  }

  lemma ForgivenLosesChance(s: State, s1: State, t: nat, serious: bool)
    requires Inv(s) && t in s.running && s.targets[t].mirror.Some?
    requires s1 == Settle(s, t, false, serious) && Shape(s1)
    requires Forgivable(s1.mirrors[s.targets[t].mirror.value])
    ensures |Forgive(s1, t).mirrors| == |s.mirrors|
    ensures ChancesUpTo(s.cfg, Forgive(s1, t).mirrors, |s.mirrors|) < ChancesUpTo(s.cfg, s.mirrors, |s.mirrors|)
  {
    var m := s.targets[t].mirror.value;
    assert MirrorOk(s, m) && t in Users(s, m);
    ForgivenMirrorSpends(s.cfg, s.mirrors[m], |Users(s, m)|);
    ChancesSum(s.cfg, s.mirrors, Forgive(s1, t).mirrors, |s.mirrors|, m);
  }

  /** A second chance gives the attempt back, but the mirror pays for it. */
  lemma ForgiveLowersPotential(s: State, t: nat, serious: bool)
    requires Inv(s) && t in s.running && s.targets[t].mirror.Some?
    requires Shape(Settle(s, t, false, serious))
    requires Forgivable(Settle(s, t, false, serious).mirrors[s.targets[t].mirror.value])
    ensures Shape(Forgive(Settle(s, t, false, serious), t))
    ensures Potential(Forgive(Settle(s, t, false, serious), t)) < Potential(s)
  {
    var s1 := Settle(s, t, false, serious);
    var s' := Forgive(s1, t);
    forall u | 0 <= u < |s.targets|
      ensures Shape(s') && Attempts(s', u) <= Attempts(s, u)
    {
      ForgivenKeepsAttempts(s, s1, t, serious, u);
    }
    ForgivenKeepsAttempts(s, s1, t, serious, t);
    AttemptsSum(s, s', |s.targets|, t);
    ForgivenLosesChance(s, s1, t, serious);
  }

  lemma SameSupply(s: State, s': State)
    requires Shape(s) && Shape(s') && s'.cfg == s.cfg && s'.lists == s.lists
    requires |s'.targets| == |s.targets| && |s'.mirrors| == |s.mirrors|
    requires forall t :: 0 <= t < |s.targets| ==>
               s'.targets[t].tried == s.targets[t].tried && s'.targets[t].req == s.targets[t].req
    requires forall m :: 0 <= m < |s.mirrors| ==>
               s'.mirrors[m].allowed == s.mirrors[m].allowed && s'.mirrors[m].failed == s.mirrors[m].failed
    ensures Potential(s') <= Potential(s)
  {
    forall t | 0 <= t < |s.targets|
      ensures Attempts(s', t) <= Attempts(s, t)
    {
      AttemptsFrame(s, s', t);
    }
    AttemptsSum(s, s', |s.targets|, 0);
    ChancesSum(s.cfg, s.mirrors, s'.mirrors, |s.mirrors|, 0);
  }

  /** Transfers that have been started and are over. */
  function Ended(s: State): int {
    TotalStarts(s) - |s.running|
  }

  /** The transfer of t is taken off the running list, and no start is forgotten. */
  ghost predicate Stops(s: State, s': State, t: nat) {
    && t < |s.targets| == |s'.targets| && s'.running == RemoveFirst(s.running, t)
    && s'.targets == s.targets[t := s'.targets[t]] && s'.targets[t].starts == s.targets[t].starts
    && s'.targets[t].req == s.targets[t].req
  }

  lemma SettleStops(s: State, t: nat, success: bool, serious: bool)
    requires Shape(s) && t < |s.targets|
    ensures Stops(s, Settle(s, t, success, serious), t)
  {
  }

  lemma AfterErrorStops(s: State, t: nat, serious: bool, cancelled: bool)
    requires Shape(s) && t < |s.targets|
    ensures Stops(s, AfterError(s, t, serious, cancelled), t)
  {
    SettleStops(s, t, false, serious);
  }

  lemma FinishStops(s: State, t: nat, o: Outcome, env: Env)
    requires Shape(s) && t in s.running && !o.ChecksumUnavailable?
    ensures Stops(s, Finish(s, t, o, env).s, t)
  {
    match o
    case Success => SettleStops(s, t, true, false);
    case TransferError(serious, fatal, progressError, failureCb, truncateFails) =>
      AfterErrorStops(s, t, serious, fatal || failureCb != CbOk);
  }

  lemma FinishEnds(s: State, t: nat, o: Outcome, env: Env)
    requires Shape(s) && t in s.running && !o.ChecksumUnavailable?
    ensures Ended(Finish(s, t, o, env).s) == Ended(s) + 1
  {
    FinishStops(s, t, o, env);
    StopIsAnEnd(s, Finish(s, t, o, env).s, t);
  }

  lemma StopIsAnEnd(s: State, s': State, t: nat)
    requires Stops(s, s', t) && t in s.running
    ensures Ended(s') == Ended(s) + 1
  {
    StartsSum(s.targets, s'.targets, |s.targets|, t);
  }

  lemma AfterErrorLowersPotential(s: State, t: nat, serious: bool, cancelled: bool)
    requires Inv(s) && t in s.running
    ensures Shape(AfterError(s, t, serious, cancelled))
    ensures Potential(AfterError(s, t, serious, cancelled)) < Potential(s)
  {
    SettleLowersPotential(s, t, false, serious);
    if AfterError(s, t, serious, cancelled) != Settle(s, t, false, serious) {
      ForgiveLowersPotential(s, t, serious);
    }
  }

  lemma ConcludeKeepsPotential(s: State, t: nat, phase: Phase, rcode: RCode)
    requires Shape(s) && t < |s.targets|
    ensures Shape(Conclude(s, t, phase, rcode))
    ensures Potential(Conclude(s, t, phase, rcode)) <= Potential(s)
  {
    SameSupply(s, Conclude(s, t, phase, rcode));
  }

  /** Each finished transfer strictly lowers the potential. */
  lemma SuccessSpends(s: State, t: nat)
    requires Inv(s) && t in s.running
    ensures Shape(Conclude(Settle(s, t, true, false), t, Finished, Ok))
    ensures Potential(Conclude(Settle(s, t, true, false), t, Finished, Ok)) < Potential(s)
  {
    SettleLowersPotential(s, t, true, false);
    ConcludeKeepsPotential(Settle(s, t, true, false), t, Finished, Ok);
  }

  lemma ErrorSpends(s: State, t: nat, serious: bool, cancelled: bool, s2: State)
    requires Inv(s) && t in s.running && s2 == AfterError(s, t, serious, cancelled)
    ensures t < |s2.targets| && Shape(Conclude(s2, t, Failed, Error)) && Shape(Retry(s2, t))
    ensures Potential(Conclude(s2, t, Failed, Error)) < Potential(s)
    ensures Potential(Retry(s2, t)) < Potential(s)
  {
    AfterErrorLowersPotential(s, t, serious, cancelled);
    ConcludeKeepsPotential(s2, t, Failed, Error);
    SameSupply(s2, Retry(s2, t));
  }

  lemma FinishSpends(s: State, t: nat, o: Outcome, env: Env)
    requires Inv(s) && t in s.running && !o.ChecksumUnavailable?
    ensures Shape(Finish(s, t, o, env).s)
    ensures Potential(Finish(s, t, o, env).s) < Potential(s)
  {
    match o
    case Success => SuccessSpends(s, t);
    case TransferError(serious, fatal, progressError, failureCb, truncateFails) =>
      var cancelled := fatal || failureCb != CbOk;
      ErrorSpends(s, t, serious, cancelled, AfterError(s, t, serious, cancelled));
  }

  // ---------------------------------------------------------------- starting costs nothing

  /** What happens between two finished transfers: no transfer ends and nothing is added to the supply. */
  ghost predicate Costs(s: State, s': State) {
    Shape(s) && Shape(s') && Potential(s') <= Potential(s) && Ended(s') == Ended(s)
  }

  lemma GiveUpCosts(s: State, i: nat)
    requires Shape(s) && i < |s.targets|
    ensures Costs(s, GiveUp(s, i))
  {
    ConcludeKeepsPotential(s, i, Failed, Error);
    StartsSum(s.targets, GiveUp(s, i).targets, |s.targets|, i);
  }

  lemma ConsiderCosts(s: State, i: nat, env: Env) returns (s1: State)
    requires Shape(s) && i < |s.targets|
    ensures Costs(s, s1) && |s1.targets| == |s.targets|
    ensures SelectFrom(s, i, env).s == if Consider(s, i, env).Next? then SelectFrom(s1, i + 1, env).s else s1
  {
    ConsiderChanges(s, i, env);
    GiveUpCosts(s, i);
    s1 := if Consider(s, i, env).Next? then Consider(s, i, env).s else Consider(s, i, env).selection.s;
  }

  lemma {:induction false} SelectCosts(s: State, i: nat, env: Env, s': State)
    requires Shape(s) && i <= |s.targets| && s' == SelectFrom(s, i, env).s
    ensures Costs(s, s')
    decreases |s.targets| - i
  {
    if i < |s.targets| {
      var s1 := ConsiderCosts(s, i, env);
      if Consider(s, i, env).Next? {
        SelectCosts(s1, i + 1, env, s');
      }
    }
  }

  lemma LaunchCosts(s: State, s': State, t: nat, mirror: Option<nat>)
    requires Shape(s) && t < |s.targets| && (mirror.Some? ==> mirror.value < |s.mirrors|)
    requires s' == Start(s, t, mirror) || s' == s.With(t, s.targets[t].(mirror := mirror))
    ensures Costs(s, s')
  {
    SameSupply(s, s');
    StartsSum(s.targets, s'.targets, |s.targets|, t);
  }

  lemma PrepareOneCosts(s: State, env: Env)
    requires Shape(s)
    ensures Costs(s, PrepareOne(s, env).s)
  {
    SelectKeepsShape(s, 0, env);
    var sel := SelectFrom(s, 0, env);
    SelectCosts(s, 0, env, sel.s);
    if sel.Chosen? {
      LaunchCosts(sel.s, PrepareOne(s, env).s, sel.target, sel.mirror);
    }
  }

  /** One slot: the state after it, and whether the next one is to be filled. */
  lemma SlotCosts(s: State, slots: nat, env: Env) returns (s1: State, more: bool)
    requires Shape(s) && slots > 0
    ensures Costs(s, s1)
    ensures PrepareAll(s, slots, env).s == if more then PrepareAll(s1, slots - 1, env).s else s1
  {
    PrepareOneCosts(s, env);
    s1, more := PrepareOne(s, env).s, PrepareOne(s, env).Started?;
  }

  lemma {:induction false} PrepareAllCosts(s: State, slots: nat, env: Env, s': State)
    requires Shape(s) && s' == PrepareAll(s, slots, env).s
    ensures Costs(s, s')
    decreases slots
  {
    if slots > 0 {
      var s1, more := SlotCosts(s, slots, env);
      if more {
        PrepareAllCosts(s1, slots - 1, env, s');
      }
    }
  }

  lemma ApplySpends(s: State, e: Event, env: Env)
    requires Inv(s)
    ensures Shape(Apply(s, e, env).s)
    ensures Potential(Apply(s, e, env).s) <= Potential(s)
    ensures Ended(Apply(s, e, env).s) + Potential(Apply(s, e, env).s) <= Ended(s) + Potential(s)
    ensures e.Report? && e.target in s.running && Apply(s, e, env).ok ==>
              Potential(Apply(s, e, env).s) < Potential(s)
  {
    match e
    case Refill => PrepareAllCosts(s, s.cfg.maxParallel - |s.running|, env, Apply(s, e, env).s);
    case Interruption =>
    case Report(t, o) =>
      if t in s.running && !o.ChecksumUnavailable? {
        FinishSpends(s, t, o, env);
        FinishEnds(s, t, o, env);
      }
  }

  lemma {:induction false} ExecuteSpends(s: State, events: seq<Event>, env: Env)
    requires Inv(s)
    ensures Shape(Execute(s, events, env).s)
    ensures Ended(Execute(s, events, env).s) + Potential(Execute(s, events, env).s) <= Ended(s) + Potential(s)
    decreases |events|
  {
    if events != [] {
      ApplySpends(s, events[0], env);
      ApplyKeepsInv(s, events[0], env);
      if Apply(s, events[0], env).ok {
        ExecuteSpends(Apply(s, events[0], env).s, events[1..], env);
      }
    }
  }

  // ---------------------------------------------------------------- the bounds

  lemma RunningHasAttempt(s: State, t: nat)
    requires Inv(s) && t in s.running
    ensures t < |s.targets| && Attempts(s, t) >= 1
  {
    SettleSpends(s, t, true, false);
  }

  /** Each running transfer still has an attempt of its own to spend. */
  lemma {:induction false} RunningIsAffordable(s: State, running: seq<nat>, n: nat)
    requires Inv(s) && n <= |s.targets| && Distinct(running)
    requires forall k :: 0 <= k < |running| ==> running[k] < n && running[k] in s.running
    ensures |running| <= AttemptsUpTo(s, n)
    decreases n
  {
    if n > 0 {
      var t := n - 1;
      RemoveFirstDistinct(running, t);
      var rest := RemoveFirst(running, t);
      forall k | 0 <= k < |rest|
        ensures rest[k] < n - 1 && rest[k] in s.running
      {
        assert rest[k] in running && rest[k] != t;
      }
      RunningIsAffordable(s, rest, n - 1);
      if t in running {
        RunningHasAttempt(s, t);
      }
    }
  }

  /** Supply of a fresh target: what its own limits grant it. */
  function AttemptLimit(cfg: Config, req: Request, mirrors: nat): nat {
    if req.Direct() then DirectAttempts(cfg, req) else mirrors + Max(0, cfg.allowedFailures)
  }

  function LimitsUpTo(s: State, n: nat): nat
    requires n <= |s.targets| && forall t :: 0 <= t < |s.targets| ==> s.targets[t].req.list < |s.lists|
  {
    if n == 0 then 0
    else LimitsUpTo(s, n - 1) + AttemptLimit(s.cfg, s.targets[n - 1].req, |s.lists[s.targets[n - 1].req.list]|)
  }

  /** Bound on all transfers of a run, read off the configuration and the sizes of the lists. */
  function TransferBound(s: State): nat
    requires forall t :: 0 <= t < |s.targets| ==> s.targets[t].req.list < |s.lists|
  {
    var perMirror := Max(0, if s.cfg.maxPerHost == -1 then s.cfg.maxParallel else s.cfg.maxPerHost);
    LimitsUpTo(s, |s.targets|) + |s.mirrors| * (perMirror + Max(0, s.cfg.maxParallel))
  }

  lemma {:induction false} InitialAttempts(s: State, n: nat)
    requires Init(s) && n <= |s.targets|
    ensures AttemptsUpTo(s, n) <= LimitsUpTo(s, n)
  {
    if n > 0 {
      InitialAttempts(s, n - 1);
      var list := ListOf(s, n - 1);
      SubsetCardinality(Untried(s, n - 1), Elements(list));
      DistinctCardinality(list);
    }
  }

  lemma {:induction false} InitialChances(s: State, n: nat)
    requires Init(s) && n <= |s.mirrors|
    ensures ChancesUpTo(s.cfg, s.mirrors, n)
            == n * (Max(0, if s.cfg.maxPerHost == -1 then s.cfg.maxParallel else s.cfg.maxPerHost) + s.cfg.maxParallel)
  {
    if n > 0 {
      InitialChances(s, n - 1);
    }
  }

  lemma {:induction false} NothingStarted(targets: seq<Target>, n: nat)
    requires n <= |targets| && forall t :: 0 <= t < |targets| ==> targets[t].starts == 0
    ensures StartsUpTo(targets, n) == 0
  {
    if n > 0 {
      NothingStarted(targets, n - 1);
    }
  }

  /** No run, whatever fails and however often mirrors are forgiven, starts more transfers than this. */
  lemma StartsAreBounded(s: State, events: seq<Event>, env: Env)
    requires Init(s)
    ensures TotalStarts(Execute(s, events, env).s) <= TransferBound(s)
  {
    InitOk(s);
    ExecuteSpends(s, events, env);
    ExecuteKeepsInv(s, events, env);
    StartsAreAffordable(Execute(s, events, env).s);
    InitialSupply(s);
  }

  /** The starts that have not ended are backed by the supply. */
  lemma StartsAreAffordable(s: State)
    requires Inv(s)
    ensures TotalStarts(s) <= Ended(s) + Potential(s)
  {
    RunningIsAffordable(s, s.running, |s.targets|);
  }

  lemma InitialSupply(s: State)
    requires Init(s)
    ensures Ended(s) == 0 && Potential(s) <= TransferBound(s)
  {
    InitialAttempts(s, |s.targets|);
    InitialChances(s, |s.mirrors|);
    NothingStarted(s.targets, |s.targets|);
  }

  /** Reports about running transfers that a run takes in. */
  ghost function Reports(s: State, events: seq<Event>, env: Env): nat
    requires Shape(s)
    decreases |events|
  {
    if events == [] then 0
    else
      ApplyKeepsShape(s, events[0], env);
      var p := Apply(s, events[0], env);
      (if events[0].Report? && events[0].target in s.running then 1 else 0)
      + (if p.ok then Reports(p.s, events[1..], env) else 0)
  }

  /** Termination: the environment can deliver only so many reports before nothing is left to run. */
  lemma {:induction false} ReportsAreBounded(s: State, events: seq<Event>, env: Env)
    requires Inv(s)
    ensures Reports(s, events, env) <= Potential(s) + 1
    ensures Execute(s, events, env).ok ==> Reports(s, events, env) <= Potential(s)
    decreases |events|
  {
    if events != [] {
      var e := events[0];
      ApplyKeepsInv(s, e, env);
      ApplySpends(s, e, env);
      if Apply(s, e, env).ok {
        ReportsAreBounded(Apply(s, e, env).s, events[1..], env);
      }
    }
  }
}
