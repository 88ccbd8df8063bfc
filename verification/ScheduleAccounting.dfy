/** Conservation: the statistics of the mirrors account for every transfer that was started. */
module ScheduleAccounting {
  import opened Wrappers
  import opened Schedule
  import opened ScheduleInvariants

  /** Targets that were finished from mirror m. */
  ghost function Winners(s: State, m: nat): set<nat> {
    set t: nat | t < |s.targets| && s.targets[t].phase == Finished && s.targets[t].mirror == Some(m)
  }

  function Served(m: Mirror): int {
    m.running + m.successful + m.failed
  }

  function ServedUpTo(ms: seq<Mirror>, n: nat): int
    requires n <= |ms|
  {
    if n == 0 then 0 else ServedUpTo(ms, n - 1) + Served(ms[n - 1])
  }

  function StartedUpTo(targets: seq<Target>, n: nat): int
    requires n <= |targets|
  {
    if n == 0 then 0
    else StartedUpTo(targets, n - 1) + (if targets[n - 1].req.Direct() then 0 else targets[n - 1].starts)
  }

  /** Successes of a mirror are the targets finished from it, and all mirrors together have served as
      many transfers as were started for targets that use mirrors. */
  ghost predicate Accounted(s: State) {
    && (forall m :: 0 <= m < |s.mirrors| ==> s.mirrors[m].successful == |Winners(s, m)|)
    && ServedUpTo(s.mirrors, |s.mirrors|) == StartedUpTo(s.targets, |s.targets|)
  }

  // ---------------------------------------------------------------- sums

  lemma {:induction false} ServedChange(a: seq<Mirror>, b: seq<Mirror>, n: nat, m: nat)
    requires |a| == |b| && n <= |a| && m < |a| && forall i :: 0 <= i < n && i != m ==> Served(b[i]) == Served(a[i])
    ensures ServedUpTo(b, n) == ServedUpTo(a, n) + (if m < n then Served(b[m]) - Served(a[m]) else 0)
  {
    if n > 0 {
      ServedChange(a, b, n - 1, m);
    }
  }

  lemma {:induction false} StartedChange(a: seq<Target>, b: seq<Target>, n: nat, t: nat)
    requires |a| == |b| && n <= |a| && t < |a| && b[t].req == a[t].req
    requires forall i :: 0 <= i < n && i != t ==> b[i] == a[i]
    ensures StartedUpTo(b, n)
            == StartedUpTo(a, n) + (if t < n && !a[t].req.Direct() then b[t].starts - a[t].starts else 0)
  {
    if n > 0 {
      StartedChange(a, b, n - 1, t);
    }
  }

  // ---------------------------------------------------------------- steps

  /** A change of one target that is not finished before or after, and of nobody's statistics. */
  lemma TargetChangeAccounted(s: State, s': State, t: nat)
    requires Accounted(s) && t < |s.targets| && s'.mirrors == s.mirrors
    requires |s'.targets| == |s.targets| && s'.targets == s.targets[t := s'.targets[t]]
    requires s'.targets[t].req == s.targets[t].req && s'.targets[t].starts == s.targets[t].starts
    requires s.targets[t].phase != Finished
    requires s'.targets[t].phase == Finished ==> s'.targets[t].mirror == None
    ensures Accounted(s')
  {
    StartedChange(s.targets, s'.targets, |s.targets|, t);
    forall m | 0 <= m < |s.mirrors|
      ensures s'.mirrors[m].successful == |Winners(s', m)|
    {
      assert Winners(s', m) == Winners(s, m);
    }
  }

  lemma StartAccounted(s: State, t: nat, mirror: Option<nat>)
    requires Accounted(s) && Shape(s) && Startable(s, t, mirror)
    ensures Accounted(Start(s, t, mirror))
  {
    var s' := Start(s, t, mirror);
    StartedChange(s.targets, s'.targets, |s.targets|, t);
    if mirror.Some? {
      ServedChange(s.mirrors, s'.mirrors, |s.mirrors|, mirror.value);
    }
    forall m | 0 <= m < |s.mirrors|
      ensures s'.mirrors[m].successful == |Winners(s', m)|
    {
      assert Winners(s', m) == Winners(s, m);
    }
  }

  /** Nothing a mirror has served or won is changed, and of the targets only the tries of t. */
  ghost predicate SameBooks(s: State, s': State, t: nat) {
    && t < |s.targets| == |s'.targets| && |s.mirrors| == |s'.mirrors|
    && (forall m :: 0 <= m < |s.mirrors| ==>
          Served(s'.mirrors[m]) == Served(s.mirrors[m]) && s'.mirrors[m].successful == s.mirrors[m].successful)
    && s'.targets == s.targets[t := s.targets[t].(tried := s'.targets[t].tried)]
  }

  lemma SameBooksAccounted(s: State, s': State, t: nat)
    requires Accounted(s) && SameBooks(s, s', t)
    ensures Accounted(s')
  {
    StartedChange(s.targets, s'.targets, |s.targets|, t);
    if s.mirrors != [] {
      ServedChange(s.mirrors, s'.mirrors, |s.mirrors|, 0);
    }
    forall m | 0 <= m < |s.mirrors|
      ensures s'.mirrors[m].successful == |Winners(s', m)|
    {
      assert Winners(s', m) == Winners(s, m);
    }
  }

  lemma FailureKeepsBooks(s: State, t: nat, serious: bool)
    requires Shape(s) && t < |s.targets|
    ensures SameBooks(s, Settle(s, t, false, serious), t)
  {
  }

  /** A failed transfer: one running less, one failed more, second chance or not. */
  lemma ErrorAccounted(s: State, t: nat, serious: bool, cancelled: bool)
    requires Accounted(s) && Shape(s) && t < |s.targets| && s.targets[t].phase == Running
    ensures Accounted(AfterError(s, t, serious, cancelled))
    ensures AfterError(s, t, serious, cancelled).targets[t].phase == Running
    ensures |AfterError(s, t, serious, cancelled).targets| == |s.targets|
  {
    FailureKeepsBooks(s, t, serious);
    SameBooksAccounted(s, AfterError(s, t, serious, cancelled), t);
  }

  lemma ErrorEndsAccounted(s: State, t: nat, serious: bool, cancelled: bool, s2: State)
    requires Accounted(s) && Shape(s) && t < |s.targets| && s.targets[t].phase == Running
    requires s2 == AfterError(s, t, serious, cancelled)
    ensures t < |s2.targets| && Accounted(Retry(s2, t)) && Accounted(Conclude(s2, t, Failed, Error))
  {
    ErrorAccounted(s, t, serious, cancelled);
    TargetChangeAccounted(s2, Retry(s2, t), t);
    TargetChangeAccounted(s2, Conclude(s2, t, Failed, Error), t);
  }

  lemma SuccessWinners(s: State, s': State, t: nat, m: nat)
    requires t < |s.targets| == |s'.targets| && s.targets[t].phase == Running
    requires forall u :: 0 <= u < |s.targets| && u != t ==> s'.targets[u] == s.targets[u]
    requires s'.targets[t].phase == Finished && s'.targets[t].mirror == s.targets[t].mirror
    ensures |Winners(s', m)| == |Winners(s, m)| + (if s.targets[t].mirror == Some(m) then 1 else 0)
  {
    assert t !in Winners(s, m);
    assert Winners(s', m) == Winners(s, m) + (if s.targets[t].mirror == Some(m) then {t} else {});
  }

  /** A successful transfer: one running less, one successful more, one more target finished. */
  lemma SuccessAccounted(s: State, t: nat)
    requires Accounted(s) && Shape(s) && t < |s.targets| && s.targets[t].phase == Running
    ensures Accounted(Conclude(Settle(s, t, true, false), t, Finished, Ok))
  {
    var s' := Conclude(Settle(s, t, true, false), t, Finished, Ok);
    StartedChange(s.targets, s'.targets, |s.targets|, t);
    if s.targets[t].mirror.Some? {
      ServedChange(s.mirrors, s'.mirrors, |s.mirrors|, s.targets[t].mirror.value);
    }
    forall m | 0 <= m < |s.mirrors|
      ensures s'.mirrors[m].successful == |Winners(s', m)|
    {
      SuccessWinners(s, s', t, m);
    }
  }

  lemma FinishAccounted(s: State, t: nat, o: Outcome, env: Env)
    requires Inv(s) && Accounted(s)
    ensures Accounted(Finish(s, t, o, env).s)
  {
    if t in s.running && !o.ChecksumUnavailable? {
      assert s.targets[t].phase == Running by {
        assert TargetOk(s, t);
      }
      match o
      case Success => SuccessAccounted(s, t);
      case TransferError(serious, fatal, progressError, failureCb, truncateFails) =>
        var cancelled := fatal || failureCb != CbOk;
        ErrorEndsAccounted(s, t, serious, cancelled, AfterError(s, t, serious, cancelled));
    }
  }

  lemma {:induction false} SelectAccounted(s: State, i: nat, env: Env)
    requires Inv(s) && Accounted(s) && i <= |s.targets|
    ensures Accounted(SelectFrom(s, i, env).s)
    decreases |s.targets| - i
  {
    if i < |s.targets| {
      ConsiderChanges(s, i, env);
      ConsiderKeepsInv(s, i, env);
      if s.targets[i].phase == Waiting {
        TargetChangeAccounted(s, GiveUp(s, i), i);
      }
      if Consider(s, i, env).Next? {
        SelectAccounted(Consider(s, i, env).s, i + 1, env);
      }
    }
  }

  lemma SlotAccounted(s: State, slots: nat, env: Env) returns (s1: State, more: bool)
    requires Inv(s) && Accounted(s) && 0 < slots == s.cfg.maxParallel - |s.running|
    ensures Accounted(s1) && (more ==> Inv(s1) && slots - 1 == s1.cfg.maxParallel - |s1.running|)
    ensures PrepareAll(s, slots, env).s == if more then PrepareAll(s1, slots - 1, env).s else s1
  {
    SelectKeepsShape(s, 0, env);
    SelectKeepsInv(s, 0, env);
    SelectAccounted(s, 0, env);
    PrepareOneKeepsInv(s, env);
    var sel, p := SelectFrom(s, 0, env), PrepareOne(s, env);
    if sel.Chosen? {
      LaunchAccounted(sel.s, p.s, sel.target, sel.mirror);
    }
    s1, more := p.s, p.Started?;
  }

  lemma LaunchAccounted(s: State, s': State, t: nat, mirror: Option<nat>)
    requires Accounted(s) && Shape(s) && Startable(s, t, mirror)
    requires s' == Start(s, t, mirror) || s' == s.With(t, s.targets[t].(mirror := mirror))
    ensures Accounted(s')
  {
    if s' == Start(s, t, mirror) {
      StartAccounted(s, t, mirror);
    } else {
      TargetChangeAccounted(s, s', t);
    }
  }

  lemma {:induction false} PrepareAllAccounted(s: State, slots: nat, env: Env, s': State)
    requires Inv(s) && Accounted(s) && slots == s.cfg.maxParallel - |s.running| && s' == PrepareAll(s, slots, env).s
    ensures Accounted(s')
    decreases slots
  {
    if slots > 0 {
      var s1, more := SlotAccounted(s, slots, env);
      if more {
        PrepareAllAccounted(s1, slots - 1, env, s');
      }
    }
  }

  /** In every reachable state of every run the books balance. */
  lemma {:induction false} ExecuteAccounted(s: State, events: seq<Event>, env: Env)
    requires Inv(s) && Accounted(s)
    ensures Accounted(Execute(s, events, env).s)
    decreases |events|
  {
    if events != [] {
      var e := events[0];
      ApplyKeepsInv(s, e, env);
      match e {
        case Report(t, o) => FinishAccounted(s, t, o, env);
        case Refill => PrepareAllAccounted(s, s.cfg.maxParallel - |s.running|, env, Apply(s, e, env).s);
        case Interruption =>
      }
      if Apply(s, e, env).ok {
        ExecuteAccounted(Apply(s, e, env).s, events[1..], env);
      }
    }
  }

  lemma {:induction false} NothingServed(s: State, n: nat, k: nat)
    requires Init(s) && n <= |s.mirrors| && k <= |s.targets|
    ensures ServedUpTo(s.mirrors, n) == 0 && StartedUpTo(s.targets, k) == 0
    decreases n + k
  {
    if n > 0 {
      NothingServed(s, n - 1, k);
    } else if k > 0 {
      NothingServed(s, n, k - 1);
    }
  }

  lemma BooksBalance(s: State, events: seq<Event>, env: Env)
    requires Init(s)
    ensures Accounted(Execute(s, events, env).s)
  {
    InitOk(s);
    NothingServed(s, |s.mirrors|, |s.targets|);
    forall m | 0 <= m < |s.mirrors|
      ensures s.mirrors[m].successful == |Winners(s, m)|
    {
      assert Winners(s, m) == {};
    }
    ExecuteAccounted(s, events, env);
  }
}
