/** What every step of the scheduler keeps: the counters mean what they say, the limits hold, every
    attempt is still affordable, and every target has been notified exactly as often as it should. */
module ScheduleInvariants {
  import opened Wrappers
  import opened Schedule

  ghost function Users(s: State, m: nat): set<nat>
    requires Shape(s)
  {
    set t | t in s.running && s.targets[t].mirror == Some(m)
  }

  /** How often the end callback of target t has been called. */
  ghost function Count(notes: seq<Note>, t: nat): nat {
    if notes == [] then 0
    else Count(notes[..|notes| - 1], t) + (if notes[|notes| - 1].target == t then 1 else 0)
  }

  lemma CountAppend(notes: seq<Note>, n: Note, t: nat)
    ensures Count(notes + [n], t) == Count(notes, t) + (if n.target == t then 1 else 0)
  {
    assert (notes + [n])[..|notes|] == notes;
  }

  /** A mirror record with the given number of running transfers respects every limit. */
  predicate WithinLimits(cfg: Config, m: Mirror, users: nat) {
    && m.running == users
    && m.failed >= 0 && m.successful >= 0
    && (m.allowed == -1 || (m.allowed >= 1 && m.running <= m.allowed))
    && (cfg.maxPerHost != -1 ==> m.allowed != -1 && m.allowed <= cfg.maxPerHost)
    && m.running <= m.maxTried <= cfg.maxParallel
    // The overshoot: failures of a mirror without success exceed the limit by less than the cap.
    && (m.successful == 0 && cfg.allowedFailures > 0 ==>
          m.failed + m.running <= cfg.allowedFailures - 1 + cfg.Cap())
  }

  ghost predicate MirrorOk(s: State, m: nat)
    requires Shape(s) && m < |s.mirrors|
  {
    WithinLimits(s.cfg, s.mirrors[m], |Users(s, m)|)
  }

  /** The attempts a target with a complete URL or a base URL may use in all. */
  function DirectAttempts(cfg: Config, req: Request): int {
    if req.fileUrl then 1 else Max(1, cfg.allowedFailures)
  }

  predicate DirectMayTry(cfg: Config, tg: Target) {
    tg.tried == [] || (!tg.req.fileUrl && |tg.tried| < cfg.allowedFailures)
  }

  predicate MirrorMayTry(cfg: Config, tg: Target, m: nat) {
    Some(m) !in tg.tried || |tg.tried| < cfg.allowedFailures
  }

  predicate WithinTries(cfg: Config, tg: Target, used: nat) {
    cfg.maxMirrorsToTry > 0 ==> used <= cfg.maxMirrorsToTry
  }

  ghost predicate DirectOk(cfg: Config, tg: Target) {
    && tg.mirror == None
    && tg.starts == |tg.tried| + (if tg.phase == Running then 1 else 0)
    && tg.starts <= DirectAttempts(cfg, tg.req)
    && (!tg.Terminal() ==> DirectMayTry(cfg, tg))
    && (tg.Terminal() && !tg.req.Blocked() ==> tg.starts >= 1)
  }

  ghost predicate MirroredOk(cfg: Config, tg: Target, list: seq<nat>) {
    && (tg.phase == Running ==>
          tg.mirror.Some? && tg.mirror.value in list && MirrorMayTry(cfg, tg, tg.mirror.value))
    && WithinTries(cfg, tg, |tg.tried| + (if tg.Terminal() then 0 else 1))
  }

  /** End callbacks called so far. A blocked target is the exception: the offline branch notifies it
      and then control falls through and starts it, once for every start. */
  ghost predicate Notified(tg: Target, count: nat) {
    && count == (if tg.Terminal() then 1 else 0) + (if tg.req.Blocked() then tg.starts else 0)
    && (tg.rcode == Ok <==> tg.phase == Finished)
    && (tg.phase == Failed ==> tg.rcode == Error)
  }

  ghost predicate TargetOk(s: State, t: nat)
    requires Shape(s) && t < |s.targets|
  {
    var tg := s.targets[t];
    && (t in s.running <==> tg.phase == Running)
    && (if tg.req.Direct() then DirectOk(s.cfg, tg) else MirroredOk(s.cfg, tg, ListOf(s, t)))
    && Notified(tg, Count(s.notes, t))
  }

  ghost predicate Frame(s: State) {
    && s.cfg.Valid() && Shape(s)
    && Distinct(s.running) && |s.running| <= s.cfg.maxParallel
    && (forall k :: 0 <= k < |s.notes| ==> s.notes[k].target < |s.targets|)
    && (forall m :: 0 <= m < |s.mirrors| ==> MirrorOk(s, m))
  }

  ghost predicate Inv(s: State) {
    Frame(s) && forall t :: 0 <= t < |s.targets| ==> TargetOk(s, t)
  }

  ghost predicate NobodyFailed(s: State) {
    s.cfg.failfast ==> forall t :: 0 <= t < |s.targets| ==> s.targets[t].phase != Failed
  }

  /** lr_download hands over fresh targets and untouched mirrors. */
  ghost predicate Init(s: State) {
    && s.cfg.Valid() && Shape(s) && s.running == [] && s.notes == []
    && (forall t :: 0 <= t < |s.targets| ==>
          && s.targets[t].phase == Waiting && s.targets[t].mirror == None && s.targets[t].tried == []
          && s.targets[t].rcode == Unfinished && s.targets[t].starts == 0)
    && (forall m :: 0 <= m < |s.mirrors| ==>
          s.mirrors[m] == Mirror(s.mirrors[m].protocol, s.cfg.maxPerHost, 0, 0, 0, 0))
  }

  lemma InitOk(s: State)
    requires Init(s)
    ensures Inv(s) && NobodyFailed(s)
  {
    forall m | 0 <= m < |s.mirrors|
      ensures MirrorOk(s, m)
    {
      assert Users(s, m) == {};
    }
  }

  // ---------------------------------------------------------------- frame lemmas

  /** A mirror is affected only through its own record and the targets that use it. */
  lemma MirrorOkFrame(s: State, s': State, m: nat)
    requires Shape(s) && Shape(s') && s'.cfg == s.cfg
    requires m < |s.mirrors| && m < |s'.mirrors| && s'.mirrors[m] == s.mirrors[m]
    requires Users(s', m) == Users(s, m) && MirrorOk(s, m)
    ensures MirrorOk(s', m)
  {
  }

  lemma TargetOkFrame(s: State, s': State, t: nat)
    requires Shape(s) && Shape(s') && s'.cfg == s.cfg
    requires t < |s.targets| && t < |s'.targets| && s'.targets[t] == s.targets[t]
    requires t in s.running <==> t in s'.running
    requires Elements(ListOf(s', t)) == Elements(ListOf(s, t))
    requires Count(s'.notes, t) == Count(s.notes, t)
    requires TargetOk(s, t)
    ensures TargetOk(s', t)
  {
    assert forall m :: m in ListOf(s, t) <==> m in Elements(ListOf(s, t));
    assert forall m :: m in ListOf(s', t) <==> m in Elements(ListOf(s', t));
  }

  // ---------------------------------------------------------------- a waiting target gives up

  lemma GiveUpKeepsInv(s: State, t: nat)
    requires Inv(s) && t < |s.targets| && s.targets[t].phase == Waiting
    requires s.targets[t].req.Direct() ==> s.targets[t].req.Blocked()
    ensures Inv(GiveUp(s, t))
  {
    var s' := GiveUp(s, t);
    assert TargetOk(s, t);
    CountAppend(s.notes, Note(t, false), t);
    assert TargetOk(s', t);
    forall m | 0 <= m < |s'.mirrors|
      ensures MirrorOk(s', m)
    {
      assert Users(s', m) == Users(s, m);
      MirrorOkFrame(s, s', m);
    }
    forall u | 0 <= u < |s'.targets| && u != t
      ensures TargetOk(s', u)
    {
      CountAppend(s.notes, Note(t, false), u);
      TargetOkFrame(s, s', u);
    }
  }

  // ---------------------------------------------------------------- starting

  ghost predicate Startable(s: State, t: nat, mirror: Option<nat>)
    requires Shape(s)
  {
    && t < |s.targets|
    && var tg := s.targets[t];
    && tg.phase == (if tg.req.Blocked() then Failed else Waiting)
    && (if tg.req.Direct() then mirror.None? && DirectMayTry(s.cfg, tg)
        else
          && mirror.Some? && mirror.value < |s.mirrors| && mirror.value in ListOf(s, t)
          && MirrorMayTry(s.cfg, tg, mirror.value)
          && var mm := s.mirrors[mirror.value];
             !mm.Full() && (mm.successful == 0 && s.cfg.allowedFailures > 0 ==> mm.failed < s.cfg.allowedFailures))
  }

  lemma FewUsers(s: State, m: nat)
    requires Shape(s)
    ensures |Users(s, m)| <= |s.running|
  {
    SubsetCardinality(Users(s, m), Elements(s.running));
    DistinctCardinality(s.running);
  }

  lemma StartWithinLimits(cfg: Config, m: Mirror, users: nat)
    requires cfg.Valid() && WithinLimits(cfg, m, users) && users + 1 <= cfg.maxParallel && !m.Full()
    requires m.successful == 0 && cfg.allowedFailures > 0 ==> m.failed < cfg.allowedFailures
    ensures WithinLimits(cfg, StartOn(m), users + 1)
  {
  }

  lemma UsersAfterStart(s: State, t: nat, mirror: Option<nat>, m: nat)
    requires Shape(s) && t < |s.targets| && t !in s.running && (mirror.Some? ==> mirror.value < |s.mirrors|)
    ensures Shape(Start(s, t, mirror))
    ensures t !in Users(s, m)
    ensures Users(Start(s, t, mirror), m) == Users(s, m) + (if mirror == Some(m) then {t} else {})
  {
    var s' := Start(s, t, mirror);
    forall u
      ensures u in Users(s', m) <==> u in Users(s, m) || (u == t && mirror == Some(m))
    {
      assert u in s'.running <==> u in s.running || u == t;
    }
  }

  lemma StartMirrorOk(s: State, t: nat, mirror: Option<nat>, m: nat)
    requires Frame(s) && Startable(s, t, mirror) && t !in s.running && |s.running| < s.cfg.maxParallel && m < |s.mirrors|
    ensures Shape(Start(s, t, mirror)) && MirrorOk(Start(s, t, mirror), m)
  {
    assert MirrorOk(s, m);
    UsersAfterStart(s, t, mirror, m);
    if mirror == Some(m) {
      FewUsers(s, m);
      StartWithinLimits(s.cfg, s.mirrors[m], |Users(s, m)|);
    }
  }

  lemma StartKeepsInv(s: State, t: nat, mirror: Option<nat>)
    requires Inv(s) && Startable(s, t, mirror) && |s.running| < s.cfg.maxParallel
    ensures Inv(Start(s, t, mirror))
  {
    var s' := Start(s, t, mirror);
    assert TargetOk(s, t);
    assert t !in s.running;
    forall m | 0 <= m < |s'.mirrors|
      ensures MirrorOk(s', m)
    {
      StartMirrorOk(s, t, mirror, m);
    }
    assert Distinct(s'.running);
    forall u | 0 <= u < |s'.targets|
      ensures TargetOk(s', u)
    {
      assert u in s'.running <==> u in s.running || u == t;
      if u != t {
        TargetOkFrame(s, s', u);
      }
    }
  }

  // ---------------------------------------------------------------- finishing

  lemma {:induction false} SwapKeepsElements(list: seq<nat>, i: nat, j: nat)
    requires i < |list| && j < |list|
    ensures Elements(Swap(list, i, j)) == Elements(list)
  {
    var r := Swap(list, i, j);
    forall x
      ensures x in list <==> x in r
    {
      if x in list {
        var k :| 0 <= k < |list| && list[k] == x;
        assert r[if k == i then j else if k == j then i else k] == x;
      }
      if x in r {
        var k :| 0 <= k < |r| && r[k] == x;
        assert list[if k == i then j else if k == j then i else k] == x;
      }
    }
  }

  lemma SettleKeepsElements(s: State, t: nat, success: bool, serious: bool, l: nat)
    requires Shape(s) && t < |s.targets| && l < |s.lists|
    ensures |Settle(s, t, success, serious).lists| == |s.lists|
    ensures Elements(Settle(s, t, success, serious).lists[l]) == Elements(s.lists[l])
  {
    var s1 := Settle(s, t, success, serious);
    if s1.lists[l] != s.lists[l] {
      var m := s.targets[t].mirror.value;
      var ms := s.mirrors[m := UpdateStatistics(s.mirrors[m], success)];
      var (i, j) := SwapPair(s.lists[l], ms, m, success, serious);
      SwapKeepsElements(s.lists[l], i, j);
    }
  }

  /** Between the bookkeeping of a finished transfer and the decision about its target: the target is
      off the running list, one more mirror (or attempt) is on its list of tries. */
  ghost predicate SettledOk(s: State, t: nat)
    requires Shape(s)
  {
    && t < |s.targets| && t !in s.running
    && var tg := s.targets[t];
    && tg.phase == Running && tg.rcode != Ok
    && (if tg.req.Direct() then
          tg.mirror == None && 1 <= tg.starts == |tg.tried| <= DirectAttempts(s.cfg, tg.req)
        else
          tg.mirror.Some? && WithinTries(s.cfg, tg, |tg.tried|))
    && Count(s.notes, t) == (if tg.req.Blocked() then tg.starts else 0)
  }

  ghost predicate InvBut(s: State, t: nat) {
    && Frame(s) && SettledOk(s, t)
    && forall u :: 0 <= u < |s.targets| && u != t ==> TargetOk(s, u)
  }

  lemma SettleWithinLimits(cfg: Config, m: Mirror, users: nat, success: bool)
    requires WithinLimits(cfg, m, users) && users >= 1
    ensures WithinLimits(cfg, UpdateStatistics(m, success), users - 1)
  {
  }

  lemma UsersAfterSettle(s: State, t: nat, success: bool, serious: bool, m: nat)
    requires Shape(s) && t < |s.targets| && t in s.running && Distinct(s.running)
    ensures Shape(Settle(s, t, success, serious))
    ensures s.targets[t].mirror == Some(m) <==> t in Users(s, m)
    ensures Users(Settle(s, t, success, serious), m) == Users(s, m) - {t}
  {
    var s' := Settle(s, t, success, serious);
    SettleKeepsShape(s, t, success, serious);
    RemoveFirstDistinct(s.running, t);
    forall u
      ensures u in Users(s', m) <==> u in Users(s, m) && u != t
    {
      assert u in s'.running <==> u in s.running && u != t;
    }
  }

  lemma UsedMirrorOk(s: State, s': State, t: nat, m: nat, success: bool)
    requires Shape(s) && Shape(s') && s'.cfg == s.cfg && m < |s.mirrors| && m < |s'.mirrors| && MirrorOk(s, m)
    requires s'.mirrors[m] == UpdateStatistics(s.mirrors[m], success)
    requires t in Users(s, m) && Users(s', m) == Users(s, m) - {t}
    ensures MirrorOk(s', m)
  {
    var users := Users(s, m);
    assert |users - {t}| == |users| - 1;
    SettleWithinLimits(s.cfg, s.mirrors[m], |users|, success);
  }

  lemma SettleMirrorOk(s: State, t: nat, success: bool, serious: bool, m: nat)
    requires Frame(s) && t in s.running && m < |s.mirrors|
    ensures Shape(Settle(s, t, success, serious))
    ensures MirrorOk(Settle(s, t, success, serious), m)
  {
    var s' := Settle(s, t, success, serious);
    assert MirrorOk(s, m);
    UsersAfterSettle(s, t, success, serious, m);
    if s.targets[t].mirror == Some(m) {
      UsedMirrorOk(s, s', t, m, success);
    } else {
      assert Users(s, m) - {t} == Users(s, m);
      MirrorOkFrame(s, s', m);
    }
  }

  lemma SettleKeeps(s: State, t: nat, success: bool, serious: bool)
    requires Inv(s) && t in s.running
    ensures InvBut(Settle(s, t, success, serious), t)
  {
    var s' := Settle(s, t, success, serious);
    SettleKeepsShape(s, t, success, serious);
    RemoveFirstDistinct(s.running, t);
    assert TargetOk(s, t);
    assert SettledOk(s', t);
    forall m | 0 <= m < |s'.mirrors|
      ensures MirrorOk(s', m)
    {
      SettleMirrorOk(s, t, success, serious, m);
    }
    forall u | 0 <= u < |s'.targets| && u != t
      ensures TargetOk(s', u)
    {
      SettleKeepsElements(s, t, success, serious, s.targets[u].req.list);
      TargetOkFrame(s, s', u);
    }
  }

  lemma ForgiveKeeps(s: State, t: nat)
    requires InvBut(s, t) && s.targets[t].mirror.Some? && s.targets[t].mirror in s.targets[t].tried
    requires Forgivable(s.mirrors[s.targets[t].mirror.value])
    ensures InvBut(Forgive(s, t), t)
  {
    var s' := Forgive(s, t);
    forall m | 0 <= m < |s'.mirrors|
      ensures MirrorOk(s', m)
    {
      assert MirrorOk(s, m);
      assert Users(s', m) == Users(s, m);
    }
    forall u | 0 <= u < |s'.targets| && u != t
      ensures TargetOk(s', u)
    {
      TargetOkFrame(s, s', u);
    }
  }

  lemma AfterErrorKeeps(s: State, t: nat, serious: bool, cancelled: bool)
    requires Inv(s) && t in s.running
    ensures InvBut(AfterError(s, t, serious, cancelled), t)
    ensures AfterError(s, t, serious, cancelled).cfg == s.cfg
    ensures AfterError(s, t, serious, cancelled).notes == s.notes
    ensures AfterError(s, t, serious, cancelled).targets[t].req == s.targets[t].req
  {
    SettleKeeps(s, t, false, serious);
    var s1 := Settle(s, t, false, serious);
    if AfterError(s, t, serious, cancelled) != s1 {
      var tried := s.targets[t].tried;
      assert (tried + [s.targets[t].mirror])[|tried|] == s.targets[t].mirror;
      ForgiveKeeps(s1, t);
    }
  }

  lemma RetryKeepsInv(s: State, t: nat)
    requires InvBut(s, t) && CanRetry(s.cfg, s.targets[t].req, |s.targets[t].tried|)
    ensures Inv(Retry(s, t))
  {
    var s' := Retry(s, t);
    assert TargetOk(s', t);
    forall m | 0 <= m < |s'.mirrors|
      ensures MirrorOk(s', m)
    {
      assert Users(s', m) == Users(s, m);
      MirrorOkFrame(s, s', m);
    }
    forall u | 0 <= u < |s'.targets| && u != t
      ensures TargetOk(s', u)
    {
      TargetOkFrame(s, s', u);
    }
  }

  lemma ConcludeKeepsInv(s: State, t: nat, phase: Phase, rcode: RCode)
    requires InvBut(s, t) && (phase, rcode) in {(Finished, Ok), (Failed, Error)}
    ensures Inv(Conclude(s, t, phase, rcode))
  {
    var s' := Conclude(s, t, phase, rcode);
    var n := Note(t, phase == Finished);
    CountAppend(s.notes, n, t);
    assert TargetOk(s', t);
    forall m | 0 <= m < |s'.mirrors|
      ensures MirrorOk(s', m)
    {
      assert Users(s', m) == Users(s, m);
      MirrorOkFrame(s, s', m);
    }
    forall u | 0 <= u < |s'.targets| && u != t
      ensures TargetOk(s', u)
    {
      CountAppend(s.notes, n, u);
      TargetOkFrame(s, s', u);
    }
  }

  lemma SuccessKeepsInv(s: State, t: nat)
    requires Inv(s) && t in s.running
    ensures Inv(Conclude(Settle(s, t, true, false), t, Finished, Ok))
    ensures NobodyFailed(s) ==> NobodyFailed(Conclude(Settle(s, t, true, false), t, Finished, Ok))
  {
    SettleKeeps(s, t, true, false);
    ConcludeKeepsInv(Settle(s, t, true, false), t, Finished, Ok);
  }

  /** An error that leads to another try or to the end of the target; s2 is the state in between. */
  lemma ErrorKeepsInv(s: State, t: nat, serious: bool, cancelled: bool, s2: State)
    requires Inv(s) && t in s.running && s2 == AfterError(s, t, serious, cancelled)
    ensures |s2.targets| == |s.targets| && Inv(Conclude(s2, t, Failed, Error))
    ensures CanRetry(s.cfg, s.targets[t].req, |s2.targets[t].tried|) ==>
              Inv(Retry(s2, t)) && (NobodyFailed(s) ==> NobodyFailed(Retry(s2, t)))
  {
    AfterErrorKeeps(s, t, serious, cancelled);
    ConcludeKeepsInv(s2, t, Failed, Error);
    if CanRetry(s.cfg, s.targets[t].req, |s2.targets[t].tried|) {
      RetryKeepsInv(s2, t);
    }
  }

  lemma FinishKeepsInv(s: State, t: nat, o: Outcome, env: Env)
    requires Inv(s)
    ensures Inv(Finish(s, t, o, env).s)
    ensures NobodyFailed(s) && Finish(s, t, o, env).ok ==> NobodyFailed(Finish(s, t, o, env).s)
  {
    if t in s.running {
      match o
      case ChecksumUnavailable =>
      case Success => SuccessKeepsInv(s, t);
      case TransferError(serious, fatal, progressError, failureCb, truncateFails) =>
        var cancelled := fatal || failureCb != CbOk;
        ErrorKeepsInv(s, t, serious, cancelled, AfterError(s, t, serious, cancelled));
    }
  }

  // ---------------------------------------------------------------- preparing

  /** Why a waiting target was passed over: each eligible mirror is full, and there is one. */
  ghost predicate Starving(s: State, t: nat)
    requires Shape(s) && t < |s.targets|
  {
    AnyEligible(s, t) && forall p :: 0 <= p < |ListOf(s, t)| ==> !Free(s, t, p)
  }

  /** The mirror of a chosen position may be used. */
  lemma ChosenIsStartable(s: State, i: nat, env: Env)
    requires Inv(s) && i < |s.targets| && Consider(s, i, env).Stop? && Consider(s, i, env).selection.Chosen?
    ensures Shape(Consider(s, i, env).selection.s)
    ensures Startable(Consider(s, i, env).selection.s, i, Consider(s, i, env).selection.mirror)
  {
    assert TargetOk(s, i);
    ConsiderChanges(s, i, env);
  }

  lemma ConsiderKeepsInv(s: State, i: nat, env: Env)
    requires Inv(s) && i < |s.targets|
    ensures Inv(GiveUp(s, i)) || s.targets[i].phase != Waiting || (s.targets[i].req.Direct() && !s.targets[i].req.Blocked())
    ensures match Consider(s, i, env)
            case Next(s1) => Inv(s1) && s1.cfg == s.cfg && (NobodyFailed(s) ==> NobodyFailed(s1))
            case Stop(sel) =>
              Inv(sel.s) && sel.s.cfg == s.cfg && (!sel.Abort? && NobodyFailed(s) ==> NobodyFailed(sel.s))
  {
    ConsiderChanges(s, i, env);
    if s.targets[i].phase == Waiting && (s.targets[i].req.Direct() ==> s.targets[i].req.Blocked()) {
      GiveUpKeepsInv(s, i);
    }
  }

  lemma {:induction false} SelectKeepsInv(s: State, i: nat, env: Env)
    requires Inv(s) && i <= |s.targets|
    ensures Inv(SelectFrom(s, i, env).s)
    ensures SelectFrom(s, i, env).s.cfg == s.cfg
    ensures !SelectFrom(s, i, env).Abort? && NobodyFailed(s) ==> NobodyFailed(SelectFrom(s, i, env).s)
    ensures SelectFrom(s, i, env).Chosen? ==>
              Startable(SelectFrom(s, i, env).s, SelectFrom(s, i, env).target, SelectFrom(s, i, env).mirror)
    decreases |s.targets| - i
  {
    if i < |s.targets| {
      ConsiderKeepsInv(s, i, env);
      ConsiderChanges(s, i, env);
      match Consider(s, i, env) {
        case Next(s1) => SelectKeepsInv(s1, i + 1, env);
        case Stop(sel) =>
          if sel.Chosen? {
            ChosenIsStartable(s, i, env);
          }
      }
    }
  }

  /** Once selection finds nobody, every target still waiting is starving. */
  lemma {:induction false} NobodyMeansStarving(s: State, i: nat, env: Env, t: nat)
    requires Shape(s) && i <= t < |s.targets| && SelectFrom(s, i, env).Nobody?
    ensures Shape(SelectFrom(s, i, env).s)
    ensures |SelectFrom(s, i, env).s.targets| == |s.targets|
    ensures SelectFrom(s, i, env).s.targets[t].phase == Waiting ==> Starving(SelectFrom(s, i, env).s, t)
    decreases |s.targets| - i
  {
    SelectKeepsShape(s, i, env);
    ConsiderChanges(s, i, env);
    var s1 := Consider(s, i, env).s;
    if i < t {
      NobodyMeansStarving(s1, i + 1, env, t);
    } else {
      NobodyUntouched(s1, i + 1, env);
      if s1 == s && s.targets[i].phase == Waiting {
        StarvingFrame(s, SelectFrom(s, i, env).s, t);
      }
    }
  }

  lemma StarvingFrame(s: State, s': State, t: nat)
    requires Shape(s) && Shape(s') && t < |s.targets| && t < |s'.targets| && s'.targets[t] == s.targets[t]
    requires s'.(targets := s.targets, notes := s.notes) == s
    requires Starving(s, t)
    ensures Starving(s', t)
  {
    var p :| 0 <= p < |ListOf(s, t)| && Eligible(s, t, p);
    assert Eligible(s', t, p);
    assert forall q :: 0 <= q < |ListOf(s, t)| ==> Free(s', t, q) == Free(s, t, q);
  }

  lemma {:induction false} NobodyUntouched(s: State, i: nat, env: Env)
    requires Shape(s) && i <= |s.targets| && SelectFrom(s, i, env).Nobody?
    ensures |SelectFrom(s, i, env).s.targets| == |s.targets|
    ensures forall u :: 0 <= u < i ==> SelectFrom(s, i, env).s.targets[u] == s.targets[u]
    ensures SelectFrom(s, i, env).s.(targets := s.targets, notes := s.notes) == s
    decreases |s.targets| - i
  {
    if i < |s.targets| {
      ConsiderChanges(s, i, env);
      NobodyUntouched(Consider(s, i, env).s, i + 1, env);
    }
  }

  lemma PrepareOneKeepsInv(s: State, env: Env)
    requires Inv(s) && |s.running| < s.cfg.maxParallel
    ensures Inv(PrepareOne(s, env).s)
    ensures PrepareOne(s, env).s.cfg == s.cfg
    ensures !PrepareOne(s, env).Broken? && NobodyFailed(s) ==> NobodyFailed(PrepareOne(s, env).s)
    ensures PrepareOne(s, env).Started? ==> |PrepareOne(s, env).s.running| == |s.running| + 1
    ensures !PrepareOne(s, env).Started? ==> PrepareOne(s, env).s.running == s.running
  {
    SelectKeepsShape(s, 0, env);
    SelectKeepsInv(s, 0, env);
    var sel := SelectFrom(s, 0, env);
    if sel.Chosen? {
      if env.setupFails(sel.target, sel.s.targets[sel.target].starts) {
        SetupFailureKeepsInv(sel.s, sel.target, sel.mirror);
      } else {
        StartKeepsInv(sel.s, sel.target, sel.mirror);
      }
    }
  }

  lemma SetupFailureKeepsInv(s: State, t: nat, mirror: Option<nat>)
    requires Inv(s) && Startable(s, t, mirror)
    ensures Inv(s.With(t, s.targets[t].(mirror := mirror)))
  {
    var s' := s.With(t, s.targets[t].(mirror := mirror));
    assert TargetOk(s, t);
    assert TargetOk(s', t);
    forall m | 0 <= m < |s'.mirrors|
      ensures MirrorOk(s', m)
    {
      assert Users(s', m) == Users(s, m);
      MirrorOkFrame(s, s', m);
    }
    forall u | 0 <= u < |s'.targets| && u != t
      ensures TargetOk(s', u)
    {
      TargetOkFrame(s, s', u);
    }
  }

  lemma {:induction false} PrepareAllKeepsInv(s: State, slots: nat, env: Env)
    requires Inv(s) && slots == s.cfg.maxParallel - |s.running|
    ensures Inv(PrepareAll(s, slots, env).s)
    ensures PrepareAll(s, slots, env).ok && NobodyFailed(s) ==> NobodyFailed(PrepareAll(s, slots, env).s)
    decreases slots
  {
    if slots > 0 {
      PrepareOneKeepsInv(s, env);
      var p := PrepareOne(s, env);
      if p.Started? {
        PrepareAllKeepsInv(p.s, slots - 1, env);
      }
    }
  }

  lemma ApplyKeepsInv(s: State, e: Event, env: Env)
    requires Inv(s)
    ensures Inv(Apply(s, e, env).s)
    ensures Apply(s, e, env).ok && NobodyFailed(s) ==> NobodyFailed(Apply(s, e, env).s)
  {
    match e
    case Report(t, o) => FinishKeepsInv(s, t, o, env);
    case Refill => PrepareAllKeepsInv(s, s.cfg.maxParallel - |s.running|, env);
    case Interruption =>
  }

  /** The invariant holds in every reachable state, the states in which a run breaks off included. */
  lemma {:induction false} ExecuteKeepsInv(s: State, events: seq<Event>, env: Env)
    requires Inv(s)
    ensures Inv(Execute(s, events, env).s)
    ensures Execute(s, events, env).ok && NobodyFailed(s) ==> NobodyFailed(Execute(s, events, env).s)
    decreases |events|
  {
    if events != [] {
      ApplyKeepsInv(s, events[0], env);
      if Apply(s, events[0], env).ok {
        ExecuteKeepsInv(Apply(s, events[0], env).s, events[1..], env);
      }
    }
  }
}
