/** The download scheduler of librepo/downloader.c on values.
    Pointers to mirrors, targets and mirror lists are positions here; module Downloader holds the
    objects and proves that its methods do exactly what these functions say.
    Three fields are history only: `starts` (transfers started for a target), `notes` (every point at
    which an end callback is called) and the oracle indices derived from them. */
module Schedule {
  import opened Wrappers

  datatype Protocol = Other | Http | Ftp | File | Rsync

  datatype Phase = Waiting | Running | Finished | Failed

  datatype RCode = Unfinished | Ok | Error

  datatype Config = Config(
    failfast: bool, maxParallel: int, maxPerHost: int,
    maxMirrorsToTry: int, allowedFailures: int, adaptive: bool)
  {
    // Bounds the option setters of handle.c enforce; -1 means no limit per host.
    ghost predicate Valid() {
      maxParallel >= 1 && (maxPerHost == -1 || maxPerHost >= 1)
    }

    // The most connections one mirror can ever carry at once.
    function Cap(): int {
      if maxPerHost == -1 then maxParallel else Min(maxParallel, maxPerHost)
    }
  }

  datatype Mirror = Mirror(
    protocol: Protocol, allowed: int, maxTried: int, running: int, successful: int, failed: int)
  {
    predicate Full() {
      allowed != -1 && running >= allowed
    }

    // No success yet and the allowed number of failures reached.
    predicate Bad(cfg: Config) {
      successful == 0 && cfg.allowedFailures > 0 && failed >= cfg.allowedFailures
    }
  }

  /** What the caller asked for. The string tests on path, base URL and full URL are kept as their
      answers: path contains "://"; a base URL is given; the complete URL or base URL starts with
      "file:/"; lr_is_local_path holds of the full URL; the handle is offline. */
  datatype Request = Request(
    completeUrl: bool, baseUrl: bool, fileUrl: bool, localUrl: bool, offline: bool, list: nat)
  {
    predicate Direct() {
      completeUrl || baseUrl
    }

    // The offline branch of select_next_target is taken for this target.
    predicate Blocked() {
      Direct() && offline && !localUrl
    }
  }

  datatype Target = Target(
    req: Request, phase: Phase, mirror: Option<nat>, tried: seq<Option<nat>>, rcode: RCode, starts: nat)
  {
    predicate Terminal() {
      phase == Finished || phase == Failed
    }
  }

  datatype Note = Note(target: nat, success: bool)

  datatype State = State(
    cfg: Config, targets: seq<Target>, mirrors: seq<Mirror>, lists: seq<seq<nat>>,
    running: seq<nat>, notes: seq<Note>)
  {
    function With(t: nat, tg: Target): State
      requires t < |targets|
    {
      this.(targets := targets[t := tg])
    }
  }

  datatype CbCode = CbOk | CbAbort | CbError

  /** Everything the outside world decides: what the k-th end callback answers (true is LR_CB_ERROR)
      and whether the n-th transfer of a target cannot even be set up (curl, open, fdopen errors). */
  datatype Env = Env(endCb: nat -> bool, setupFails: (nat, nat) -> bool)

  datatype Outcome =
    | Success
    | ChecksumUnavailable
    | TransferError(serious: bool, fatal: bool, progressError: bool, failureCb: CbCode, truncateFails: bool)

  datatype Progress = Progress(s: State, ok: bool)

  /** Every stored position is a position of something. */
  ghost predicate Shape(s: State) {
    && (forall t :: 0 <= t < |s.targets| ==> TargetShape(s.targets[t], |s.lists|, |s.mirrors|))
    && (forall l :: 0 <= l < |s.lists| ==> ListShape(s.lists[l], |s.mirrors|))
    && (forall k :: 0 <= k < |s.running| ==> s.running[k] < |s.targets|)
  }

  predicate TargetShape(tg: Target, lists: nat, mirrors: nat) {
    tg.req.list < lists && (tg.mirror.Some? ==> tg.mirror.value < mirrors)
  }

  predicate ListShape(list: seq<nat>, mirrors: nat) {
    forall k :: 0 <= k < |list| ==> list[k] < mirrors
  }

  // ---------------------------------------------------------------- choosing a mirror

  function ListOf(s: State, t: nat): seq<nat>
    requires t < |s.targets| && s.targets[t].req.list < |s.lists|
  {
    s.lists[s.targets[t].req.list]
  }

  /** The lowest iteration of select_suitable_mirror in which a mirror is considered, if any. */
  function Level(cfg: Config, tg: Target, m: nat, mirror: Mirror): Option<int> {
    if mirror.protocol == Rsync || (tg.req.offline && mirror.protocol != File) then None
    else if Some(m) !in tg.tried && !mirror.Bad(cfg) then Some(0)
    else if mirror.protocol != File && |tg.tried| < cfg.allowedFailures
            && Max(1, mirror.failed) < cfg.allowedFailures then
      Some(Max(1, mirror.failed))
    else None
  }

  function LevelAt(s: State, t: nat, p: nat): Option<int>
    requires Shape(s) && t < |s.targets| && p < |ListOf(s, t)|
  {
    Level(s.cfg, s.targets[t], ListOf(s, t)[p], s.mirrors[ListOf(s, t)[p]])
  }

  predicate Eligible(s: State, t: nat, p: nat)
    requires Shape(s) && t < |s.targets|
  {
    p < |ListOf(s, t)| && LevelAt(s, t, p).Some?
  }

  predicate Free(s: State, t: nat, p: nat)
    requires Shape(s) && t < |s.targets|
  {
    Eligible(s, t, p) && !s.mirrors[ListOf(s, t)[p]].Full()
  }

  ghost predicate AnyEligible(s: State, t: nat)
    requires Shape(s) && t < |s.targets|
  {
    exists p :: 0 <= p < |ListOf(s, t)| && Eligible(s, t, p)
  }

  /** Lexicographic order on (level, list position). */
  predicate NotAfter(s: State, t: nat, p: nat, q: nat)
    requires Shape(s) && t < |s.targets| && Eligible(s, t, p) && Eligible(s, t, q)
  {
    var (a, b) := (LevelAt(s, t, p).value, LevelAt(s, t, q).value);
    a < b || (a == b && p <= q)
  }

  ghost predicate IsBest(s: State, t: nat, p: nat)
    requires Shape(s) && t < |s.targets|
  {
    Free(s, t, p) && forall q :: 0 <= q < |ListOf(s, t)| && Free(s, t, q) ==> NotAfter(s, t, p, q)
  }

  /** The declarative choice: the least free position in (level, position) order. */
  ghost function Choose(s: State, t: nat): (r: Option<nat>)
    requires Shape(s) && t < |s.targets|
    ensures r.Some? ==> IsBest(s, t, r.value)
    ensures r.None? ==> forall p :: 0 <= p < |ListOf(s, t)| ==> !Free(s, t, p)
  {
    if exists p: nat :: IsBest(s, t, p) then
      var p: nat :| IsBest(s, t, p);
      Some(p)
    else
      assert forall p :: 0 <= p < |ListOf(s, t)| ==> !Free(s, t, p) by {
        if p: nat :| p < |ListOf(s, t)| && Free(s, t, p) {
          var b := BestExists(s, t, p, |ListOf(s, t)|);
          assert IsBest(s, t, b);
        }
      }
      None
  }

  lemma {:induction false} BestExists(s: State, t: nat, p: nat, n: nat) returns (b: nat)
    requires Shape(s) && t < |s.targets| && n <= |ListOf(s, t)| && Free(s, t, p)
    ensures Free(s, t, b) && forall q :: 0 <= q < n && Free(s, t, q) ==> NotAfter(s, t, b, q)
  {
    if n == 0 {
      b := p;
    } else {
      b := BestExists(s, t, p, n - 1);
      if Free(s, t, n - 1) && !NotAfter(s, t, b, n - 1) {
        b := n - 1;
      }
    }
  }

  /** The choice is unique, so any search that ends in a best position has made it. */
  lemma BestIsUnique(s: State, t: nat, p: nat)
    requires Shape(s) && t < |s.targets| && IsBest(s, t, p)
    ensures Choose(s, t) == Some(p)
  {
    assert NotAfter(s, t, p, Choose(s, t).value);
  }

  // ---------------------------------------------------------------- starting transfers

  /** A target ends: its state is set and the end callback is called. */
  function Conclude(s: State, t: nat, phase: Phase, rcode: RCode): State
    requires t < |s.targets|
  {
    s.With(t, s.targets[t].(phase := phase, rcode := rcode)).(notes := s.notes + [Note(t, phase == Finished)])
  }

  datatype Selection = Chosen(s: State, target: nat, mirror: Option<nat>) | Nobody(s: State) | Abort(s: State)

  /** What select_next_target does with one target: go on to the next, perhaps after giving this one
      up, or stop. */
  datatype Verdict = Next(s: State) | Stop(selection: Selection)

  ghost function Consider(s: State, i: nat, env: Env): Verdict
    requires Shape(s) && i < |s.targets|
  {
    var tg := s.targets[i];
    if tg.phase != Waiting then Next(s)
    else if !tg.req.Direct() && ListOf(s, i) == [] then Stop(Abort(s))
    else if tg.req.Direct() then
      if tg.req.Blocked() then
        // Without failfast control falls through and the target is started all the same.
        if env.endCb(|s.notes|) || s.cfg.failfast then Stop(Abort(GiveUp(s, i))) else Stop(Chosen(GiveUp(s, i), i, None))
      else Stop(Chosen(s, i, None))
    else if Choose(s, i).Some? then Stop(Chosen(s, i, Some(ListOf(s, i)[Choose(s, i).value])))
    else if AnyEligible(s, i) then Next(s)
    else if env.endCb(|s.notes|) || s.cfg.failfast then Stop(Abort(GiveUp(s, i)))
    else Next(GiveUp(s, i))
  }

  function GiveUp(s: State, i: nat): State
    requires i < |s.targets|
  {
    Conclude(s, i, Failed, Error)
  }

  /** What Consider may do to the state: nothing, or give up target i while it waits. */
  lemma ConsiderChanges(s: State, i: nat, env: Env)
    requires Shape(s) && i < |s.targets|
    ensures Shape(GiveUp(s, i))
    ensures match Consider(s, i, env)
            case Next(s1) => s1 == s || (s1 == GiveUp(s, i) && s.targets[i].phase == Waiting && !s.targets[i].req.Direct())
            case Stop(Nobody(_)) => false
            case Stop(Abort(s1)) =>
              s1 == s || (s1 == GiveUp(s, i) && s.targets[i].phase == Waiting
                          && (s.targets[i].req.Direct() ==> s.targets[i].req.Blocked()))
            case Stop(Chosen(s1, t, m)) =>
              && t == i && s.targets[i].phase == Waiting && (m.Some? ==> m.value < |s.mirrors|)
              && s1 == (if s.targets[i].req.Blocked() then GiveUp(s, i) else s)
              && (s.targets[i].req.Blocked() ==> !s.cfg.failfast)
              && (s.targets[i].req.Direct() <==> m.None?)
  {
    assert ListShape(s.lists[s.targets[i].req.list], |s.mirrors|);
  }

  /** select_next_target, from the i-th target on. */
  ghost function SelectFrom(s: State, i: nat, env: Env): Selection
    requires Shape(s) && i <= |s.targets|
    decreases |s.targets| - i
  {
    if i == |s.targets| then Nobody(s)
    else
      ConsiderChanges(s, i, env);
      match Consider(s, i, env)
      case Next(s1) => SelectFrom(s1, i + 1, env)
      case Stop(selection) => selection
  }

  function StartOn(m: Mirror): Mirror {
    m.(running := m.running + 1, maxTried := Max(m.maxTried, m.running + 1))
  }

  function Start(s: State, t: nat, mirror: Option<nat>): State
    requires t < |s.targets| && (mirror.Some? ==> mirror.value < |s.mirrors|)
  {
    var tg := s.targets[t];
    var s1 := s.With(t, tg.(phase := Running, mirror := mirror, starts := tg.starts + 1));
    var s2 := s1.(running := s.running + [t]);
    if mirror.None? then s2
    else s2.(mirrors := s.mirrors[mirror.value := StartOn(s.mirrors[mirror.value])])
  }

  datatype Preparation = Started(s: State) | Idle(s: State) | Broken(s: State)

  /** prepare_next_transfer */
  ghost function PrepareOne(s: State, env: Env): Preparation
    requires Shape(s)
  {
    SelectKeepsShape(s, 0, env);
    match SelectFrom(s, 0, env)
    case Abort(s1) => Broken(s1)
    case Nobody(s1) => Idle(s1)
    case Chosen(s1, t, m) =>
      if env.setupFails(t, s1.targets[t].starts) then Broken(s1.With(t, s1.targets[t].(mirror := m)))
      else Started(Start(s1, t, m))
  }

  /** prepare_next_transfers, with the given number of free slots. */
  ghost function PrepareAll(s: State, slots: nat, env: Env): Progress
    requires Shape(s)
    decreases slots
  {
    if slots == 0 then Progress(s, true)
    else
      PrepareKeepsShape(s, env);
      match PrepareOne(s, env)
      case Broken(s1) => Progress(s1, false)
      case Idle(s1) => Progress(s1, true)
      case Started(s1) => PrepareAll(s1, slots - 1, env)
  }

  // ---------------------------------------------------------------- finishing a transfer

  /** Success rate, or -1 while fewer than three transfers have ended. */
  function Rank(m: Mirror): real {
    if m.successful + m.failed < 3 then -1.0
    else m.successful as real / (m.successful + m.failed) as real
  }

  function IndexOf(list: seq<nat>, m: nat): (i: nat)
    ensures i <= |list|
    ensures i < |list| ==> list[i] == m
    ensures m !in list[..i]
    ensures m in list ==> i < |list|
  {
    if list == [] || list[0] == m then 0 else 1 + IndexOf(list[1..], m)
  }

  function Swap(list: seq<nat>, i: nat, j: nat): (r: seq<nat>)
    requires i < |list| && j < |list|
  {
    list[i := list[j]][j := list[i]]
  }

  /** The pair of positions sort_mirrors exchanges; equal positions when it leaves the list alone. */
  function SwapPair(list: seq<nat>, ms: seq<Mirror>, m: nat, success: bool, serious: bool): (nat, nat)
    requires m in list && ListShape(list, |ms|)
  {
    var i := IndexOf(list, m);
    var last := |list| - 1;
    if (!success && i == last) || (success && i == 0) then (i, i)
    else if serious && ms[m].successful == 0 then (i, last)
    else if Rank(ms[m]) < 0.0 then (i, i)
    else if !success then
      // A serious success does not exist in the source; i < last holds here either way.
      var next := Rank(ms[list[i + 1]]);
      if next < 0.0 || next > Rank(ms[m]) then (i, i + 1) else (i, i)
    else
      if Rank(ms[list[i - 1]]) < Rank(ms[m]) then (i, i - 1) else (i, i)
  }

  function SortMirrors(list: seq<nat>, ms: seq<Mirror>, m: nat, success: bool, serious: bool): seq<nat>
    requires m in list && ListShape(list, |ms|)
  {
    var (i, j) := SwapPair(list, ms, m, success, serious);
    Swap(list, i, j)
  }

  function UpdateStatistics(m: Mirror, success: bool): Mirror {
    if success then m.(running := m.running - 1, successful := m.successful + 1)
    else m.(running := m.running - 1, failed := m.failed + 1)
  }

  /** The bookkeeping every finished transfer gets (lines 2399-2411); the target is off the running list
      but its state is still to be set. */
  function Settle(s: State, t: nat, success: bool, serious: bool): State
    requires Shape(s) && t < |s.targets|
  {
    var tg := s.targets[t];
    var s1 := s.With(t, tg.(tried := tg.tried + [tg.mirror]))
               .(running := RemoveFirst(s.running, t));
    if tg.mirror.None? then s1
    else
      var m := tg.mirror.value;
      var ms := s.mirrors[m := UpdateStatistics(s.mirrors[m], success)];
      s1.(mirrors := ms,
          lists := if s.cfg.adaptive && m in ListOf(s, t)
                   then s.lists[tg.req.list := SortMirrors(ListOf(s, t), ms, m, success, serious)]
                   else s.lists)
  }

  /** A serious error on a mirror that otherwise works: it may only accept fewer connections. */
  predicate Forgivable(m: Mirror) {
    m.running > 0 || (m.successful > 0 && m.failed < m.maxTried)
  }

  function Lowered(m: Mirror): Mirror {
    m.(allowed := if m.running > 0 then m.running else 1)
  }

  function Forgive(s: State, t: nat): State
    requires t < |s.targets| && s.targets[t].mirror.Some? && s.targets[t].mirror.value < |s.mirrors|
  {
    var tg := s.targets[t];
    var m := tg.mirror.value;
    s.With(t, tg.(tried := RemoveFirst(tg.tried, Some(m)))).(mirrors := s.mirrors[m := Lowered(s.mirrors[m])])
  }

  predicate CanRetry(cfg: Config, req: Request, tried: nat) {
    if req.Direct() then !req.fileUrl && cfg.allowedFailures > tried
    else cfg.maxMirrorsToTry <= 0 || tried < cfg.maxMirrorsToTry
  }

  /** The state after the statistics and a possible second chance for the mirror. */
  function AfterError(s: State, t: nat, serious: bool, cancelled: bool): State
    requires Shape(s) && t < |s.targets|
  {
    var s1 := Settle(s, t, false, serious);
    if !cancelled && serious && s.targets[t].mirror.Some? && Forgivable(s1.mirrors[s.targets[t].mirror.value])
    then Forgive(s1, t) else s1
  }

  function Retry(s: State, t: nat): State
    requires t < |s.targets|
  {
    s.With(t, s.targets[t].(phase := Waiting))
  }

  /** One finished transfer in check_transfer_statuses. curl only reports transfers it was given, so a
      report about any other target changes nothing. */
  function Finish(s: State, t: nat, o: Outcome, env: Env): Progress
    requires Shape(s)
  {
    if t !in s.running then Progress(s, true)
    else match o
      case ChecksumUnavailable => Progress(s, false)
      case Success =>
        Progress(Conclude(Settle(s, t, true, false), t, Finished, Ok), !env.endCb(|s.notes|))
      case TransferError(serious, fatal, progressError, failureCb, truncateFails) =>
        var cancelled := fatal || failureCb != CbOk;
        var s2 := AfterError(s, t, serious, cancelled);
        if !cancelled && CanRetry(s.cfg, s.targets[t].req, |s2.targets[t].tried|) then
          Progress(Retry(s2, t), !truncateFails)
        else
          Progress(Conclude(s2, t, Failed, Error),
                   !(s.cfg.failfast || failureCb == CbError || progressError || env.endCb(|s.notes|)))
  }

  // ---------------------------------------------------------------- whole runs

  /** A report of curl, a refill of the free slots, or what breaks a run off from outside: a signal, an
      error of the curl multi interface, or a speed limit that curl refuses. */
  datatype Event = Report(target: nat, outcome: Outcome) | Refill | Interruption

  ghost function Apply(s: State, e: Event, env: Env): Progress
    requires Shape(s)
  {
    match e
    case Report(t, o) => Finish(s, t, o, env)
    case Refill => PrepareAll(s, Max(0, s.cfg.maxParallel - |s.running|), env)
    case Interruption => Progress(s, false)
  }

  /** Applies events until one of them reports an error. */
  ghost function Execute(s: State, events: seq<Event>, env: Env): Progress
    requires Shape(s)
    decreases |events|
  {
    if events == [] then Progress(s, true)
    else
      ApplyKeepsShape(s, events[0], env);
      var p := Apply(s, events[0], env);
      if p.ok then Execute(p.s, events[1..], env) else p
  }

  /** The cleanup of lr_download after an error: every running transfer is stopped and its end
      callback called. */
  function Abandon(s: State): State
    requires forall k :: 0 <= k < |s.running| ==> s.running[k] < |s.targets|
    decreases |s.running|
  {
    if s.running == [] then s
    else
      var t := s.running[0];
      Abandon(s.With(t, s.targets[t].(rcode := Unfinished))
               .(notes := s.notes + [Note(t, false)], running := s.running[1..]))
  }

  // ---------------------------------------------------------------- positions stay positions

  lemma {:induction false} SelectKeepsShape(s: State, i: nat, env: Env)
    requires Shape(s) && i <= |s.targets|
    ensures Shape(SelectFrom(s, i, env).s)
    ensures |SelectFrom(s, i, env).s.targets| == |s.targets| && SelectFrom(s, i, env).s.running == s.running
    ensures SelectFrom(s, i, env).s.mirrors == s.mirrors
    ensures SelectFrom(s, i, env).Chosen? ==>
              && SelectFrom(s, i, env).target < |s.targets|
              && (SelectFrom(s, i, env).mirror.Some? ==> SelectFrom(s, i, env).mirror.value < |s.mirrors|)
    decreases |s.targets| - i
  {
    if i < |s.targets| {
      ConsiderChanges(s, i, env);
      if Consider(s, i, env).Next? {
        SelectKeepsShape(Consider(s, i, env).s, i + 1, env);
      }
    }
  }

  lemma StartKeepsShape(s: State, t: nat, mirror: Option<nat>)
    requires Shape(s) && t < |s.targets| && (mirror.Some? ==> mirror.value < |s.mirrors|)
    ensures Shape(Start(s, t, mirror)) && Shape(s.With(t, s.targets[t].(mirror := mirror)))
  {
  }

  lemma PrepareKeepsShape(s: State, env: Env)
    requires Shape(s)
    ensures Shape(PrepareOne(s, env).s)
  {
    SelectKeepsShape(s, 0, env);
    var sel := SelectFrom(s, 0, env);
    if sel.Chosen? {
      StartKeepsShape(sel.s, sel.target, sel.mirror);
    }
  }

  lemma {:induction false} PrepareAllKeepsShape(s: State, slots: nat, env: Env)
    requires Shape(s)
    ensures Shape(PrepareAll(s, slots, env).s)
    decreases slots
  {
    if slots > 0 {
      PrepareKeepsShape(s, env);
      if PrepareOne(s, env).Started? {
        PrepareAllKeepsShape(PrepareOne(s, env).s, slots - 1, env);
      }
    }
  }

  lemma SettleKeepsShape(s: State, t: nat, success: bool, serious: bool)
    requires Shape(s) && t < |s.targets|
    ensures Shape(Settle(s, t, success, serious))
    ensures |Settle(s, t, success, serious).targets| == |s.targets|
    ensures |Settle(s, t, success, serious).mirrors| == |s.mirrors|
  {
    var s1 := Settle(s, t, success, serious);
    forall k | 0 <= k < |s1.running|
      ensures s1.running[k] < |s.targets|
    {
      assert s1.running[k] in s.running;
    }
    assert ListShape(ListOf(s, t), |s.mirrors|);
  }

  lemma AfterErrorKeepsShape(s: State, t: nat, serious: bool, cancelled: bool, s2: State)
    requires Shape(s) && t < |s.targets| && s2 == AfterError(s, t, serious, cancelled)
    ensures t < |s2.targets| && Shape(Retry(s2, t)) && Shape(Conclude(s2, t, Failed, Error))
  {
    SettleKeepsShape(s, t, false, serious);
  }

  lemma FinishKeepsShape(s: State, t: nat, o: Outcome, env: Env)
    requires Shape(s)
    ensures Shape(Finish(s, t, o, env).s)
  {
    if t in s.running {
      match o
      case ChecksumUnavailable =>
      case Success => SettleKeepsShape(s, t, true, false);
      case TransferError(serious, fatal, progressError, failureCb, truncateFails) =>
        var cancelled := fatal || failureCb != CbOk;
        AfterErrorKeepsShape(s, t, serious, cancelled, AfterError(s, t, serious, cancelled));
    }
  }

  lemma ApplyKeepsShape(s: State, e: Event, env: Env)
    requires Shape(s)
    ensures Shape(Apply(s, e, env).s)
  {
    match e
    case Report(t, o) => FinishKeepsShape(s, t, o, env);
    case Refill => PrepareAllKeepsShape(s, Max(0, s.cfg.maxParallel - |s.running|), env);
    case Interruption =>
  }
}
