/** The objects of librepo/downloader.c and the methods that work on them. `view` is the state of module
    Schedule that the objects represent; every method says which function of Schedule it carries out. */
module Downloader {
  import opened Wrappers
  import opened Schedule
  import opened ScheduleInvariants
  import opened MirrorSearch
  import opened ScheduleTermination
  import opened ScheduleTheorems

  class LrMirror {
    ghost const id: nat
    const protocol: Protocol
    var allowedParallelConnections: int
    var maxTriedParallelConnections: int
    var runningTransfers: int
    var successfulTransfers: int
    var failedTransfers: int

    constructor (ghost id: nat, protocol: Protocol)
      ensures this.id == id && this.protocol == protocol
      ensures allowedParallelConnections == maxTriedParallelConnections == runningTransfers == 0
      ensures successfulTransfers == failedTransfers == 0
    {
      this.id := id;
      this.protocol := protocol;
      allowedParallelConnections, maxTriedParallelConnections, runningTransfers := 0, 0, 0;
      successfulTransfers, failedTransfers := 0, 0;
    }

    /** A limit of 0 stands for "not initialised yet" and is read as the configured one. */
    ghost function View(maxPerHost: int): Mirror
      reads this
    {
      Mirror(protocol, if allowedParallelConnections == 0 then maxPerHost else allowedParallelConnections,
             maxTriedParallelConnections, runningTransfers, successfulTransfers, failedTransfers)
    }

    method InitOnceAllowedParallelConnections(maxAllowed: int)
      modifies this`allowedParallelConnections
      ensures View(maxAllowed) == old(View(maxAllowed))
      ensures maxAllowed != 0 ==> allowedParallelConnections != 0
    {
      if allowedParallelConnections == 0 {
        allowedParallelConnections := maxAllowed;
      }
    }

    predicate IsParallelConnectionsLimitedAndReached()
      reads this
    {
      allowedParallelConnections != -1 && runningTransfers >= allowedParallelConnections
    }

    predicate HasRunningTransfers()
      reads this
    {
      runningTransfers > 0
    }

    method IncreaseRunningTransfers()
      modifies this
      ensures forall h :: View(h) == StartOn(old(View(h)))
    {
      runningTransfers := runningTransfers + 1;
      if maxTriedParallelConnections < runningTransfers {
        maxTriedParallelConnections := runningTransfers;
      }
    }

    method UpdateStatistics(transferSuccess: bool)
      modifies this
      ensures forall h :: View(h) == Schedule.UpdateStatistics(old(View(h)), transferSuccess)
    {
      runningTransfers := runningTransfers - 1;
      if transferSuccess {
        successfulTransfers := successfulTransfers + 1;
      } else {
        failedTransfers := failedTransfers + 1;
      }
    }

    function MirrorRank(): real
      reads this
    {
      var finished := successfulTransfers + failedTransfers;
      if finished < 3 then -1.0 else successfulTransfers as real / finished as real
    }
  }

  /** The mirrors of one handle, shared by all targets of that handle and reordered in place. */
  class MirrorList {
    ghost const id: nat
    var items: seq<LrMirror>

    constructor (ghost id: nat, items: seq<LrMirror>)
      ensures this.id == id && this.items == items
    {
      this.id := id;
      this.items := items;
    }

    ghost predicate Represents(ids: seq<nat>)
      reads this
    {
      |items| == |ids| && forall k :: 0 <= k < |ids| ==> items[k].id == ids[k]
    }

    ghost predicate Shows(ms: seq<Mirror>, h: int)
      reads this, items
    {
      forall k :: 0 <= k < |items| ==> items[k].id < |ms| && items[k].View(h) == ms[items[k].id]
    }

    method Find(mirror: LrMirror, ghost ids: seq<nat>) returns (i: nat)
      requires Represents(ids) && mirror in items
      requires forall k :: 0 <= k < |items| && items[k].id == mirror.id ==> items[k] == mirror
      ensures i < |items| && items[i] == mirror && i == IndexOf(ids, mirror.id)
    {
      i := 0;
      while items[i] != mirror
        invariant i < |items| && mirror.id !in ids[..i]
        invariant mirror in items[i..]
        decreases |items| - i
      {
        i := i + 1;
      }
      IndexOfIs(ids, mirror.id, i);
    }

    /** Where the mirror at position i goes; i when it stays. */
    method ChoosePartner(i: nat, mirror: LrMirror, success: bool, serious: bool,
                         ghost ids: seq<nat>, ghost ms: seq<Mirror>, ghost h: int) returns (j: nat)
      requires Represents(ids) && Shows(ms, h) && i < |items| && items[i] == mirror && i == IndexOf(ids, mirror.id)
      ensures j < |items| && ListShape(ids, |ms|) && ids[i] == mirror.id
      ensures SwapPair(ids, ms, mirror.id, success, serious) == (i, j)
    {
      assert ids[i] == mirror.id;
      assert items[i].View(h) == ms[ids[i]];
      var last := |items| - 1;
      if (!success && i == last) || (success && i == 0) {
        return i;
      }
      if serious && mirror.successfulTransfers == 0 {
        return last;
      }
      var rankCur := mirror.MirrorRank();
      if rankCur < 0.0 {
        return i;
      }
      if !success {
        assert items[i + 1].View(h) == ms[ids[i + 1]];
        var rankNext := items[i + 1].MirrorRank();
        return if rankNext < 0.0 || rankNext > rankCur then i + 1 else i;
      } else {
        assert items[i - 1].View(h) == ms[ids[i - 1]];
        var rankPrev := items[i - 1].MirrorRank();
        return if rankPrev < rankCur then i - 1 else i;
      }
    }

    method SortMirrors(mirror: LrMirror, success: bool, serious: bool,
                       ghost ids: seq<nat>, ghost ms: seq<Mirror>, ghost h: int)
      requires Represents(ids) && Shows(ms, h) && mirror in items
      requires forall k :: 0 <= k < |items| && items[k].id == mirror.id ==> items[k] == mirror
      modifies this
      ensures mirror.id in ids && ListShape(ids, |ms|)
      ensures Represents(Schedule.SortMirrors(ids, ms, mirror.id, success, serious))
      ensures forall k :: 0 <= k < |items| ==> items[k] in old(items)
    {
      var i := Find(mirror, ids);
      var j := ChoosePartner(i, mirror, success, serious, ids, ms, h);
      items := items[i := items[j]][j := mirror];
    }
  }

  lemma {:induction false} IndexOfIs(list: seq<nat>, m: nat, i: nat)
    requires i < |list| && list[i] == m && m !in list[..i]
    ensures IndexOf(list, m) == i
  {
    if i > 0 {
      assert list[..i] == [list[0]] + list[1..][..i - 1];
      IndexOfIs(list[1..], m, i - 1);
    }
  }

  class LrTarget {
    const id: nat
    const req: Request
    const lrmirrors: MirrorList
    var state: Phase
    var mirror: LrMirror?
    var triedMirrors: seq<LrMirror?>
    var rcode: RCode
    var starts: nat

    constructor (id: nat, req: Request, lrmirrors: MirrorList)
      ensures this.id == id && this.req == req && this.lrmirrors == lrmirrors
      ensures state == Waiting && mirror == null && triedMirrors == [] && rcode == Unfinished && starts == 0
    {
      this.id := id;
      this.req := req;
      this.lrmirrors := lrmirrors;
      state, mirror, triedMirrors, rcode, starts := Waiting, null, [], Unfinished, 0;
    }
  }

  ghost function Ref(m: LrMirror?): Option<nat> {
    if m == null then None else Some(m.id)
  }

  class LrDownload {
    const cfg: Config
    const env: Env
    const targets: seq<LrTarget>
    ghost const mirrors: seq<LrMirror>
    ghost const lists: seq<MirrorList>
    var running: seq<LrTarget>
    var endCalls: nat
    ghost var view: State

    ghost predicate Known(m: LrMirror?) {
      m == null || (m.id < |mirrors| && mirrors[m.id] == m)
    }

    ghost predicate TargetTied(o: LrTarget, v: Target)
      reads o
    {
      && o.req == v.req && o.state == v.phase && o.rcode == v.rcode && o.starts == v.starts
      && v.req.list < |lists| && o.lrmirrors == lists[v.req.list]
      && Ref(o.mirror) == v.mirror && Known(o.mirror)
      && SameTries(o.triedMirrors, v.tried)
    }

    ghost predicate ListTied(o: MirrorList, v: seq<nat>)
      reads o
    {
      |o.items| == |v| && forall k :: 0 <= k < |v| ==> o.items[k].id == v[k] && Known(o.items[k])
    }

    ghost predicate TargetsTied()
      reads this, targets
    {
      |targets| == |view.targets|
      && forall t :: 0 <= t < |targets| ==> targets[t].id == t && TargetTied(targets[t], view.targets[t])
    }

    ghost predicate MirrorsTied()
      reads this, mirrors
    {
      |mirrors| == |view.mirrors|
      && forall m :: 0 <= m < |mirrors| ==>
           mirrors[m].id == m && mirrors[m].View(cfg.maxPerHost) == view.mirrors[m]
    }

    ghost predicate ListsTied()
      reads this, lists
    {
      |lists| == |view.lists|
      && forall l :: 0 <= l < |lists| ==> lists[l].id == l && ListTied(lists[l], view.lists[l])
    }

    ghost predicate RunningTied()
      reads this
    {
      SameIds(running, view.running)
    }

    ghost predicate IsTarget(t: LrTarget) {
      t.id < |targets| && targets[t.id] == t
    }

    ghost predicate Valid()
      reads this, targets, mirrors, lists
    {
      && view.cfg == cfg && Shape(view) && endCalls == |view.notes|
      && TargetsTied() && MirrorsTied() && ListsTied() && RunningTied()
    }

    constructor (cfg: Config, env: Env, targets: seq<LrTarget>, ghost mirrors: seq<LrMirror>, ghost lists: seq<MirrorList>,
                 ghost view: State)
      requires view.cfg == cfg && Init(view)
      requires |targets| == |view.targets| && |mirrors| == |view.mirrors| && |lists| == |view.lists|
      requires forall t :: 0 <= t < |targets| ==>
                 && targets[t].id == t && targets[t].req == view.targets[t].req
                 && targets[t].lrmirrors == lists[targets[t].req.list] && targets[t].state == Waiting
                 && targets[t].mirror == null && targets[t].triedMirrors == [] && targets[t].rcode == Unfinished
                 && targets[t].starts == 0
      requires forall m :: 0 <= m < |mirrors| ==>
                 mirrors[m].id == m && mirrors[m].View(cfg.maxPerHost) == view.mirrors[m]
      requires forall l :: 0 <= l < |lists| ==>
                 && lists[l].id == l && |lists[l].items| == |view.lists[l]|
                 && forall k :: 0 <= k < |view.lists[l]| ==> lists[l].items[k] == mirrors[view.lists[l][k]]
      ensures Valid() && this.view == view && this.env == env
      ensures this.targets == targets && this.mirrors == mirrors && this.lists == lists
    {
      this.cfg, this.env, this.targets, this.mirrors, this.lists := cfg, env, targets, mirrors, lists;
      running, endCalls := [], 0;
      this.view := view;
    }

    /** Reading a limit for the first time sets it, which the view does not notice. */
    method InitMirror(mirror: LrMirror)
      requires Valid() && Known(mirror)
      modifies mirror`allowedParallelConnections
      ensures Valid()
      ensures cfg.maxPerHost != 0 ==> mirror.allowedParallelConnections != 0
    {
      mirror.InitOnceAllowedParallelConnections(cfg.maxPerHost);
      assert MirrorsTied() by {
        assert forall m :: 0 <= m < |mirrors| ==> mirrors[m].id == m;
      }
    }

    lemma TriedMatches(target: LrTarget, mirror: LrMirror)
      requires Valid() && IsTarget(target) && Known(mirror)
      ensures mirror in target.triedMirrors <==> Some(mirror.id) in view.targets[target.id].tried
    {
      var v := view.targets[target.id];
      assert TargetTied(target, v);
      if Some(mirror.id) in v.tried {
        var k :| 0 <= k < |v.tried| && v.tried[k] == Some(mirror.id);
        assert Ref(target.triedMirrors[k]) == v.tried[k];
      }
    }

    /** The tests of one loop iteration, on the objects. */
    method IsConsidered(target: LrTarget, p: nat, iteration: int) returns (r: bool)
      requires Valid() && IsTarget(target) && p < |target.lrmirrors.items|
      ensures TargetTied(target, view.targets[target.id]) && p < |ListOf(view, target.id)|
      ensures Known(target.lrmirrors.items[p]) && target.lrmirrors.items[p].id == ListOf(view, target.id)[p]
      ensures r == ConsideredAt(view, target.id, iteration, p)
    {
      assert TargetTied(target, view.targets[target.id]);
      assert ListTied(target.lrmirrors, ListOf(view, target.id));
      var mirror := target.lrmirrors.items[p];
      assert mirror.View(cfg.maxPerHost) == view.mirrors[mirror.id];
      TriedMatches(target, mirror);
      if iteration == 0 {
        if mirror in target.triedMirrors {
          return false;
        }
        if mirror.successfulTransfers == 0 && cfg.allowedFailures > 0
           && mirror.failedTransfers >= cfg.allowedFailures {
          return false;
        }
      } else if mirror.protocol == File {
        return false;
      } else if iteration < mirror.failedTransfers {
        return false;
      }
      if mirror.protocol == Rsync {
        return false;
      }
      return !(target.req.offline && mirror.protocol != File);
    }

    /** One iteration of the inner loop: `take` says that the search ends with this mirror. */
    method Visit(target: LrTarget, p: nat, iteration: int, ghost found: bool) returns (considered: bool, take: bool)
      requires Valid() && FailuresCounted(view) && PerHostKept(view) && IsTarget(target)
      requires Entered(view, target.id, iteration)
      requires p < |target.lrmirrors.items| == |ListOf(view, target.id)| && Searched(view, target.id, iteration, p, found)
      modifies mirrors`allowedParallelConnections
      ensures Valid()
      ensures p < |ListOf(view, target.id)| && target.lrmirrors.items[p].id == ListOf(view, target.id)[p]
      ensures Known(target.lrmirrors.items[p])
      ensures take ==> considered && Choose(view, target.id) == Some(p) && AnyEligible(view, target.id)
      ensures !take ==> Searched(view, target.id, iteration, p + 1, found || considered)
    {
      considered := IsConsidered(target, p, iteration);
      take := false;
      if considered {
        var mirror := target.lrmirrors.items[p];
        assert mirror.View(cfg.maxPerHost) == view.mirrors[mirror.id];
        assert cfg.maxPerHost == -1 || mirror.runningTransfers <= cfg.maxPerHost;
        InitMirror(mirror);
        assert mirror.View(cfg.maxPerHost) == view.mirrors[mirror.id];
        if !mirror.IsParallelConnectionsLimitedAndReached() {
          PickUp(view, target.id, iteration, p, found);
          return true, true;
        }
      }
      PassOver(view, target.id, iteration, p, found);
    }

    /** What the assertion inside the loop relies on, and why the first limit read is not 0. */
    ghost predicate PerHostKept(s: State) {
      s.cfg.maxPerHost != 0 &&
      forall m :: 0 <= m < |s.mirrors| && s.cfg.maxPerHost != -1 ==> s.mirrors[m].running <= s.cfg.maxPerHost
    }

    /** Whether a remote mirror has been seen, before position p of an iteration. */
    ghost predicate RemoteSeen(s: State, t: nat, iterated: int, p: nat, remote: bool)
      requires Shape(s) && t < |s.targets|
    {
      remote <==> AnyRemote(s, t, if iterated == 0 then p else |ListOf(s, t)|)
    }

    /** The body of the loop: besides visiting a mirror, the first iteration notes whether any is remote. */
    method Step(target: LrTarget, p: nat, iterated: int, before: bool, remote: bool)
      returns (found: bool, take: bool, reiterate: bool)
      requires Valid() && FailuresCounted(view) && PerHostKept(view) && IsTarget(target)
      requires iterated >= 0 && Entered(view, target.id, iterated)
      requires p < |target.lrmirrors.items| == |ListOf(view, target.id)| && Searched(view, target.id, iterated, p, before)
      requires RemoteSeen(view, target.id, iterated, p, remote)
      modifies mirrors`allowedParallelConnections
      ensures Valid()
      ensures take ==> found && Choose(view, target.id) == Some(p) && AnyEligible(view, target.id)
      ensures !take ==> Searched(view, target.id, iterated, p + 1, found)
      ensures RemoteSeen(view, target.id, iterated, p + 1, reiterate)
      ensures Known(target.lrmirrors.items[p]) && target.lrmirrors.items[p].id == ListOf(view, target.id)[p]
    {
      var considered;
      considered, take := Visit(target, p, iterated, before);
      found := before || considered;
      var mirror := target.lrmirrors.items[p];
      MoreRemote(view, target.id, p);
      assert mirror.View(cfg.maxPerHost) == view.mirrors[mirror.id];
      reiterate := remote || (iterated == 0 && mirror.protocol != File);
    }

    /** The inner loop of select_suitable_mirror: one iteration over the list. */
    method SearchOnce(target: LrTarget, iterated: int, before: bool, remote: bool)
      returns (selected: LrMirror?, found: bool, reiterate: bool)
      requires Valid() && FailuresCounted(view) && PerHostKept(view) && IsTarget(target)
      requires iterated >= 0 && Entered(view, target.id, iterated) && Searched(view, target.id, iterated, 0, before)
      requires if iterated == 0 then !remote else remote && AnyRemote(view, target.id, |ListOf(view, target.id)|)
      modifies mirrors`allowedParallelConnections
      ensures Valid()
      ensures selected == null ==> Searched(view, target.id, iterated + 1, 0, found)
      ensures selected == null ==> (reiterate <==> AnyRemote(view, target.id, |ListOf(view, target.id)|))
      ensures selected != null ==>
                && found && Known(selected) && Choose(view, target.id).Some? && AnyEligible(view, target.id)
                && selected.id == ListOf(view, target.id)[Choose(view, target.id).value]
    {
      ghost var t, v := target.id, view;
      var items := target.lrmirrors.items;
      assert ListTied(target.lrmirrors, ListOf(v, t)) by {
        assert TargetTied(target, v.targets[t]);
      }
      selected, found, reiterate := null, before, remote;
      var p := 0;
      while p < |items|
        invariant 0 <= p <= |items| && Valid() && view == v
        invariant Searched(v, t, iterated, p, found) && RemoteSeen(v, t, iterated, p, reiterate)
      {
        var take;
        found, take, reiterate := Step(target, p, iterated, found, reiterate);
        if take {
          return items[p], true, reiterate;
        }
        p := p + 1;
      }
      NextIteration(v, t, iterated, found);
    }

    /** The declarative choice, and whether any mirror is eligible. */
    ghost predicate SearchResult(s: State, t: nat, selected: LrMirror?, found: bool)
      requires Shape(s) && t < |s.targets|
    {
      && (found <==> AnyEligible(s, t)) && (selected == null <==> Choose(s, t) == None)
      && (selected != null ==> found && Known(selected) && selected.id == ListOf(s, t)[Choose(s, t).value])
    }

    /** What the loop of select_suitable_mirror knows when it goes on with an iteration. */
    ghost predicate Pending(s: State, t: nat, iterated: int, found: bool, reiterate: bool)
      requires Shape(s) && t < |s.targets|
    {
      && iterated >= 0 && Entered(s, t, iterated) && Searched(s, t, iterated, 0, found)
      && (if iterated == 0 then !reiterate else reiterate && AnyRemote(s, t, |ListOf(s, t)|))
    }

    /** One iteration and the test whether there is another. */
    method Iterate(target: LrTarget, iterated: int, before: bool, remote: bool)
      returns (selected: LrMirror?, found: bool, reiterate: bool, more: bool)
      requires Valid() && FailuresCounted(view) && PerHostKept(view) && IsTarget(target)
      requires Pending(view, target.id, iterated, before, remote)
      modifies mirrors`allowedParallelConnections
      ensures Valid()
      ensures more ==> Pending(view, target.id, iterated + 1, found, reiterate) && iterated + 1 < cfg.allowedFailures
      ensures !more ==> SearchResult(view, target.id, selected, found)
    {
      selected, found, reiterate := SearchOnce(target, iterated, before, remote);
      assert TargetTied(target, view.targets[target.id]);
      more := selected == null
              && reiterate && |target.triedMirrors| < cfg.allowedFailures && iterated + 1 < cfg.allowedFailures;
      if !more && selected == null {
        SearchEnds(view, target.id, iterated + 1, found, reiterate);
      }
    }

    /** The nested loops of select_suitable_mirror. */
    method SearchMirrors(target: LrTarget) returns (selected: LrMirror?, found: bool)
      requires Valid() && FailuresCounted(view) && PerHostKept(view) && IsTarget(target)
      modifies mirrors`allowedParallelConnections
      ensures Valid()
      ensures SearchResult(view, target.id, selected, found)
    {
      ghost var v := view;
      SearchStarts(v, target.id);
      found, selected := false, null;
      var iterated, reiterate, more := 0, false, true;
      while more
        invariant Valid() && view == v
        invariant if more then Pending(v, target.id, iterated, found, reiterate)
                  else SearchResult(v, target.id, selected, found)
        decreases more, cfg.allowedFailures - iterated
      {
        selected, found, reiterate, more := Iterate(target, iterated, found, reiterate);
        iterated := iterated + 1;
      }
    }

    lemma InvariantSuffices()
      requires Inv(view)
      ensures FailuresCounted(view) && PerHostKept(view)
    {
      forall m | 0 <= m < |view.mirrors|
        ensures view.mirrors[m].failed >= 0
        ensures view.cfg.maxPerHost != -1 ==> view.mirrors[m].running <= view.cfg.maxPerHost
      {
        assert MirrorOk(view, m);
      }
    }

    // -------------------------------------------------------------- selecting

    method SetState(target: LrTarget, state: Phase, rcode: RCode)
      requires Valid() && IsTarget(target)
      modifies target`state, target`rcode, this`view
      ensures Valid()
      ensures view == old(view).With(target.id, old(view).targets[target.id].(phase := state, rcode := rcode))
    {
      ghost var v := view.targets[target.id];
      assert TargetTied(target, v);
      target.state, target.rcode := state, rcode;
      view := view.With(target.id, v.(phase := state, rcode := rcode));
    }

    /** The end callback of a target is called; the answer is up to the environment. */
    method CallEndCb(target: LrTarget, ghost success: bool) returns (error: bool)
      requires Valid() && IsTarget(target)
      modifies this`view, this`endCalls
      ensures Valid() && view == old(view).(notes := old(view).notes + [Note(target.id, success)])
      ensures error == env.endCb(|old(view).notes|)
    {
      error := env.endCb(endCalls);
      endCalls := endCalls + 1;
      view := view.(notes := view.notes + [Note(target.id, success)]);
    }

    /** Sets how a target ended and calls its end callback; `error` is the answer LR_CB_ERROR. */
    method ConcludeTarget(target: LrTarget, state: Phase, rcode: RCode) returns (error: bool)
      requires Valid() && IsTarget(target)
      modifies target`state, target`rcode, this`view, this`endCalls
      ensures Valid() && view == Conclude(old(view), target.id, state, rcode)
      ensures error == env.endCb(|old(view).notes|)
    {
      SetState(target, state, rcode);
      error := CallEndCb(target, state == Finished);
    }

    /** select_suitable_mirror: finds a mirror, or nothing for now, or gives the target up. */
    method SelectSuitableMirror(target: LrTarget) returns (selected: LrMirror?, ok: bool)
      requires Valid() && FailuresCounted(view) && PerHostKept(view) && IsTarget(target)
      modifies mirrors`allowedParallelConnections, target`state, target`rcode, this`view, this`endCalls
      ensures Valid()
      ensures selected != null ==>
                && ok && view == old(view) && Choose(view, target.id).Some? && Known(selected)
                && selected.id == ListOf(view, target.id)[Choose(view, target.id).value]
      ensures selected == null ==> Choose(old(view), target.id).None?
      ensures selected == null && AnyEligible(old(view), target.id) ==> ok && view == old(view)
      ensures selected == null && !AnyEligible(old(view), target.id) ==>
                && view == Conclude(old(view), target.id, Failed, Error)
                && ok == !(env.endCb(|old(view).notes|) || cfg.failfast)
    {
      var found;
      selected, found := SearchMirrors(target);
      ok := true;
      if !found {
        var error := ConcludeTarget(target, Failed, Error);
        ok := !error && !cfg.failfast;
      }
    }

    /** The body of the loop of select_next_target for one target: `stop` ends the search. */
    method ConsiderTarget(target: LrTarget) returns (stop: bool, ok: bool, chosen: bool, mirror: LrMirror?)
      requires Valid() && FailuresCounted(view) && PerHostKept(view) && IsTarget(target)
      modifies mirrors`allowedParallelConnections, target`state, target`rcode, this`view, this`endCalls
      ensures Valid() && Known(mirror)
      ensures Consider(old(view), target.id, env)
              == if !stop then Next(view)
                 else if !ok then Stop(Abort(view))
                 else Stop(Chosen(view, target.id, Ref(mirror)))
      ensures chosen ==> ok && stop
    {
      assert TargetTied(target, view.targets[target.id]);
      assert ListTied(target.lrmirrors, ListOf(view, target.id));
      mirror := null;
      if target.state != Waiting {
        return false, true, false, null;
      }
      if !target.req.baseUrl && |target.lrmirrors.items| == 0 && !target.req.completeUrl {
        return true, false, false, null;
      }
      var fullUrl := true;
      if !target.req.Direct() {
        mirror, ok := SelectSuitableMirror(target);
        if !ok {
          return true, false, false, null;
        }
        fullUrl := mirror != null;
      } else if target.req.offline && !target.req.localUrl {
        var error := ConcludeTarget(target, Failed, Error);
        if error || cfg.failfast {
          return true, false, false, null;
        }
      }
      return fullUrl, true, fullUrl, mirror;
    }

    /** The targets from i on are still to be considered, and what comes of it is the goal. */
    ghost predicate Selecting(i: nat, goal: Selection)
      reads this, targets, mirrors, lists
    {
      Valid() && FailuresCounted(view) && PerHostKept(view) && i <= |targets| && goal == SelectFrom(view, i, env)
    }

    ghost predicate Selected(i: nat, ok: bool, mirror: LrMirror?, goal: Selection)
      reads this, targets, mirrors, lists
    {
      Valid() && Known(mirror) && goal == if ok then Chosen(view, i, Ref(mirror)) else Abort(view)
    }

    /** The body of the loop of select_next_target. */
    method TryTarget(i: nat, ghost goal: Selection) returns (stop: bool, ok: bool, mirror: LrMirror?)
      requires i < |targets| && Selecting(i, goal)
      modifies mirrors`allowedParallelConnections, targets`state, targets`rcode, this`view, this`endCalls
      ensures if stop then Selected(i, ok, mirror, goal) else Selecting(i + 1, goal)
    {
      var chosen;
      ConsiderChanges(view, i, env);
      stop, ok, chosen, mirror := ConsiderTarget(targets[i]);
    }

    /** select_next_target: the first waiting target that can be started, and its mirror. */
    method SelectNextTarget() returns (ok: bool, selected: LrTarget?, mirror: LrMirror?)
      requires Valid() && FailuresCounted(view) && PerHostKept(view)
      modifies mirrors`allowedParallelConnections, targets`state, targets`rcode, this`view, this`endCalls
      ensures Valid() && Known(mirror) && (selected != null ==> IsTarget(selected))
      ensures SelectFrom(old(view), 0, env)
              == if !ok then Abort(view)
                 else if selected == null then Nobody(view)
                 else Chosen(view, selected.id, Ref(mirror))
    {
      ghost var goal := SelectFrom(view, 0, env);
      var i := 0;
      while i < |targets|
        invariant 0 <= i <= |targets| && Selecting(i, goal)
      {
        var stop;
        stop, ok, mirror := TryTarget(i, goal);
        if stop {
          return ok, if ok then targets[i] else null, mirror;
        }
        i := i + 1;
      }
      return true, null, null;
    }

    method CountStart(target: LrTarget)
      requires Valid() && IsTarget(target)
      modifies this`view, target`state, target`starts
      ensures Valid()
      ensures var v := old(view).targets[target.id];
              view == old(view).With(target.id, v.(phase := Running, starts := v.starts + 1))
    {
      ghost var v := view.targets[target.id];
      assert TargetTied(target, v);
      target.state := Running;
      target.starts := target.starts + 1;
      view := view.With(target.id, v.(phase := Running, starts := v.starts + 1));
    }

    /** The target is running from now on. */
    method MarkRunning(target: LrTarget)
      requires Valid() && IsTarget(target)
      modifies this`view, this`running, target`state, target`starts
      ensures Valid()
      ensures var v := old(view).targets[target.id];
              view == old(view).With(target.id, v.(phase := Running, starts := v.starts + 1))
                               .(running := old(view).running + [target.id])
    {
      CountStart(target);
      running := running + [target];
      view := view.(running := view.running + [target.id]);
    }

    method CountTransfer(mirror: LrMirror)
      requires Valid() && Known(mirror)
      modifies mirror, this`view
      ensures Valid() && mirror.id < |old(view).mirrors|
      ensures view == old(view).(mirrors := old(view).mirrors[mirror.id := StartOn(old(view).mirrors[mirror.id])])
    {
      view := view.(mirrors := view.mirrors[mirror.id := StartOn(view.mirrors[mirror.id])]);
      mirror.IncreaseRunningTransfers();
    }

    method StartTransfer(target: LrTarget, ghost mirror: Option<nat>)
      requires Valid() && IsTarget(target) && mirror == Ref(target.mirror)
      modifies this`view, this`running, target, target.mirror
      ensures Valid() && view == Start(old(view), target.id, mirror)
    {
      assert TargetTied(target, view.targets[target.id]);
      MarkRunning(target);
      if target.mirror != null {
        CountTransfer(target.mirror);
      }
    }

    method AssignMirror(target: LrTarget, mirror: LrMirror?)
      requires Valid() && IsTarget(target) && Known(mirror)
      modifies target`mirror, this`view
      ensures Valid() && target.mirror == mirror
      ensures view == old(view).With(target.id, old(view).targets[target.id].(mirror := Ref(mirror)))
    {
      assert TargetTied(target, view.targets[target.id]);
      target.mirror := mirror;
      view := view.With(target.id, view.targets[target.id].(mirror := Ref(mirror)));
    }

    /** The rest of prepare_next_transfer once a target is selected. */
    method LaunchTransfer(target: LrTarget, mirror: LrMirror?) returns (ok: bool)
      requires Valid() && IsTarget(target) && Known(mirror)
      modifies target, mirror, this`view, this`running
      ensures Valid()
      ensures ok <==> !env.setupFails(target.id, old(view).targets[target.id].starts)
      ensures view == if ok then Start(old(view), target.id, Ref(mirror))
                      else old(view).With(target.id, old(view).targets[target.id].(mirror := Ref(mirror)))
    {
      assert TargetTied(target, view.targets[target.id]);
      AssignMirror(target, mirror);
      ok := !env.setupFails(target.id, target.starts);
      if ok {
        StartTransfer(target, Ref(mirror));
      }
    }

    /** prepare_next_transfer */
    method PrepareNextTransfer() returns (ok: bool, candidateFound: bool)
      requires Valid() && FailuresCounted(view) && PerHostKept(view)
      modifies this`view, this`endCalls, this`running, mirrors, targets
      ensures Valid()
      ensures PrepareOne(old(view), env)
              == if !ok then Broken(view) else if candidateFound then Started(view) else Idle(view)
    {
      SelectKeepsShape(view, 0, env);
      var target, mirror;
      ok, target, mirror := SelectNextTarget();
      candidateFound := ok && target != null;
      if candidateFound {
        ok := LaunchTransfer(target, mirror);
      }
    }

    /** So many slots are free, and filling them leads to the goal. */
    ghost predicate Filling(slots: int, goal: Progress)
      reads this, targets, mirrors, lists
    {
      Valid() && Inv(view) && 0 <= slots == cfg.maxParallel - |view.running| && goal == PrepareAll(view, slots, env)
    }

    ghost predicate Filled(ok: bool, goal: Progress)
      reads this, targets, mirrors, lists
    {
      Valid() && Inv(view) && goal == Progress(view, ok)
    }

    /** One free slot is filled, if somebody can be started. */
    method FillSlot(ghost slots: nat, ghost goal: Progress) returns (ok: bool, candidateFound: bool)
      requires slots > 0 && Filling(slots, goal)
      modifies this`view, this`endCalls, this`running, mirrors, targets
      ensures if ok && candidateFound then Filling(slots - 1, goal) else Filled(ok, goal)
    {
      InvariantSuffices();
      PrepareOneKeepsInv(view, env);
      ok, candidateFound := PrepareNextTransfer();
    }

    lemma NoSlots(goal: Progress)
      requires Filling(0, goal)
      ensures Filled(true, goal)
    {
    }

    /** The loop of prepare_next_transfers. */
    method FillSlots(ghost slots: nat, ghost goal: Progress) returns (ok: bool)
      requires Filling(slots, goal)
      modifies this`view, this`endCalls, this`running, mirrors, targets
      ensures Filled(ok, goal)
    {
      var freeSlots := cfg.maxParallel - |running|;
      assert freeSlots == slots;
      while freeSlots > 0
        invariant Filling(freeSlots, goal)
      {
        var candidateFound;
        ok, candidateFound := FillSlot(freeSlots, goal);
        if !(ok && candidateFound) {
          return;
        }
        freeSlots := freeSlots - 1;
      }
      NoSlots(goal);
      ok := true;
    }

    /** prepare_next_transfers: fills the free slots and then sets the speed limits, which curl may
        refuse if anything runs. */
    method PrepareNextTransfers() returns (ok: bool, ghost events: seq<Event>)
      requires Valid() && Inv(view)
      modifies this`view, this`endCalls, this`running, mirrors, targets
      ensures Valid() && Inv(view)
      ensures Progress(view, ok) == Execute(old(view), events, env)
      ensures events == [Refill] || (events == [Refill, Interruption] && !ok && running != [])
    {
      OneEvent(view, Refill, env);
      ok := FillSlots(cfg.maxParallel - |view.running|, Apply(view, Refill, env));
      events := [Refill];
      if ok && running != [] {
        var refused: bool := *;
        if refused {
          ExecuteAppend(old(view), events, Interruption, env);
          ok, events := false, [Refill, Interruption];
        }
      }
    }

    lemma OneEvent(s: State, e: Event, env: Env)
      requires Shape(s)
      ensures Execute(s, [e], env) == Apply(s, e, env)
    {
      ApplyKeepsShape(s, e, env);
      assert [e][1..] == [];
    }

    // -------------------------------------------------------------- finishing

    ghost predicate SameIds(run: seq<LrTarget>, ids: seq<nat>) {
      |run| == |ids| && forall k :: 0 <= k < |run| ==> run[k].id == ids[k] && IsTarget(run[k])
    }

    lemma SameIdsCons(t: LrTarget, run: seq<LrTarget>, ids: seq<nat>)
      requires IsTarget(t) && SameIds(run, ids)
      ensures SameIds([t] + run, [t.id] + ids)
    {
    }

    lemma RunningIds(target: LrTarget, run: seq<LrTarget>, ids: seq<nat>)
      requires SameIds(run, ids) && IsTarget(target)
      ensures SameIds(RemoveFirst(run, target), RemoveFirst(ids, target.id))
      ensures target in run <==> target.id in ids
    {
      if run != [] {
        var t := run[0];
        assert SameIds(run[1..], ids[1..]);
        assert run == [t] + run[1..] && ids == [t.id] + ids[1..];
        assert t == target <==> t.id == target.id;
        RunningIds(target, run[1..], ids[1..]);
        SameIdsCons(t, RemoveFirst(run[1..], target), RemoveFirst(ids[1..], target.id));
      }
    }

    method RemoveRunning(target: LrTarget)
      requires Valid() && IsTarget(target)
      modifies this`running, this`view
      ensures Valid() && view == old(view).(running := RemoveFirst(old(view).running, target.id))
    {
      RunningIds(target, running, view.running);
      running := RemoveFirst(running, target);
      view := view.(running := RemoveFirst(view.running, target.id));
    }

    method SetTried(target: LrTarget, tried: seq<LrMirror?>, ghost ids: seq<Option<nat>>)
      requires Valid() && IsTarget(target)
      requires SameTries(tried, ids)
      modifies this`view, target`triedMirrors
      ensures Valid()
      ensures view == old(view).With(target.id, old(view).targets[target.id].(tried := ids))
    {
      ghost var v := view.targets[target.id];
      assert TargetTied(target, v);
      target.triedMirrors := tried;
      view := view.With(target.id, v.(tried := ids));
    }

    method AddTried(target: LrTarget)
      requires Valid() && IsTarget(target)
      modifies this`view, target`triedMirrors
      ensures Valid()
      ensures var v := old(view).targets[target.id];
              view == old(view).With(target.id, v.(tried := v.tried + [v.mirror]))
    {
      ghost var v := view.targets[target.id];
      assert TargetTied(target, v);
      SetTried(target, target.triedMirrors + [target.mirror], v.tried + [v.mirror]);
    }

    method RecordResult(mirror: LrMirror, success: bool)
      requires Valid() && Known(mirror)
      modifies mirror, this`view
      ensures Valid() && mirror.id < |old(view).mirrors|
      ensures view == old(view).(mirrors := old(view).mirrors[
                        mirror.id := Schedule.UpdateStatistics(old(view).mirrors[mirror.id], success)])
    {
      mirror.UpdateStatistics(success);
      view := view.(mirrors := view.mirrors[
                      mirror.id := Schedule.UpdateStatistics(view.mirrors[mirror.id], success)]);
    }

    lemma SortKeepsShape(list: seq<nat>, ms: seq<Mirror>, m: nat, success: bool, serious: bool)
      requires m in list && ListShape(list, |ms|)
      ensures ListShape(Schedule.SortMirrors(list, ms, m, success, serious), |ms|)
    {
    }

    /** The list of a target may be sorted by one of its mirrors. */
    lemma ListIsSortable(target: LrTarget, mirror: LrMirror)
      requires Valid() && IsTarget(target) && Known(mirror) && mirror.id in ListOf(view, target.id)
      ensures target.req.list < |lists| && view.targets[target.id].req == target.req
      ensures target.lrmirrors == lists[target.req.list] && ListTied(target.lrmirrors, ListOf(view, target.id))
      ensures target.lrmirrors.Represents(ListOf(view, target.id))
      ensures target.lrmirrors.Shows(view.mirrors, cfg.maxPerHost) && mirror in target.lrmirrors.items
      ensures forall k :: 0 <= k < |target.lrmirrors.items| && target.lrmirrors.items[k].id == mirror.id ==>
                target.lrmirrors.items[k] == mirror
    {
      assert TargetTied(target, view.targets[target.id]);
      var list := ListOf(view, target.id);
      var k :| 0 <= k < |list| && list[k] == mirror.id;
      assert target.lrmirrors.items[k] == mirrors[mirror.id];
    }

    method Reorder(target: LrTarget, mirror: LrMirror, success: bool, serious: bool)
      requires Valid() && IsTarget(target) && Known(mirror) && mirror.id in ListOf(view, target.id)
      modifies target.lrmirrors, this`view
      ensures Valid()
      ensures var list := ListOf(old(view), target.id);
              && mirror.id in list && ListShape(list, |old(view).mirrors|)
              && view == old(view).(lists := old(view).lists[old(view).targets[target.id].req.list :=
                           Schedule.SortMirrors(list, old(view).mirrors, mirror.id, success, serious)])
    {
      ListIsSortable(target, mirror);
      ghost var l, list := target.req.list, ListOf(view, target.id);
      ghost var sorted := Schedule.SortMirrors(list, view.mirrors, mirror.id, success, serious);
      SortKeepsShape(list, view.mirrors, mirror.id, success, serious);
      target.lrmirrors.SortMirrors(mirror, success, serious, list, view.mirrors, cfg.maxPerHost);
      view := view.(lists := view.lists[l := sorted]);
      assert ListTied(target.lrmirrors, sorted);
    }

    /** The bookkeeping after every transfer: running list, tried mirrors, statistics, mirror order. */
    method SettleTarget(target: LrTarget, success: bool, serious: bool)
      requires Valid() && IsTarget(target)
      requires view.targets[target.id].mirror.Some? ==>
                 view.targets[target.id].mirror.value in ListOf(view, target.id)
      modifies this`running, this`view, target`triedMirrors, target.mirror, target.lrmirrors
      ensures Valid() && view == Settle(old(view), target.id, success, serious)
    {
      assert TargetTied(target, view.targets[target.id]);
      RemoveRunning(target);
      AddTried(target);
      if target.mirror != null {
        RecordResult(target.mirror, success);
        if cfg.adaptive {
          Reorder(target, target.mirror, success, serious);
        }
      }
    }

    ghost predicate SameTries(objs: seq<LrMirror?>, ids: seq<Option<nat>>) {
      |objs| == |ids| && forall k :: 0 <= k < |ids| ==> Ref(objs[k]) == ids[k] && Known(objs[k])
    }

    lemma SameTriesCons(o: LrMirror?, objs: seq<LrMirror?>, ids: seq<Option<nat>>)
      requires Known(o) && SameTries(objs, ids)
      ensures SameTries([o] + objs, [Ref(o)] + ids)
    {
    }

    lemma {:induction false} TriedIds(m: LrMirror, objs: seq<LrMirror?>, ids: seq<Option<nat>>)
      requires SameTries(objs, ids) && Known(m)
      ensures SameTries(RemoveFirst(objs, m), RemoveFirst(ids, Some(m.id)))
    {
      if objs != [] {
        var o := objs[0];
        assert SameTries(objs[1..], ids[1..]);
        assert objs == [o] + objs[1..] && ids == [Ref(o)] + ids[1..];
        assert o == m <==> Ref(o) == Some(m.id);
        TriedIds(m, objs[1..], ids[1..]);
        SameTriesCons(o, RemoveFirst(objs[1..], m), RemoveFirst(ids[1..], Some(m.id)));
      }
    }

    method RemoveTried(target: LrTarget, mirror: LrMirror)
      requires Valid() && IsTarget(target) && Known(mirror)
      modifies target`triedMirrors, this`view
      ensures Valid()
      ensures var v := old(view).targets[target.id];
              view == old(view).With(target.id, v.(tried := RemoveFirst(v.tried, Some(mirror.id))))
    {
      ghost var v := view.targets[target.id];
      assert TargetTied(target, v);
      TriedIds(mirror, target.triedMirrors, v.tried);
      SetTried(target, RemoveFirst(target.triedMirrors, mirror), RemoveFirst(v.tried, Some(mirror.id)));
    }

    method LowerConnections(mirror: LrMirror)
      requires Valid() && Known(mirror)
      modifies mirror, this`view
      ensures Valid() && mirror.id < |old(view).mirrors|
      ensures view == old(view).(mirrors := old(view).mirrors[mirror.id := Lowered(old(view).mirrors[mirror.id])])
    {
      assert mirror.View(cfg.maxPerHost) == view.mirrors[mirror.id];
      if mirror.HasRunningTransfers() {
        mirror.allowedParallelConnections := mirror.runningTransfers;
      } else {
        mirror.allowedParallelConnections := 1;
      }
      view := view.(mirrors := view.mirrors[mirror.id := Lowered(view.mirrors[mirror.id])]);
    }

    /** The mirror may only accept fewer connections: its limit falls and the target may use it again. */
    method GiveSecondChance(target: LrTarget, mirror: LrMirror)
      requires Valid() && IsTarget(target) && target.mirror == mirror && Known(mirror)
      modifies target`triedMirrors, mirror, this`view
      ensures Valid() && mirror.id < |old(view).mirrors| && old(view).targets[target.id].mirror == Some(mirror.id)
      ensures view == Forgive(old(view), target.id)
    {
      assert TargetTied(target, view.targets[target.id]);
      LowerConnections(mirror);
      RemoveTried(target, mirror);
    }

    /** The statistics after a failure, and whether the mirror is to get a second chance. */
    method SettleFailure(target: LrTarget, serious: bool, cancelled: bool) returns (forgiven: bool)
      requires Valid() && IsTarget(target)
      requires view.targets[target.id].mirror.Some? ==>
                 view.targets[target.id].mirror.value in ListOf(view, target.id)
      modifies this`running, this`view, target`triedMirrors, target.mirror, target.lrmirrors
      ensures Valid() && view == Settle(old(view), target.id, false, serious)
      ensures target.mirror == old(target.mirror) && Known(target.mirror)
      ensures old(view).targets[target.id].mirror == Ref(target.mirror)
      ensures target.mirror != null ==> target.mirror.id < |view.mirrors|
      ensures forgiven <==> !cancelled && serious && target.mirror != null && Forgivable(view.mirrors[target.mirror.id])
    {
      assert TargetTied(target, view.targets[target.id]);
      SettleTarget(target, false, serious);
      var mirror := target.mirror;
      forgiven := false;
      if !cancelled && serious && mirror != null {
        assert mirror.View(cfg.maxPerHost) == view.mirrors[mirror.id];
        forgiven := mirror.HasRunningTransfers()
                    || (mirror.successfulTransfers > 0 && mirror.failedTransfers < mirror.maxTriedParallelConnections);
      }
    }

    method SettleError(target: LrTarget, serious: bool, cancelled: bool)
      requires Valid() && IsTarget(target)
      requires view.targets[target.id].mirror.Some? ==>
                 view.targets[target.id].mirror.value in ListOf(view, target.id)
      modifies this`running, this`view, target, target.mirror, target.lrmirrors
      ensures Valid() && view == AfterError(old(view), target.id, serious, cancelled)
    {
      var forgiven := SettleFailure(target, serious, cancelled);
      if forgiven {
        GiveSecondChance(target, target.mirror);
      }
    }

    method PutBack(target: LrTarget)
      requires Valid() && IsTarget(target)
      modifies target`state, target`rcode, this`view
      ensures Valid() && view == Retry(old(view), target.id)
    {
      assert TargetTied(target, view.targets[target.id]);
      SetState(target, Waiting, target.rcode);
    }

    /** The error path: another try, or the end of the target. */
    method FinishError(target: LrTarget, o: Outcome) returns (ok: bool)
      requires Valid() && IsTarget(target) && o.TransferError?
      requires view.targets[target.id].mirror.Some? ==>
                 view.targets[target.id].mirror.value in ListOf(view, target.id)
      modifies this`running, this`view, this`endCalls, target, target.mirror, target.lrmirrors
      ensures Valid()
      ensures var cancelled := o.fatal || o.failureCb != CbOk;
              var s2 := AfterError(old(view), target.id, o.serious, cancelled);
              if !cancelled && CanRetry(cfg, target.req, |s2.targets[target.id].tried|)
              then view == Retry(s2, target.id) && ok == !o.truncateFails
              else view == Conclude(s2, target.id, Failed, Error)
                   && ok == !(cfg.failfast || o.failureCb == CbError || o.progressError || env.endCb(|s2.notes|))
    {
      var cancelled := o.fatal || o.failureCb != CbOk;
      SettleError(target, o.serious, cancelled);
      assert TargetTied(target, view.targets[target.id]);
      if !cancelled && CanRetry(cfg, target.req, |target.triedMirrors|) {
        PutBack(target);
        ok := !o.truncateFails;
      } else {
        var error := ConcludeTarget(target, Failed, Error);
        ok := !(cfg.failfast || o.failureCb == CbError || o.progressError || error);
      }
    }

    /** One finished transfer in check_transfer_statuses. */
    method FinishTransfer(target: LrTarget, o: Outcome) returns (ok: bool)
      requires Valid() && IsTarget(target) && target in running
      requires view.targets[target.id].mirror.Some? ==>
                 view.targets[target.id].mirror.value in ListOf(view, target.id)
      modifies this`running, this`view, this`endCalls, target, target.mirror, target.lrmirrors
      ensures Valid() && Progress(view, ok) == Finish(old(view), target.id, o, env)
    {
      RunningIds(target, running, view.running);
      match o
      case ChecksumUnavailable =>
        ok := false;
      case Success =>
        SettleTarget(target, true, false);
        var error := ConcludeTarget(target, Finished, Ok);
        ok := !error;
      case TransferError(serious, fatal, progressError, failureCb, truncateFails) =>
        ok := FinishError(target, o);
    }

    /** curl reports one running transfer, whichever and however it likes. */
    method TakeReport() returns (ok: bool, ghost e: Event)
      requires Valid() && Inv(view) && running != []
      modifies this`running, this`view, this`endCalls, targets, mirrors, lists
      ensures Valid() && Inv(view) && Shape(old(view))
      ensures Progress(view, ok) == Apply(old(view), e, env)
      ensures Potential(view) <= Potential(old(view))
      ensures ok ==> Potential(view) < Potential(old(view))
    {
      var k :| 0 <= k < |running|;
      var o: Outcome := *;
      var target := running[k];
      e := Report(target.id, o);
      RunningIds(target, running, view.running);
      ApplyKeepsInv(view, e, env);
      ApplySpends(view, e, env);
      assert TargetTied(target, view.targets[target.id]) && TargetOk(view, target.id);
      ok := FinishTransfer(target, o);
    }

    /** The loop of check_transfer_statuses: at least one report when something runs. */
    method TakeReports() returns (ok: bool, ghost events: seq<Event>)
      requires Valid() && Inv(view)
      modifies this`running, this`view, this`endCalls, targets, mirrors, lists
      ensures Valid() && Inv(view)
      ensures Progress(view, ok) == Execute(old(view), events, env)
      ensures Potential(view) <= Potential(old(view))
      ensures ok && old(running) != [] ==> Potential(view) < Potential(old(view))
    {
      ok, events := true, [];
      var more := running != [];
      while more
        invariant Valid() && Inv(view)
        invariant ok && Execute(old(view), events, env) == Progress(view, true)
        invariant more ==> running != []
        invariant Potential(view) <= Potential(old(view))
        invariant old(running) != [] && !more ==> Potential(view) < Potential(old(view))
        decreases Potential(view), more
      {
        ghost var e;
        ok, e := TakeReport();
        ExecuteAppend(old(view), events, e, env);
        events := events + [e];
        if !ok {
          return;
        }
        var again: bool := *;
        more := again && running != [];
      }
    }

    /** check_transfer_statuses: takes in what curl reports and then starts new transfers. */
    method CheckTransferStatuses() returns (ok: bool, ghost events: seq<Event>)
      requires Valid() && Inv(view)
      modifies this`running, this`view, this`endCalls, targets, mirrors, lists
      ensures Valid() && Inv(view)
      ensures Progress(view, ok) == Execute(old(view), events, env)
      ensures ok ==> EndsInRefill(events)
      ensures ok && old(running) != [] ==> Potential(view) < Potential(old(view))
    {
      ok, events := TakeReports();
      if !ok {
        return;
      }
      ghost var s, more := view, [];
      ApplySpends(s, Refill, env);
      OneEvent(s, Refill, env);
      ok, more := PrepareNextTransfers();
      GoesOn(old(view), events, s, more, Progress(view, ok), env);
      if ok {
        EndsInRefillConcat(events, more);
      }
      events := events + more;
    }

    /** One pass of the loop of lr_perform; a signal or an error of the curl multi interface may break the
        run off. */
    method PerformOnce() returns (ok: bool, ghost events: seq<Event>)
      requires Valid() && Inv(view) && (running == [] ==> Quiet(view))
      modifies this`running, this`view, this`endCalls, targets, mirrors, lists
      ensures Valid() && Inv(view)
      ensures Progress(view, ok) == Execute(old(view), events, env)
      ensures ok ==> EndsInRefill(events)
      ensures ok && running != [] ==> Potential(view) < Potential(old(view))
    {
      var interrupted: bool := *;
      if interrupted {
        OneEvent(view, Interruption, env);
        return false, [Interruption];
      }
      ok, events := CheckTransferStatuses();
      if old(running) == [] {
        QuietStays(old(view), events, env);
      }
    }

    /** lr_perform: until nothing runs after a refill. The loop ends because reports use up the supply. */
    method Perform() returns (ok: bool, ghost events: seq<Event>)
      requires Valid() && Inv(view) && (running == [] ==> Quiet(view))
      modifies this`running, this`view, this`endCalls, targets, mirrors, lists
      ensures Valid() && Inv(view)
      ensures Progress(view, ok) == Execute(old(view), events, env)
      ensures ok ==> running == [] && EndsInRefill(events)
    {
      events := [];
      while true
        invariant Valid() && Inv(view) && (running == [] ==> Quiet(view))
        invariant Execute(old(view), events, env) == Progress(view, true)
        decreases Potential(view)
      {
        ghost var s, more := view, [];
        ok, more := PerformOnce();
        GoesOn(old(view), events, s, more, Progress(view, ok), env);
        if ok {
          EndsInRefillConcat(events, more);
        }
        events := events + more;
        if !ok || running == [] {
          return;
        }
      }
    }

    /** The cleanup after an error: running transfers are stopped and their end callbacks called. */
    method StopTransfers()
      requires Valid()
      modifies this`running, this`view, this`endCalls, targets`state, targets`rcode
      ensures Valid() && view == Abandon(old(view)) && running == []
    {
      while running != []
        invariant Valid() && Abandon(view) == Abandon(old(view))
        decreases |running|
      {
        StopFirst();
      }
    }

    method StopFirst()
      requires Valid() && running != []
      modifies this`running, this`view, this`endCalls, targets`state, targets`rcode
      ensures Valid() && |running| == |old(running)| - 1
      ensures Abandon(view) == Abandon(old(view))
    {
      NotifyUnfinished(running[0]);
      running := running[1..];
      view := view.(running := view.running[1..]);
    }

    method NotifyUnfinished(target: LrTarget)
      requires Valid() && IsTarget(target)
      modifies target`state, target`rcode, this`view, this`endCalls
      ensures Valid()
      ensures var t := target.id;
              view == old(view).With(t, old(view).targets[t].(rcode := Unfinished))
                               .(notes := old(view).notes + [Note(t, false)])
    {
      assert TargetTied(target, view.targets[target.id]);
      SetState(target, target.state, Unfinished);
      var answer := CallEndCb(target, false);
    }

    /** The run itself, up to the cleanup. */
    method Run() returns (ok: bool, ghost events: seq<Event>)
      requires Valid() && Inv(view)
      modifies this`running, this`view, this`endCalls, targets, mirrors, lists
      ensures Valid() && Progress(view, ok) == Execute(old(view), events, env)
      ensures ok ==> running == [] && EndsInRefill(events)
    {
      ghost var s := view;
      OneEvent(s, Refill, env);
      ok, events := PrepareNextTransfers();
      if ok {
        if running == [] {
          RefillLeavesQuiet(s, env);
        }
        ghost var mid, more := view, [];
        ok, more := Perform();
        GoesOn(s, events, mid, more, Progress(view, ok), env);
        if ok {
          EndsInRefillConcat(events, more);
        }
        events := events + more;
      }
    }

    /** lr_download: the whole run, for any environment. It returns TRUE exactly when the run ends as
        ReturnsTrue says; otherwise the transfers that still run are abandoned. */
    method Download() returns (ok: bool, ghost events: seq<Event>)
      requires Valid() && Init(view)
      modifies this, targets, mirrors, lists
      ensures Valid() && running == []
      ensures ok == Execute(old(view), events, env).ok && Shape(Execute(old(view), events, env).s)
      ensures ok ==> view == Execute(old(view), events, env).s && ReturnsTrue(old(view), events, env)
      ensures !ok ==> view == Abandon(Execute(old(view), events, env).s)
      ensures TotalStarts(Execute(old(view), events, env).s) <= TransferBound(old(view))
    {
      InitOk(view);
      ok, events := Run();
      StartsAreBounded(old(view), events, env);
      if !ok {
        StopTransfers();
      }
    }

    lemma RefillLeavesQuiet(s: State, env: Env)
      requires Inv(s) && Apply(s, Refill, env).ok && Apply(s, Refill, env).s.running == []
      ensures Quiet(Apply(s, Refill, env).s)
    {
      PrepareAllEvolves(s, s.cfg.maxParallel - |s.running|, env);
      forall t | 0 <= t < |s.targets|
        ensures Apply(s, Refill, env).s.targets[t].phase != Waiting
      {
        PrepareAllStarvesNobody(s, s.cfg.maxParallel - |s.running|, env, t);
      }
    }
  }
}
