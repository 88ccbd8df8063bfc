/** Why the nested loops of select_suitable_mirror find the least free mirror in (level, position)
    order: what is known before iteration `level` reaches position `p`, and how it moves on. */
module MirrorSearch {
  import opened Wrappers
  import opened Schedule

  /** The tests a mirror passes in the given iteration, fullness aside. */
  predicate Considered(cfg: Config, tg: Target, m: nat, mirror: Mirror, iteration: int) {
    && (if iteration == 0 then Some(m) !in tg.tried && !mirror.Bad(cfg)
        else mirror.protocol != File && iteration >= mirror.failed)
    && mirror.protocol != Rsync
    && !(tg.req.offline && mirror.protocol != File)
  }

  predicate ConsideredAt(s: State, t: nat, iteration: int, p: nat)
    requires Shape(s) && t < |s.targets| && p < |ListOf(s, t)|
  {
    Considered(s.cfg, s.targets[t], ListOf(s, t)[p], s.mirrors[ListOf(s, t)[p]], iteration)
  }

  /** The loop condition under which an iteration is entered. */
  predicate Entered(s: State, t: nat, iteration: int)
    requires t < |s.targets|
  {
    iteration == 0
    || (0 < iteration < s.cfg.allowedFailures && |s.targets[t].tried| < s.cfg.allowedFailures)
  }

  predicate Before(s: State, t: nat, q: nat, iteration: int, p: nat)
    requires Shape(s) && t < |s.targets| && q < |ListOf(s, t)|
  {
    LevelAt(s, t, q).Some?
    && (LevelAt(s, t, q).value < iteration || (LevelAt(s, t, q).value == iteration && q < p))
  }

  ghost predicate Searched(s: State, t: nat, iteration: int, p: nat, found: bool)
    requires Shape(s) && t < |s.targets|
  {
    && (found ==> exists q: nat :: q < |ListOf(s, t)| && Before(s, t, q, iteration, p))
    && (forall q: nat :: q < |ListOf(s, t)| && Before(s, t, q, iteration, p) ==> found && !Free(s, t, q))
  }

  lemma LevelIsFirstIteration(cfg: Config, tg: Target, m: nat, mirror: Mirror, iteration: int)
    requires mirror.failed >= 0
    requires iteration == 0 || (0 < iteration < cfg.allowedFailures && |tg.tried| < cfg.allowedFailures)
    ensures var level := Level(cfg, tg, m, mirror);
            && (Considered(cfg, tg, m, mirror, iteration) ==> level.Some? && level.value <= iteration)
            && (level == Some(iteration) ==> Considered(cfg, tg, m, mirror, iteration))
  {
  }

  lemma SearchStarts(s: State, t: nat)
    requires Shape(s) && t < |s.targets| && FailuresCounted(s)
    ensures Searched(s, t, 0, 0, false)
  {
  }

  ghost predicate FailuresCounted(s: State) {
    forall m :: 0 <= m < |s.mirrors| ==> s.mirrors[m].failed >= 0
  }

  lemma PassOver(s: State, t: nat, iteration: int, p: nat, found: bool)
    requires Shape(s) && t < |s.targets| && FailuresCounted(s)
    requires Entered(s, t, iteration) && p < |ListOf(s, t)| && Searched(s, t, iteration, p, found)
    requires ConsideredAt(s, t, iteration, p) ==> s.mirrors[ListOf(s, t)[p]].Full()
    ensures Searched(s, t, iteration, p + 1, found || ConsideredAt(s, t, iteration, p))
  {
    var m := ListOf(s, t)[p];
    LevelIsFirstIteration(s.cfg, s.targets[t], m, s.mirrors[m], iteration);
    if found {
      var q: nat :| q < |ListOf(s, t)| && Before(s, t, q, iteration, p);
      assert Before(s, t, q, iteration, p + 1);
    } else if ConsideredAt(s, t, iteration, p) {
      assert Before(s, t, p, iteration, p + 1);
    }
    var next := p + 1;
    forall q: nat | q < |ListOf(s, t)| && Before(s, t, q, iteration, next)
      ensures !Free(s, t, q)
      ensures found || ConsideredAt(s, t, iteration, p)
    {
      if q != p || LevelAt(s, t, p) != Some(iteration) {
        assert Before(s, t, q, iteration, p);
      }
    }
  }

  lemma PickUp(s: State, t: nat, iteration: int, p: nat, found: bool)
    requires Shape(s) && t < |s.targets| && FailuresCounted(s)
    requires Entered(s, t, iteration) && p < |ListOf(s, t)| && Searched(s, t, iteration, p, found)
    requires ConsideredAt(s, t, iteration, p) && !s.mirrors[ListOf(s, t)[p]].Full()
    ensures Choose(s, t) == Some(p) && AnyEligible(s, t)
  {
    var m := ListOf(s, t)[p];
    LevelIsFirstIteration(s.cfg, s.targets[t], m, s.mirrors[m], iteration);
    assert Free(s, t, p);
    forall q: nat | q < |ListOf(s, t)| && Free(s, t, q)
      ensures NotAfter(s, t, p, q)
    {
      assert !Before(s, t, q, iteration, p);
    }
    BestIsUnique(s, t, p);
  }

  lemma NextIteration(s: State, t: nat, iteration: int, found: bool)
    requires Shape(s) && t < |s.targets| && Searched(s, t, iteration, |ListOf(s, t)|, found)
    ensures Searched(s, t, iteration + 1, 0, found)
  {
    if found {
      var q: nat :| q < |ListOf(s, t)| && Before(s, t, q, iteration, |ListOf(s, t)|);
      assert Before(s, t, q, iteration + 1, 0);
    }
    var next := iteration + 1;
    forall q: nat | q < |ListOf(s, t)| && Before(s, t, q, next, 0)
      ensures found && !Free(s, t, q)
    {
      assert Before(s, t, q, iteration, |ListOf(s, t)|);
    }
  }

  /** Some mirror among the first n of the list is not a local path. */
  ghost predicate AnyRemote(s: State, t: nat, n: nat)
    requires Shape(s) && t < |s.targets|
  {
    exists q: nat :: q < n && q < |ListOf(s, t)| && s.mirrors[ListOf(s, t)[q]].protocol != File
  }

  lemma MoreRemote(s: State, t: nat, p: nat)
    requires Shape(s) && t < |s.targets| && p < |ListOf(s, t)|
    ensures AnyRemote(s, t, p + 1) <==> AnyRemote(s, t, p) || s.mirrors[ListOf(s, t)[p]].protocol != File
    ensures !AnyRemote(s, t, 0)
  {
  }

  /** When the outer loop ends every level there is has been searched. */
  lemma SearchEnds(s: State, t: nat, iteration: int, found: bool, reiterate: bool)
    requires Shape(s) && t < |s.targets| && FailuresCounted(s)
    requires iteration >= 1 && Searched(s, t, iteration, 0, found)
    requires reiterate <==> AnyRemote(s, t, |ListOf(s, t)|)
    requires !(reiterate && |s.targets[t].tried| < s.cfg.allowedFailures && iteration < s.cfg.allowedFailures)
    ensures Choose(s, t) == None && (found <==> AnyEligible(s, t))
  {
    forall q: nat | q < |ListOf(s, t)| && Eligible(s, t, q)
      ensures Before(s, t, q, iteration, 0)
    {
      var m := s.mirrors[ListOf(s, t)[q]];
      assert LevelAt(s, t, q).value > 0 ==> m.protocol != File;
    }
    if found {
      var q: nat :| q < |ListOf(s, t)| && Before(s, t, q, iteration, 0);
      assert Eligible(s, t, q);
    }
  }
}
