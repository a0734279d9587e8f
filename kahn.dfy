/** The level-by-level Kahn rounds of DependencyGraph.CalculateSort, stated
    over an abstract process type `P` and the predecessor relation `preds`. */
module Kahn {

  /** The processes of `unused` none of whose predecessors is still unused:
      the set selected at the start of each round. Everything a selected
      process waits on is already placed. */
  function Level<P>(unused: set<P>, preds: map<P, set<P>>): (level: set<P>)
    requires unused <= preds.Keys
    ensures level <= unused
    ensures forall p | p in level :: preds[p] !! unused
  {
    set p | p in unused && preds[p] !! unused
  }

  /** Some set of `bs` holds `p`. */
  ghost predicate Placed<P>(bs: seq<set<P>>, p: P)
  {
    exists i :: 0 <= i < |bs| && p in bs[i]
  }

  /** What the rounds of the do-while loop produce: the levels extracted in
      order, whether the loop stopped on an empty level (`stuck`), and the
      processes still unplaced when it stopped. */
  datatype Leveling<P> = Leveling(levels: seq<set<P>>, stuck: bool, remaining: set<P>)

  /** A nonempty level is a subset of `unused`, so removing it shrinks `unused`. */
  lemma LevelShrinks<P>(unused: set<P>, level: set<P>)
    requires level <= unused && level != {}
    ensures |unused - level| < |unused|
  {
    var x :| x in level;
    assert unused - level <= unused - {x};
    assert |unused - {x}| == |unused| - 1;
    SubsetCardinality(unused - level, unused - {x});
  }

  lemma {:induction false} SubsetCardinality<X>(a: set<X>, b: set<X>)
    requires a <= b
    ensures |a| <= |b|
    decreases |b|
  {
    if b != {} {
      var x :| x in b;
      SubsetCardinality(a - {x}, b - {x});
    }
  }

  /** The rounds of the loop, starting from the unplaced set `unused`. As in
      the source's do-while, the first round runs even when `unused` is
      empty, and then finds an empty level. */
  ghost function Levels<P>(unused: set<P>, preds: map<P, set<P>>): (l: Leveling<P>)
    requires unused <= preds.Keys
    ensures l.remaining <= unused
    ensures l.stuck ==> Level(l.remaining, preds) == {}
    ensures !l.stuck ==> l.remaining == {} && l.levels != []
    decreases |unused|
  {
    var level := Level(unused, preds);
    if level == {} then Leveling([], true, unused)
    else
      var rest := unused - level;
      LevelShrinks(unused, level);
      if rest == {} then Leveling([level], false, {})
      else
        var next := Levels(rest, preds);
        Leveling([level] + next.levels, next.stuck, next.remaining)
  }

  /** Every process of `s` has a predecessor inside `s`: a set of processes
      that no round can ever start on (a cycle, or a set that waits on one). */
  ghost predicate Blocked<P>(s: set<P>, preds: map<P, set<P>>)
  {
    forall p | p in s :: p in preds && !(preds[p] !! s)
  }

  /** Some nonempty part of `unused` is blocked. */
  ghost predicate HasCycle<P>(unused: set<P>, preds: map<P, set<P>>)
  {
    exists s :: Blocked(s, preds) && s != {} && s <= unused
  }

  /** One round of the loop, spelled out. */
  lemma LevelsUnfold<P>(unused: set<P>, preds: map<P, set<P>>)
    requires unused <= preds.Keys
    ensures var level, l := Level(unused, preds), Levels(unused, preds);
      && level <= unused
      && (level == {} ==> l == Leveling([], true, unused))
      && (level != {} && unused - level == {} ==> level == unused && l == Leveling([level], false, {}))
      && (level != {} && unused - level != {} ==>
            |unused - level| < |unused| &&
            var next := Levels(unused - level, preds);
            l == Leveling([level] + next.levels, next.stuck, next.remaining))
  {
    var level := Level(unused, preds);
    if level != {} {
      LevelShrinks(unused, level);
    }
  }

  /** A round that takes the nonempty `level` and leaves the nonempty `rest`. */
  lemma LevelsCons<P>(unused: set<P>, preds: map<P, set<P>>, level: set<P>, rest: set<P>)
    requires unused <= preds.Keys
    requires Level(unused, preds) == level && level != {}
    requires unused - level == rest && rest != {}
    ensures rest <= preds.Keys
    ensures var next := Levels(rest, preds);
      Levels(unused, preds) == Leveling([level] + next.levels, next.stuck, next.remaining)
  {
    LevelsUnfold(unused, preds);
  }

  /** A last round, which takes every process still unplaced. */
  lemma LevelsLast<P>(unused: set<P>, preds: map<P, set<P>>)
    requires unused <= preds.Keys
    requires Level(unused, preds) == unused && unused != {}
    ensures Levels(unused, preds) == Leveling([unused], false, {})
  {
    LevelsUnfold(unused, preds);
  }

  /** One round of the level loop: when the levels of `all` are `done`
      followed by the levels of `unused`, the next level either is empty
      (and `done` are all the levels, with the sort stuck), or uses up
      `unused` (and `done` plus it are all the levels), or leaves a smaller
      rest whose levels complete `done` plus it. */
  lemma LevelsStep<P>(total: Leveling<P>, unused: set<P>, preds: map<P, set<P>>, done: seq<set<P>>)
    requires unused <= preds.Keys
    requires total.levels == done + Levels(unused, preds).levels
    requires total.stuck == Levels(unused, preds).stuck
    ensures var level := Level(unused, preds);
      && level <= unused
      && (level == {} ==> total.levels == done && total.stuck)
      && (level != {} && unused - level == {} ==> total.levels == done + [level] && !total.stuck)
      && (level != {} && unused - level != {} ==>
            && |unused - level| < |unused|
            && total.levels == (done + [level]) + Levels(unused - level, preds).levels
            && total.stuck == Levels(unused - level, preds).stuck)
  {
    LevelsUnfold(unused, preds);
    var level := Level(unused, preds);
    if level == {} {
      assert done + [] == done;
    } else if unused - level != {} {
      var next := Levels(unused - level, preds).levels;
      assert done + ([level] + next) == (done + [level]) + next;
    }
  }


  /** The levels are nonempty subsets of `unused`, and the processes left
      over are part of `unused` and in no level. */
  lemma {:induction false} LevelsWithin<P>(unused: set<P>, preds: map<P, set<P>>)
    requires unused <= preds.Keys
    ensures var l := Levels(unused, preds);
      && l.remaining <= unused
      && forall i | 0 <= i < |l.levels| :: l.levels[i] != {} && l.levels[i] <= unused && l.levels[i] !! l.remaining
    decreases |unused|
  {
    LevelsUnfold(unused, preds);
    var level := Level(unused, preds);
    if level != {} && unused - level != {} {
      LevelsWithin(unused - level, preds);
      var l, next := Levels(unused, preds), Levels(unused - level, preds);
      forall i | 1 <= i < |l.levels|
        ensures l.levels[i] != {} && l.levels[i] <= unused && l.levels[i] !! l.remaining
      {
        assert l.levels[i] == next.levels[i - 1];
      }
    }
  }

  /** No process is placed in two levels. */
  lemma {:induction false} LevelsDisjoint<P>(unused: set<P>, preds: map<P, set<P>>)
    requires unused <= preds.Keys
    ensures var l := Levels(unused, preds);
      forall i, j | 0 <= i < j < |l.levels| :: l.levels[i] !! l.levels[j]
    decreases |unused|
  {
    LevelsUnfold(unused, preds);
    var level := Level(unused, preds);
    if level != {} && unused - level != {} {
      var rest := unused - level;
      LevelsDisjoint(rest, preds);
      LevelsWithin(rest, preds);
      var next := Levels(rest, preds).levels;
      assert Levels(unused, preds).levels == [level] + next;
      ConsDisjoint(level, next, rest);
    }
  }

  /** Putting a set in front of pairwise disjoint subsets of a set it is
      disjoint from keeps them pairwise disjoint. */
  lemma ConsDisjoint<P>(level: set<P>, next: seq<set<P>>, rest: set<P>)
    requires forall i, j | 0 <= i < j < |next| :: next[i] !! next[j]
    requires forall i | 0 <= i < |next| :: next[i] <= rest
    requires level !! rest
    ensures var l := [level] + next; forall i, j | 0 <= i < j < |l| :: l[i] !! l[j]
  {
    var l := [level] + next;
    forall i, j | 0 <= i < j < |l| ensures l[i] !! l[j] {
      assert l[j] == next[j - 1] && next[j - 1] <= rest;
      if i == 0 {
        assert l[0] == level;
      } else {
        assert l[i] == next[i - 1];
      }
    }
  }

  /** Every process of `unused` is placed in some level or left over. */
  lemma {:induction false} LevelsCover<P>(unused: set<P>, preds: map<P, set<P>>)
    requires unused <= preds.Keys
    ensures var l := Levels(unused, preds);
      forall p | p in unused :: p in l.remaining || Placed(l.levels, p)
    decreases |unused|
  {
    LevelsUnfold(unused, preds);
    var level := Level(unused, preds);
    if level != {} {
      var l := Levels(unused, preds);
      if unused - level == {} {
        forall p | p in unused ensures Placed(l.levels, p) {
          PlacedCons(level, [], p);
        }
      } else {
        var next := Levels(unused - level, preds);
        LevelsCover(unused - level, preds);
        forall p | p in unused ensures p in l.remaining || Placed(l.levels, p) {
          PlacedCons(level, next.levels, p);
        }
      }
    }
  }

  /** A process of the first level, or of a later one, is placed. */
  lemma PlacedCons<P>(level: set<P>, next: seq<set<P>>, p: P)
    ensures p in level || Placed(next, p) ==> Placed([level] + next, p)
  {
    var l := [level] + next;
    if p in level {
      assert p in l[0];
    } else if Placed(next, p) {
      var i :| 0 <= i < |next| && p in next[i];
      assert p in l[i + 1];
    }
  }

  /** The loop stops on an empty level exactly when there was nothing to
      sort or something is left over, and it never runs more rounds than
      there are processes. */
  lemma {:induction false} LevelsTermination<P>(unused: set<P>, preds: map<P, set<P>>)
    requires unused <= preds.Keys
    ensures var l := Levels(unused, preds);
      && (l.stuck <==> unused == {} || l.remaining != {})
      && (!l.stuck ==> 1 <= |l.levels|)
      && |l.levels| <= |unused|
    decreases |unused|
  {
    LevelsUnfold(unused, preds);
    var level := Level(unused, preds);
    if level != {} && unused - level != {} {
      LevelsTermination(unused - level, preds);
    }
  }

  /** Totality: when the loop does not get stuck, the levels partition
      `unused` into nonempty, pairwise disjoint sets. */
  lemma LevelsPartition<P>(unused: set<P>, preds: map<P, set<P>>)
    requires unused <= preds.Keys
    requires !Levels(unused, preds).stuck
    ensures var l := Levels(unused, preds);
      && l.remaining == {}
      && (forall i | 0 <= i < |l.levels| :: l.levels[i] != {} && l.levels[i] <= unused)
      && (forall i, j | 0 <= i < j < |l.levels| :: l.levels[i] !! l.levels[j])
      && (forall p | p in unused :: Placed(l.levels, p))
  {
    var l := Levels(unused, preds);
    assert l.remaining == {} by {
      LevelsTermination(unused, preds);
    }
    assert forall i | 0 <= i < |l.levels| :: l.levels[i] != {} && l.levels[i] <= unused by {
      LevelsWithin(unused, preds);
    }
    assert forall i, j | 0 <= i < j < |l.levels| :: l.levels[i] !! l.levels[j] by {
      LevelsDisjoint(unused, preds);
    }
    assert forall p | p in unused :: Placed(l.levels, p) by {
      LevelsCover(unused, preds);
    }
  }

  /** Precedence across rounds: a predecessor is always placed in a strictly
      earlier level than its follower. */
  lemma LevelsRespectPrecedence<P>(unused: set<P>, preds: map<P, set<P>>)
    requires unused <= preds.Keys
    ensures var l := Levels(unused, preds);
      forall i, j, p, q | 0 <= i < |l.levels| && 0 <= j < |l.levels| && p in l.levels[i] && q in l.levels[j] && q in preds && p in preds[q] :: i < j
  {
    var l := Levels(unused, preds);
    forall i, j, p, q | 0 <= i < |l.levels| && 0 <= j < |l.levels| && p in l.levels[i] && q in l.levels[j] && q in preds && p in preds[q]
      ensures i < j
    {
      PrecedenceAt(unused, preds, i, j, p, q);
    }
  }

  /** Precedence for one pair: if `p` (in level `i`) is a predecessor of `q`
      (in level `j`), then `i < j`. A process of the first level has no
      unused predecessor, so it never follows a process placed in a level;
      later levels are the levels of the rest. */
  lemma {:induction false} PrecedenceAt<P>(unused: set<P>, preds: map<P, set<P>>, i: nat, j: nat, p: P, q: P)
    requires unused <= preds.Keys
    requires var l := Levels(unused, preds);
      i < |l.levels| && j < |l.levels| && p in l.levels[i] && q in l.levels[j]
    requires q in preds && p in preds[q]
    ensures i < j
    decreases |unused|
  {
    var level := Level(unused, preds);
    InLevelsUnused(unused, preds, i, p);
    assert q !in level by {
      assert p in preds[q];
    }
    LevelsHead(unused, preds);
    if 0 < i {
      assert j != 0;
      LevelsTail(unused, preds, i);
      LevelsTail(unused, preds, j);
      PrecedenceAt(unused - level, preds, i - 1, j - 1, p, q);
    }
  }

  /** A process placed in some level was unused. */
  lemma InLevelsUnused<P>(unused: set<P>, preds: map<P, set<P>>, i: nat, p: P)
    requires unused <= preds.Keys
    requires i < |Levels(unused, preds).levels| && p in Levels(unused, preds).levels[i]
    ensures p in unused
  {
    LevelsWithin(unused, preds);
  }

  /** The first level is the set the first round selects. */
  lemma LevelsHead<P>(unused: set<P>, preds: map<P, set<P>>)
    requires unused <= preds.Keys
    requires Levels(unused, preds).levels != []
    ensures Levels(unused, preds).levels[0] == Level(unused, preds)
  {
    LevelsUnfold(unused, preds);
  }

  /** A later level is a level of what the first round leaves. */
  lemma LevelsTail<P>(unused: set<P>, preds: map<P, set<P>>, k: nat)
    requires unused <= preds.Keys
    requires 0 < k < |Levels(unused, preds).levels|
    ensures var rest := unused - Level(unused, preds);
      && rest != {} && |rest| < |unused| && rest <= preds.Keys
      && k - 1 < |Levels(rest, preds).levels|
      && Levels(unused, preds).levels[k] == Levels(rest, preds).levels[k - 1]
  {
    LevelsUnfold(unused, preds);
  }

  /** When the loop stops on an empty level, the processes left over are
      blocked: each still waits on another left-over process. */
  lemma {:induction false} StuckLeavesBlockedSet<P>(unused: set<P>, preds: map<P, set<P>>)
    requires unused <= preds.Keys
    ensures var l := Levels(unused, preds);
      l.stuck ==> l.remaining <= unused && Blocked(l.remaining, preds)
    decreases |unused|
  {
    LevelsUnfold(unused, preds);
    var level := Level(unused, preds);
    if level == {} {
      forall p | p in unused ensures !(preds[p] !! unused) {
        assert p !in level;
      }
    } else if unused - level != {} {
      StuckLeavesBlockedSet(unused - level, preds);
    }
  }

  /** A blocked part of `unused` never reaches any level, so the loop stops
      on an empty level with that part still unplaced. */
  lemma {:induction false} BlockedSetForcesStuck<P>(unused: set<P>, preds: map<P, set<P>>, s: set<P>)
    requires unused <= preds.Keys
    requires s != {} && s <= unused && Blocked(s, preds)
    ensures Levels(unused, preds).stuck && s <= Levels(unused, preds).remaining
    decreases |unused|
  {
    LevelsUnfold(unused, preds);
    var level := Level(unused, preds);
    assert s !! level by {
      forall p | p in s ensures p !in level {
        assert !(preds[p] !! s);
      }
    }
    if level != {} {
      BlockedSetForcesStuck(unused - level, preds, s);
    }
  }

  /** Cycle detection, both directions: the sort fails exactly when there is
      nothing to sort or some nonempty part of the graph is blocked. */
  lemma StuckIffCycle<P>(unused: set<P>, preds: map<P, set<P>>)
    requires unused <= preds.Keys
    ensures Levels(unused, preds).stuck <==> unused == {} || HasCycle(unused, preds)
  {
    var l := Levels(unused, preds);
    LevelsTermination(unused, preds);
    if l.stuck && unused != {} {
      StuckLeavesBlockedSet(unused, preds);
      assert Blocked(l.remaining, preds) && l.remaining != {};
    }
    if HasCycle(unused, preds) {
      var s :| Blocked(s, preds) && s != {} && s <= unused;
      BlockedSetForcesStuck(unused, preds, s);
    }
  }
}
