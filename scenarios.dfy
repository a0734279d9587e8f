/** The graphs of the library's own test suites, with processes and
    resources numbered, and what any sort of them must look like. */
module Scenarios {
  import opened Kahn
  import opened Schedules
  import opened ResourceSplit
  import opened Results
  import opened Relations
  import opened Sorts
  import opened Graphs

  /** No resources at all. */
  function NoResources(procs: set<int>): (reqs: map<int, set<int>>)
    ensures reqs.Keys == procs && forall p | p in reqs :: reqs[p] == {}
  {
    map p | p in procs :: {}
  }

  lemma ConcatTwo<X>(parts: seq<seq<X>>)
    requires |parts| == 2
    ensures Concat(parts) == parts[0] + parts[1]
  {
    assert parts[1..][1..] == [];
    assert Concat(parts[1..]) == parts[1] + Concat([]);
  }

  lemma ConcatThree<X>(parts: seq<seq<X>>)
    requires |parts| == 3
    ensures Concat(parts) == parts[0] + parts[1] + parts[2]
  {
    ConcatTwo(parts[1..]);
    assert parts[1..][0] == parts[1] && parts[1..][1] == parts[2];
  }

  lemma ConcatFour<X>(parts: seq<seq<X>>)
    requires |parts| == 4
    ensures Concat(parts) == parts[0] + parts[1] + parts[2] + parts[3]
  {
    ConcatThree(parts[1..]);
    assert parts[1..][0] == parts[1] && parts[1..][1] == parts[2] && parts[1..][2] == parts[3];
  }

  /** A graph with no processes has no first level, so sorting it fails. */
  lemma EmptyGraphCannotOrder(preds: map<int, set<int>>)
    ensures Levels({}, preds).stuck && Levels({}, preds).levels == []
  {
    LevelsUnfold({}, preds);
  }

  /** The chain `a` before `b` before `c`. */
  function Chain<P>(a: P, b: P, c: P): map<P, set<P>>
  {
    map[a := {}, b := {a}, c := {b}]
  }

  /** The rounds of the chain take one process each. */
  lemma ChainRounds<P>(a: P, b: P, c: P)
    requires a != b && b != c && a != c
    ensures Level({a, b, c}, Chain(a, b, c)) == {a} && {a, b, c} - {a} == {b, c}
    ensures Level({b, c}, Chain(a, b, c)) == {b} && {b, c} - {b} == {c}
    ensures Level({c}, Chain(a, b, c)) == {c}
  {
    assert b !in Level({a, b, c}, Chain(a, b, c)) && c !in Level({a, b, c}, Chain(a, b, c));
    assert c !in Level({b, c}, Chain(a, b, c));
  }

  lemma ChainLevels<P>(a: P, b: P, c: P)
    requires a != b && b != c && a != c
    ensures Levels({a, b, c}, Chain(a, b, c)) == Leveling([{a}, {b}, {c}], false, {})
  {
    ChainRounds(a, b, c);
    LevelsLast({c}, Chain(a, b, c));
    LevelsCons({b, c}, Chain(a, b, c), {b}, {c});
    LevelsCons({a, b, c}, Chain(a, b, c), {a}, {b, c});
    assert [{a}] + ([{b}] + [{c}]) == [{a}, {b}, {c}];
  }

  /** Every sort of the chain A before B before C (1, 2, 3) is A, then B,
      then C, one per batch. */
  lemma ChainSort(parts: seq<seq<set<int>>>)
    requires SplitsLevels(parts, Levels({1, 2, 3}, Chain(1, 2, 3)).levels, NoResources({1, 2, 3}))
    ensures Concat(parts) == [{1}, {2}, {3}]
  {
    ChainLevels(1, 2, 3);
    SingletonPartition(parts[0], 1);
    SingletonPartition(parts[1], 2);
    SingletonPartition(parts[2], 3);
    ConcatThree(parts);
  }

  /** Registers the processes A, B and C in a new graph, unrelated and
      requiring no resource. */
  method NewThree()
    returns (g: DependencyGraph<string>, a: OrderedProcess<string>, b: OrderedProcess<string>, c: OrderedProcess<string>)
    ensures fresh(g) && g.Valid() && a != b && b != c && a != c
    ensures a.graph == g && b.graph == g && c.graph == g
    ensures g.processes == {a, b, c} && g.predecessors == map[a := {}, b := {}, c := {}]
    ensures g.requirements == map[a := {}, b := {}, c := {}]
  {
    g := new DependencyGraph<string>();
    a := new OrderedProcess(g, "A");
    b := new OrderedProcess(g, "B");
    c := new OrderedProcess(g, "C");
  }

  /** Orders `x` before `y` through `x.Before(y)`; the graph stays valid
      and only `y` gains a predecessor. */
  method Link(g: DependencyGraph<string>, x: OrderedProcess<string>, y: OrderedProcess<string>)
    returns (r: Result<OrderedProcess<string>>)
    requires g.Valid() && x.graph == g && y.graph == g && x in g.processes && y in g.processes
    modifies g
    ensures g.Valid() && r == Ok(y)
    ensures g.predecessors == old(g.predecessors)[y := old(g.predecessors)[y] + {x}]
    ensures g.processes == old(g.processes) && g.requirements == old(g.requirements)
  {
    ghost var reqs, users := g.requirements, g.users;
    assert Symmetric(reqs, users);
    SymmetricIsExcept(g.followers, g.predecessors, x, y);
    r := x.Before(y);
    assert g.requirements == reqs && g.users == users;
  }

  /** Orders `a` before `b` and `b` before `c`, as `a.Before(b).Before(c)`
      does, turning three unrelated processes into the chain. */
  method LinkChain(g: DependencyGraph<string>, a: OrderedProcess<string>, b: OrderedProcess<string>, c: OrderedProcess<string>)
    requires g.Valid() && a != b && b != c && a != c
    requires a.graph == g && b.graph == g && c.graph == g
    requires g.processes == {a, b, c} && g.predecessors == map[a := {}, b := {}, c := {}]
    modifies g
    ensures g.Valid() && g.predecessors == Chain(a, b, c)
    ensures g.processes == old(g.processes) && g.requirements == old(g.requirements)
  {
    ghost var unrelated := g.predecessors;
    var toB := Link(g, a, b);
    ghost var halfway := g.predecessors;
    var toC := Link(g, toB.value, c);
    ChainByUpdates(a, b, c, unrelated, halfway, g.predecessors);
  }

  /** Sorting the chain built through the objects succeeds with A, B and C
      alone and in that order. */
  method BuildAndSortChain()
    returns (a: OrderedProcess<string>, b: OrderedProcess<string>, c: OrderedProcess<string>,
             r: Result<TopologicalSort<OrderedProcess<string>>>)
    ensures r.Ok? && r.value.batches == [{a}, {b}, {c}]
  {
    var g;
    g, a, b, c := NewThree();
    LinkChain(g, a, b, c);
    ghost var parts, founders;
    r, parts, founders := g.CalculateNewSort();
    BuiltChainSorts(a, b, c, g.processes, g.predecessors, g.requirements, parts, founders);
  }

  /** The two `Before` calls of the chain turn three unrelated processes
      into the chain. */
  lemma ChainByUpdates<P>(a: P, b: P, c: P, unrelated: map<P, set<P>>, halfway: map<P, set<P>>, built: map<P, set<P>>)
    requires a != b && b != c && a != c
    requires unrelated == map[a := {}, b := {}, c := {}]
    requires halfway == unrelated[b := unrelated[b] + {a}]
    requires built == halfway[c := halfway[c] + {b}]
    ensures built == Chain(a, b, c)
  {
    assert built.Keys == {a, b, c};
    assert built[a] == {} && built[b] == {a} && built[c] == {b};
  }

  /** The chain with no resources sorts into its three levels. */
  lemma BuiltChainSorts<P, R>(a: P, b: P, c: P, procs: set<P>, preds: map<P, set<P>>, reqs: map<P, set<R>>,
                              parts: seq<seq<set<P>>>, founders: seq<seq<P>>)
    requires a != b && b != c && a != c
    requires procs == {a, b, c} && preds == Chain(a, b, c) && reqs == map[a := {}, b := {}, c := {}]
    requires SplitsLevels(parts, Levels(procs, preds).levels, reqs) && AllFoundedBy(parts, founders, reqs)
    ensures !Levels(procs, preds).stuck && Concat(parts) == [{a}, {b}, {c}]
  {
    ChainLevels(a, b, c);
    NoResourcesWholeLevels(parts, procs, preds, founders, reqs);
  }

  /** A before B and B before A (1, 2): the two wait on each other. */
  function TwoCycle(): map<int, set<int>>
  {
    map[1 := {2}, 2 := {1}]
  }

  lemma TwoCycleCannotOrder()
    ensures Levels({1, 2}, TwoCycle()).stuck && HasCycle({1, 2}, TwoCycle())
  {
    assert Blocked({1, 2}, TwoCycle());
    BlockedSetForcesStuck({1, 2}, TwoCycle(), {1, 2});
  }

  /** A process ordered before itself (1), next to a free one (2). */
  function SelfEdge(): map<int, set<int>>
  {
    map[1 := {1}, 2 := {}]
  }

  lemma SelfEdgeCannotOrder()
    ensures Levels({1, 2}, SelfEdge()).stuck && 1 in Levels({1, 2}, SelfEdge()).remaining
  {
    assert Blocked({1}, SelfEdge());
    BlockedSetForcesStuck({1, 2}, SelfEdge(), {1});
  }

  /** A before B and A before C (1; 2, 3), with B and C both requiring the
      one resource 0. */
  function Fork(): map<int, set<int>>
  {
    map[1 := {}, 2 := {1}, 3 := {1}]
  }

  function ForkRequirements(): map<int, set<int>>
  {
    map[1 := {}, 2 := {0}, 3 := {0}]
  }

  /** The fork's first round takes A, the second both B and C. */
  lemma ForkRounds()
    ensures Level({1, 2, 3}, Fork()) == {1} && {1, 2, 3} - {1} == {2, 3}
    ensures Level({2, 3}, Fork()) == {2, 3}
  {
    assert 2 !in Level({1, 2, 3}, Fork()) && 3 !in Level({1, 2, 3}, Fork());
  }

  lemma ForkLevels()
    ensures Levels({1, 2, 3}, Fork()) == Leveling([{1}, {2, 3}], false, {})
  {
    ForkRounds();
    LevelsLast({2, 3}, Fork());
    LevelsCons({1, 2, 3}, Fork(), {1}, {2, 3});
    assert [{1}] + [{2, 3}] == [{1}, {2, 3}];
  }

  /** B and C both require resource 0. */
  lemma ForkShare()
    ensures Share(2, 3, ForkRequirements())
  {
    assert 0 in ForkRequirements()[2] && 0 in ForkRequirements()[3];
  }

  /** Every sort of the fork is A alone, then B and C alone in either
      order: the shared resource parts them. */
  lemma ForkSort(parts: seq<seq<set<int>>>)
    requires SplitsLevels(parts, Levels({1, 2, 3}, Fork()).levels, ForkRequirements())
    ensures Concat(parts) == [{1}, {2}, {3}] || Concat(parts) == [{1}, {3}, {2}]
  {
    ForkLevels();
    ForkShare();
    ForkParts(parts, ForkRequirements());
  }

  /** The split of the fork's two levels under any requirements by which B
      and C share a resource. */
  lemma ForkParts(parts: seq<seq<set<int>>>, reqs: map<int, set<int>>)
    requires SplitsLevels(parts, [{1}, {2, 3}], reqs)
    requires Share(2, 3, reqs)
    ensures Concat(parts) == [{1}, {2}, {3}] || Concat(parts) == [{1}, {3}, {2}]
  {
    assert Partitions(parts[0], {1}) && Partitions(parts[1], {2, 3}) && AllConflictFree(parts[1], reqs);
    SingletonPartition(parts[0], 1);
    PairPartition(parts[1], 2, 3, reqs);
    ConcatTwo(parts);
  }

  /** A before B1 and B2, both before C (A = 1, B1 and B2 = 2 and 3,
      C = 4): a graph that splits and joins again. */
  function Diamond(): map<int, set<int>>
  {
    map[1 := {}, 2 := {1}, 3 := {1}, 4 := {2, 3}]
  }

  /** The diamond's rounds take A, then both Bs, then C. */
  lemma DiamondRounds()
    ensures Level({1, 2, 3, 4}, Diamond()) == {1} && {1, 2, 3, 4} - {1} == {2, 3, 4}
    ensures Level({2, 3, 4}, Diamond()) == {2, 3} && {2, 3, 4} - {2, 3} == {4}
    ensures Level({4}, Diamond()) == {4}
  {
    assert 2 !in Level({1, 2, 3, 4}, Diamond()) && 3 !in Level({1, 2, 3, 4}, Diamond());
    assert 4 !in Level({1, 2, 3, 4}, Diamond()) && 4 !in Level({2, 3, 4}, Diamond());
  }

  lemma DiamondLevels()
    ensures Levels({1, 2, 3, 4}, Diamond()) == Leveling([{1}, {2, 3}, {4}], false, {})
  {
    DiamondRounds();
    LevelsLast({4}, Diamond());
    LevelsCons({2, 3, 4}, Diamond(), {2, 3}, {4});
    LevelsCons({1, 2, 3, 4}, Diamond(), {1}, {2, 3, 4});
    assert [{1}] + ([{2, 3}] + [{4}]) == [{1}, {2, 3}, {4}];
  }

  /** Without resources the diamond sorts into A alone, both Bs together,
      then C alone. */
  lemma DiamondSort(parts: seq<seq<set<int>>>, founders: seq<seq<int>>)
    requires SplitsLevels(parts, Levels({1, 2, 3, 4}, Diamond()).levels, NoResources({1, 2, 3, 4}))
    requires AllFoundedBy(parts, founders, NoResources({1, 2, 3, 4}))
    ensures Concat(parts) == [{1}, {2, 3}, {4}]
  {
    DiamondLevels();
    NoResourcesWholeLevels(parts, {1, 2, 3, 4}, Diamond(), founders, NoResources({1, 2, 3, 4}));
  }

  /** A before B1 and B2, both before C1 to C4, all four before D (A = 1,
      B1 and B2 = 2 and 3, C1 to C4 = 4 to 7, D = 8), with C1 and C3 using
      the one resource 0. */
  function Branching(): map<int, set<int>>
  {
    map[1 := {}, 2 := {1}, 3 := {1}, 4 := {2, 3}, 5 := {2, 3}, 6 := {2, 3}, 7 := {2, 3}, 8 := {4, 5, 6, 7}]
  }

  function BranchingRequirements(): map<int, set<int>>
  {
    map[1 := {}, 2 := {}, 3 := {}, 4 := {0}, 5 := {}, 6 := {0}, 7 := {}, 8 := {}]
  }

  function BranchingProcesses(): set<int>
  {
    {1, 2, 3, 4, 5, 6, 7, 8}
  }

  /** The branching graph's rounds take A, then the Bs, then the Cs, then D. */
  lemma BranchingFirstRound()
    ensures Level(BranchingProcesses(), Branching()) == {1}
    ensures BranchingProcesses() - {1} == {2, 3, 4, 5, 6, 7, 8}
  {
    var preds := Branching();
    forall p | p in BranchingProcesses() - {1} ensures p !in Level(BranchingProcesses(), preds) {
      assert 1 in preds[p] || 2 in preds[p] || 4 in preds[p];
    }
  }

  lemma BranchingSecondRound()
    ensures Level({2, 3, 4, 5, 6, 7, 8}, Branching()) == {2, 3}
    ensures {2, 3, 4, 5, 6, 7, 8} - {2, 3} == {4, 5, 6, 7, 8}
  {
    var preds := Branching();
    forall p | p in {4, 5, 6, 7, 8} ensures p !in Level({2, 3, 4, 5, 6, 7, 8}, preds) {
      assert 2 in preds[p] || 4 in preds[p];
    }
  }

  lemma BranchingLastRounds()
    ensures Level({4, 5, 6, 7, 8}, Branching()) == {4, 5, 6, 7}
    ensures {4, 5, 6, 7, 8} - {4, 5, 6, 7} == {8}
    ensures Level({8}, Branching()) == {8}
  {
    assert 8 !in Level({4, 5, 6, 7, 8}, Branching()) by {
      assert 4 in Branching()[8];
    }
  }

  lemma BranchingLevels()
    ensures Levels(BranchingProcesses(), Branching()) == Leveling([{1}, {2, 3}, {4, 5, 6, 7}, {8}], false, {})
  {
    BranchingFirstRound();
    BranchingLevelsOfBs();
    LevelsCons(BranchingProcesses(), Branching(), {1}, {2, 3, 4, 5, 6, 7, 8});
    assert [{1}] + [{2, 3}, {4, 5, 6, 7}, {8}] == [{1}, {2, 3}, {4, 5, 6, 7}, {8}];
  }

  lemma BranchingLevelsOfBs()
    ensures Levels({2, 3, 4, 5, 6, 7, 8}, Branching()) == Leveling([{2, 3}, {4, 5, 6, 7}, {8}], false, {})
  {
    BranchingSecondRound();
    BranchingLevelsOfCs();
    LevelsCons({2, 3, 4, 5, 6, 7, 8}, Branching(), {2, 3}, {4, 5, 6, 7, 8});
    assert [{2, 3}] + [{4, 5, 6, 7}, {8}] == [{2, 3}, {4, 5, 6, 7}, {8}];
  }

  lemma BranchingLevelsOfCs()
    ensures Levels({4, 5, 6, 7, 8}, Branching()) == Leveling([{4, 5, 6, 7}, {8}], false, {})
  {
    BranchingLastRounds();
    LevelsLast({8}, Branching());
    LevelsCons({4, 5, 6, 7, 8}, Branching(), {4, 5, 6, 7}, {8});
    assert [{4, 5, 6, 7}] + [{8}] == [{4, 5, 6, 7}, {8}];
  }

  /** Within the level of the Cs only C1 and C3 share a resource. */
  lemma BranchingSharers()
    ensures Share(4, 6, BranchingRequirements())
    ensures ConflictFree({4, 5, 6, 7} - {4}, BranchingRequirements())
    ensures ConflictFree({4, 5, 6, 7} - {6}, BranchingRequirements())
  {
    var reqs := BranchingRequirements();
    assert 0 in reqs[4] && 0 in reqs[6];
    assert reqs[5] == {} && reqs[7] == {};
  }

  /** The Bs require no resource. */
  lemma BranchingBsFree()
    ensures forall x | x in {2, 3} :: x in BranchingRequirements() && BranchingRequirements()[x] == {}
  {
    var reqs := BranchingRequirements();
    assert reqs[2] == {} && reqs[3] == {};
  }

  /** What splitting the branching graph's four levels promises, level by
      level: A and D stay alone, and the Bs and the Cs are greedy splits. */
  lemma BranchingParts(parts: seq<seq<set<int>>>, founders: seq<seq<int>>, levels: seq<set<int>>, reqs: map<int, set<int>>)
    requires levels == [{1}, {2, 3}, {4, 5, 6, 7}, {8}]
    requires SplitsLevels(parts, levels, reqs) && AllFoundedBy(parts, founders, reqs)
    ensures |parts| == 4 && |founders| == 4 && parts[0] == [{1}] && parts[3] == [{8}]
    ensures GreedySplit(parts[1], {2, 3}, founders[1], reqs)
    ensures GreedySplit(parts[2], {4, 5, 6, 7}, founders[2], reqs)
  {
    assert Partitions(parts[0], levels[0]) && Partitions(parts[3], levels[3]);
    SingletonPartition(parts[0], 1);
    SingletonPartition(parts[3], 8);
    assert GreedySplit(parts[1], levels[1], founders[1], reqs);
    assert GreedySplit(parts[2], levels[2], founders[2], reqs);
  }

  /** Every sort of the branching graph has five batches: A alone first, D
      alone last, the Bs together, and the Cs in two batches that keep C1
      and C3 apart. */
  lemma BranchingSort(parts: seq<seq<set<int>>>, founders: seq<seq<int>>)
    requires SplitsLevels(parts, Levels(BranchingProcesses(), Branching()).levels, BranchingRequirements())
    requires AllFoundedBy(parts, founders, BranchingRequirements())
    ensures var s := Concat(parts);
      && |s| == 5 && s[0] == {1} && s[1] == {2, 3} && s[4] == {8}
      && forall i | 0 <= i < |s| :: !(4 in s[i] && 6 in s[i])
  {
    var reqs := BranchingRequirements();
    BranchingLevels();
    BranchingParts(parts, founders, Levels(BranchingProcesses(), Branching()).levels, reqs);
    BranchingBsFree();
    NoResourcesOneBatch(parts[1], {2, 3}, founders[1], reqs);
    BranchingSharers();
    OnePairTwoBatches(parts[2], {4, 5, 6, 7}, founders[2], reqs, 4, 6);
    BranchingConcat(parts, reqs);
  }

  /** The five batches the four levels' splits make. */
  lemma BranchingConcat(parts: seq<seq<set<int>>>, reqs: map<int, set<int>>)
    requires |parts| == 4 && parts[0] == [{1}] && parts[1] == [{2, 3}] && parts[3] == [{8}]
    requires |parts[2]| == 2 && AllConflictFree(parts[2], reqs)
    requires Share(4, 6, reqs)
    ensures var s := Concat(parts);
      && |s| == 5 && s[0] == {1} && s[1] == {2, 3} && s[4] == {8}
      && forall i | 0 <= i < |s| :: !(4 in s[i] && 6 in s[i])
  {
    ConcatFour(parts);
    var s := Concat(parts);
    assert s == [{1}, {2, 3}, parts[2][0], parts[2][1], {8}];
    assert ConflictFree(parts[2][0], reqs) && ConflictFree(parts[2][1], reqs);
  }

  /** Without any resource the branching graph sorts into its four levels,
      one batch each. */
  lemma ComplexBranchingSort(parts: seq<seq<set<int>>>, founders: seq<seq<int>>)
    requires SplitsLevels(parts, Levels(BranchingProcesses(), Branching()).levels, NoResources(BranchingProcesses()))
    requires AllFoundedBy(parts, founders, NoResources(BranchingProcesses()))
    ensures Concat(parts) == [{1}, {2, 3}, {4, 5, 6, 7}, {8}]
  {
    BranchingLevels();
    NoResourcesWholeLevels(parts, BranchingProcesses(), Branching(), founders, NoResources(BranchingProcesses()));
  }

  /** The branching graph with D also ordered before B1 (8 before 2). */
  function BranchingLoop(): map<int, set<int>>
  {
    Branching()[2 := {1, 8}]
  }

  /** Closing the loop from D back to B1 makes the sort fail: B1, the Cs and
      D wait on each other for ever. */
  lemma BranchingLoopCannotOrder()
    ensures Levels(BranchingProcesses(), BranchingLoop()).stuck
    ensures HasCycle(BranchingProcesses(), BranchingLoop())
  {
    var s := {2, 4, 5, 6, 7, 8};
    assert Blocked(s, BranchingLoop()) by {
      forall p | p in s ensures p in BranchingLoop() && !(BranchingLoop()[p] !! s) {
        assert 2 in BranchingLoop()[p] || 8 in BranchingLoop()[p] || 4 in BranchingLoop()[p];
      }
    }
    BlockedSetForcesStuck(BranchingProcesses(), BranchingLoop(), s);
  }
}
