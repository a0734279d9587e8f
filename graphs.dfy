/** The dependency graph and its two kinds of member: processes, which are
    ordered before or after one another and require resources, and
    resources, which at most one process may use at a time. The payload `T`
    is a process's name in the non-generic library and its value in the
    generic one.

    Every relation is kept in a map owned by the graph: `predecessors[p]` and
    `followers[p]` for the ordering, `requirements[p]` (a process's
    resources) and `users[r]` (a resource's processes) for resource use. */
module Graphs {
  import opened Results
  import opened Relations
  import opened Kahn
  import opened Schedules
  import opened ResourceSplit
  import opened Sorts

  /** The index of the first element that lies in another graph than `g`, or
      the length of `s` when there is none. */
  function FirstMismatch<T>(s: seq<OrderedProcess<T>>, g: DependencyGraph<T>): (k: nat)
    ensures k <= |s|
    ensures forall i | 0 <= i < k :: s[i].graph == g
    ensures k < |s| ==> s[k].graph != g
  {
    if s == [] then 0
    else if s[0].graph != g then 0
    else 1 + FirstMismatch(s[1..], g)
  }

  /** The shape of a graph `g`'s state, stated on values: every registered
      member belongs to `g`, has its relation sets, and is related only to
      registered members. */
  ghost predicate ShapeOf<T>(g: DependencyGraph<T>, processes: set<OrderedProcess<T>>, resources: set<Resource<T>>,
                             predecessors: map<OrderedProcess<T>, set<OrderedProcess<T>>>,
                             followers: map<OrderedProcess<T>, set<OrderedProcess<T>>>,
                             requirements: map<OrderedProcess<T>, set<Resource<T>>>,
                             users: map<Resource<T>, set<OrderedProcess<T>>>)
  {
    && Within(predecessors, processes, processes) && Within(followers, processes, processes)
    && Within(requirements, processes, resources) && Within(users, resources, processes)
    && (forall p | p in processes :: p.graph == g)
    && (forall r | r in resources :: r.graph == g)
  }

  /** What holds of a graph's state between any two public operations:
      its shape, and each relation recorded on both of its sides. */
  ghost predicate ValidOf<T>(g: DependencyGraph<T>, processes: set<OrderedProcess<T>>, resources: set<Resource<T>>,
                             predecessors: map<OrderedProcess<T>, set<OrderedProcess<T>>>,
                             followers: map<OrderedProcess<T>, set<OrderedProcess<T>>>,
                             requirements: map<OrderedProcess<T>, set<Resource<T>>>,
                             users: map<Resource<T>, set<OrderedProcess<T>>>)
  {
    && ShapeOf(g, processes, resources, predecessors, followers, requirements, users)
    && Symmetric(followers, predecessors) && Symmetric(requirements, users)
  }

  /** Registering a new process, with no relations, keeps a graph's state
      valid. */
  lemma AddProcessValid<T>(g: DependencyGraph<T>, processes: set<OrderedProcess<T>>, resources: set<Resource<T>>,
                           predecessors: map<OrderedProcess<T>, set<OrderedProcess<T>>>,
                           followers: map<OrderedProcess<T>, set<OrderedProcess<T>>>,
                           requirements: map<OrderedProcess<T>, set<Resource<T>>>,
                           users: map<Resource<T>, set<OrderedProcess<T>>>, p: OrderedProcess<T>)
    requires ValidOf(g, processes, resources, predecessors, followers, requirements, users)
    requires p.graph == g && p !in processes
    ensures ValidOf(g, processes + {p}, resources, predecessors[p := {}], followers[p := {}], requirements[p := {}], users)
  {
    var procs := processes + {p};
    SymmetricAddFwd(followers, predecessors, p);
    SymmetricAddBwd(followers[p := {}], predecessors, p);
    SymmetricAddFwd(requirements, users, p);
    AddKeyWithin(predecessors, processes, processes, p, procs);
    AddKeyWithin(followers, processes, processes, p, procs);
    AddKeyWithin(requirements, processes, resources, p, resources);
    assert Within(users, resources, procs);
  }

  /** Registering a new resource, with no users, keeps a graph's state
      valid. */
  lemma AddResourceValid<T>(g: DependencyGraph<T>, processes: set<OrderedProcess<T>>, resources: set<Resource<T>>,
                            predecessors: map<OrderedProcess<T>, set<OrderedProcess<T>>>,
                            followers: map<OrderedProcess<T>, set<OrderedProcess<T>>>,
                            requirements: map<OrderedProcess<T>, set<Resource<T>>>,
                            users: map<Resource<T>, set<OrderedProcess<T>>>, r: Resource<T>)
    requires ValidOf(g, processes, resources, predecessors, followers, requirements, users)
    requires r.graph == g && r !in resources
    ensures ValidOf(g, processes, resources + {r}, predecessors, followers, requirements, users[r := {}])
  {
    SymmetricAddBwd(requirements, users, r);
    AddKeyWithin(users, resources, processes, r, processes);
    assert Within(requirements, processes, resources + {r});
  }

  class DependencyGraph<T> {
    var processes: set<OrderedProcess<T>>
    var resources: set<Resource<T>>
    var predecessors: map<OrderedProcess<T>, set<OrderedProcess<T>>>
    var followers: map<OrderedProcess<T>, set<OrderedProcess<T>>>
    var requirements: map<OrderedProcess<T>, set<Resource<T>>>
    var users: map<Resource<T>, set<OrderedProcess<T>>>

    /** Every registered member belongs to this graph, has its relation
        sets, and is related only to registered members. */
    ghost predicate Shape()
      reads this
    {
      ShapeOf(this, processes, resources, predecessors, followers, requirements, users)
    }

    /** `q` follows `p` exactly when `p` precedes `q`, except perhaps for the
        pair (`a`, `b`). */
    ghost predicate EdgesSymmetricExcept(a: OrderedProcess<T>, b: OrderedProcess<T>)
      reads this`followers, this`predecessors
    {
      SymmetricExcept(followers, predecessors, a, b)
    }

    ghost predicate EdgesSymmetric()
      reads this`followers, this`predecessors
    {
      Symmetric(followers, predecessors)
    }

    /** `p` requires `r` exactly when `r` is used by `p`, except perhaps for
        the pair (`a`, `b`). */
    ghost predicate UsesSymmetricExcept(a: OrderedProcess<T>, b: Resource<T>)
      reads this`requirements, this`users
    {
      SymmetricExcept(requirements, users, a, b)
    }

    ghost predicate UsesSymmetric()
      reads this`requirements, this`users
    {
      Symmetric(requirements, users)
    }

    /** What holds between any two public operations. */
    ghost predicate Valid()
      reads this
    {
      ValidOf(this, processes, resources, predecessors, followers, requirements, users)
    }

    /** How many of the two halves of the edge `a` before `b` are still to
        be recorded. */
    function MissingHalves(a: OrderedProcess<T>, b: OrderedProcess<T>): nat
      reads this
    {
      (if a in followers && b in followers[a] then 0 else 1) +
      (if b in predecessors && a in predecessors[b] then 0 else 1)
    }

    /** How many of the two halves of `a` using `b` are still to be
        recorded. */
    function MissingUses(a: OrderedProcess<T>, b: Resource<T>): nat
      reads this
    {
      (if a in requirements && b in requirements[a] then 0 else 1) +
      (if b in users && a in users[b] then 0 else 1)
    }

    /** An empty graph. */
    constructor()
      ensures Valid()
      ensures processes == {} && resources == {}
      ensures predecessors == map[] && followers == map[] && requirements == map[] && users == map[]
    {
      processes, resources := {}, {};
      predecessors, followers, requirements := map[], map[], map[];
      users := map[];
    }

    /** Registers a process; `added` says whether it was new. */
    method AddProcess(p: OrderedProcess<T>) returns (added: bool)
      requires Valid() && p.graph == this
      modifies this
      ensures Valid()
      ensures added <==> p !in old(processes)
      ensures processes == old(processes) + {p}
      ensures added ==>
        && predecessors == old(predecessors)[p := {}] && followers == old(followers)[p := {}]
        && requirements == old(requirements)[p := {}]
      ensures !added ==>
        && predecessors == old(predecessors) && followers == old(followers)
        && requirements == old(requirements)
      ensures resources == old(resources) && users == old(users)
    {
      added := p !in processes;
      if added {
        AddProcessValid(this, processes, resources, predecessors, followers, requirements, users, p);
        SetProcesses(processes + {p}, predecessors[p := {}], followers[p := {}], requirements[p := {}]);
      }
    }

    /** Installs a new process state that is valid with the current
        resources. */
    method SetProcesses(procs: set<OrderedProcess<T>>,
                        pre: map<OrderedProcess<T>, set<OrderedProcess<T>>>,
                        fol: map<OrderedProcess<T>, set<OrderedProcess<T>>>,
                        req: map<OrderedProcess<T>, set<Resource<T>>>)
      requires ValidOf(this, procs, resources, pre, fol, req, users)
      modifies this`processes, this`predecessors, this`followers, this`requirements
      ensures Valid()
      ensures processes == procs && predecessors == pre && followers == fol && requirements == req
    {
      processes, predecessors, followers, requirements := procs, pre, fol, req;
    }

    /** Registers a resource; `added` says whether it was new. */
    method AddResource(r: Resource<T>) returns (added: bool)
      requires Valid() && r.graph == this
      modifies this
      ensures Valid()
      ensures added <==> r !in old(resources)
      ensures resources == old(resources) + {r}
      ensures added ==> users == old(users)[r := {}]
      ensures !added ==> users == old(users)
      ensures processes == old(processes) && predecessors == old(predecessors)
      ensures followers == old(followers) && requirements == old(requirements)
    {
      added := r !in resources;
      if added {
        AddResourceValid(this, processes, resources, predecessors, followers, requirements, users, r);
        resources, users := resources + {r}, users[r := {}];
      }
    }

    /** Appends the sort of this graph to `instance`: the Kahn levels one
        after the other, each split into batches free of resource clashes.
        `parts[i]` is the split of the `i`th level. Fails, after appending
        the levels found so far, when a round finds no process ready. */
    method CalculateSort(instance: TopologicalSort<OrderedProcess<T>>)
      returns (r: Result<TopologicalSort<OrderedProcess<T>>>, ghost parts: seq<seq<set<OrderedProcess<T>>>>,
               ghost founders: seq<seq<OrderedProcess<T>>>)
      requires Valid()
      modifies instance
      ensures var l := Levels(processes, predecessors);
        && (r.Ok? <==> !l.stuck)
        && (r.Ok? ==> r.value == instance)
        && (r.Err? ==> r.error == CannotOrder)
        && SplitsLevels(parts, l.levels, requirements)
        && AllFoundedBy(parts, founders, requirements)
        && instance.batches == old(instance.batches) + Concat(parts)
      ensures r.Ok? ==> IsSchedule(Concat(parts), processes, predecessors, requirements)
    {
      var unused, preds, reqs, res := processes, predecessors, requirements, resources;
      ghost var all, total := processes, Levels(processes, predecessors);
      ghost var levels: seq<set<OrderedProcess<T>>> := [];
      parts, founders := [], [];
      while true
        invariant unused <= all
        invariant total.levels == levels + Levels(unused, preds).levels
        invariant total.stuck == Levels(unused, preds).stuck
        invariant SplitsLevels(parts, levels, reqs)
        invariant AllFoundedBy(parts, founders, reqs)
        invariant instance.batches == old(instance.batches) + Concat(parts)
        decreases |unused|
      {
        LevelsStep(total, unused, preds, levels);
        var level := Level(unused, preds);
        if level == {} {
          r := Err(CannotOrder);
          return;
        }
        unused := unused - level;
        var split, firsts := SolveResourceDependencies(level, res, reqs);
        instance.AppendAll(split);
        assert instance.batches == old(instance.batches) + Concat(parts + [split]) by {
          ConcatExtend(old(instance.batches), parts, split);
        }
        assert SplitsLevels(parts + [split], levels + [level], reqs) && AllFoundedBy(parts + [split], founders + [firsts], reqs) by {
          SplitsSnoc(parts, levels, founders, split, level, firsts, reqs);
        }
        parts, levels, founders := parts + [split], levels + [level], founders + [firsts];
        if unused == {} {
          r := Ok(instance);
          assert IsSchedule(Concat(parts), all, preds, reqs) by {
            LevelsSchedule(all, preds, reqs, parts);
          }
          return;
        }
      }
    }

    /** Sorts this graph into a new, initially empty, sorting solution. */
    method CalculateNewSort()
      returns (r: Result<TopologicalSort<OrderedProcess<T>>>, ghost parts: seq<seq<set<OrderedProcess<T>>>>,
               ghost founders: seq<seq<OrderedProcess<T>>>)
      requires Valid()
      ensures var l := Levels(processes, predecessors);
        && (r.Ok? <==> !l.stuck)
        && (r.Err? ==> r.error == CannotOrder)
        && SplitsLevels(parts, l.levels, requirements)
        && AllFoundedBy(parts, founders, requirements)
      ensures r.Ok? ==> fresh(r.value) && r.value.batches == Concat(parts)
      ensures r.Ok? ==> IsSchedule(r.value.batches, processes, predecessors, requirements)
    {
      var instance := new TopologicalSort<OrderedProcess<T>>();
      r, parts, founders := CalculateSort(instance);
    }
  }

  /** Extending the per-level splits, and their founders, by one more
      level's greedy split. */
  lemma SplitsSnoc<P, R>(parts: seq<seq<set<P>>>, levels: seq<set<P>>, founders: seq<seq<P>>,
                         split: seq<set<P>>, level: set<P>, firsts: seq<P>, reqs: map<P, set<R>>)
    requires SplitsLevels(parts, levels, reqs) && AllFoundedBy(parts, founders, reqs)
    requires GreedySplit(split, level, firsts, reqs)
    ensures SplitsLevels(parts + [split], levels + [level], reqs)
    ensures AllFoundedBy(parts + [split], founders + [firsts], reqs)
  {
    SplitsLevelsSnoc(parts, levels, split, level, reqs);
    var ps, fs := parts + [split], founders + [firsts];
    forall i | 0 <= i < |ps| ensures FoundedBy(ps[i], fs[i], reqs) {
      if i < |parts| { assert ps[i] == parts[i] && fs[i] == founders[i]; }
    }
  }

  /** Extending the per-level splits by one more level. */
  lemma SplitsLevelsSnoc<P, R>(parts: seq<seq<set<P>>>, levels: seq<set<P>>, split: seq<set<P>>, level: set<P>,
                               reqs: map<P, set<R>>)
    requires SplitsLevels(parts, levels, reqs)
    requires Partitions(split, level) && AllConflictFree(split, reqs)
    ensures SplitsLevels(parts + [split], levels + [level], reqs)
  {
    var ps, ls := parts + [split], levels + [level];
    forall i | 0 <= i < |ps| ensures Partitions(ps[i], ls[i]) && AllConflictFree(ps[i], reqs) {
      if i < |parts| { assert ps[i] == parts[i] && ls[i] == levels[i]; }
    }
  }

  /** A process of a graph, carrying a payload of type `T`. */
  class OrderedProcess<T> {
    const graph: DependencyGraph<T>
    const value: T

    /** Registered in its graph. */
    ghost predicate Registered()
      reads graph`processes
    {
      this in graph.processes
    }

    /** Creates a process and registers it in `graph`, with no relations. */
    constructor(graph: DependencyGraph<T>, value: T)
      requires graph.Valid()
      modifies graph
      ensures this.graph == graph && this.value == value
      ensures graph.Valid() && Registered()
      ensures graph.processes == old(graph.processes) + {this}
      ensures graph.predecessors == old(graph.predecessors)[this := {}]
      ensures graph.followers == old(graph.followers)[this := {}]
      ensures graph.requirements == old(graph.requirements)[this := {}]
      ensures graph.resources == old(graph.resources) && graph.users == old(graph.users)
    {
      this.graph := graph;
      this.value := value;
      new;
      var added := graph.AddProcess(this);
    }

    /** Orders this process before `follower` and returns `follower`. The
        follower side is recorded by `follower.After(this)`, which calls back
        here and finds the edge already present. */
    method Before(follower: OrderedProcess<T>) returns (r: Result<OrderedProcess<T>>)
      requires graph.Shape() && Registered() && follower.Registered()
      requires graph.EdgesSymmetricExcept(this, follower)
      requires follower.graph == graph && follower in graph.followers[this] ==> this in graph.predecessors[follower]
      modifies graph`followers, graph`predecessors
      ensures graph.Shape()
      ensures follower.graph != graph ==>
        r == Err(GraphMismatch) &&
        graph.followers == old(graph.followers) && graph.predecessors == old(graph.predecessors)
      ensures follower.graph == graph ==>
        && r == Ok(follower)
        && graph.EdgesSymmetric()
        && graph.followers == old(graph.followers)[this := old(graph.followers)[this] + {follower}]
        && graph.predecessors == old(graph.predecessors)[follower := old(graph.predecessors)[follower] + {this}]
      decreases graph.MissingHalves(this, follower)
    {
      if follower.graph != graph {
        return Err(GraphMismatch);
      }
      if follower !in graph.followers[this] {
        var upd := graph.followers[this := graph.followers[this] + {follower}];
        assert SymmetricExcept(upd, graph.predecessors, this, follower) by {
          SpreadOne(graph.followers, this, follower);
          SymmetricExceptSpreadFwd(graph.followers, graph.predecessors, this, follower);
        }
        assert Within(upd, graph.processes, graph.processes) by {
          SpreadOne(graph.followers, this, follower);
          SpreadWithin(graph.followers, graph.processes, graph.processes, {this}, {follower});
        }
        graph.followers := upd;
        var back := follower.After(this);
        assert graph.followers == upd;
      } else {
        assert graph.EdgesSymmetric() by {
          SymmetricExceptClosed(graph.followers, graph.predecessors, this, follower);
        }
        UpdateNoop(graph.followers, this, follower);
        assert this in graph.predecessors[follower];
        UpdateNoop(graph.predecessors, follower, this);
      }
      r := Ok(follower);
    }

    /** Orders this process after `predecessor` and returns `predecessor`;
        the mirror image of `Before`. */
    method After(predecessor: OrderedProcess<T>) returns (r: Result<OrderedProcess<T>>)
      requires graph.Shape() && Registered() && predecessor.Registered()
      requires graph.EdgesSymmetricExcept(predecessor, this)
      requires predecessor.graph == graph && predecessor in graph.predecessors[this] ==> this in graph.followers[predecessor]
      modifies graph`followers, graph`predecessors
      ensures graph.Shape()
      ensures predecessor.graph != graph ==>
        r == Err(GraphMismatch) &&
        graph.followers == old(graph.followers) && graph.predecessors == old(graph.predecessors)
      ensures predecessor.graph == graph ==>
        && r == Ok(predecessor)
        && graph.EdgesSymmetric()
        && graph.followers == old(graph.followers)[predecessor := old(graph.followers)[predecessor] + {this}]
        && graph.predecessors == old(graph.predecessors)[this := old(graph.predecessors)[this] + {predecessor}]
      decreases graph.MissingHalves(predecessor, this)
    {
      if predecessor.graph != graph {
        return Err(GraphMismatch);
      }
      if predecessor !in graph.predecessors[this] {
        var upd := graph.predecessors[this := graph.predecessors[this] + {predecessor}];
        assert SymmetricExcept(graph.followers, upd, predecessor, this) by {
          SpreadOne(graph.predecessors, this, predecessor);
          SymmetricExceptSpreadBwd(graph.followers, graph.predecessors, predecessor, this);
        }
        assert Within(upd, graph.processes, graph.processes) by {
          SpreadOne(graph.predecessors, this, predecessor);
          SpreadWithin(graph.predecessors, graph.processes, graph.processes, {this}, {predecessor});
        }
        graph.predecessors := upd;
        var back := predecessor.Before(this);
        assert graph.predecessors == upd;
      } else {
        assert graph.EdgesSymmetric() by {
          SymmetricExceptClosed(graph.followers, graph.predecessors, predecessor, this);
        }
        UpdateNoop(graph.predecessors, this, predecessor);
        assert this in graph.followers[predecessor];
        UpdateNoop(graph.followers, predecessor, this);
      }
      r := Ok(predecessor);
    }

    /** Orders this process before each of `fs` in turn and returns `fs`.
        Stops with an error at the first follower of another graph, keeping
        the edges added before it. */
    method BeforeAll(fs: seq<OrderedProcess<T>>) returns (r: Result<seq<OrderedProcess<T>>>)
      requires graph.Shape() && graph.EdgesSymmetric() && Registered()
      requires forall f | f in fs :: f.Registered()
      modifies graph`followers, graph`predecessors
      ensures graph.Shape() && graph.EdgesSymmetric()
      ensures var k := FirstMismatch(fs, graph);
        && r == (if k == |fs| then Ok(fs) else Err(GraphMismatch))
        && graph.followers == Spread(old(graph.followers), {this}, Elements(fs[..k]))
        && graph.predecessors == Spread(old(graph.predecessors), Elements(fs[..k]), {this})
    {
      var i := 0;
      SpreadNothing(graph.followers, {this}, Elements(fs[..0]));
      SpreadNothing(graph.predecessors, Elements(fs[..0]), {this});
      while i < |fs|
        invariant 0 <= i <= FirstMismatch(fs, graph)
        invariant graph.Shape() && graph.EdgesSymmetric()
        invariant graph.followers == Spread(old(graph.followers), {this}, Elements(fs[..i]))
        invariant graph.predecessors == Spread(old(graph.predecessors), Elements(fs[..i]), {this})
      {
        assert graph.EdgesSymmetricExcept(this, fs[i]) by {
          SymmetricIsExcept(graph.followers, graph.predecessors, this, fs[i]);
        }
        var step := Before(fs[i]);
        if step.Err? {
          assert FirstMismatch(fs, graph) == i;
          assert graph.followers == Spread(old(graph.followers), {this}, Elements(fs[..i]));
          return Err(GraphMismatch);
        }
        assert fs[i].graph == graph;
        ElementsSnoc(fs, i);
        SpreadAddTarget(old(graph.followers), this, Elements(fs[..i]), fs[i]);
        SpreadAddSource(old(graph.predecessors), Elements(fs[..i]), fs[i], this);
        i := i + 1;
      }
      assert FirstMismatch(fs, graph) == i;
      assert graph.followers == Spread(old(graph.followers), {this}, Elements(fs[..i]));
      return Ok(fs);
    }

    /** Orders this process after each of `ps` in turn and returns `ps`;
        the mirror image of `BeforeAll`. */
    method AfterAll(ps: seq<OrderedProcess<T>>) returns (r: Result<seq<OrderedProcess<T>>>)
      requires graph.Shape() && graph.EdgesSymmetric() && Registered()
      requires forall p | p in ps :: p.Registered()
      modifies graph`followers, graph`predecessors
      ensures graph.Shape() && graph.EdgesSymmetric()
      ensures var k := FirstMismatch(ps, graph);
        && r == (if k == |ps| then Ok(ps) else Err(GraphMismatch))
        && graph.followers == Spread(old(graph.followers), Elements(ps[..k]), {this})
        && graph.predecessors == Spread(old(graph.predecessors), {this}, Elements(ps[..k]))
    {
      var i := 0;
      SpreadNothing(graph.followers, Elements(ps[..0]), {this});
      SpreadNothing(graph.predecessors, {this}, Elements(ps[..0]));
      while i < |ps|
        invariant 0 <= i <= FirstMismatch(ps, graph)
        invariant graph.Shape() && graph.EdgesSymmetric()
        invariant graph.followers == Spread(old(graph.followers), Elements(ps[..i]), {this})
        invariant graph.predecessors == Spread(old(graph.predecessors), {this}, Elements(ps[..i]))
      {
        assert graph.EdgesSymmetricExcept(ps[i], this) by {
          SymmetricIsExcept(graph.followers, graph.predecessors, ps[i], this);
        }
        var step := After(ps[i]);
        if step.Err? {
          assert FirstMismatch(ps, graph) == i;
          return Err(GraphMismatch);
        }
        assert ps[i].graph == graph;
        ElementsSnoc(ps, i);
        SpreadAddSource(old(graph.followers), Elements(ps[..i]), ps[i], this);
        SpreadAddTarget(old(graph.predecessors), this, Elements(ps[..i]), ps[i]);
        i := i + 1;
      }
      assert FirstMismatch(ps, graph) == i;
      return Ok(ps);
    }

    /** Records that this process requires `resource`; the resource side is
        recorded by `resource.UsedBy(this)`, which calls back here. */
    method Requires(resource: Resource<T>) returns (o: Outcome)
      requires graph.Shape() && Registered() && resource.Registered()
      requires graph.UsesSymmetricExcept(this, resource)
      requires resource.graph == graph && resource in graph.requirements[this] ==> this in graph.users[resource]
      modifies graph`requirements, graph`users
      ensures graph.Shape()
      ensures resource.graph != graph ==>
        o == Fail(GraphMismatch) &&
        graph.requirements == old(graph.requirements) && graph.users == old(graph.users)
      ensures resource.graph == graph ==>
        && o == Pass
        && graph.UsesSymmetric()
        && graph.requirements == old(graph.requirements)[this := old(graph.requirements)[this] + {resource}]
        && graph.users == old(graph.users)[resource := old(graph.users)[resource] + {this}]
      decreases graph.MissingUses(this, resource)
    {
      if resource.graph != graph {
        return Fail(GraphMismatch);
      }
      if resource !in graph.requirements[this] {
        var upd := graph.requirements[this := graph.requirements[this] + {resource}];
        assert SymmetricExcept(upd, graph.users, this, resource) by {
          SpreadOne(graph.requirements, this, resource);
          SymmetricExceptSpreadFwd(graph.requirements, graph.users, this, resource);
        }
        assert Within(upd, graph.processes, graph.resources) by {
          SpreadOne(graph.requirements, this, resource);
          SpreadWithin(graph.requirements, graph.processes, graph.resources, {this}, {resource});
        }
        graph.requirements := upd;
        var back := resource.UsedBy(this);
        assert graph.requirements == upd;
      } else {
        assert graph.UsesSymmetric() by {
          SymmetricExceptClosed(graph.requirements, graph.users, this, resource);
        }
        UpdateNoop(graph.requirements, this, resource);
        assert this in graph.users[resource];
        UpdateNoop(graph.users, resource, this);
      }
      o := Pass;
    }
  }

  /** A resource of a graph that at most one process may use at a time. */
  class Resource<T> {
    const graph: DependencyGraph<T>
    const name: string

    /** Registered in its graph. */
    ghost predicate Registered()
      reads graph`resources
    {
      this in graph.resources
    }

    /** Creates a resource and registers it in `graph`, with no users. */
    constructor(graph: DependencyGraph<T>, name: string)
      requires graph.Valid()
      modifies graph
      ensures this.graph == graph && this.name == name
      ensures graph.Valid() && Registered()
      ensures graph.resources == old(graph.resources) + {this}
      ensures graph.users == old(graph.users)[this := {}]
      ensures graph.processes == old(graph.processes) && graph.requirements == old(graph.requirements)
      ensures graph.predecessors == old(graph.predecessors) && graph.followers == old(graph.followers)
    {
      this.graph := graph;
      this.name := name;
      new;
      var added := graph.AddResource(this);
    }

    /** Records that `process` uses this resource; the mirror image of
        `OrderedProcess.Requires`. */
    method UsedBy(process: OrderedProcess<T>) returns (o: Outcome)
      requires graph.Shape() && Registered() && process.Registered()
      requires graph.UsesSymmetricExcept(process, this)
      requires process.graph == graph && process in graph.users[this] ==> this in graph.requirements[process]
      modifies graph`requirements, graph`users
      ensures graph.Shape()
      ensures process.graph != graph ==>
        o == Fail(GraphMismatch) &&
        graph.requirements == old(graph.requirements) && graph.users == old(graph.users)
      ensures process.graph == graph ==>
        && o == Pass
        && graph.UsesSymmetric()
        && graph.requirements == old(graph.requirements)[process := old(graph.requirements)[process] + {this}]
        && graph.users == old(graph.users)[this := old(graph.users)[this] + {process}]
      decreases graph.MissingUses(process, this)
    {
      if process.graph != graph {
        return Fail(GraphMismatch);
      }
      if process !in graph.users[this] {
        var upd := graph.users[this := graph.users[this] + {process}];
        assert SymmetricExcept(graph.requirements, upd, process, this) by {
          SpreadOne(graph.users, this, process);
          SymmetricExceptSpreadBwd(graph.requirements, graph.users, process, this);
        }
        assert Within(upd, graph.resources, graph.processes) by {
          SpreadOne(graph.users, this, process);
          SpreadWithin(graph.users, graph.resources, graph.processes, {this}, {process});
        }
        graph.users := upd;
        var back := process.Requires(this);
        assert graph.users == upd;
      } else {
        assert graph.UsesSymmetric() by {
          SymmetricExceptClosed(graph.requirements, graph.users, process, this);
        }
        UpdateNoop(graph.users, this, process);
        assert this in graph.requirements[process];
        UpdateNoop(graph.requirements, process, this);
      }
      o := Pass;
    }

    /** Records that each of `ps` uses this resource, in turn. Stops with an
        error at the first process of another graph. */
    method UsedByAll(ps: seq<OrderedProcess<T>>) returns (o: Outcome)
      requires graph.Shape() && graph.UsesSymmetric() && Registered()
      requires forall p | p in ps :: p.Registered()
      modifies graph`requirements, graph`users
      ensures graph.Shape() && graph.UsesSymmetric()
      ensures var k := FirstMismatch(ps, graph);
        && o == (if k == |ps| then Pass else Fail(GraphMismatch))
        && graph.requirements == Spread(old(graph.requirements), Elements(ps[..k]), {this})
        && graph.users == Spread(old(graph.users), {this}, Elements(ps[..k]))
    {
      var i := 0;
      SpreadNothing(graph.requirements, Elements(ps[..0]), {this});
      SpreadNothing(graph.users, {this}, Elements(ps[..0]));
      while i < |ps|
        invariant 0 <= i <= FirstMismatch(ps, graph)
        invariant graph.Shape() && graph.UsesSymmetric()
        invariant graph.requirements == Spread(old(graph.requirements), Elements(ps[..i]), {this})
        invariant graph.users == Spread(old(graph.users), {this}, Elements(ps[..i]))
      {
        var step := UsedBy(ps[i]);
        if step.Fail? {
          assert FirstMismatch(ps, graph) == i;
          return Fail(GraphMismatch);
        }
        ElementsSnoc(ps, i);
        SpreadAddSource(old(graph.requirements), Elements(ps[..i]), ps[i], this);
        SpreadAddTarget(old(graph.users), this, Elements(ps[..i]), ps[i]);
        i := i + 1;
      }
      return Pass;
    }
  }

  /** Fills a new sorting solution from `g`, as constructing a sort from a
      graph does. */
  method SortFromGraph<T>(g: DependencyGraph<T>)
    returns (r: Result<TopologicalSort<OrderedProcess<T>>>, ghost parts: seq<seq<set<OrderedProcess<T>>>>,
             ghost founders: seq<seq<OrderedProcess<T>>>)
    requires g.Valid()
    ensures var l := Levels(g.processes, g.predecessors);
      && (r.Ok? <==> !l.stuck)
      && (r.Err? ==> r.error == CannotOrder)
      && SplitsLevels(parts, l.levels, g.requirements)
      && AllFoundedBy(parts, founders, g.requirements)
    ensures r.Ok? ==> fresh(r.value) && r.value.batches == Concat(parts)
    ensures r.Ok? ==> IsSchedule(r.value.batches, g.processes, g.predecessors, g.requirements)
  {
    r, parts, founders := g.CalculateNewSort();
  }

  /** Equality of processes by payload, as the generic library's process
      comparer defines it: two absent processes are equal, an absent and a
      present one are not, and two present ones are compared by `eq` on
      their values. */
  function ProcessEquals<T>(eq: (T, T) -> bool, x: OrderedProcess?<T>, y: OrderedProcess?<T>): (same: bool)
    ensures x == null || y == null ==> (same <==> x == y)
    ensures x != null && y != null ==> (same <==> eq(x.value, y.value))
  {
    if x == null && y == null then true
    else if x == null || y == null then false
    else eq(x.value, y.value)
  }

  /** When `eq` is an equivalence on payloads, the process comparer is an
      equivalence on processes, and an absent process equals only an absent
      one. */
  lemma ProcessEqualsEquivalence<T>(eq: (T, T) -> bool)
    requires forall a :: eq(a, a)
    requires forall a, b :: eq(a, b) ==> eq(b, a)
    requires forall a, b, c :: eq(a, b) && eq(b, c) ==> eq(a, c)
    ensures forall x: OrderedProcess?<T> :: ProcessEquals(eq, x, x)
    ensures forall x: OrderedProcess?<T>, y: OrderedProcess?<T> :: ProcessEquals(eq, x, y) ==> ProcessEquals(eq, y, x)
    ensures forall x: OrderedProcess?<T>, y: OrderedProcess?<T>, z: OrderedProcess?<T> ::
      ProcessEquals(eq, x, y) && ProcessEquals(eq, y, z) ==> ProcessEquals(eq, x, z)
    ensures forall x: OrderedProcess?<T> :: ProcessEquals(eq, null, x) <==> x == null
  {
  }
}
