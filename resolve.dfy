/**
 * The depth-first search of `WorkflowExecutor::resolve_dependencies` as
 * functions over an explicit search state: a step is marked visited before
 * its dependencies are explored and appended to the order after them.
 * Dependencies that name no step are skipped.
 */
module Resolve {
  import opened Config

  /** `step_map`: every step under its name, a later step replacing an earlier one of the same name. */
  function StepMap(steps: seq<WorkflowStep>): (m: map<string, WorkflowStep>)
    ensures m.Keys == set i | 0 <= i < |steps| :: steps[i].name
  {
    if steps == [] then map[]
    else
      var init := steps[..|steps| - 1];
      var last := steps[|steps| - 1];
      assert forall i :: 0 <= i < |init| ==> init[i] == steps[i];
      StepMap(init)[last.name := last]
  }

  /** The entry of `StepMap` under a name is the last step with that name. */
  lemma {:induction false} StepMapLastWins(steps: seq<WorkflowStep>, j: int)
    requires 0 <= j < |steps|
    requires forall i :: j < i < |steps| ==> steps[i].name != steps[j].name
    ensures StepMap(steps)[steps[j].name] == steps[j]
    decreases |steps|
  {
    if j < |steps| - 1 {
      var init := steps[..|steps| - 1];
      assert init[j] == steps[j];
      StepMapLastWins(init, j);
    }
  }

  /** The step names, in configuration order. */
  function Names(steps: seq<WorkflowStep>): (r: seq<string>)
    ensures |r| == |steps| && forall i :: 0 <= i < |steps| ==> r[i] == steps[i].name
  {
    seq(|steps|, i requires 0 <= i < |steps| => steps[i].name)
  }

  /** The search state: the `visited` set and the `order` built so far. */
  datatype Search = Search(visited: set<string>, order: seq<string>)

  /** The `visit` closure: nothing for a visited name, otherwise mark, explore the dependencies, emit. */
  function Visit(m: map<string, WorkflowStep>, n: string, st: Search): (r: Search)
    requires n in m && st.visited <= m.Keys
    ensures st.visited <= r.visited <= m.Keys
    ensures n in r.visited
    decreases m.Keys - st.visited, 0
  {
    if n in st.visited then st
    else
      var after := VisitDeps(m, m[n].dependencies, Search(st.visited + {n}, st.order));
      Search(after.visited, after.order + [n])
  }

  /** The loop over one step's dependencies: those naming a step are visited in order, the rest skipped. */
  function VisitDeps(m: map<string, WorkflowStep>, deps: seq<string>, st: Search): (r: Search)
    requires st.visited <= m.Keys
    ensures st.visited <= r.visited <= m.Keys
    ensures forall d :: d in deps && d in m ==> d in r.visited
    decreases m.Keys - st.visited, 1, |deps|
  {
    if deps == [] then st
    else
      var next := if deps[0] in m then Visit(m, deps[0], st) else st;
      VisitDeps(m, deps[1..], next)
  }

  /**
   * `resolve_dependencies`: every step's name is visited in configuration
   * order. (Every top-level name is a key of the step map, so the check
   * `VisitDeps` makes on each name always passes.)
   */
  function Resolve(steps: seq<WorkflowStep>): seq<string>
  {
    VisitDeps(StepMap(steps), Names(steps), Search({}, [])).order
  }

  // ---------------------------------------------------------------- each name exactly once

  predicate Distinct(s: seq<string>)
  {
    forall i, j :: 0 <= i < j < |s| ==> s[i] != s[j]
  }

  /** What a search step adds: new names, each once, exactly the names it newly marks. */
  ghost predicate Grows(st: Search, r: Search)
  {
    && st.visited <= r.visited
    && |st.order| <= |r.order|
    && r.order[..|st.order|] == st.order
    && Distinct(r.order[|st.order|..])
    && (forall x :: x in r.order[|st.order|..] <==> x in r.visited && x !in st.visited)
  }

  lemma GrowsRefl(st: Search)
    ensures Grows(st, st)
  {
    assert st.order[|st.order|..] == [];
  }

  lemma GrowsTrans(a: Search, b: Search, c: Search)
    requires Grows(a, b) && Grows(b, c)
    ensures Grows(a, c)
  {
    var da := b.order[|a.order|..];
    var db := c.order[|b.order|..];
    assert c.order[..|b.order|] == b.order;
    assert c.order[..|a.order|] == b.order[..|a.order|];
    assert c.order[|a.order|..] == da + db;
    forall i, j | 0 <= i < j < |da + db|
      ensures (da + db)[i] != (da + db)[j]
    {
      if i < |da| && j >= |da| {
        assert (da + db)[i] in da && (da + db)[j] in db;
      }
    }
    forall x
      ensures x in da + db <==> x in c.visited && x !in a.visited
    {
    }
  }

  /** Appending the node that was marked before its dependencies completes its visit. */
  lemma GrowsEmit(st: Search, n: string, after: Search)
    requires n !in st.visited
    requires Grows(Search(st.visited + {n}, st.order), after)
    ensures Grows(st, Search(after.visited, after.order + [n]))
  {
    var d := after.order[|st.order|..];
    assert (after.order + [n])[..|st.order|] == st.order;
    assert (after.order + [n])[|st.order|..] == d + [n];
    assert n !in d;
  }

  lemma {:induction false} VisitGrows(m: map<string, WorkflowStep>, n: string, st: Search)
    requires n in m && st.visited <= m.Keys
    ensures Grows(st, Visit(m, n, st))
    decreases m.Keys - st.visited, 0
  {
    if n in st.visited {
      GrowsRefl(st);
    } else {
      var marked := Search(st.visited + {n}, st.order);
      VisitDepsGrows(m, m[n].dependencies, marked);
      GrowsEmit(st, n, VisitDeps(m, m[n].dependencies, marked));
    }
  }

  lemma {:induction false} VisitDepsGrows(m: map<string, WorkflowStep>, deps: seq<string>, st: Search)
    requires st.visited <= m.Keys
    ensures Grows(st, VisitDeps(m, deps, st))
    decreases m.Keys - st.visited, 1, |deps|
  {
    if deps == [] {
      GrowsRefl(st);
    } else {
      var next := if deps[0] in m then Visit(m, deps[0], st) else st;
      if deps[0] in m {
        VisitGrows(m, deps[0], st);
      } else {
        GrowsRefl(st);
      }
      VisitDepsGrows(m, deps[1..], next);
      GrowsTrans(st, next, VisitDeps(m, deps[1..], next));
    }
  }

  /**
   * The resolved order names every step exactly once, duplicates and cycles
   * included, and holds no other name: unknown dependencies are skipped.
   */
  lemma ResolveExactlyOnce(steps: seq<WorkflowStep>)
    ensures var order := Resolve(steps);
      && Distinct(order)
      && (forall x :: x in order <==> exists i :: 0 <= i < |steps| && steps[i].name == x)
  {
    var m := StepMap(steps);
    var names := Names(steps);
    var r := VisitDeps(m, names, Search({}, []));
    VisitDepsGrows(m, names, Search({}, []));
    assert r.order[0..] == r.order;
    forall x
      ensures x in r.order <==> exists i :: 0 <= i < |steps| && steps[i].name == x
    {
      if x in r.order {
        assert x in m.Keys;
      }
      if exists i :: 0 <= i < |steps| && steps[i].name == x {
        var i :| 0 <= i < |steps| && steps[i].name == x;
        assert names[i] == x;
      }
    }
  }

  // ---------------------------------------------------------------- dependency order

  /** The dependencies admit a rank that strictly decreases along every existing dependency. */
  predicate Ranked(m: map<string, WorkflowStep>, rank: string -> nat)
  {
    forall n, d :: n in m && d in m[n].dependencies && d in m ==> rank(d) < rank(n)
  }

  /** Every emitted step comes after each of its dependencies that names a step. */
  predicate DepsFirst(m: map<string, WorkflowStep>, order: seq<string>)
  {
    forall i, d :: 0 <= i < |order| && order[i] in m && d in m[order[i]].dependencies && d in m ==> d in order[..i]
  }

  /** A name that is marked but not yet emitted: a visit still on the stack. */
  predicate Open(st: Search, x: string)
  {
    x in st.visited && x !in st.order
  }

  /** The search state is consistent: every emitted step is marked. */
  predicate Consistent(st: Search)
  {
    forall x :: x in st.order ==> x in st.visited
  }

  lemma DepsFirstExtend(m: map<string, WorkflowStep>, order: seq<string>, more: seq<string>, n: string)
    requires DepsFirst(m, order + more)
    requires n in m && forall d :: d in m[n].dependencies && d in m ==> d in order + more
    ensures DepsFirst(m, order + more + [n])
  {
    var o := order + more + [n];
    forall i, d | 0 <= i < |o| && o[i] in m && d in m[o[i]].dependencies && d in m
      ensures d in o[..i]
    {
      if i < |order + more| {
        assert o[..i] == (order + more)[..i];
      } else {
        assert o[..i] == order + more;
      }
    }
  }

  /** A completed visit leaves the set of open visits as it was, and the state consistent. */
  lemma GrowsKeepsOpen(st: Search, r: Search)
    requires Grows(st, r) && Consistent(st)
    ensures Consistent(r)
    ensures forall x :: Open(r, x) <==> Open(st, x)
  {
    var delta := r.order[|st.order|..];
    assert r.order == st.order + delta;
    forall x
      ensures x in r.order <==> x in st.order || x in delta
    {
    }
  }

  lemma {:induction false} VisitDepsFirst(m: map<string, WorkflowStep>, rank: string -> nat, n: string, st: Search)
    requires Ranked(m, rank) && n in m && st.visited <= m.Keys
    requires Consistent(st) && DepsFirst(m, st.order)
    requires forall x :: Open(st, x) ==> rank(x) > rank(n)
    ensures var r := Visit(m, n, st);
      Consistent(r) && DepsFirst(m, r.order) && n in r.order && (forall x :: Open(r, x) <==> Open(st, x))
    decreases m.Keys - st.visited, 0
  {
    var r := Visit(m, n, st);
    VisitGrows(m, n, st);
    GrowsKeepsOpen(st, r);
    if n in st.visited {
      assert !Open(st, n);
    } else {
      var marked := Search(st.visited + {n}, st.order);
      var deps := m[n].dependencies;
      forall d, x | d in deps && d in m && Open(marked, x)
        ensures rank(x) > rank(d)
      {
        assert rank(d) < rank(n);
        if x != n {
          assert Open(st, x);
        }
      }
      VisitDepsDepsFirst(m, rank, deps, marked);
      var after := VisitDeps(m, deps, marked);
      assert after.order + [] == after.order;
      DepsFirstExtend(m, after.order, [], n);
    }
  }

  lemma {:induction false} VisitDepsDepsFirst(m: map<string, WorkflowStep>, rank: string -> nat,
                                               deps: seq<string>, st: Search)
    requires Ranked(m, rank) && st.visited <= m.Keys
    requires Consistent(st) && DepsFirst(m, st.order)
    requires forall d, x :: d in deps && d in m && Open(st, x) ==> rank(x) > rank(d)
    ensures var r := VisitDeps(m, deps, st);
      && Consistent(r) && DepsFirst(m, r.order)
      && (forall d :: d in deps && d in m ==> d in r.order)
      && (forall x :: Open(r, x) <==> Open(st, x))
    decreases m.Keys - st.visited, 1, |deps|
  {
    var r := VisitDeps(m, deps, st);
    VisitDepsGrows(m, deps, st);
    GrowsKeepsOpen(st, r);
    if deps != [] {
      var next := if deps[0] in m then Visit(m, deps[0], st) else st;
      if deps[0] in m {
        VisitDepsFirst(m, rank, deps[0], st);
      }
      assert forall x :: Open(next, x) <==> Open(st, x);
      VisitDepsDepsFirst(m, rank, deps[1..], next);
      VisitDepsGrows(m, deps[1..], next);
      assert r.order[..|next.order|] == next.order;
      forall d | d in deps && d in m
        ensures d in r.order
      {
        if d == deps[0] {
          assert d in next.order;
          assert d in r.order[..|next.order|];
        } else {
          assert d in deps[1..];
        }
      }
    }
  }

  /** With acyclic dependencies every step is emitted after all its dependencies that name steps. */
  lemma ResolveRespectsDependencies(steps: seq<WorkflowStep>, rank: string -> nat)
    requires Ranked(StepMap(steps), rank)
    ensures DepsFirst(StepMap(steps), Resolve(steps))
  {
    VisitDepsDepsFirst(StepMap(steps), rank, Names(steps), Search({}, []));
  }

  /** A two-step cycle still terminates, each step emitted once, the inner one first. */
  lemma ResolveCycleExample()
    ensures Resolve([WorkflowStep("a", "t", ["b"], map[], map[]), WorkflowStep("b", "t", ["a"], map[], map[])])
            == ["b", "a"]
  {
    var a := WorkflowStep("a", "t", ["b"], map[], map[]);
    var b := WorkflowStep("b", "t", ["a"], map[], map[]);
    var steps := [a, b];
    var m := StepMap(steps);
    assert steps[..1] == [a];
    assert StepMap([a]) == map["a" := a];
    assert m == map["a" := a, "b" := b];
    assert Names(steps) == ["a", "b"];
    var s0 := Search({}, []);
    var ab := Search({"a", "b"}, []);
    assert ["a"][1..] == [] && ["b"][1..] == [] && ["a", "b"][1..] == ["b"];
    assert Visit(m, "a", ab) == ab;
    assert VisitDeps(m, ["a"], ab) == VisitDeps(m, [], ab) == ab;
    var none: seq<string> := [];
    assert none + ["b"] == ["b"] && ["b"] + ["a"] == ["b", "a"];
    assert {"a"} + {"b"} == {"a", "b"} && {} + {"a"} == {"a"};
    assert m["b"].dependencies == ["a"] && m["a"].dependencies == ["b"];
    assert Visit(m, "b", Search({"a"}, [])) == Search({"a", "b"}, ["b"]);
    assert VisitDeps(m, ["b"], Search({"a"}, [])) == VisitDeps(m, [], Search({"a", "b"}, ["b"]));
    assert Visit(m, "a", s0) == Search({"a", "b"}, ["b", "a"]);
    assert Visit(m, "b", Search({"a", "b"}, ["b", "a"])) == Search({"a", "b"}, ["b", "a"]);
    assert VisitDeps(m, ["b"], Search({"a", "b"}, ["b", "a"])) == Search({"a", "b"}, ["b", "a"]);
  }
}
