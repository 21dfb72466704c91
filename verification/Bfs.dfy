/**
 Asynchronous label-correcting breadth-first search.

 Every `relax` EDT is a task; tasks interleave at their shared-memory accesses: the load of
 the level, the compare-and-swap, the second read of the level, and each send of a message,
 which creates a new task. Tasks are picked in any order.
 */
module Bfs {
  import opened Common

  /** UINT64_MAX, the level of a vertex not reached yet. */
  const INF: nat := MAX_WORD

  datatype Task =
    | Load(v: nat, lvl: nat, won: bool)           // oldlevel = level[v]
    | Test(v: nat, lvl: nat, seen: nat, won: bool) // loop test, then compare-and-swap
    | ReadLevel(v: nat)                           // neigbrlevel = level[v] + 1
    | Sending(v: nat, lvl: nat, next: nat)        // bfs_send to neighbour `next`
    | Done

  type Graph = seq<seq<nat>>

  datatype State = State(level: seq<nat>, tasks: seq<Task>)

  predicate IsGraph(g: Graph) {
    && |g| < INF
    && (forall u | 0 <= u < |g| :: forall i | 0 <= i < |g[u]| :: g[u][i] < |g|)
  }

  /** All levels UINT64_MAX, and the kick-off message to the source. */
  function Initial(g: Graph, src: nat): State {
    State(seq(|g|, _ => INF), [Load(src, 0, false)])
  }

  predicate Finished(s: State) {
    forall t | 0 <= t < |s.tasks| :: s.tasks[t] == Done
  }

  /** One access of task t. */
  function Step(g: Graph, s: State, t: nat): State
    requires t < |s.tasks| && TaskOk(g, s.tasks[t]) && |s.level| == |g|
  {
    match s.tasks[t]
    case Load(v, lvl, won) => s.(tasks := s.tasks[t := Test(v, lvl, s.level[v], won)])
    case Test(v, lvl, seen, won) =>
      if lvl < seen then
        if s.level[v] == seen then State(s.level[v := lvl], s.tasks[t := Load(v, lvl, true)])
        else s.(tasks := s.tasks[t := Load(v, lvl, false)])
      else s.(tasks := s.tasks[t := if won then ReadLevel(v) else Done])
    case ReadLevel(v) => s.(tasks := s.tasks[t := Sending(v, (s.level[v] + 1) % (INF + 1), 0)])
    case Sending(v, lvl, next) =>
      if next < |g[v]| then s.(tasks := s.tasks[t := Sending(v, lvl, next + 1)] + [Load(g[v][next], lvl, false)])
      else s.(tasks := s.tasks[t := Done])
    case Done => s
  }

  predicate TaskOk(g: Graph, task: Task) {
    match task
    case Load(v, _, _) => v < |g|
    case Test(v, _, _, _) => v < |g|
    case ReadLevel(v) => v < |g|
    case Sending(v, _, _) => v < |g|
    case Done => true
  }

  // ---------------------------------------------------------------------------------------
  // The reference: walks in the graph

  /** There is a walk with exactly n edges from src to v. */
  ghost predicate Walk(g: Graph, src: nat, v: nat, n: nat)
    decreases n
  {
    if n == 0 then v == src else exists u :: 0 <= u < |g| && v in g[u] && Walk(g, src, u, n - 1)
  }

  /** `d` is the distance of v from src: the length of a shortest walk, or UINT64_MAX for none. */
  ghost predicate IsDistance(g: Graph, src: nat, v: nat, d: nat) {
    if d == INF then forall n: nat :: !Walk(g, src, v, n)
    else Walk(g, src, v, d) && forall n: nat | n < d :: !Walk(g, src, v, n)
  }

  // ---------------------------------------------------------------------------------------
  // The invariant

  /** How many vertices have a level below `l`. */
  function Below(level: seq<nat>, l: nat): nat {
    if level == [] then 0 else (if level[0] < l then 1 else 0) + Below(level[1..], l)
  }

  /** A label that may be in use: it is the length of a walk, and small. */
  ghost predicate Sound(g: Graph, src: nat, level: seq<nat>, v: nat, l: nat) {
    Walk(g, src, v, l) && l <= Below(level, l)
  }

  ghost predicate TaskInv(g: Graph, src: nat, level: seq<nat>, task: Task)
    requires |level| == |g|
  {
    && TaskOk(g, task)
    && (match task
        case Load(v, lvl, won) => Sound(g, src, level, v, lvl) && (won ==> level[v] <= lvl)
        case Test(v, lvl, seen, won) => Sound(g, src, level, v, lvl) && level[v] <= seen && (won ==> seen <= lvl)
        case ReadLevel(v) => level[v] < INF
        case Sending(v, lvl, next) => lvl > 0 && level[v] + 1 <= lvl && Walk(g, src, v, lvl - 1) &&
          lvl <= Below(level, lvl)
        case Done => true)
  }

  /** A message to w with a label of at most l is under way. */
  predicate CarriesTo(task: Task, w: nat, l: nat) {
    (task.Load? || task.Test?) && task.v == w && task.lvl <= l
  }

  /** A task will yet send to neighbour i of u a label of at most level[u] + 1. */
  predicate WillSend(task: Task, u: nat, i: nat, l: nat) {
    || ((task.Load? || task.Test?) && task.v == u && task.won)
    || (task.ReadLevel? && task.v == u)
    || (task.Sending? && task.v == u && task.lvl <= l && task.next <= i)
  }

  ghost predicate Covered(g: Graph, s: State, u: nat, i: nat)
    requires |s.level| == |g| && u < |g| && i < |g[u]| && g[u][i] < |g|
  {
    || s.level[g[u][i]] <= s.level[u] + 1
    || (exists t: nat ::
          && t < |s.tasks|
          && (CarriesTo(s.tasks[t], g[u][i], s.level[u] + 1) || WillSend(s.tasks[t], u, i, s.level[u] + 1)))
  }

  ghost predicate Inv(g: Graph, src: nat, s: State) {
    && IsGraph(g) && src < |g| && |s.level| == |g|
    && (forall t: nat | t < |s.tasks| :: TaskInv(g, src, s.level, s.tasks[t]))
    && (forall v: nat | v < |g| && s.level[v] != INF :: s.level[v] < INF && Sound(g, src, s.level, v, s.level[v]))
    && (s.level[src] == 0 || exists t: nat :: t < |s.tasks| && CarriesTo(s.tasks[t], src, 0))
    && (forall u: nat, i: nat | u < |g| && s.level[u] != INF && i < |g[u]| :: Covered(g, s, u, i))
  }

  lemma InitialInv(g: Graph, src: nat)
    requires IsGraph(g) && src < |g|
    ensures Inv(g, src, Initial(g, src))
  {
    var s := Initial(g, src);
    assert CarriesTo(s.tasks[0], src, 0);
  }

  lemma {:induction false} BelowBound(level: seq<nat>, l: nat)
    ensures Below(level, l) <= |level|
  {
    if level != [] { BelowBound(level[1..], l); }
  }

  /** Lowering one level never lowers the count. */
  lemma {:induction false} BelowAfterLowering(level: seq<nat>, v: nat, x: nat, l: nat)
    requires v < |level| && x <= level[v]
    ensures Below(level[v := x], l) >= Below(level, l)
  {
    if v > 0 {
      assert level[v := x][1..] == level[1..][v - 1 := x];
      BelowAfterLowering(level[1..], v - 1, x, l);
    } else {
      assert level[v := x][1..] == level[1..];
    }
  }

  lemma {:induction false} BelowMonotone(level: seq<nat>, l: nat)
    ensures Below(level, l) <= Below(level, l + 1)
  {
    if level != [] { BelowMonotone(level[1..], l); }
  }

  /** The next label counts the vertex that has this one. */
  lemma {:induction false} BelowNext(level: seq<nat>, v: nat)
    requires v < |level|
    ensures Below(level, level[v] + 1) >= Below(level, level[v]) + 1
  {
    if v > 0 { BelowNext(level[1..], v - 1); } else { BelowMonotone(level[1..], level[0]); }
  }

  lemma SoundAfterLowering(g: Graph, src: nat, level: seq<nat>, v: nat, x: nat, w: nat, l: nat)
    requires v < |level| && x <= level[v] && Sound(g, src, level, w, l)
    ensures Sound(g, src, level[v := x], w, l)
  {
    BelowAfterLowering(level, v, x, l);
  }

  // ---------------------------------------------------------------------------------------
  // Every step keeps the invariant

  /** Task t becomes `task` and the levels stay. */
  lemma SameLevels(g: Graph, src: nat, s: State, t: nat, task: Task)
    requires Inv(g, src, s) && t < |s.tasks| && TaskInv(g, src, s.level, task)
    requires forall w: nat, l: nat | w < |g| && CarriesTo(s.tasks[t], w, l) :: CarriesTo(task, w, l) || s.level[w] <= l
    requires forall u: nat, i: nat, l: nat | WillSend(s.tasks[t], u, i, l) && u < |g| && i < |g[u]| &&
      l == s.level[u] + 1 ::
      WillSend(task, u, i, l)
    ensures Inv(g, src, s.(tasks := s.tasks[t := task]))
  {
    var s' := s.(tasks := s.tasks[t := task]);
    if s.level[src] != 0 {
      var x: nat :| x < |s.tasks| && CarriesTo(s.tasks[x], src, 0);
      assert CarriesTo(s'.tasks[x], src, 0);
    }
    forall u: nat, i: nat | u < |g| && s.level[u] != INF && i < |g[u]| ensures Covered(g, s', u, i) {
      assert Covered(g, s, u, i);
      var w, l := g[u][i], s.level[u] + 1;
      if s.level[w] > l {
        var x: nat :| x < |s.tasks| && (CarriesTo(s.tasks[x], w, l) || WillSend(s.tasks[x], u, i, l));
        assert CarriesTo(s'.tasks[x], w, l) || WillSend(s'.tasks[x], u, i, l);
      }
    }
  }

  /** A won compare-and-swap lowers the level; the winner covers every edge out of v. */
  lemma WinKeepsTasks(g: Graph, src: nat, s: State, t: nat, v: nat, lvl: nat)
    requires Inv(g, src, s) && t < |s.tasks| && v < |g| && lvl < s.level[v] && Sound(g, src, s.level, v, lvl)
    ensures var s' := State(s.level[v := lvl], s.tasks[t := Load(v, lvl, true)]);
      && (forall x: nat | x < |s'.tasks| :: TaskInv(g, src, s'.level, s'.tasks[x]))
      && (forall w: nat | w < |g| && s'.level[w] != INF :: s'.level[w] < INF && Sound(g, src, s'.level, w, s'.level[w]))
  {
    var s' := State(s.level[v := lvl], s.tasks[t := Load(v, lvl, true)]);
    SoundAfterLowering(g, src, s.level, v, lvl, v, lvl);
    forall x: nat | x < |s'.tasks| ensures TaskInv(g, src, s'.level, s'.tasks[x]) {
      var task := s.tasks[x];
      assert TaskInv(g, src, s.level, task);
      if task.Load? || task.Test? {
        SoundAfterLowering(g, src, s.level, v, lvl, task.v, task.lvl);
      } else if task.Sending? {
        BelowAfterLowering(s.level, v, lvl, task.lvl);
      }
    }
    forall w: nat | w < |g| && s'.level[w] != INF ensures s'.level[w] < INF && Sound(g, src, s'.level, w, s'.level[w]) {
      if w != v { SoundAfterLowering(g, src, s.level, v, lvl, w, s.level[w]); } else { BelowBound(s.level, lvl); }
    }
  }

  lemma WinKeepsInv(g: Graph, src: nat, s: State, t: nat)
    requires Inv(g, src, s) && t < |s.tasks| && s.tasks[t].Test?
    requires s.tasks[t].lvl < s.tasks[t].seen == s.level[s.tasks[t].v]
    ensures Inv(g, src, Step(g, s, t))
  {
    var s', v, lvl := Step(g, s, t), s.tasks[t].v, s.tasks[t].lvl;
    assert TaskInv(g, src, s.level, s.tasks[t]);
    WinKeepsTasks(g, src, s, t, v, lvl);
    if s.level[src] != 0 {
      var x: nat :| x < |s.tasks| && CarriesTo(s.tasks[x], src, 0);
      assert CarriesTo(s'.tasks[x], src, 0);
    }
    forall u: nat, i: nat | u < |g| && s'.level[u] != INF && i < |g[u]| ensures Covered(g, s', u, i) {
      if u == v {
        assert WillSend(s'.tasks[t], u, i, s'.level[u] + 1);
      } else {
        assert Covered(g, s, u, i);
        var w, l := g[u][i], s.level[u] + 1;
        if s.level[w] > l {
          var x: nat :| x < |s.tasks| && (CarriesTo(s.tasks[x], w, l) || WillSend(s.tasks[x], u, i, l));
          assert CarriesTo(s'.tasks[x], w, l) || WillSend(s'.tasks[x], u, i, l);
        }
      }
    }
  }

  lemma ReadKeepsInv(g: Graph, src: nat, s: State, t: nat)
    requires Inv(g, src, s) && t < |s.tasks| && s.tasks[t].ReadLevel?
    ensures Inv(g, src, Step(g, s, t))
  {
    var v := s.tasks[t].v;
    assert TaskInv(g, src, s.level, s.tasks[t]);
    BelowBound(s.level, s.level[v]);
    BelowNext(s.level, v);
    SameLevels(g, src, s, t, Sending(v, s.level[v] + 1, 0));
  }

  lemma SendKeepsCover(g: Graph, src: nat, s: State, t: nat, u: nat, i: nat)
    requires Inv(g, src, s) && t < |s.tasks| && s.tasks[t].Sending? && s.tasks[t].next < |g[s.tasks[t].v]|
    requires u < |g| && s.level[u] != INF && i < |g[u]|
    ensures Covered(g, Step(g, s, t), u, i)
  {
    var s', w, l := Step(g, s, t), g[u][i], s.level[u] + 1;
    assert Covered(g, s, u, i);
    if s.level[w] > l {
      var x: nat :| x < |s.tasks| && (CarriesTo(s.tasks[x], w, l) || WillSend(s.tasks[x], u, i, l));
      var y := if x == t && i == s.tasks[t].next then |s.tasks| else x;
      assert y < |s'.tasks| && (CarriesTo(s'.tasks[y], w, l) || WillSend(s'.tasks[y], u, i, l));
    }
  }

  /** The message sent carries the length of a walk. */
  lemma SendKeepsTasks(g: Graph, src: nat, s: State, t: nat)
    requires IsGraph(g) && |s.level| == |g| && t < |s.tasks| && s.tasks[t].Sending?
    requires forall x: nat | x < |s.tasks| :: TaskInv(g, src, s.level, s.tasks[x])
    requires s.tasks[t].v < |g| && s.tasks[t].next < |g[s.tasks[t].v]|
    ensures forall x: nat | x < |Step(g, s, t).tasks| :: TaskInv(g, src, s.level, Step(g, s, t).tasks[x])
  {
    var v, lvl, next := s.tasks[t].v, s.tasks[t].lvl, s.tasks[t].next;
    assert TaskInv(g, src, s.level, s.tasks[t]);
    assert g[v][next] in g[v];
    assert Walk(g, src, g[v][next], lvl);
    assert TaskInv(g, src, s.level, Load(g[v][next], lvl, false));
  }

  lemma SendKeepsInv(g: Graph, src: nat, s: State, t: nat)
    requires Inv(g, src, s) && t < |s.tasks| && s.tasks[t].Sending? && s.tasks[t].next < |g[s.tasks[t].v]|
    ensures Inv(g, src, Step(g, s, t))
  {
    var s' := Step(g, s, t);
    SendKeepsTasks(g, src, s, t);
    if s.level[src] != 0 {
      var x: nat :| x < |s.tasks| && CarriesTo(s.tasks[x], src, 0);
      assert CarriesTo(s'.tasks[x], src, 0);
    }
    forall u: nat, i: nat | u < |g| && s'.level[u] != INF && i < |g[u]| ensures Covered(g, s', u, i) {
      SendKeepsCover(g, src, s, t, u, i);
    }
  }

  lemma StepKeepsInv(g: Graph, src: nat, s: State, t: nat)
    requires Inv(g, src, s) && t < |s.tasks|
    ensures Inv(g, src, Step(g, s, t))
  {
    var task := s.tasks[t];
    assert TaskInv(g, src, s.level, task);
    match task
    case Load(v, lvl, won) => SameLevels(g, src, s, t, Test(v, lvl, s.level[v], won));
    case Test(v, lvl, seen, won) =>
      if lvl < seen {
        if s.level[v] == seen { WinKeepsInv(g, src, s, t); }
        else { LoseKeepsInv(g, src, s, t); }
      } else {
        TestEndKeepsInv(g, src, s, t);
      }
    case ReadLevel(v) => ReadKeepsInv(g, src, s, t);
    case Sending(v, lvl, next) =>
      if next < |g[v]| { SendKeepsInv(g, src, s, t); } else { SameLevels(g, src, s, t, Done); }
    case Done =>
  }

  /** A lost compare-and-swap never forgets a win: a winner's level is already low enough. */
  lemma LoseKeepsInv(g: Graph, src: nat, s: State, t: nat)
    requires Inv(g, src, s) && t < |s.tasks| && s.tasks[t].Test?
    requires s.tasks[t].lvl < s.tasks[t].seen != s.level[s.tasks[t].v]
    ensures Inv(g, src, Step(g, s, t))
  {
    var task := s.tasks[t];
    assert TaskInv(g, src, s.level, task);
    SameLevels(g, src, s, t, Load(task.v, task.lvl, false));
  }

  lemma TestEndKeepsInv(g: Graph, src: nat, s: State, t: nat)
    requires Inv(g, src, s) && t < |s.tasks| && s.tasks[t].Test? && s.tasks[t].lvl >= s.tasks[t].seen
    ensures Inv(g, src, Step(g, s, t))
  {
    var task := s.tasks[t];
    assert TaskInv(g, src, s.level, task);
    BelowBound(s.level, task.lvl);
    SameLevels(g, src, s, t, if task.won then ReadLevel(task.v) else Done);
  }

  // ---------------------------------------------------------------------------------------
  // Termination

  function Sum(level: seq<nat>): nat {
    if level == [] then 0 else level[0] + Sum(level[1..])
  }

  /** What is left to do in one task, counting the tasks it may still create. */
  function Weight(g: Graph, level: seq<nat>, task: Task): nat
    requires TaskOk(g, task) && |level| == |g|
  {
    match task
    case Load(v, _, won) => 3 + if won then ReadWeight(g, v) else 0
    case Test(v, _, seen, won) => (if level[v] == seen then 2 else 4) + if won then ReadWeight(g, v) else 0
    case ReadLevel(v) => ReadWeight(g, v)
    case Sending(v, _, next) => if next <= |g[v]| then 1 + 4 * (|g[v]| - next) else 1
    case Done => 0
  }

  function ReadWeight(g: Graph, v: nat): nat
    requires v < |g|
  {
    2 + 4 * |g[v]|
  }

  function Pending(g: Graph, level: seq<nat>, tasks: seq<Task>): nat
    requires |level| == |g| && forall t | 0 <= t < |tasks| :: TaskOk(g, tasks[t])
  {
    if tasks == [] then 0 else Weight(g, level, tasks[0]) + Pending(g, level, tasks[1..])
  }

  lemma {:induction false} SumAfter(level: seq<nat>, v: nat, x: nat)
    requires v < |level|
    ensures Sum(level[v := x]) == Sum(level) - level[v] + x
  {
    if v > 0 {
      assert level[v := x][1..] == level[1..][v - 1 := x];
      SumAfter(level[1..], v - 1, x);
    } else {
      assert level[v := x][1..] == level[1..];
    }
  }

  lemma {:induction false} PendingAfter(g: Graph, level: seq<nat>, tasks: seq<Task>, t: nat, task: Task)
    requires |level| == |g| && t < |tasks| && TaskOk(g, task) && forall x | 0 <= x < |tasks| :: TaskOk(g, tasks[x])
    ensures Pending(g, level, tasks[t := task]) == Pending(g, level, tasks) - Weight(g, level, tasks[t]) +
      Weight(g, level, task)
  {
    if t > 0 {
      assert tasks[t := task][1..] == tasks[1..][t - 1 := task];
      PendingAfter(g, level, tasks[1..], t - 1, task);
    } else {
      assert tasks[t := task][1..] == tasks[1..];
    }
  }

  lemma {:induction false} PendingPlus(g: Graph, level: seq<nat>, tasks: seq<Task>, task: Task)
    requires |level| == |g| && TaskOk(g, task) && forall x | 0 <= x < |tasks| :: TaskOk(g, tasks[x])
    ensures Pending(g, level, tasks + [task]) == Pending(g, level, tasks) + Weight(g, level, task)
  {
    if tasks != [] {
      assert (tasks + [task])[1..] == tasks[1..] + [task];
      PendingPlus(g, level, tasks[1..], task);
    } else {
      assert tasks + [task] == [task];
    }
  }

  /** Every step of an unfinished task lowers the levels, or leaves them and lowers the rest. */
  lemma StepDecreases(g: Graph, src: nat, s: State, t: nat)
    requires Inv(g, src, s) && t < |s.tasks| && s.tasks[t] != Done
    ensures var s' := Step(g, s, t);
      && Inv(g, src, s')
      && (|| Sum(s'.level) < Sum(s.level)
          || (Sum(s'.level) == Sum(s.level) && Pending(g, s'.level, s'.tasks) < Pending(g, s.level, s.tasks)))
  {
    StepKeepsInv(g, src, s, t);
    var s', task := Step(g, s, t), s.tasks[t];
    assert TaskInv(g, src, s.level, task);
    if s'.level != s.level {
      SumAfter(s.level, task.v, task.lvl);
    } else if task.Sending? && task.next < |g[task.v]| {
      SendDecreases(g, s, t);
    } else {
      assert TaskInv(g, src, s'.level, s'.tasks[t]);
      PendingAfter(g, s.level, s.tasks, t, s'.tasks[t]);
      assert s'.tasks == s.tasks[t := s'.tasks[t]];
    }
  }

  lemma SendDecreases(g: Graph, s: State, t: nat)
    requires IsGraph(g) && |s.level| == |g| && t < |s.tasks| && forall x | 0 <= x < |s.tasks| :: TaskOk(g, s.tasks[x])
    requires s.tasks[t].Sending? && s.tasks[t].v < |g| && s.tasks[t].next < |g[s.tasks[t].v]|
    ensures forall x | 0 <= x < |Step(g, s, t).tasks| :: TaskOk(g, Step(g, s, t).tasks[x])
    ensures Pending(g, s.level, Step(g, s, t).tasks) < Pending(g, s.level, s.tasks)
  {
    var task := s.tasks[t];
    PendingAfter(g, s.level, s.tasks, t, Sending(task.v, task.lvl, task.next + 1));
    PendingPlus(g, s.level, s.tasks[t := Sending(task.v, task.lvl, task.next + 1)],
      Load(g[task.v][task.next], task.lvl, false));
  }

  /** A scheduler: for every unfinished state it names an unfinished task. */
  ghost predicate Scheduler(pick: State -> nat) {
    forall s: State :: !Finished(s) ==> pick(s) < |s.tasks| && s.tasks[pick(s)] != Done
  }

  /** The run of a scheduler. That this is a function at all says that every run ends. */
  ghost function RunToEnd(g: Graph, src: nat, s: State, pick: State -> nat): (s': State)
    requires Inv(g, src, s) && Scheduler(pick)
    ensures Inv(g, src, s') && Finished(s')
    decreases Sum(s.level), Pending(g, s.level, s.tasks)
  {
    if Finished(s) then s else
      StepDecreases(g, src, s, pick(s));
      RunToEnd(g, src, Step(g, s, pick(s)), pick)
  }

  // ---------------------------------------------------------------------------------------
  // Main results

  /** The state after the tasks named have each made one access, in this order. */
  ghost function Exec(g: Graph, src: nat, picks: seq<nat>): (s: State)
    requires IsGraph(g) && src < |g|
    ensures Inv(g, src, s)
  {
    if picks == [] then
      InitialInv(g, src);
      Initial(g, src)
    else
      var before, t := Exec(g, src, picks[..|picks| - 1]), picks[|picks| - 1];
      if t < |before.tasks| then
        StepKeepsInv(g, src, before, t);
        Step(g, before, t)
      else
        before
  }

  /** At any point of any run a level is UINT64_MAX or the length of some walk, so never below the distance. */
  lemma LevelsNeverBelowDistance(g: Graph, src: nat, picks: seq<nat>, v: nat, d: nat)
    requires IsGraph(g) && src < |g| && v < |g| && d <= INF && IsDistance(g, src, v, d)
    ensures var s := Exec(g, src, picks); |s.level| == |g| && d <= s.level[v]
  {
    var s := Exec(g, src, picks);
    assert s.level[v] != INF ==> Sound(g, src, s.level, v, s.level[v]);
  }

  lemma {:induction false} WalksBoundLevels(g: Graph, src: nat, s: State, v: nat, n: nat)
    requires Inv(g, src, s) && Finished(s) && v < |g| && Walk(g, src, v, n)
    ensures s.level[v] <= n && s.level[v] < INF
    decreases n
  {
    if n > 0 {
      var u :| 0 <= u < |g| && v in g[u] && Walk(g, src, u, n - 1);
      WalksBoundLevels(g, src, s, u, n - 1);
      var i: nat :| i < |g[u]| && g[u][i] == v;
      assert Covered(g, s, u, i);
      BelowNext(s.level, u);
      BelowBound(s.level, s.level[u] + 1);
    }
  }

  /** When no task is left, every level is the distance. */
  lemma FinishedLevelsAreDistances(g: Graph, src: nat, s: State, v: nat)
    requires Inv(g, src, s) && Finished(s) && v < |g|
    ensures IsDistance(g, src, v, s.level[v])
  {
    forall n: nat | n < s.level[v] || s.level[v] == INF ensures !Walk(g, src, v, n) {
      if Walk(g, src, v, n) { WalksBoundLevels(g, src, s, v, n); }
    }
  }

  /** Whatever the order of the accesses, the search ends with the distances from the source. */
  lemma BfsIsCorrect(g: Graph, src: nat, pick: State -> nat)
    requires IsGraph(g) && src < |g| && Scheduler(pick)
    ensures Inv(g, src, Initial(g, src))
    ensures var s := RunToEnd(g, src, Initial(g, src), pick);
      |s.level| == |g| && forall v: nat | v < |g| :: IsDistance(g, src, v, s.level[v])
  {
    InitialInv(g, src);
    var s := RunToEnd(g, src, Initial(g, src), pick);
    forall v: nat | v < |g| ensures IsDistance(g, src, v, s.level[v]) { FinishedLevelsAreDistances(g, src, s, v); }
  }
}
