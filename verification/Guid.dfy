/**
 GUID generation. During startup a node hands out keys from the top of the key space down.
 Afterwards the rest is cut into one block per thread of the cluster, and each thread counts
 upwards in its own block, separately for each rank and type.
 */
module Guid {
  import opened Common
  import opened GuidLayout

  /** The cluster: `ranks` nodes of `workers` workers and a network thread each. */
  datatype Cluster = Cluster(ranks: nat, workers: nat)

  function Blocks(c: Cluster): nat { (c.workers + 1) * c.ranks }

  function NumTables(c: Cluster): nat { if c.ranks == 1 then c.workers else c.workers + 1 }

  /** The block of a thread; thread `workers` is the network thread. */
  function BlockOf(c: Cluster, rank: nat, thread: nat): nat { NumTables(c) * rank + thread }

  /** A node's generator: the startup key, or 0 after it; the block size; and each thread's counters. */
  datatype Node = Node(on: nat, keysPerThread: nat, keys: seq<seq<nat>>)

  function Index(route: nat, type': nat): nat { route * LAST_TYPE + type' }

  predicate NodeShape(c: Cluster, n: Node) {
    |n.keys| == c.workers + 1 && forall t | 0 <= t < |n.keys| :: |n.keys[t]| == LAST_TYPE * c.ranks
  }

  predicate Request(c: Cluster, thread: nat, route: nat, type': nat, count: nat) {
    thread <= c.workers && route < c.ranks && TYPE_NULL < type' < LAST_TYPE && count > 0
  }

  lemma IndexInRange(c: Cluster, route: nat, type': nat)
    requires route < c.ranks && type' < LAST_TYPE
    ensures Index(route, type') < LAST_TYPE * c.ranks
  {
    assert LAST_TYPE * c.ranks >= LAST_TYPE * (route + 1);
  }

  lemma IndexInjective(route: nat, type': nat, route2: nat, type2: nat)
    requires type' < LAST_TYPE && type2 < LAST_TYPE && Index(route, type') == Index(route2, type2)
    ensures route == route2 && type' == type2
  {
  }

  /** arts_guid_create_for_rank_internal: the first of `count` keys, or none when they have run out. */
  function Create(c: Cluster, n: Node, rank: nat, thread: nat, route: nat, type': nat, count: nat): (Node, Option<nat>)
    requires NodeShape(c, n) && Request(c, thread, route, type', count)
  {
    IndexInRange(c, route, type');
    if n.on != 0 then
      if n.on > count then (n.(on := n.on - count), Some(n.on - count)) else (n, None)
    else
      var value := n.keys[thread][Index(route, type')];
      if value + count < n.keysPerThread then
        var row: seq<nat> := n.keys[thread][Index(route, type') := value + count];
        (n.(keys := n.keys[thread := row]),
         Some(value + n.keysPerThread * BlockOf(c, rank, thread)))
      else (n, None)
  }

  /** set_guid_generator_after_parallel_start. */
  function EndStartup(c: Cluster, n: Node): Node
    requires Blocks(c) > 0
  {
    n.(keysPerThread := n.on / Blocks(c), on := 0)
  }

  function Ones(n: nat): (s: seq<nat>)
    ensures |s| == n && forall i | 0 <= i < n :: s[i] == 1
  {
    seq(n, _ => 1)
  }

  function Fresh(c: Cluster): (n: Node)
    ensures NodeShape(c, n)
  {
    Node(KEYS, 0, seq(c.workers + 1, _ => Ones(LAST_TYPE * c.ranks)))
  }

  // ---------------------------------------------------------------------------------------
  // Runs of the cluster

  /** What was reserved, by whom, and when. */
  datatype Reservation = Reservation(rank: nat, thread: nat, startup: bool, route: nat, type': nat, key: nat,
      count: nat)

  datatype State = State(nodes: seq<Node>, log: seq<Reservation>)

  datatype Event =
    | Reserve(rank: nat, thread: nat, route: nat, type': nat, count: nat)
    | Start(rank: nat)

  /** One event; a node leaves startup only with the block size all nodes agree on. */
  function Apply(c: Cluster, agreed: nat, s: State, e: Event): State
    requires forall r | 0 <= r < |s.nodes| :: NodeShape(c, s.nodes[r])
  {
    match e
    case Reserve(rank, thread, route, type', count) =>
      if rank < |s.nodes| && Request(c, thread, route, type', count) then
        var (n, key) := Create(c, s.nodes[rank], rank, thread, route, type', count);
        if key.None? then s
        else State(s.nodes[rank := n], s.log + [Reservation(rank, thread, s.nodes[rank].on != 0, route, type',
          key.value, count)])
      else s
    case Start(rank) =>
      if rank < |s.nodes| && s.nodes[rank].on != 0 && Blocks(c) > 0 && s.nodes[rank].on / Blocks(c) == agreed then
        s.(nodes := s.nodes[rank := EndStartup(c, s.nodes[rank])])
      else s
  }

  /** No GUID is in both. */
  predicate Disjoint(a: Reservation, b: Reservation) {
    a.type' != b.type' || a.route != b.route || a.key + a.count <= b.key || b.key + b.count <= a.key
  }

  /** Both reserved after startup, or both in the startup of one node. */
  predicate SamePhase(a: Reservation, b: Reservation) {
    a.startup == b.startup && (a.startup ==> a.rank == b.rank)
  }

  // ---------------------------------------------------------------------------------------
  // The invariant

  ghost predicate NodeOk(c: Cluster, agreed: nat, n: Node) {
    && NodeShape(c, n)
    && if n.on != 0 then n.on <= KEYS && n.keysPerThread == 0
       else n.keysPerThread == agreed && agreed * Blocks(c) <= KEYS
  }

  /** A reservation lies where its node's generator has already been. */
  ghost predicate Behind(c: Cluster, agreed: nat, nodes: seq<Node>, r: Reservation) {
    r.rank < c.ranks == |nodes| && NodeBehind(c, agreed, nodes[r.rank], r)
  }

  ghost predicate NodeBehind(c: Cluster, agreed: nat, n: Node, r: Reservation) {
    && Request(c, r.thread, r.route, r.type', r.count) && NodeShape(c, n)
    && if r.startup then
         r.key + r.count <= KEYS && if n.on != 0 then n.on <= r.key else agreed * Blocks(c) <= r.key
       else
         && n.on == 0
         && agreed * BlockOf(c, r.rank, r.thread) <= r.key
         && r.key + r.count <= agreed * BlockOf(c, r.rank, r.thread) + Counter(c, n, r.thread, r.route, r.type')
         && Counter(c, n, r.thread, r.route, r.type') <= agreed
  }

  ghost function Counter(c: Cluster, n: Node, thread: nat, route: nat, type': nat): nat
    requires NodeShape(c, n) && thread <= c.workers && route < c.ranks && type' < LAST_TYPE
  {
    IndexInRange(c, route, type');
    n.keys[thread][Index(route, type')]
  }

  ghost predicate Inv(c: Cluster, agreed: nat, s: State) {
    && |s.nodes| == c.ranks && (forall r | 0 <= r < c.ranks :: NodeOk(c, agreed, s.nodes[r]))
    && (forall i | 0 <= i < |s.log| :: Behind(c, agreed, s.nodes, s.log[i]))
    && (forall i, j | 0 <= i < j < |s.log| && SamePhase(s.log[i], s.log[j]) :: Disjoint(s.log[i], s.log[j]))
  }

  // ---------------------------------------------------------------------------------------
  // Blocks

  /** Different threads of the cluster have different blocks. */
  lemma BlocksDiffer(c: Cluster, rank: nat, thread: nat, rank2: nat, thread2: nat)
    requires rank < c.ranks && rank2 < c.ranks && thread <= c.workers && thread2 <= c.workers
    requires BlockOf(c, rank, thread) == BlockOf(c, rank2, thread2)
    ensures rank == rank2 && thread == thread2
  {
    var w := c.workers;
    if c.ranks > 1 {
      if rank < rank2 { Below(w + 1, rank, rank2); }
      if rank2 < rank { Below(w + 1, rank2, rank); }
    }
  }

  lemma Below(m: nat, a: nat, b: nat)
    requires a < b
    ensures m * a + m <= m * b
  {
    var d := b - a - 1;
    assert m * b == m * a + m + m * d;
  }

  lemma BlockInRange(c: Cluster, rank: nat, thread: nat)
    requires rank < c.ranks && thread <= c.workers
    ensures BlockOf(c, rank, thread) < Blocks(c)
  {
    if c.ranks > 1 { Below(c.workers + 1, rank, c.ranks); }
  }

  // ---------------------------------------------------------------------------------------
  // Every event keeps it

  /** Between them, what two `Behind` reservations of different generators rule out. */
  lemma OthersDisjoint(c: Cluster, agreed: nat, nodes: seq<Node>, a: Reservation, b: Reservation)
    requires Behind(c, agreed, nodes, a) && Behind(c, agreed, nodes, b) && !a.startup && !b.startup
    requires (a.rank, a.thread) != (b.rank, b.thread)
    ensures Disjoint(a, b)
  {
    var g, h := BlockOf(c, a.rank, a.thread), BlockOf(c, b.rank, b.thread);
    if g == h { BlocksDiffer(c, a.rank, a.thread, b.rank, b.thread); }
    if g < h { Below(agreed, g, h); } else if h < g { Below(agreed, h, g); }
  }

  /** Startup keys are above every block. */
  lemma StartupDisjoint(c: Cluster, agreed: nat, nodes: seq<Node>, a: Reservation, b: Reservation)
    requires Behind(c, agreed, nodes, a) && Behind(c, agreed, nodes, b) && a.startup && !b.startup
    requires nodes[a.rank].on == 0
    ensures Disjoint(a, b)
  {
    BlockInRange(c, b.rank, b.thread);
    Below(agreed, BlockOf(c, b.rank, b.thread), Blocks(c));
  }

  lemma CounterUpdate(c: Cluster, n: Node, n': Node, thread: nat, route: nat, type': nat, value: nat, t: nat, r: nat,
                      ty: nat)
    requires NodeShape(c, n) && Request(c, thread, route, type', 1) && Request(c, t, r, ty, 1)
    requires Index(route, type') < |n.keys[thread]|
    requires var row: seq<nat> := n.keys[thread][Index(route, type') := value]; n' == n.(keys := n.keys[thread := row])
    ensures NodeShape(c, n')
    ensures Counter(c, n', t, r, ty) == if (t, r, ty) == (thread, route, type') then value else Counter(c, n, t, r, ty)
  {
    IndexInRange(c, route, type');
    IndexInRange(c, r, ty);
    if t == thread && Index(r, ty) == Index(route, type') { IndexInjective(r, ty, route, type'); }
  }

  /** A startup reservation: below all earlier ones of the node. */
  lemma StartupReserveKeeps(c: Cluster, agreed: nat, s: State, e: Event, s': State)
    requires Inv(c, agreed, s) && e.Reserve? && e.rank < c.ranks && Request(c, e.thread, e.route, e.type', e.count)
    requires s.nodes[e.rank].on > e.count
    requires s' == State(s.nodes[e.rank := s.nodes[e.rank].(on := s.nodes[e.rank].on - e.count)],
                         s.log + [Reservation(e.rank, e.thread, true, e.route, e.type', s.nodes[e.rank].on - e.count,
                           e.count)])
    ensures Inv(c, agreed, s')
  {
    assert NodeOk(c, agreed, s.nodes[e.rank]);
    forall i | 0 <= i < |s'.log| ensures Behind(c, agreed, s'.nodes, s'.log[i]) {
      if i < |s.log| { assert Behind(c, agreed, s.nodes, s.log[i]); }
    }
    forall i, j | 0 <= i < j < |s'.log| && SamePhase(s'.log[i], s'.log[j]) ensures Disjoint(s'.log[i], s'.log[j]) {
      if j == |s.log| { assert Behind(c, agreed, s.nodes, s.log[i]); }
    }
  }

  lemma BehindStays(c: Cluster, agreed: nat, nodes: seq<Node>, nodes': seq<Node>, rank: nat, thread: nat, route: nat,
                    type': nat, count: nat, r: Reservation)
    requires rank < c.ranks == |nodes| && NodeShape(c, nodes[rank]) && Request(c, thread, route, type', count)
    requires Behind(c, agreed, nodes, r) && nodes[rank].on == 0
    requires Index(route, type') < |nodes[rank].keys[thread]|
    requires var value := Counter(c, nodes[rank], thread, route, type') + count;
      var row: seq<nat> := nodes[rank].keys[thread][Index(route, type') := value];
      value <= agreed && nodes' == nodes[rank := nodes[rank].(keys := nodes[rank].keys[thread := row])]
    ensures Behind(c, agreed, nodes', r)
  {
    var value := Counter(c, nodes[rank], thread, route, type') + count;
    if r.rank == rank {
      CounterUpdate(c, nodes[rank], nodes'[rank], thread, route, type', value, r.thread, r.route, r.type');
    }
  }

  /** A later reservation: above all earlier ones of the thread for this rank and type, in its own block. */
  lemma ReserveKeeps(c: Cluster, agreed: nat, s: State, e: Event, s': State, r: Reservation)
    requires Inv(c, agreed, s) && e.Reserve? && e.rank < c.ranks && Request(c, e.thread, e.route, e.type', e.count)
    requires s.nodes[e.rank].on == 0 && Index(e.route, e.type') < |s.nodes[e.rank].keys[e.thread]|
    requires var n := s.nodes[e.rank];
      var value := Counter(c, n, e.thread, e.route, e.type') + e.count;
      var row: seq<nat> := n.keys[e.thread][Index(e.route, e.type') := value];
      && value < agreed
      && r == Reservation(e.rank, e.thread, false, e.route, e.type', value - e.count +
        agreed * BlockOf(c, e.rank, e.thread), e.count)
      && s' == State(s.nodes[e.rank := n.(keys := n.keys[e.thread := row])], s.log + [r])
    ensures Inv(c, agreed, s')
  {
    var n := s.nodes[e.rank];
    assert NodeOk(c, agreed, n);
    var value := Counter(c, n, e.thread, e.route, e.type') + e.count;
    CounterUpdate(c, n, s'.nodes[e.rank], e.thread, e.route, e.type', value, e.thread, e.route, e.type');
    assert Behind(c, agreed, s'.nodes, r);
    forall i | 0 <= i < |s.log| ensures Behind(c, agreed, s'.nodes, s.log[i]) {
      BehindStays(c, agreed, s.nodes, s'.nodes, e.rank, e.thread, e.route, e.type', e.count, s.log[i]);
    }
    forall i | 0 <= i < |s.log| && SamePhase(s.log[i], r) ensures Disjoint(s.log[i], r) {
      assert Behind(c, agreed, s.nodes, s.log[i]) && Behind(c, agreed, s'.nodes, s.log[i]);
      if (s.log[i].rank, s.log[i].thread) != (r.rank, r.thread) {
        OthersDisjoint(c, agreed, s'.nodes, s.log[i], r);
      }
    }
    NewestLast(c, agreed, s, s', r);
  }

  lemma NewestLast(c: Cluster, agreed: nat, s: State, s': State, r: Reservation)
    requires Inv(c, agreed, s) && s'.log == s.log + [r] && |s'.nodes| == c.ranks
    requires forall k | 0 <= k < c.ranks :: NodeOk(c, agreed, s'.nodes[k])
    requires Behind(c, agreed, s'.nodes, r) && forall i | 0 <= i < |s.log| :: Behind(c, agreed, s'.nodes, s.log[i])
    requires forall i | 0 <= i < |s.log| && SamePhase(s.log[i], r) :: Disjoint(s.log[i], r)
    ensures Inv(c, agreed, s')
  {
  }

  lemma StartKeeps(c: Cluster, agreed: nat, s: State, rank: nat)
    requires Inv(c, agreed, s) && rank < c.ranks && s.nodes[rank].on != 0 && Blocks(c) > 0 &&
      s.nodes[rank].on / Blocks(c) == agreed
    ensures Inv(c, agreed, s.(nodes := s.nodes[rank := EndStartup(c, s.nodes[rank])]))
  {
    var s' := s.(nodes := s.nodes[rank := EndStartup(c, s.nodes[rank])]);
    assert NodeOk(c, agreed, s.nodes[rank]);
    assert agreed * Blocks(c) <= s.nodes[rank].on;
    forall i | 0 <= i < |s.log| ensures Behind(c, agreed, s'.nodes, s.log[i]) {
      assert Behind(c, agreed, s.nodes, s.log[i]);
    }
  }

  lemma EventKeepsInv(c: Cluster, agreed: nat, s: State, e: Event)
    requires Inv(c, agreed, s)
    ensures Inv(c, agreed, Apply(c, agreed, s, e))
  {
    var s' := Apply(c, agreed, s, e);
    match e
    case Reserve(rank, thread, route, type', count) =>
      if s' != s {
        assert NodeOk(c, agreed, s.nodes[rank]);
        if s.nodes[rank].on != 0 {
          StartupReserveKeeps(c, agreed, s, e, s');
        } else {
          IndexInRange(c, route, type');
          ReserveKeeps(c, agreed, s, e, s', s'.log[|s.log|]);
        }
      }
    case Start(rank) => if s' != s { StartKeeps(c, agreed, s, rank); }
  }

  // ---------------------------------------------------------------------------------------
  // One node's generator

  ghost predicate AllDisjoint(log: seq<Reservation>) {
    forall i, j | 0 <= i < j < |log| :: Disjoint(log[i], log[j])
  }

  lemma DisjointNext(log: seq<Reservation>, r: Reservation)
    requires AllDisjoint(log) && forall i | 0 <= i < |log| :: Disjoint(log[i], r)
    ensures AllDisjoint(log + [r])
  {
  }

  /** Every counter has left 0, so no key is 0. */
  ghost predicate Counting(n: Node) {
    forall t | 0 <= t < |n.keys| :: RowCounting(n.keys[t])
  }

  ghost predicate RowCounting(row: seq<nat>) {
    forall i | 0 <= i < |row| :: row[i] > 0
  }

  ghost predicate KeysPositive(log: seq<Reservation>) {
    forall i | 0 <= i < |log| :: log[i].key > 0
  }

  lemma CreateCounts(c: Cluster, n: Node, rank: nat, thread: nat, route: nat, type': nat, count: nat)
    requires NodeShape(c, n) && Request(c, thread, route, type', count) && Counting(n)
    ensures var (n', key) := Create(c, n, rank, thread, route, type', count);
      Counting(n') && (key.Some? ==> key.value > 0)
  {
    IndexInRange(c, route, type');
    assert RowCounting(n.keys[thread]);
  }

  /** A startup reservation lies below all earlier ones and keeps them behind. */
  lemma StartupReserved(c: Cluster, n: Node, log: seq<Reservation>, rank: nat, thread: nat, route: nat, type': nat,
                        count: nat)
    requires NodeShape(c, n) && Request(c, thread, route, type', count) && count < n.on <= KEYS
    requires forall i | 0 <= i < |log| :: NodeBehind(c, n.keysPerThread, n, log[i])
    ensures var n', r := n.(on := n.on - count), Reservation(rank, thread, true, route, type', n.on - count, count);
      && NodeBehind(c, n.keysPerThread, n', r)
      && forall i | 0 <= i < |log| :: NodeBehind(c, n.keysPerThread, n', log[i]) && Disjoint(log[i], r)
  {
    var n' := n.(on := n.on - count);
    forall i | 0 <= i < |log|
      ensures NodeBehind(c, n.keysPerThread, n', log[i]) && log[i].key >= n.on
    {
      assert NodeBehind(c, n.keysPerThread, n, log[i]);
    }
  }

  /** A later one lies in its thread's block, past the earlier ones there, and keeps them behind. */
  lemma LaterReserved(c: Cluster, n: Node, n': Node, log: seq<Reservation>, rank: nat, thread: nat, route: nat,
                      type': nat, count: nat)
    requires NodeShape(c, n) && Request(c, thread, route, type', count) && n.on == 0 && rank < c.ranks
    requires Index(route, type') < |n.keys[thread]|
    requires var value := Counter(c, n, thread, route, type') + count;
      var row: seq<nat> := n.keys[thread][Index(route, type') := value];
      value < n.keysPerThread && n' == n.(keys := n.keys[thread := row])
    requires forall i | 0 <= i < |log| :: log[i].rank == rank && NodeBehind(c, n.keysPerThread, n, log[i])
    ensures var key := Counter(c, n, thread, route, type') + n.keysPerThread * BlockOf(c, rank, thread);
      var r := Reservation(rank, thread, false, route, type', key, count);
      && NodeBehind(c, n.keysPerThread, n', r)
      && forall i | 0 <= i < |log| :: NodeBehind(c, n.keysPerThread, n', log[i]) && Disjoint(log[i], r)
  {
    var value := Counter(c, n, thread, route, type') + count;
    CounterUpdate(c, n, n', thread, route, type', value, thread, route, type');
    var key := value - count + n.keysPerThread * BlockOf(c, rank, thread);
    var r := Reservation(rank, thread, false, route, type', key, count);
    forall i | 0 <= i < |log| ensures NodeBehind(c, n.keysPerThread, n', log[i]) && Disjoint(log[i], r) {
      var a := log[i];
      assert NodeBehind(c, n.keysPerThread, n, a);
      CounterUpdate(c, n, n', thread, route, type', value, a.thread, a.route, a.type');
      if a.startup {
        BlockInRange(c, rank, thread);
        Below(n.keysPerThread, BlockOf(c, rank, thread), Blocks(c));
      } else if a.thread < thread {
        Below(n.keysPerThread, BlockOf(c, rank, a.thread), BlockOf(c, rank, thread));
      } else if thread < a.thread {
        Below(n.keysPerThread, BlockOf(c, rank, thread), BlockOf(c, rank, a.thread));
      }
    }
  }

  /**
   A node's generator. `log` lists its reservations; `Valid` says that it has been past all of
   them and that no two have a GUID in common.
   */
  class Generator {
    const cluster: Cluster
    const rank: nat
    var on: nat
    var keysPerThread: nat
    var keys: seq<seq<nat>>
    ghost var log: seq<Reservation>

    function State(): Node
      reads this
    {
      Node(on, keysPerThread, keys)
    }

    ghost predicate Valid()
      reads this
    {
      && rank < cluster.ranks && NodeShape(cluster, State()) && on <= KEYS
      && (forall i | 0 <= i < |log| :: log[i].rank == rank && NodeBehind(cluster, keysPerThread, State(), log[i]))
      && AllDisjoint(log) && Counting(State()) && KeysPositive(log)
    }

    /** arts_guid_key_generator_init for every thread, then set_global_guid_on. */
    constructor (cluster: Cluster, rank: nat)
      requires rank < cluster.ranks
      ensures this.cluster == cluster && this.rank == rank && State() == Fresh(cluster)
      ensures Valid() && log == []
    {
      FreshCounts(cluster);
      this.cluster, this.rank := cluster, rank;
      on, keysPerThread, keys, log := KEYS, 0, Fresh(cluster).keys, [];
    }

    /** No `count` keys are left for this thread, rank and type. */
    ghost predicate Exhausted(thread: nat, route: nat, type': nat, count: nat)
      requires NodeShape(cluster, State()) && Request(cluster, thread, route, type', count)
      reads this
    {
      if on != 0 then on <= count else Counter(cluster, State(), thread, route, type') + count >= keysPerThread
    }

    /**
     arts_guid_create_for_rank_internal: keys that no earlier reservation of the node has under
     this rank and type, from the top during startup and from the thread's own block after it.
     */
    method CreateForRank(thread: nat, route: nat, type': nat, count: nat) returns (key: Option<nat>)
      requires Valid() && Request(cluster, thread, route, type', count)
      modifies this
      ensures Valid()
      ensures key.None? <==> old(Exhausted(thread, route, type', count))
      ensures key.None? ==> State() == old(State()) && log == old(log)
      ensures key.Some? ==>
        var r := Reservation(rank, thread, old(on) != 0, route, type', key.value, count);
        log == old(log) + [r] && forall i | 0 <= i < |old(log)| :: Disjoint(old(log)[i], r)
      ensures key.Some? && old(on) == 0 ==>
        var block := keysPerThread * BlockOf(cluster, rank, thread);
        block <= key.value && key.value + count < block + keysPerThread
      ensures key.Some? ==> key.value > 0
      ensures (State(), key) == Create(cluster, old(State()), rank, thread, route, type', count)
    {
      ghost var before := State();
      CreateCounts(cluster, before, rank, thread, route, type', count);
      key := None;
      if on != 0 {
        if on > count {
          key := Some(on - count);
          on := on - count;
          StartupReserved(cluster, before, log, rank, thread, route, type', count);
          DisjointNext(log, Reservation(rank, thread, true, route, type', key.value, count));
          log := log + [Reservation(rank, thread, true, route, type', key.value, count)];
        }
      } else {
        IndexInRange(cluster, route, type');
        var index := Index(route, type');
        var value := keys[thread][index];
        if value + count < keysPerThread {
          key := Some(value + keysPerThread * BlockOf(cluster, rank, thread));
          var row: seq<nat> := keys[thread][index := value + count];
          keys := keys[thread := row];
          LaterReserved(cluster, before, State(), log, rank, thread, route, type', count);
          DisjointNext(log, Reservation(rank, thread, false, route, type', key.value, count));
          log := log + [Reservation(rank, thread, false, route, type', key.value, count)];
        }
      }
    }

    /**
     set_guid_generator_after_parallel_start: the keys left are cut into blocks of the largest
     equal size, all of them below every key handed out so far.
     */
    method AfterParallelStart()
      requires Valid() && Blocks(cluster) > 0 && on != 0
      modifies this
      ensures Valid() && log == old(log) && on == 0
      ensures keysPerThread * Blocks(cluster) <= old(on) < keysPerThread * Blocks(cluster) + Blocks(cluster)
      ensures forall i | 0 <= i < |log| :: keysPerThread * Blocks(cluster) <= log[i].key
      ensures State() == EndStartup(cluster, old(State()))
    {
      ghost var before := State();
      keysPerThread := on / Blocks(cluster);
      on := 0;
      DivBounds(before.on, Blocks(cluster));
      forall i | 0 <= i < |log| ensures NodeBehind(cluster, keysPerThread, State(), log[i]) {
        assert NodeBehind(cluster, before.keysPerThread, before, log[i]);
      }
    }
  }

  lemma DivBounds(x: nat, y: nat)
    requires y > 0
    ensures x / y * y <= x < x / y * y + y
  {
    assert x == x / y * y + x % y;
  }

  // ---------------------------------------------------------------------------------------
  // Every run

  function FreshNodes(c: Cluster, n: nat): (nodes: seq<Node>)
    ensures |nodes| == n && forall r | 0 <= r < n :: nodes[r] == Fresh(c)
  {
    seq(n, _ => Fresh(c))
  }

  function Exec(c: Cluster, agreed: nat, events: seq<Event>): (s: State)
    ensures forall r | 0 <= r < |s.nodes| :: NodeShape(c, s.nodes[r])
    decreases |events|
  {
    if events == [] then State(FreshNodes(c, c.ranks), []) else
      var before := Exec(c, agreed, events[..|events| - 1]);
      ApplyShape(c, agreed, before, events[|events| - 1]);
      Apply(c, agreed, before, events[|events| - 1])
  }

  lemma ApplyShape(c: Cluster, agreed: nat, s: State, e: Event)
    requires forall r | 0 <= r < |s.nodes| :: NodeShape(c, s.nodes[r])
    ensures forall r | 0 <= r < |Apply(c, agreed, s, e).nodes| :: NodeShape(c, Apply(c, agreed, s, e).nodes[r])
  {
    if e.Reserve? && e.rank < |s.nodes| && Request(c, e.thread, e.route, e.type', e.count) {
      IndexInRange(c, e.route, e.type');
    }
  }

  lemma {:induction false} RunKeepsInv(c: Cluster, agreed: nat, events: seq<Event>)
    ensures Inv(c, agreed, Exec(c, agreed, events))
    decreases |events|
  {
    if events != [] {
      RunKeepsInv(c, agreed, events[..|events| - 1]);
      EventKeepsInv(c, agreed, Exec(c, agreed, events[..|events| - 1]), events[|events| - 1]);
    }
  }

  /**
   Over any run: reservations made after startup anywhere in the cluster, and startup
   reservations of one node, never meet; nor does a later one meet a startup one of a node
   that has started.
   */
  lemma ReservationsDisjoint(c: Cluster, agreed: nat, events: seq<Event>, i: nat, j: nat)
    requires i < j < |Exec(c, agreed, events).log|
    ensures var s := Exec(c, agreed, events);
      var a, b := s.log[i], s.log[j];
      (!a.startup && !b.startup)
      || (a.startup && b.startup && a.rank == b.rank)
      || (a.startup && !b.startup && a.rank < |s.nodes| && s.nodes[a.rank].on == 0)
      || (b.startup && !a.startup && b.rank < |s.nodes| && s.nodes[b.rank].on == 0)
      ==> Disjoint(a, b)
  {
    RunKeepsInv(c, agreed, events);
    var s := Exec(c, agreed, events);
    var a, b := s.log[i], s.log[j];
    assert Behind(c, agreed, s.nodes, a) && Behind(c, agreed, s.nodes, b);
    if a.startup && !b.startup && s.nodes[a.rank].on == 0 { StartupDisjoint(c, agreed, s.nodes, a, b); }
    if b.startup && !a.startup && s.nodes[b.rank].on == 0 { StartupDisjoint(c, agreed, s.nodes, b, a); }
  }

  ghost predicate AllCounting(s: State) {
    (forall r | 0 <= r < |s.nodes| :: Counting(s.nodes[r])) && KeysPositive(s.log)
  }

  lemma EventKeepsCounting(c: Cluster, agreed: nat, s: State, e: Event)
    requires (forall r | 0 <= r < |s.nodes| :: NodeShape(c, s.nodes[r])) && AllCounting(s)
    ensures AllCounting(Apply(c, agreed, s, e))
  {
    if e.Reserve? && e.rank < |s.nodes| && Request(c, e.thread, e.route, e.type', e.count) {
      CreateCounts(c, s.nodes[e.rank], e.rank, e.thread, e.route, e.type', e.count);
    }
    if e.Start? && e.rank < |s.nodes| && Blocks(c) > 0 {
      assert EndStartup(c, s.nodes[e.rank]).keys == s.nodes[e.rank].keys;
    }
  }

  /** Over any run, no node ever hands out key 0. */
  lemma {:induction false} KeysNeverZero(c: Cluster, agreed: nat, events: seq<Event>)
    ensures AllCounting(Exec(c, agreed, events))
    decreases |events|
  {
    if events == [] {
      FreshCounts(c);
    } else {
      KeysNeverZero(c, agreed, events[..|events| - 1]);
      EventKeepsCounting(c, agreed, Exec(c, agreed, events[..|events| - 1]), events[|events| - 1]);
    }
  }

  lemma FreshCounts(c: Cluster)
    ensures Counting(Fresh(c))
  {
    forall t | 0 <= t < |Fresh(c).keys| ensures RowCounting(Fresh(c).keys[t]) {
      assert Fresh(c).keys[t] == Ones(LAST_TYPE * c.ranks);
    }
  }

  /** The x-th GUID of a reservation. */
  function GuidOf(r: Reservation, x: nat): Guid { Make(r.type', r.route, r.key + x) }

  lemma KeysFit(c: Cluster, agreed: nat, nodes: seq<Node>, r: Reservation, x: nat)
    requires Behind(c, agreed, nodes, r) && x < r.count && agreed * Blocks(c) <= KEYS
    ensures r.key + x < KEYS
  {
    if !r.startup {
      BlockInRange(c, r.rank, r.thread);
      Below(agreed, BlockOf(c, r.rank, r.thread), Blocks(c));
    }
  }

  /** Disjoint reservations have no GUID in common. */
  lemma GuidsDiffer(a: Reservation, b: Reservation, x: nat, y: nat)
    requires Disjoint(a, b) && x < a.count && y < b.count
    requires a.key + x < KEYS && b.key + y < KEYS && a.route < RANKS && b.route < RANKS && a.type' < TYPES &&
      b.type' < TYPES
    ensures GuidOf(a, x) != GuidOf(b, y)
  {
    Unpacks(a.type', a.route, a.key + x);
    Unpacks(b.type', b.route, b.key + y);
  }

  /** Over any run in which every node has started: no two such reservations share a GUID. */
  lemma GuidsNeverCollide(c: Cluster, agreed: nat, events: seq<Event>, i: nat, j: nat, x: nat, y: nat)
    requires c.ranks <= RANKS
    requires var s := Exec(c, agreed, events);
      && i < j < |s.log| && x < s.log[i].count && y < s.log[j].count
      && (forall r | 0 <= r < |s.nodes| :: s.nodes[r].on == 0)
      && (s.log[i].startup && s.log[j].startup ==> s.log[i].rank == s.log[j].rank)
    ensures var s := Exec(c, agreed, events); GuidOf(s.log[i], x) != GuidOf(s.log[j], y)
  {
    RunKeepsInv(c, agreed, events);
    var s := Exec(c, agreed, events);
    var a, b := s.log[i], s.log[j];
    assert Behind(c, agreed, s.nodes, a) && Behind(c, agreed, s.nodes, b) && NodeOk(c, agreed, s.nodes[a.rank]);
    KeysFit(c, agreed, s.nodes, a, x);
    KeysFit(c, agreed, s.nodes, b, y);
    ReservationsDisjoint(c, agreed, events, i, j);
    GuidsDiffer(a, b, x, y);
  }

  lemma Unpacks(type': nat, rank: nat, key: nat)
    requires type' < TYPES && rank < RANKS && key < KEYS
    ensures TypeOf(Make(type', rank, key)) == type' && RankOf(Make(type', rank, key)) == rank &&
      KeyOf(Make(type', rank, key)) == key
  {
  }

  // ---------------------------------------------------------------------------------------
  // Which table

  datatype Table = Own(worker: nat) | Remote

  /** arts_get_route_table on a node with the given rank. */
  function TableFor(c: Cluster, n: Node, rank: nat, key: nat): Table {
    if n.keysPerThread == 0 then Remote
    else
      var g := key / n.keysPerThread;
      var min := NumTables(c) * rank;
      var max := if c.ranks == 1 then min + NumTables(c) else min + NumTables(c) - 1;
      if min <= g < max then Own(g - min) else Remote
  }

  lemma DivIs(key: nat, size: nat, g: nat)
    requires size * g <= key < size * g + size
    ensures key / size == g
  {
    var q := key / size;
    assert key == size * q + key % size;
    if q < g { Below(size, q, g); }
    if g < q { Below(size, g, q); }
  }

  /** A later GUID: its maker's own table on its node, the remote table elsewhere and for the network thread. */
  lemma TableOfLater(c: Cluster, agreed: nat, nodes: seq<Node>, r: Reservation, x: nat, rank: nat)
    requires Behind(c, agreed, nodes, r) && !r.startup && x < r.count
    requires rank < c.ranks && nodes[rank].keysPerThread == agreed
    ensures TableFor(c, nodes[rank], rank, r.key + x) ==
      if rank == r.rank && r.thread < c.workers then Own(r.thread) else Remote
  {
    var g := BlockOf(c, r.rank, r.thread);
    DivIs(r.key + x, agreed, g);
    if rank < r.rank { Below(NumTables(c), rank, r.rank); }
    if r.rank < rank { Below(NumTables(c), r.rank, rank); }
  }

  /** A startup GUID: the remote table on every node, before and after the node has started. */
  lemma TableOfStartup(c: Cluster, agreed: nat, nodes: seq<Node>, r: Reservation, x: nat, rank: nat)
    requires Behind(c, agreed, nodes, r) && r.startup && x < r.count && nodes[r.rank].on == 0
    requires rank < c.ranks && (nodes[rank].keysPerThread == agreed || nodes[rank].keysPerThread == 0)
    ensures TableFor(c, nodes[rank], rank, r.key + x) == Remote
  {
    if agreed != 0 && nodes[rank].keysPerThread == agreed {
      var g := (r.key + x) / agreed;
      assert r.key + x == agreed * g + (r.key + x) % agreed;
      if g < Blocks(c) { Below(agreed, g, Blocks(c)); }
      BlockInRange(c, rank, c.workers);
    }
  }

  /** Over any run in which every node has started: which table each node keeps each GUID in. */
  lemma TableIsStable(c: Cluster, agreed: nat, events: seq<Event>, i: nat, x: nat, rank: nat)
    requires var s := Exec(c, agreed, events);
      i < |s.log| && x < s.log[i].count && rank < |s.nodes| && forall r | 0 <= r < |s.nodes| :: s.nodes[r].on == 0
    ensures var s := Exec(c, agreed, events);
      var r := s.log[i];
      TableFor(c, s.nodes[rank], rank, r.key + x) ==
        if !r.startup && rank == r.rank && r.thread < c.workers then Own(r.thread) else Remote
  {
    RunKeepsInv(c, agreed, events);
    var s := Exec(c, agreed, events);
    assert Behind(c, agreed, s.nodes, s.log[i]) && NodeOk(c, agreed, s.nodes[rank]);
    if s.log[i].startup {
      TableOfStartup(c, agreed, s.nodes, s.log[i], x, rank);
    } else {
      TableOfLater(c, agreed, s.nodes, s.log[i], x, rank);
    }
  }

  // ---------------------------------------------------------------------------------------
  // Ranges aligned for hashing

  /** arts_guid_reserve_range_hash: from a range of size + hashSize keys, the first aligned key. */
  method AlignRange(start: nat, size: nat, hashSize: nat) returns (aligned: nat)
    ensures start <= aligned && aligned + size <= start + size + hashSize
    ensures hashSize > 0 ==> aligned % hashSize == 0
    ensures forall k | start <= k < aligned :: k % hashSize != 0
  {
    aligned := start;
    var i := 0;
    while i < hashSize && aligned % hashSize != 0
      invariant 0 <= i <= hashSize && aligned == start + i
      invariant forall k | start <= k < aligned :: hashSize > 0 && k % hashSize != 0
    {
      aligned := aligned + 1;
      i := i + 1;
    }
    if hashSize > 0 && aligned % hashSize != 0 { SomeAligned(start, hashSize); }
  }

  lemma SomeAligned(start: nat, hashSize: nat)
    requires hashSize > 0
    ensures exists k :: start <= k < start + hashSize && k % hashSize == 0
  {
    var r := start % hashSize;
    var k := if r == 0 then start else start + (hashSize - r);
    var q := start / hashSize;
    assert start == hashSize * q + r;
    if r != 0 {
      assert k == hashSize * (q + 1);
      DivIs(k, hashSize, q + 1);
    }
    assert k % hashSize == 0;
  }
}
