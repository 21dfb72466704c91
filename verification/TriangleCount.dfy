/**
 Distributed triangle counting.

 Vertices are dealt out in blocks. A node counts, for each vertex i it visits, the triangles
 i < k < j whose largest vertex j it owns, and forwards i once to every other owner of such
 a j, which counts its own share.
 */
module TriangleCount {
  import opened Common

  type Adjacency = seq<seq<nat>>

  predicate Ascending(a: seq<nat>) {
    forall x, y | 0 <= x < y < |a| :: a[x] < a[y]
  }

  /** Symmetric, loop-free, with strictly ascending adjacency lists. */
  predicate IsGraph(adj: Adjacency) {
    && (forall u | 0 <= u < |adj| :: Ascending(adj[u]))
    && (forall u | 0 <= u < |adj| :: forall x | 0 <= x < |adj[u]| ::
          adj[u][x] < |adj| && adj[u][x] != u && u in adj[adj[u][x]])
  }

  // ---------------------------------------------------------------------------------------
  // Reference

  /** i < k < j, pairwise adjacent. */
  predicate Triangle(adj: Adjacency, i: nat, k: nat, j: nat) {
    i < k < j < |adj| && k in adj[i] && j in adj[i] && j in adj[k]
  }

  type Triple = (nat, nat, nat)

  ghost function Triangles(adj: Adjacency): set<Triple> {
    set i: nat, k: nat, j: nat | i < |adj| && k < |adj| && j < |adj| && Triangle(adj, i, k, j) :: (i, k, j)
  }

  /** The triangles with smallest vertex in [lo, hi). */
  ghost function TrianglesFrom(adj: Adjacency, lo: nat, hi: nat): set<Triple> {
    set t | t in Triangles(adj) && lo <= t.0 < hi
  }

  /** The triangles with smallest vertex i and largest vertex below `top` owned by q. */
  ghost function Share(adj: Adjacency, owner: nat -> nat, i: nat, q: nat, top: nat): set<Triple> {
    Pick(Triangles(adj), owner, i, q, top)
  }

  ghost function Pick(ts: set<Triple>, owner: nat -> nat, i: nat, q: nat, top: nat): set<Triple> {
    set t | t in ts && t.0 == i && t.2 < top && owner(t.2) == q
  }

  // ---------------------------------------------------------------------------------------
  // The scans

  /** First index in [start, end) whose entry is at least `value`. */
  method LowerBound(value: nat, start: nat, end: nat, edges: seq<nat>) returns (r: nat)
    requires start <= end <= |edges|
    ensures start <= r <= end
    ensures forall x | start <= x < r :: edges[x] < value
    ensures r < end ==> edges[r] >= value
  {
    r := start;
    while r < end && edges[r] < value
      invariant start <= r <= end
      invariant forall x | start <= x < r :: edges[x] < value
    {
      r := r + 1;
    }
  }

  /** End of the part of [start, end) left after dropping a tail of entries above `value`. */
  method UpperBound(value: nat, start: nat, end: nat, edges: seq<nat>) returns (r: nat)
    requires start <= end <= |edges|
    ensures start <= r <= end
    ensures forall x | r <= x < end :: edges[x] > value
    ensures start < r ==> edges[r - 1] <= value
  {
    r := end;
    while start < r && value < edges[r - 1]
      invariant start <= r <= end
      invariant forall x | r <= x < end :: edges[x] > value
    {
      r := r - 1;
    }
  }

  ghost function Shared(a: seq<nat>, b: seq<nat>): set<nat> {
    set x | x in a && x in b
  }

  lemma SkipLeft(a: seq<nat>, b: seq<nat>)
    requires Ascending(a) && Ascending(b) && a != [] && b != [] && a[0] < b[0]
    ensures Shared(a, b) == Shared(a[1..], b)
  {
    assert a[0] !in b;
    assert forall x :: x in a ==> x == a[0] || x in a[1..];
  }

  lemma TakeBoth(a: seq<nat>, b: seq<nat>)
    requires Ascending(a) && Ascending(b) && a != [] && b != [] && a[0] == b[0]
    ensures |Shared(a, b)| == 1 + |Shared(a[1..], b[1..])|
  {
    assert a[0] !in a[1..];
    assert forall x :: x in a ==> x == a[0] || x in a[1..];
    assert forall x :: x in b ==> x == b[0] || x in b[1..];
    assert Shared(a, b) == {a[0]} + Shared(a[1..], b[1..]);
  }

  /** The merge: how many vertices the two windows share. */
  method CountCommon(a: seq<nat>, a0: nat, a1: nat, b: seq<nat>, b0: nat, b1: nat) returns (count: nat)
    requires Ascending(a) && Ascending(b)
    requires a0 <= a1 <= |a| && b0 <= b1 <= |b|
    ensures count == |Shared(a[a0..a1], b[b0..b1])|
  {
    var x, y := a0, b0;
    count := 0;
    while x < a1 && y < b1
      invariant a0 <= x <= a1 && b0 <= y <= b1
      invariant count + |Shared(a[x..a1], b[y..b1])| == |Shared(a[a0..a1], b[b0..b1])|
    {
      MergeStep(a, x, a1, b, y, b1);
      if a[x] < b[y] {
        x := x + 1;
      } else if a[x] > b[y] {
        y := y + 1;
      } else {
        count := count + 1;
        x, y := x + 1, y + 1;
      }
    }
    NothingShared(a[x..a1], b[y..b1]);
  }

  /** What one step of the merge leaves. */
  lemma MergeStep(a: seq<nat>, x: nat, a1: nat, b: seq<nat>, y: nat, b1: nat)
    requires Ascending(a) && Ascending(b) && x < a1 <= |a| && y < b1 <= |b|
    ensures |Shared(a[x..a1], b[y..b1])| ==
      if a[x] < b[y] then |Shared(a[x + 1..a1], b[y..b1])|
      else if a[x] > b[y] then |Shared(a[x..a1], b[y + 1..b1])|
      else 1 + |Shared(a[x + 1..a1], b[y + 1..b1])|
  {
    var as', bs := a[x..a1], b[y..b1];
    assert as'[1..] == a[x + 1..a1] && bs[1..] == b[y + 1..b1];
    if a[x] < b[y] {
      SkipLeft(as', bs);
    } else if a[x] > b[y] {
      SkipLeft(bs, as');
      SharedSymmetric(as', bs);
      SharedSymmetric(as', bs[1..]);
    } else {
      TakeBoth(as', bs);
    }
  }

  lemma SharedSymmetric(a: seq<nat>, b: seq<nat>)
    ensures Shared(a, b) == Shared(b, a)
  {
  }

  lemma NothingShared(a: seq<nat>, b: seq<nat>)
    requires a == [] || b == []
    ensures |Shared(a, b)| == 0
  {
    assert Shared(a, b) == {};
  }

  // ---------------------------------------------------------------------------------------
  // One vertex

  ghost function Tag(i: nat, ks: set<nat>, j: nat): set<Triple> {
    set k | k in ks :: (i, k, j)
  }

  lemma TagSize(i: nat, ks: set<nat>, j: nat)
    ensures |Tag(i, ks, j)| == |ks|
    decreases ks
  {
    if ks == {} {
      assert Tag(i, ks, j) == {};
    } else {
      var k :| k in ks;
      TagSize(i, ks - {k}, j);
      assert Tag(i, ks, j) == Tag(i, ks - {k}, j) + {(i, k, j)};
    }
  }

  /** What LowerBound and UpperBound over a whole list return. */
  ghost predicate IsLower(a: seq<nat>, value: nat, r: nat) {
    r <= |a| && (forall x | 0 <= x < r :: a[x] < value) && (r < |a| ==> a[r] >= value)
  }

  ghost predicate IsUpper(a: seq<nat>, value: nat, r: nat) {
    r <= |a| && (forall x | r <= x < |a| :: a[x] > value) && (0 < r ==> a[r - 1] <= value)
  }

  lemma WindowBelow(a: seq<nat>, lo: nat, first: nat, next: nat, x: nat)
    requires Ascending(a) && IsLower(a, lo, first) && first <= next < |a|
    ensures x in a[first..next] <==> x in a && lo <= x < a[next]
  {
    if x in a && lo <= x < a[next] {
      var y :| 0 <= y < |a| && a[y] == x;
      assert first <= y < next;
      assert a[first..next][y - first] == x;
    }
  }

  lemma WindowUpTo(a: seq<nat>, lo: nat, hi: nat, first: nat, last: nat, x: nat)
    requires Ascending(a) && IsLower(a, lo, first) && IsUpper(a, hi, last) && first <= last
    ensures x in a[first..last] <==> x in a && lo <= x <= hi
  {
    if x in a && lo <= x <= hi {
      var y :| 0 <= y < |a| && a[y] == x;
      assert first <= y < last;
      assert a[first..last][y - first] == x;
    }
  }

  lemma Symmetric(adj: Adjacency, u: nat, v: nat)
    requires IsGraph(adj) && u < |adj| && v in adj[u]
    ensures v < |adj| && v != u && u in adj[v]
  {
    var x :| 0 <= x < |adj[u]| && adj[u][x] == v;
  }

  /** The window of i's list below j meets j's list between i and j in exactly the middles k. */
  lemma WindowsAreMiddles(adj: Adjacency, i: nat, first: nat, next: nat, first': nat, last': nat, k: nat)
    requires IsGraph(adj) && i < |adj| && first <= next < |adj[i]| && IsLower(adj[i], i, first)
    requires var j := adj[i][next]; IsLower(adj[j], i, first') && IsUpper(adj[j], j, last') && first' <= last'
    ensures var j := adj[i][next];
      k in Shared(adj[i][first..next], adj[j][first'..last']) <==> Triangle(adj, i, k, j)
  {
    var j := adj[i][next];
    WindowBelow(adj[i], i, first, next, k);
    WindowUpTo(adj[j], i, j, first', last', k);
    if k in adj[i] { Symmetric(adj, i, k); }
    if k in adj[j] { Symmetric(adj, j, k); }
    if i < k < |adj| && j in adj[k] { Symmetric(adj, k, j); }
  }

  /** The middle vertices of the triangles with smallest vertex i and largest vertex j. */
  ghost predicate AreMiddles(ts: set<Triple>, i: nat, j: nat, ks: set<nat>) {
    forall k: nat :: k in ks <==> (i, k, j) in ts
  }

  lemma PickGrows(ts: set<Triple>, owner: nat -> nat, i: nat, j: nat, ks: set<nat>)
    requires AreMiddles(ts, i, j, ks)
    ensures |Pick(ts, owner, i, owner(j), j + 1)| == |Pick(ts, owner, i, owner(j), j)| + |ks|
  {
    TagSize(i, ks, j);
    var before, after := Pick(ts, owner, i, owner(j), j), Pick(ts, owner, i, owner(j), j + 1);
    forall t | t in after && t.2 == j ensures t in Tag(i, ks, j) { assert t == (i, t.1, j); }
    assert after == before + Tag(i, ks, j);
    assert before !! Tag(i, ks, j);
  }

  lemma PickOther(ts: set<Triple>, owner: nat -> nat, i: nat, j: nat, q: nat)
    requires q != owner(j)
    ensures Pick(ts, owner, i, q, j + 1) == Pick(ts, owner, i, q, j)
  {
  }

  /** Nothing lies between two consecutive neighbours. */
  lemma ShareSkips(adj: Adjacency, owner: nat -> nat, i: nat, next: nat, q: nat)
    requires i < |adj| && Ascending(adj[i]) && next < |adj[i]|
    ensures var top := if next + 1 < |adj[i]| then adj[i][next + 1] else |adj|;
      Share(adj, owner, i, q, adj[i][next] + 1) == Share(adj, owner, i, q, top)
  {
    var top := if next + 1 < |adj[i]| then adj[i][next + 1] else |adj|;
    forall t | t in Share(adj, owner, i, q, top) ensures t in Share(adj, owner, i, q, adj[i][next] + 1) {
      var x :| 0 <= x < |adj[i]| && adj[i][x] == t.2;
    }
  }

  /** Below the second neighbour above i there is no triangle. */
  lemma ShareStartsEmpty(adj: Adjacency, owner: nat -> nat, i: nat, first: nat, q: nat)
    requires IsGraph(adj) && i < |adj| && IsLower(adj[i], i, first)
    ensures var top := if first + 1 < |adj[i]| then adj[i][first + 1] else |adj|;
      Share(adj, owner, i, q, top) == {}
  {
    var top := if first + 1 < |adj[i]| then adj[i][first + 1] else |adj|;
    forall t | t in Triangles(adj) && t.0 == i ensures top <= t.2 { SecondNeighbour(adj, i, first, t.1, t.2); }
  }

  /** The largest vertex of a triangle is not the first neighbour above i. */
  lemma SecondNeighbour(adj: Adjacency, i: nat, first: nat, k: nat, j: nat)
    requires IsGraph(adj) && i < |adj| && IsLower(adj[i], i, first) && Triangle(adj, i, k, j)
    ensures first + 1 < |adj[i]| && adj[i][first + 1] <= j
  {
    var x :| 0 <= x < |adj[i]| && adj[i][x] == k;
    var y :| 0 <= y < |adj[i]| && adj[i][y] == j;
    assert first <= x < y;
  }

  // ---------------------------------------------------------------------------------------
  // The visit mask

  /** Bit i of a word. */
  predicate HasBit(mask: nat, i: nat) {
    if i == 0 then mask % 2 == 1 else HasBit(mask / 2, i - 1)
  }

  const INT_MAX: nat := 0x7FFF_FFFF

  /** `1 << index` shifts an int, so the value has to be one. */
  predicate ShiftDefined(index: nat) { Pow2(index) <= INT_MAX }

  const MASK_BITS: nat := 31

  /** Which leaves one bit each for 31 nodes. */
  lemma ShiftDefinedIff(index: nat)
    ensures ShiftDefined(index) <==> index < MASK_BITS
  {
    assert Pow2(8) == 256 && Pow2(15) == 128 * Pow2(8);
    Pow2Adds(15, 15);
    if index <= 30 { Pow2Adds(index, 30 - index); Product(Pow2(index), Pow2(30 - index)); }
    else { Pow2Adds(31, index - 31); Product(Pow2(31), Pow2(index - 31)); }
  }

  lemma Product(a: nat, b: nat)
    requires b > 0
    ensures a <= a * b
  {
  }

  lemma {:induction false} BitTest(mask: nat, i: nat)
    ensures mask / Pow2(i) % 2 == 1 <==> HasBit(mask, i)
  {
    if i > 0 {
      BitTest(mask / 2, i - 1);
      DivDiv(mask, Pow2(i - 1));
    }
  }

  lemma DivDiv(m: nat, p: nat)
    requires p > 0
    ensures m / (2 * p) == m / 2 / p
  {
    var q := m / 2;
    var t, u := q / p, q % p;
    assert q == p * t + u && m == 2 * q + m % 2;
    assert m == 2 * p * t + (2 * u + m % 2);
    QuotientIs(m, 2 * p, t, 2 * u + m % 2);
  }

  lemma QuotientIs(m: nat, d: nat, t: nat, r: nat)
    requires r < d && m == d * t + r
    ensures m / d == t
  {
    var q := m / d;
    assert m == d * q + m % d;
    if q < t { assert d * t == d * q + d * (t - q); Product(d, t - q); }
    if t < q { assert d * q == d * t + d * (q - t); Product(d, q - t); }
  }

  /** Adding a bit that is clear sets that bit and no other. */
  lemma {:induction false} SetBit(mask: nat, i: nat, j: nat)
    requires !HasBit(mask, i)
    ensures HasBit(mask + Pow2(i), j) <==> HasBit(mask, j) || j == i
  {
    if i > 0 {
      assert (mask + Pow2(i)) / 2 == mask / 2 + Pow2(i - 1);
      if j > 0 { SetBit(mask / 2, i - 1, j - 1); }
    }
  }

  lemma {:induction false} SetBitFits(mask: nat, i: nat, n: nat)
    requires !HasBit(mask, i) && i < n && mask < Pow2(n)
    ensures mask + Pow2(i) < Pow2(n)
  {
    assert Pow2(n) == 2 * Pow2(n - 1) && mask == 2 * (mask / 2) + mask % 2;
    if i > 0 {
      assert Pow2(i) == 2 * Pow2(i - 1);
      SetBitFits(mask / 2, i - 1, n - 1);
    }
  }

  lemma {:induction false} NoBits(i: nat)
    ensures !HasBit(0, i)
  {
    if i > 0 { NoBits(i - 1); }
  }

  /** Every bit of (uint64_t)-1 is set. */
  lemma {:induction false} AllOnes(n: nat, i: nat)
    requires i < n
    ensures HasBit(Pow2(n) - 1, i)
  {
    if i > 0 {
      assert (Pow2(n) - 1) / 2 == Pow2(n - 1) - 1;
      AllOnes(n - 1, i - 1);
    }
  }

  /** Whether the node's bit was clear; afterwards it is set, and the others are as they were. */
  method CheckAndSet(mask: nat, index: nat) returns (wasClear: bool, mask': nat)
    requires mask < WORD && ShiftDefined(index)
    ensures wasClear <==> !HasBit(mask, index)
    ensures mask' < WORD && forall i: nat :: HasBit(mask', i) <==> HasBit(mask, i) || i == index
  {
    var bit := Pow2(index);
    ShiftDefinedIff(index);
    BitTest(mask, index);
    wasClear, mask' := false, mask;
    if mask / bit % 2 == 0 {
      WordIsPow2();
      SetBitFits(mask, index, 64);
      forall i: nat ensures HasBit(mask + bit, i) <==> HasBit(mask, i) || i == index { SetBit(mask, index, i); }
      wasClear, mask' := true, mask + bit;
    }
  }

  ghost predicate NoRepeats(qs: seq<nat>) {
    forall x, y | 0 <= x < y < |qs| :: qs[x] != qs[y]
  }

  /** Where the scan over i's neighbours stands: the next one to look at, or the end. */
  ghost function Top(adj: Adjacency, i: nat, next: nat): nat
    requires i < |adj|
  {
    if next < |adj[i]| then adj[i][next] else |adj|
  }

  /** Triangles i < k < j for one j owned here. */
  method CountAt(adj: Adjacency, i: nat, first: nat, next: nat) returns (count: nat, ghost ks: set<nat>)
    requires IsGraph(adj) && i < |adj| && first <= next < |adj[i]| && IsLower(adj[i], i, first)
    ensures count == |ks|
    ensures AreMiddles(Triangles(adj), i, adj[i][next], ks)
  {
    var j := adj[i][next];
    var first' := LowerBound(i, 0, |adj[j]|, adj[j]);
    var last' := UpperBound(j, 0, |adj[j]|, adj[j]);
    assert i < j && IsLower(adj[j], i, first') && IsUpper(adj[j], j, last');
    count := CountCommon(adj[i], first, next, adj[j], first', last');
    ks := Shared(adj[i][first..next], adj[j][first'..last']);
    forall k: nat ensures k in ks <==> (i, k, j) in Triangles(adj) {
      WindowsAreMiddles(adj, i, first, next, first', last', k);
    }
  }

  /** How many triangles of i below the scan's position belong to q. */
  ghost function Counted(adj: Adjacency, owner: nat -> nat, i: nat, q: nat, next: nat): nat
    requires i < |adj|
  {
    |Share(adj, owner, i, q, Top(adj, i, next))|
  }

  lemma CountedStart(adj: Adjacency, owner: nat -> nat, i: nat, first: nat, q: nat)
    requires IsGraph(adj) && i < |adj| && IsLower(adj[i], i, first)
    ensures Counted(adj, owner, i, q, first + 1) == 0
  {
    ShareStartsEmpty(adj, owner, i, first, q);
  }

  lemma CountedOwn(adj: Adjacency, owner: nat -> nat, i: nat, next: nat, ks: set<nat>)
    requires i < |adj| && Ascending(adj[i]) && next < |adj[i]|
    requires AreMiddles(Triangles(adj), i, adj[i][next], ks)
    ensures var q := owner(adj[i][next]);
      Counted(adj, owner, i, q, next + 1) == Counted(adj, owner, i, q, next) + |ks|
  {
    PickGrows(Triangles(adj), owner, i, adj[i][next], ks);
    CountedAround(adj, owner, i, next, owner(adj[i][next]), Triangles(adj));
  }

  lemma CountedAround(adj: Adjacency, owner: nat -> nat, i: nat, next: nat, q: nat, ts: set<Triple>)
    requires i < |adj| && Ascending(adj[i]) && next < |adj[i]| && ts == Triangles(adj)
    ensures Counted(adj, owner, i, q, next) == |Pick(ts, owner, i, q, adj[i][next])|
    ensures Counted(adj, owner, i, q, next + 1) == |Pick(ts, owner, i, q, adj[i][next] + 1)|
  {
    ShareSkips(adj, owner, i, next, q);
  }

  lemma CountedOther(adj: Adjacency, owner: nat -> nat, i: nat, next: nat, q: nat)
    requires i < |adj| && Ascending(adj[i]) && next < |adj[i]| && q != owner(adj[i][next])
    ensures Counted(adj, owner, i, q, next + 1) == Counted(adj, owner, i, q, next)
  {
    PickOther(Triangles(adj), owner, i, adj[i][next], q);
    ShareSkips(adj, owner, i, next, q);
  }

  /** No unvisited owner has a share below the scan's position. */
  ghost predicate OthersIdle(adj: Adjacency, owner: nat -> nat, i: nat, me: nat, visited: nat, next: nat)
    requires i < |adj|
  {
    forall q: nat | q != me && !HasBit(visited, q) :: Counted(adj, owner, i, q, next) == 0
  }

  lemma OthersStayIdle(adj: Adjacency, owner: nat -> nat, i: nat, me: nat, visited: nat, visited': nat, next: nat)
    requires IsGraph(adj) && i < |adj| && next < |adj[i]| && OthersIdle(adj, owner, i, me, visited, next)
    requires forall q: nat :: HasBit(visited, q) ==> HasBit(visited', q)
    requires owner(adj[i][next]) == me || HasBit(visited', owner(adj[i][next]))
    ensures OthersIdle(adj, owner, i, me, visited', next + 1)
  {
    forall q: nat | q != me && !HasBit(visited', q) ensures Counted(adj, owner, i, q, next + 1) == 0 {
      CountedOther(adj, owner, i, next, q);
    }
  }

  /** The owners recorded in the mask by this scan, in order and without repetition. */
  ghost predicate IsForwardList(forwards: seq<nat>, me: nat, mask: nat, visited: nat) {
    && NoRepeats(forwards) && visited < WORD
    && (forall q | q in forwards :: q != me && !HasBit(mask, q) && q < MASK_BITS)
    && (forall q: nat :: HasBit(visited, q) <==> HasBit(mask, q) || q in forwards)
  }

  method Forward(forwards: seq<nat>, ghost me: nat, ghost mask: nat, visited: nat, q: nat)
    returns (forwards': seq<nat>, visited': nat)
    requires IsForwardList(forwards, me, mask, visited) && q != me && q < MASK_BITS
    ensures IsForwardList(forwards', me, mask, visited')
    ensures forall x: nat :: HasBit(visited', x) <==> HasBit(visited, x) || x == q
    ensures forall x: nat :: x in forwards' <==> x in forwards || (x == q && !HasBit(mask, q))
  {
    ShiftDefinedIff(q);
    var wasClear;
    wasClear, visited' := CheckAndSet(visited, q);
    forwards' := if wasClear then forwards + [q] else forwards;
  }

  /**
   Node `me` works on vertex i: it counts its own share of i's triangles and lists, without
   repetition, the other owners it has to forward i to.
   */
  method ProcessVertex(adj: Adjacency, owner: nat -> nat, me: nat, i: nat, mask: nat)
    returns (count: nat, forwards: seq<nat>)
    requires IsGraph(adj) && i < |adj| && (forall v: nat | v < |adj| :: owner(v) < MASK_BITS) && mask < WORD
    ensures count == |Share(adj, owner, i, me, |adj|)|
    ensures NoRepeats(forwards) && (forall q | q in forwards :: q != me && !HasBit(mask, q) && q < MASK_BITS)
    ensures forall q: nat | q != me && !HasBit(mask, q) && q !in forwards :: |Share(adj, owner, i, q, |adj|)| == 0
    ensures ForwardsTo(adj, owner, me, i, mask, forwards)
  {
    var first := LowerBound(i, 0, |adj[i]|, adj[i]);
    count, forwards := 0, [];
    var visited := mask;
    var next := first + 1;
    ScanStarts(adj, owner, me, i, mask, first);
    ToldNone(adj, owner, me, i, mask, first);
    while next < |adj[i]|
      invariant first + 1 <= next && Scanned(adj, owner, me, i, mask, next, count, forwards, visited)
      invariant ToldTo(adj, owner, me, i, mask, first, next, forwards)
    {
      ghost var before := forwards;
      count, forwards, visited := ScanNeighbour(adj, owner, me, i, mask, first, next, count, forwards, visited);
      ToldNext(adj, owner, me, i, mask, first, next, before, forwards);
      next := next + 1;
    }
    ToldAll(adj, owner, me, i, mask, first, next, forwards);
    ScanEnds(adj, owner, me, i, mask, next, count, forwards, visited);
  }

  /** q owns a neighbour of i after the first one above i. */
  ghost predicate OwnsLater(adj: Adjacency, owner: nat -> nat, i: nat, q: nat)
    requires i < |adj|
  {
    exists x, y :: 0 <= x < y < |adj[i]| && adj[i][x] > i && owner(adj[i][y]) == q
  }

  /** Exactly the other owners outside the mask of such a neighbour. */
  ghost predicate ForwardsTo(adj: Adjacency, owner: nat -> nat, me: nat, i: nat, mask: nat, forwards: seq<nat>)
    requires i < |adj|
  {
    forall q: nat :: q in forwards <==> q != me && !HasBit(mask, q) && OwnsLater(adj, owner, i, q)
  }

  /** The owners of the neighbours between `first` and `next`, this node and those in the mask left out. */
  ghost predicate ToldTo(adj: Adjacency, owner: nat -> nat, me: nat, i: nat, mask: nat, first: nat, next: nat,
                         forwards: seq<nat>)
    requires i < |adj|
  {
    forall q: nat :: q in forwards <==> q != me && !HasBit(mask, q) && OwnsIn(adj[i], owner, first, next, q)
  }

  ghost predicate OwnsIn(edges: seq<nat>, owner: nat -> nat, first: nat, next: nat, q: nat) {
    exists y :: first < y < next && y < |edges| && owner(edges[y]) == q
  }

  lemma ToldNone(adj: Adjacency, owner: nat -> nat, me: nat, i: nat, mask: nat, first: nat)
    requires i < |adj|
    ensures ToldTo(adj, owner, me, i, mask, first, first + 1, [])
  {
  }

  lemma ToldNext(adj: Adjacency, owner: nat -> nat, me: nat, i: nat, mask: nat, first: nat, next: nat,
                 forwards: seq<nat>, forwards': seq<nat>)
    requires i < |adj| && first < next < |adj[i]| && ToldTo(adj, owner, me, i, mask, first, next, forwards)
    requires forall q: nat :: q in forwards' <==>
      q in forwards || (q == owner(adj[i][next]) && q != me && !HasBit(mask, q))
    ensures ToldTo(adj, owner, me, i, mask, first, next + 1, forwards')
  {
    forall q: nat
      ensures OwnsIn(adj[i], owner, first, next + 1, q) <==>
        OwnsIn(adj[i], owner, first, next, q) || q == owner(adj[i][next])
    {
      OwnsNext(adj[i], owner, first, next, q);
    }
  }

  lemma OwnsNext(edges: seq<nat>, owner: nat -> nat, first: nat, next: nat, q: nat)
    requires first < next < |edges|
    ensures OwnsIn(edges, owner, first, next + 1, q) <==>
      OwnsIn(edges, owner, first, next, q) || q == owner(edges[next])
  {
    if OwnsIn(edges, owner, first, next, q) {
      var y :| first < y < next && y < |edges| && owner(edges[y]) == q;
      assert first < y < next + 1;
    }
  }

  lemma ToldAll(adj: Adjacency, owner: nat -> nat, me: nat, i: nat, mask: nat, first: nat, next: nat,
                forwards: seq<nat>)
    requires IsGraph(adj) && i < |adj| && IsLower(adj[i], i, first) && next >= |adj[i]|
    requires ToldTo(adj, owner, me, i, mask, first, next, forwards)
    ensures ForwardsTo(adj, owner, me, i, mask, forwards)
  {
    forall q: nat ensures OwnsIn(adj[i], owner, first, next, q) <==> OwnsLater(adj, owner, i, q) {
      LaterIsIn(adj, owner, i, first, next, q);
    }
  }

  lemma LaterIsIn(adj: Adjacency, owner: nat -> nat, i: nat, first: nat, next: nat, q: nat)
    requires IsGraph(adj) && i < |adj| && IsLower(adj[i], i, first) && next >= |adj[i]|
    ensures OwnsIn(adj[i], owner, first, next, q) <==> OwnsLater(adj, owner, i, q)
  {
    if OwnsIn(adj[i], owner, first, next, q) {
      var y :| first < y < next && y < |adj[i]| && owner(adj[i][y]) == q;
      assert 0 <= first < y < |adj[i]| && adj[i][first] > i && owner(adj[i][y]) == q;
    }
    if OwnsLater(adj, owner, i, q) {
      var x, y :| 0 <= x < y < |adj[i]| && adj[i][x] > i && owner(adj[i][y]) == q;
      assert first < y < next;
    }
  }

  /** Where the scan of i's neighbours stands: its count, its forwards, and nothing owed to anyone else. */
  ghost predicate Scanned(adj: Adjacency, owner: nat -> nat, me: nat, i: nat, mask: nat, next: nat,
                          count: nat, forwards: seq<nat>, visited: nat)
    requires i < |adj|
  {
    && count == Counted(adj, owner, i, me, next)
    && IsForwardList(forwards, me, mask, visited)
    && OthersIdle(adj, owner, i, me, visited, next)
  }

  lemma ScanStarts(adj: Adjacency, owner: nat -> nat, me: nat, i: nat, mask: nat, first: nat)
    requires IsGraph(adj) && i < |adj| && IsLower(adj[i], i, first) && mask < WORD
    ensures Scanned(adj, owner, me, i, mask, first + 1, 0, [], mask)
  {
    var next := first + 1;
    forall q: nat ensures Counted(adj, owner, i, q, next) == 0 { CountedStart(adj, owner, i, first, q); }
  }

  /** One neighbour: counted here, or its owner told. */
  method ScanNeighbour(adj: Adjacency, owner: nat -> nat, me: nat, i: nat, ghost mask: nat, first: nat, next: nat,
                       count: nat, forwards: seq<nat>, visited: nat)
    returns (count': nat, forwards': seq<nat>, visited': nat)
    requires IsGraph(adj) && i < |adj| && (forall v: nat | v < |adj| :: owner(v) < MASK_BITS)
    requires IsLower(adj[i], i, first) && first < next < |adj[i]|
    requires Scanned(adj, owner, me, i, mask, next, count, forwards, visited)
    ensures Scanned(adj, owner, me, i, mask, next + 1, count', forwards', visited')
    ensures forall q: nat :: q in forwards' <==>
      q in forwards || (q == owner(adj[i][next]) && q != me && !HasBit(mask, q))
  {
    count', forwards', visited' := count, forwards, visited;
    if owner(adj[i][next]) == me {
      var c, ks := CountAt(adj, i, first, next);
      CountedOwn(adj, owner, i, next, ks);
      count' := count + c;
    } else {
      CountedOther(adj, owner, i, next, me);
      forwards', visited' := Forward(forwards, me, mask, visited, owner(adj[i][next]));
    }
    OthersStayIdle(adj, owner, i, me, visited, visited', next);
  }

  lemma ScanEnds(adj: Adjacency, owner: nat -> nat, me: nat, i: nat, mask: nat, next: nat,
                 count: nat, forwards: seq<nat>, visited: nat)
    requires i < |adj| && next >= |adj[i]| && Scanned(adj, owner, me, i, mask, next, count, forwards, visited)
    ensures count == |Share(adj, owner, i, me, |adj|)|
    ensures forall q: nat | q != me && !HasBit(mask, q) && q !in forwards :: |Share(adj, owner, i, q, |adj|)| == 0
  {
    forall q: nat | q != me && !HasBit(mask, q) && q !in forwards ensures |Share(adj, owner, i, q, |adj|)| == 0 {
      assert Counted(adj, owner, i, q, next) == 0;
    }
  }

  // ---------------------------------------------------------------------------------------
  // A range of vertices

  /** visit_vertex tasks: a node's own vertices [start, end), or one vertex forwarded to `to`. */
  datatype Task = Range(node: nat, start: nat, end: nat) | Message(vertex: nat, to: nat)

  /** The triangles that are up to this task and whatever it forwards. */
  ghost function ShareSize(adj: Adjacency, owner: nat -> nat, task: Task): nat {
    match task
    case Range(_, start, end) => From(adj, start, end)
    case Message(i, q) => |Share(adj, owner, i, q, |adj|)|
  }

  ghost function SharesOf(adj: Adjacency, owner: nat -> nat, ms: seq<Task>): nat {
    if ms == [] then 0 else SharesOf(adj, owner, ms[..|ms| - 1]) + ShareSize(adj, owner, ms[|ms| - 1])
  }

  lemma {:induction false} SharesOfConcat(adj: Adjacency, owner: nat -> nat, a: seq<Task>, b: seq<Task>)
    ensures SharesOf(adj, owner, a + b) == SharesOf(adj, owner, a) + SharesOf(adj, owner, b)
  {
    if b == [] {
      assert a + b == a;
    } else {
      assert (a + b)[..|a + b| - 1] == a + b[..|b| - 1];
      SharesOfConcat(adj, owner, a, b[..|b| - 1]);
    }
  }

  function Messages(i: nat, qs: seq<nat>): (ms: seq<Task>)
    ensures |ms| == |qs| && forall x | 0 <= x < |qs| :: ms[x] == Message(i, qs[x])
  {
    seq(|qs|, x requires 0 <= x < |qs| => Message(i, qs[x]))
  }

  /** Splitting a set of triangles by the owner of the largest vertex loses nothing. */
  ghost function OwnedBy(ts: set<Triple>, owner: nat -> nat, q: nat): set<Triple> {
    set t | t in ts && owner(t.2) == q
  }

  ghost function SumOwned(ts: set<Triple>, owner: nat -> nat, qs: seq<nat>): nat {
    if qs == [] then 0 else SumOwned(ts, owner, qs[..|qs| - 1]) + |OwnedBy(ts, owner, qs[|qs| - 1])|
  }

  lemma {:induction false} SumOwnedWithout(ts: set<Triple>, owner: nat -> nat, q: nat, qs: seq<nat>)
    requires q !in qs
    ensures SumOwned(ts - OwnedBy(ts, owner, q), owner, qs) == SumOwned(ts, owner, qs)
  {
    if qs != [] {
      SumOwnedWithout(ts, owner, q, qs[..|qs| - 1]);
      assert OwnedBy(ts - OwnedBy(ts, owner, q), owner, qs[|qs| - 1]) == OwnedBy(ts, owner, qs[|qs| - 1]);
    }
  }

  lemma {:induction false} SplitByOwner(owner: nat -> nat, ts: set<Triple>, qs: seq<nat>)
    requires NoRepeats(qs) && (forall t | t in ts :: owner(t.2) in qs)
    ensures |ts| == SumOwned(ts, owner, qs)
    decreases |qs|
  {
    if qs == [] {
      assert ts == {};
    } else {
      var q, rest := qs[|qs| - 1], qs[..|qs| - 1];
      var mine, others := OwnedBy(ts, owner, q), ts - OwnedBy(ts, owner, q);
      assert forall t | t in others :: owner(t.2) in rest;
      SplitByOwner(owner, others, rest);
      assert q !in rest;
      SumOwnedWithout(ts, owner, q, rest);
      assert ts == mine + others;
    }
  }

  lemma {:induction false} OwnedSumIsShares(adj: Adjacency, owner: nat -> nat, i: nat, qs: seq<nat>)
    ensures SumOwned(TrianglesFrom(adj, i, i + 1), owner, qs) == SharesOf(adj, owner, Messages(i, qs))
  {
    if qs != [] {
      OwnedSumIsShares(adj, owner, i, qs[..|qs| - 1]);
      OwnedIsShare(adj, owner, i, qs[|qs| - 1]);
      assert Messages(i, qs)[..|qs| - 1] == Messages(i, qs[..|qs| - 1]);
    }
  }

  lemma OwnedIsShare(adj: Adjacency, owner: nat -> nat, i: nat, q: nat)
    ensures OwnedBy(TrianglesFrom(adj, i, i + 1), owner, q) == Share(adj, owner, i, q, |adj|)
  {
  }

  /** A vertex's triangles are its node's share plus the shares it was forwarded for. */
  lemma VertexSplits(adj: Adjacency, owner: nat -> nat, me: nat, i: nat, forwards: seq<nat>)
    requires NoRepeats(forwards) && me !in forwards
    requires forall q: nat | q != me && q !in forwards :: |Share(adj, owner, i, q, |adj|)| == 0
    ensures |TrianglesFrom(adj, i, i + 1)| ==
      |Share(adj, owner, i, me, |adj|)| + SharesOf(adj, owner, Messages(i, forwards))
  {
    var ts, qs := TrianglesFrom(adj, i, i + 1), [me] + forwards;
    forall t | t in ts ensures owner(t.2) in qs {
      OwnedIsShare(adj, owner, i, owner(t.2));
      assert t in OwnedBy(ts, owner, owner(t.2));
      if owner(t.2) != me { assert owner(t.2) in forwards; }
    }
    SplitByOwner(owner, ts, qs);
    OwnedSumIsShares(adj, owner, i, qs);
    assert Messages(i, qs) == Messages(i, [me]) + Messages(i, forwards);
    SharesOfConcat(adj, owner, Messages(i, [me]), Messages(i, forwards));
    assert Messages(i, [me]) == [Message(i, me)];
    assert SharesOf(adj, owner, [Message(i, me)]) == ShareSize(adj, owner, Message(i, me)) by {
      assert [Message(i, me)][..0] == [];
    }
  }

  /** How many triangles have their smallest vertex in [lo, hi). */
  ghost function From(adj: Adjacency, lo: nat, hi: nat): nat {
    |TrianglesFrom(adj, lo, hi)|
  }

  lemma FromSplits(adj: Adjacency, lo: nat, mid: nat, hi: nat)
    requires lo <= mid <= hi
    ensures From(adj, lo, hi) == From(adj, lo, mid) + From(adj, mid, hi)
  {
    var a, b := TrianglesFrom(adj, lo, mid), TrianglesFrom(adj, mid, hi);
    assert TrianglesFrom(adj, lo, hi) == a + b;
    assert a !! b;
  }

  lemma FromNothing(adj: Adjacency, lo: nat)
    ensures From(adj, lo, lo) == 0
  {
    assert TrianglesFrom(adj, lo, lo) == {};
  }

  /** Every message names another node, and no vertex goes to the same node twice. */
  ghost predicate MessagesOk(ms: seq<Task>, me: nat, lo: nat, hi: nat) {
    && (forall x | 0 <= x < |ms| :: ms[x].Message? && ms[x].to != me && lo <= ms[x].vertex < hi)
    && Distinct(ms)
  }

  ghost predicate Distinct(ms: seq<Task>) {
    forall x, y | 0 <= x < y < |ms| :: ms[x] != ms[y]
  }

  lemma MessagesConcat(a: seq<Task>, b: seq<Task>, me: nat, lo: nat, mid: nat, hi: nat)
    requires MessagesOk(a, me, lo, mid) && MessagesOk(b, me, mid, hi) && lo <= mid <= hi
    ensures MessagesOk(a + b, me, lo, hi)
  {
    var ms := a + b;
    forall x, y | 0 <= x < y < |ms| ensures ms[x] != ms[y] {
      if x < |a| <= y { assert ms[x].vertex < mid <= ms[y].vertex; }
    }
  }

  lemma MessagesAreOk(i: nat, me: nat, qs: seq<nat>)
    requires NoRepeats(qs) && me !in qs
    ensures MessagesOk(Messages(i, qs), me, i, i + 1)
  {
  }

  /** One own vertex: what is counted here plus what the receivers of its messages will count. */
  method VisitVertex(adj: Adjacency, owner: nat -> nat, me: nat, i: nat) returns (count: nat, messages: seq<Task>)
    requires IsGraph(adj) && i < |adj| && (forall v: nat | v < |adj| :: owner(v) < MASK_BITS)
    ensures count + SharesOf(adj, owner, messages) == From(adj, i, i + 1)
    ensures MessagesOk(messages, me, i, i + 1)
  {
    var forwards;
    forall q: nat ensures !HasBit(0, q) { NoBits(q); }
    count, forwards := ProcessVertex(adj, owner, me, i, 0);
    VertexSplits(adj, owner, me, i, forwards);
    MessagesAreOk(i, me, forwards);
    messages := Messages(i, forwards);
  }

  /** A block of own vertices. */
  method VisitVertices(adj: Adjacency, owner: nat -> nat, me: nat, start: nat, end: nat)
    returns (count: nat, messages: seq<Task>)
    requires IsGraph(adj) && start <= end <= |adj| && (forall v: nat | v < |adj| :: owner(v) < MASK_BITS)
    ensures count + SharesOf(adj, owner, messages) == From(adj, start, end)
    ensures MessagesOk(messages, me, start, end)
  {
    count, messages := 0, [];
    var i := start;
    VisitedNone(adj, owner, me, start);
    while i < end
      invariant start <= i <= end && VisitedTo(adj, owner, me, start, i, count, messages)
    {
      var c, ms := VisitVertex(adj, owner, me, i);
      VisitedNext(adj, owner, me, start, i, count, messages, c, ms);
      count, messages, i := count + c, messages + ms, i + 1;
    }
  }

  /** What has been counted and sent for the vertices from start up to i. */
  ghost predicate VisitedTo(adj: Adjacency, owner: nat -> nat, me: nat, start: nat, i: nat, count: nat,
                            messages: seq<Task>) {
    MessagesOk(messages, me, start, i) && count + SharesOf(adj, owner, messages) == From(adj, start, i)
  }

  lemma VisitedNone(adj: Adjacency, owner: nat -> nat, me: nat, start: nat)
    ensures VisitedTo(adj, owner, me, start, start, 0, [])
  {
    FromNothing(adj, start);
  }

  lemma VisitedNext(adj: Adjacency, owner: nat -> nat, me: nat, start: nat, i: nat,
                    count: nat, messages: seq<Task>, c: nat, ms: seq<Task>)
    requires start <= i && VisitedTo(adj, owner, me, start, i, count, messages)
    requires MessagesOk(ms, me, i, i + 1) && c + SharesOf(adj, owner, ms) == From(adj, i, i + 1)
    ensures VisitedTo(adj, owner, me, start, i + 1, count + c, messages + ms)
  {
    FromSplits(adj, start, i, i + 1);
    SharesOfConcat(adj, owner, messages, ms);
    MessagesConcat(messages, ms, me, start, i, i + 1);
  }

  lemma FullMaskHides(mask: nat, q: nat)
    requires mask == MAX_WORD && q < MASK_BITS
    ensures HasBit(mask, q)
  {
    WordIsPow2();
    AllOnes(64, q);
  }

  /** A forwarded vertex: every mask bit is set, so nothing is forwarded again. */
  method VisitForwarded(adj: Adjacency, owner: nat -> nat, me: nat, i: nat) returns (count: nat, forwards: seq<nat>)
    requires IsGraph(adj) && i < |adj| && (forall v: nat | v < |adj| :: owner(v) < MASK_BITS)
    ensures count == ShareSize(adj, owner, Message(i, me)) && forwards == []
  {
    var mask := MAX_WORD;
    count, forwards := ProcessVertex(adj, owner, me, i, mask);
    forall q: nat | q < MASK_BITS ensures HasBit(mask, q) { FullMaskHides(mask, q); }
    if forwards != [] { HasMember(forwards); }
  }

  lemma HasMember(qs: seq<nat>)
    requires qs != []
    ensures exists q :: q in qs
  {
    assert qs[0] in qs;
  }

  // ---------------------------------------------------------------------------------------
  // The cluster

  /** Block distribution of n vertices over `blocks` nodes. */
  datatype Distribution = Distribution(n: nat, blocks: nat) {
    function Size(): nat
      requires blocks > 0
    {
      (n + blocks - 1) / blocks
    }

    /** No block begins past the end of the vertices, and every node has a mask bit. */
    predicate Valid() {
      && 0 < blocks <= MASK_BITS && n > 0
      && (blocks - 1) * Size() <= n
    }

    function Start(p: nat): nat
      requires blocks > 0
    {
      Size() * p
    }

    /** The last vertex of block p, itself included; before its start when the last block is empty. */
    function End(p: nat): nat
      requires Valid() && p < blocks
    {
      if p == blocks - 1 then n - 1 else if Size() == 0 then 0 else Start(p) + (Size() - 1)
    }

    function Owner(v: nat): nat
      requires blocks > 0
    {
      if Size() == 0 then 0 else v / Size()
    }
  }

  lemma SizeCovers(d: Distribution)
    requires d.blocks > 0 && d.n > 0
    ensures d.Size() > 0 && d.Size() * d.blocks >= d.n
  {
    var m := d.n + d.blocks - 1;
    assert m == d.Size() * d.blocks + m % d.blocks;
  }

  /** Blocks are consecutive and cover exactly the vertices; only the last one may be empty. */
  lemma BlocksTile(d: Distribution, p: nat)
    requires d.Valid() && p < d.blocks
    ensures d.Start(p) <= d.End(p) + 1 <= d.n && (p + 1 < d.blocks ==> d.Start(p) <= d.End(p))
    ensures if p + 1 < d.blocks then d.Start(p + 1) == d.End(p) + 1 else d.End(p) + 1 == d.n
  {
    SizeCovers(d);
    var z := d.Size();
    assert z * (p + 1) == z * p + z;
    assert (d.blocks - 1) * z >= z * p by { Monotone(z, p, d.blocks - 1); }
    if p + 1 < d.blocks { Monotone(z, p + 1, d.blocks - 1); }
  }

  lemma Monotone(z: nat, p: nat, q: nat)
    requires p <= q
    ensures z * p <= q * z
  {
    assert q * z == z * p + z * (q - p);
  }

  lemma OwnerIsBlock(d: Distribution, v: nat)
    requires d.Valid() && v < d.n
    ensures d.Owner(v) < d.blocks
    ensures d.Start(d.Owner(v)) <= v <= d.End(d.Owner(v))
  {
    SizeCovers(d);
    var z := d.Size();
    Quotient(v, z, d.blocks);
    InsideBlock(d, v, z, v / z);
  }

  lemma InsideBlock(d: Distribution, v: nat, z: nat, q: nat)
    requires d.Valid() && z == d.Size() > 0 && v < d.n && q < d.blocks && z * q <= v < z * q + z
    ensures d.Start(q) <= v <= d.End(q)
  {
  }

  lemma Quotient(v: nat, z: nat, blocks: nat)
    requires z > 0 && v < z * blocks
    ensures v / z < blocks && z * (v / z) <= v <= z * (v / z) + (z - 1)
  {
    var q := v / z;
    assert v == z * q + v % z;
    if q >= blocks { Monotone(z, blocks, q); }
  }

  /** Later ranges lie above earlier ones. */
  ghost predicate RangesApart(tasks: seq<Task>) {
    && (forall x | 0 <= x < |tasks| && tasks[x].Range? :: tasks[x].start <= tasks[x].end)
    && (forall x, y | 0 <= x < y < |tasks| && tasks[x].Range? && tasks[y].Range? :: tasks[x].end <= tasks[y].start)
  }

  /** Ranges of one node's vertices, within [lo, hi). */
  ghost predicate RangesOf(tasks: seq<Task>, lo: nat, hi: nat) {
    && RangesApart(tasks)
    && (forall x | 0 <= x < |tasks| :: tasks[x].Range? && lo <= tasks[x].start && tasks[x].end <= hi)
  }

  lemma RangesConcat(a: seq<Task>, b: seq<Task>, lo: nat, mid: nat, mid': nat, hi: nat)
    requires RangesOf(a, lo, mid) && RangesOf(b, mid', hi) && lo <= mid <= mid' <= hi
    ensures RangesOf(a + b, lo, hi)
  {
    var ts := a + b;
    forall x, y | 0 <= x < y < |ts| ensures ts[x].end <= ts[y].start {
      if x < |a| <= y { assert ts[x].end <= mid <= ts[y].start; }
    }
  }

  lemma SharesOfOne(adj: Adjacency, owner: nat -> nat, t: Task)
    ensures SharesOf(adj, owner, [t]) == ShareSize(adj, owner, t)
  {
    assert [t][..0] == [];
  }

  const OVER_SUB: nat := 16

  /** In 64-bit arithmetic: an empty block makes the difference wrap. */
  function BlockSize(start: nat, end: nat, workers: nat): (size: nat)
    requires workers > 0
    ensures size > 0
  {
    var size := (end - start) % WORD / (workers * OVER_SUB);
    if size == 0 then 1 else size
  }

  lemma AddRange(adj: Adjacency, owner: nat -> nat, tasks: seq<Task>, start: nat, task: Task)
    requires task.Range? && start <= task.start <= task.end
    requires RangesOf(tasks, start, task.start) && SharesOf(adj, owner, tasks) == From(adj, start, task.start)
    ensures RangesOf(tasks + [task], start, task.end)
    ensures SharesOf(adj, owner, tasks + [task]) == From(adj, start, task.end)
  {
    FromSplits(adj, start, task.start, task.end);
    SharesOfOne(adj, owner, task);
    SharesOfConcat(adj, owner, tasks, [task]);
    RangesConcat(tasks, [task], start, task.start, task.start, task.end);
  }

  /** start_work: the tasks of a node whose block is start..end, `end` included. */
  method StartWork(ghost adj: Adjacency, ghost owner: nat -> nat, node: nat, start: nat, end: nat, workers: nat)
    returns (tasks: seq<Task>)
    requires workers > 0
    ensures start <= end ==> RangesOf(tasks, start, end) && SharesOf(adj, owner, tasks) == From(adj, start, end)
    ensures start > end ==> tasks == []
    ensures start <= end ==> |tasks| == (end - start) / BlockSize(start, end, workers) + 1
  {
    var size := BlockSize(start, end, workers);
    tasks := [];
    var i := start;
    ghost var done := start;
    FromNothing(adj, start);
    while i <= end
      invariant start <= i && (start > end ==> tasks == [])
      invariant start <= end ==> start <= done <= end && done == if i <= end then i else end
      invariant start <= end ==> RangesOf(tasks, start, done) && SharesOf(adj, owner, tasks) == From(adj, start, done)
      invariant StartedFrom(start, end, size, |tasks|, i)
    {
      var task := Range(node, i, if i + size < end then i + size else end);
      AddRange(adj, owner, tasks, start, task);
      Once(|tasks|, size);
      tasks, i, done := tasks + [task], i + size, task.end;
    }
    if start <= end { TaskCount(end - start, size, |tasks|); }
  }

  /** After n tasks of this size the next one begins at i. */
  ghost predicate StartedFrom(start: nat, end: nat, size: nat, n: nat, i: nat) {
    i == start + n * size && (n > 0 ==> i - size <= end)
  }

  lemma Once(n: nat, size: nat)
    ensures (n + 1) * size == n * size + size
  {
  }

  lemma TaskCount(x: nat, size: nat, n: nat)
    requires size > 0 && n > 0 && n * size - size <= x < n * size
    ensures x / size + 1 == n
  {
    var q := x / size;
    assert x == q * size + x % size;
    assert (n - 1) * size == n * size - size && (q + 1) * size == q * size + size;
    if q + 1 < n { Monotone(size, q + 1, n - 1); }
    if n < q + 1 { Monotone(size, n, q); }
  }

  /** A node with a vertex for each of 16 tasks per worker gets more than 16 tasks per worker, else one per vertex. */
  lemma OverSubscribed(start: nat, end: nat, workers: nat)
    requires workers > 0 && start <= end < WORD
    ensures var tasks := (end - start) / BlockSize(start, end, workers) + 1;
      if end - start >= 16 * workers then tasks > 16 * workers else tasks == end - start + 1
  {
    var x, share := end - start, workers * OVER_SUB;
    var size := BlockSize(start, end, workers);
    assert x == x / share * share + x % share;
    if x >= share {
      AtLeast(x, size, share);
    } else {
      SmallQuotient(x, share);
    }
  }

  lemma AtLeast(x: nat, size: nat, share: nat)
    requires size > 0 && size * share <= x
    ensures x / size >= share
  {
    var q := x / size;
    assert x == size * q + x % size && size * (q + 1) == size * q + size;
    if q < share { Monotone(size, q + 1, share); }
  }

  lemma SmallQuotient(x: nat, y: nat)
    requires x < y
    ensures x / y == 0
  {
  }

  /** Triangles whose smallest vertex is the last of its block. */
  ghost function Missed(adj: Adjacency, d: Distribution): set<Triple>
    requires d.Valid()
  {
    set t | t in Triangles(adj) && IsLast(d, t.0)
  }

  predicate IsLast(d: Distribution, v: nat)
    requires d.Valid()
  {
    d.Owner(v) < d.blocks && v == d.End(d.Owner(v))
  }

  /** The missed triangles with smallest vertex below `hi`. */
  ghost function MissedBelow(adj: Adjacency, d: Distribution, hi: nat): nat
    requires d.Valid()
  {
    |set t | t in Missed(adj, d) && t.0 < hi|
  }

  lemma OwnerInBlock(d: Distribution, p: nat, v: nat)
    requires d.Valid() && p < d.blocks && d.Start(p) <= v <= d.End(p)
    ensures d.Owner(v) == p
  {
    BlocksTile(d, p);
    OwnerIsBlock(d, v);
    var q := d.Owner(v);
    BlocksTile(d, q);
    if q < p { Monotone(d.Size(), q + 1, p); }
    if p < q { Monotone(d.Size(), p + 1, q); }
  }

  /** One block: exactly the triangles from its last vertex are left out. */
  lemma BlockMisses(adj: Adjacency, d: Distribution, p: nat)
    requires d.Valid() && p < d.blocks && d.Start(p) <= d.End(p)
    ensures MissedBelow(adj, d, d.End(p) + 1) == MissedBelow(adj, d, d.Start(p)) + From(adj, d.End(p), d.End(p) + 1)
  {
    BlocksTile(d, p);
    forall v: nat | d.Start(p) <= v <= d.End(p) ensures IsLast(d, v) <==> v == d.End(p) { OwnerInBlock(d, p, v); }
    var below := set t | t in Missed(adj, d) && t.0 < d.Start(p);
    var here := TrianglesFrom(adj, d.End(p), d.End(p) + 1);
    assert (set t | t in Missed(adj, d) && t.0 < d.End(p) + 1) == below + here;
    assert below !! here;
  }

  /** One node's initial tasks, whatever their number. */
  method StartNode(ghost adj: Adjacency, ghost owner: nat -> nat, node: nat, start: nat, end: nat, workers: nat)
    returns (tasks: seq<Task>)
    requires workers > 0
    ensures start <= end ==> RangesOf(tasks, start, end) && SharesOf(adj, owner, tasks) == From(adj, start, end)
    ensures start > end ==> tasks == []
  {
    tasks := StartWork(adj, owner, node, start, end, workers);
  }

  /** Every node's initial tasks. */
  method StartAll(ghost adj: Adjacency, ghost owner: nat -> nat, d: Distribution, workers: nat)
    returns (tasks: seq<Task>)
    requires d.Valid() && workers > 0 && |adj| == d.n
    ensures RangesOf(tasks, 0, d.n)
    ensures SharesOf(adj, owner, tasks) + |Missed(adj, d)| == |Triangles(adj)|
  {
    tasks := [];
    var p := 0;
    ghost var done := 0;
    NothingBelowZero(adj, d);
    while p < d.blocks
      invariant p <= d.blocks && done == Boundary(d, p) && StartedTo(adj, owner, d, tasks, done)
    {
      var lo, hi := d.Start(p), d.End(p);
      BoundaryNext(d, p);
      var more := StartNode(adj, owner, p, lo, hi, workers);
      AddBlock(adj, owner, d, p, lo, hi, tasks, more);
      tasks, p, done := tasks + more, p + 1, hi + 1;
    }
    AllBelow(adj, d);
  }

  /** Where block p begins, or the end of the vertices. */
  ghost function Boundary(d: Distribution, p: nat): nat
    requires d.blocks > 0
  {
    if p < d.blocks then d.Start(p) else d.n
  }

  lemma BoundaryNext(d: Distribution, p: nat)
    requires d.Valid() && p < d.blocks
    ensures d.Start(p) <= d.End(p) + 1 && d.Start(p) == Boundary(d, p) && d.End(p) + 1 == Boundary(d, p + 1)
  {
    BlocksTile(d, p);
  }

  /** The tasks for the vertices below `done`. */
  ghost predicate StartedTo(adj: Adjacency, owner: nat -> nat, d: Distribution, tasks: seq<Task>, done: nat)
    requires d.Valid()
  {
    RangesOf(tasks, 0, done) && SharesOf(adj, owner, tasks) + MissedBelow(adj, d, done) == From(adj, 0, done)
  }

  lemma NothingBelowZero(adj: Adjacency, d: Distribution)
    requires d.Valid()
    ensures From(adj, 0, 0) == 0 && MissedBelow(adj, d, 0) == 0
  {
    FromNothing(adj, 0);
    assert (set t | t in Missed(adj, d) && t.0 < 0) == {};
  }

  lemma AllBelow(adj: Adjacency, d: Distribution)
    requires d.Valid() && |adj| == d.n
    ensures From(adj, 0, d.n) == |Triangles(adj)| && MissedBelow(adj, d, d.n) == |Missed(adj, d)|
  {
    assert (set t | t in Missed(adj, d) && t.0 < d.n) == Missed(adj, d);
    assert TrianglesFrom(adj, 0, d.n) == Triangles(adj);
  }

  lemma AddBlock(adj: Adjacency, owner: nat -> nat, d: Distribution, p: nat, lo: nat, hi: nat,
                 tasks: seq<Task>, more: seq<Task>)
    requires d.Valid() && p < d.blocks && lo == d.Start(p) && hi == d.End(p) && StartedTo(adj, owner, d, tasks, lo)
    requires lo <= hi ==> RangesOf(more, lo, hi) && SharesOf(adj, owner, more) == From(adj, lo, hi)
    requires lo > hi ==> more == []
    ensures StartedTo(adj, owner, d, tasks + more, hi + 1)
  {
    if lo <= hi {
      BlockMisses(adj, d, p);
      AddVertices(adj, owner, d, lo, hi, tasks, more);
    } else {
      BoundaryNext(d, p);
      assert tasks + more == tasks && lo == hi + 1;
    }
  }

  lemma AddVertices(adj: Adjacency, owner: nat -> nat, d: Distribution, lo: nat, hi: nat, tasks: seq<Task>,
                    more: seq<Task>)
    requires d.Valid() && lo <= hi && StartedTo(adj, owner, d, tasks, lo)
    requires RangesOf(more, lo, hi) && SharesOf(adj, owner, more) == From(adj, lo, hi)
    requires MissedBelow(adj, d, hi + 1) == MissedBelow(adj, d, lo) + From(adj, hi, hi + 1)
    ensures StartedTo(adj, owner, d, tasks + more, hi + 1)
  {
    AddBlockAt(adj, owner, tasks, more, lo, hi, MissedBelow(adj, d, lo), MissedBelow(adj, d, hi + 1));
  }

  lemma AddBlockAt(adj: Adjacency, owner: nat -> nat, tasks: seq<Task>, more: seq<Task>, lo: nat, hi: nat, missed: nat,
                   missed': nat)
    requires lo <= hi && RangesOf(tasks, 0, lo) && RangesOf(more, lo, hi)
    requires SharesOf(adj, owner, tasks) + missed == From(adj, 0, lo) && SharesOf(adj, owner, more) == From(adj, lo, hi)
    requires missed' == missed + From(adj, hi, hi + 1)
    ensures RangesOf(tasks + more, 0, hi + 1)
    ensures SharesOf(adj, owner, tasks + more) + missed' == From(adj, 0, hi + 1)
  {
    SharesOfConcat(adj, owner, tasks, more);
    RangesConcat(tasks, more, 0, lo, lo, hi + 1);
    FromSplits(adj, 0, lo, hi);
    FromSplits(adj, 0, hi, hi + 1);
  }

  // ---------------------------------------------------------------------------------------
  // The run: the tasks in any order

  function Without(tasks: seq<Task>, k: nat): seq<Task>
    requires k < |tasks|
  {
    tasks[..k] + tasks[k + 1..]
  }

  lemma {:induction false} SharesOfWithout(adj: Adjacency, owner: nat -> nat, tasks: seq<Task>, k: nat)
    requires k < |tasks|
    ensures SharesOf(adj, owner, tasks) == SharesOf(adj, owner, Without(tasks, k)) + ShareSize(adj, owner, tasks[k])
  {
    assert tasks == tasks[..k] + ([tasks[k]] + tasks[k + 1..]);
    SharesOfConcat(adj, owner, tasks[..k], [tasks[k]] + tasks[k + 1..]);
    SharesOfConcat(adj, owner, [tasks[k]], tasks[k + 1..]);
    SharesOfConcat(adj, owner, tasks[..k], tasks[k + 1..]);
    SharesOfOne(adj, owner, tasks[k]);
  }

  /** Ranges still to visit. */
  function Ranges(tasks: seq<Task>): nat {
    if tasks == [] then 0 else Ranges(tasks[..|tasks| - 1]) + if tasks[|tasks| - 1].Range? then 1 else 0
  }

  lemma {:induction false} RangesOfConcat(a: seq<Task>, b: seq<Task>)
    ensures Ranges(a + b) == Ranges(a) + Ranges(b)
  {
    if b == [] {
      assert a + b == a;
    } else {
      assert (a + b)[..|a + b| - 1] == a + b[..|b| - 1];
      RangesOfConcat(a, b[..|b| - 1]);
    }
  }

  lemma RangesOne(task: Task)
    ensures Ranges([task]) == if task.Range? then 1 else 0
  {
    assert [task][..0] == [];
  }

  lemma {:induction false} RangesWithout(tasks: seq<Task>, k: nat)
    requires k < |tasks|
    ensures Ranges(tasks) == Ranges(Without(tasks, k)) + if tasks[k].Range? then 1 else 0
  {
    assert tasks == tasks[..k] + ([tasks[k]] + tasks[k + 1..]);
    RangesOfConcat(tasks[..k], [tasks[k]] + tasks[k + 1..]);
    RangesOfConcat([tasks[k]], tasks[k + 1..]);
    RangesOfConcat(tasks[..k], tasks[k + 1..]);
    RangesOne(tasks[k]);
  }

  lemma {:induction false} NoRanges(ms: seq<Task>)
    requires forall x | 0 <= x < |ms| :: ms[x].Message?
    ensures Ranges(ms) == 0
  {
    if ms != [] { NoRanges(ms[..|ms| - 1]); }
  }

  /** Tasks fit the graph; ranges are apart; no forwarded vertex is still in a range. */
  ghost predicate RunOk(n: nat, tasks: seq<Task>, sent: seq<Task>) {
    && RangesApart(tasks)
    && (forall x | 0 <= x < |tasks| :: if tasks[x].Range? then tasks[x].end <= n else tasks[x].vertex < n)
    && Distinct(sent)
    && (forall y | 0 <= y < |sent| :: sent[y].Message? && NotAhead(tasks, sent[y].vertex))
  }

  ghost predicate NotAhead(tasks: seq<Task>, v: nat) {
    forall x | 0 <= x < |tasks| && tasks[x].Range? :: !(tasks[x].start <= v < tasks[x].end)
  }

  lemma WithoutElements(tasks: seq<Task>, k: nat, x: nat)
    requires k < |tasks| && x < |tasks| - 1
    ensures Without(tasks, k)[x] == tasks[if x < k then x else x + 1]
  {
  }

  lemma AfterMessage(n: nat, tasks: seq<Task>, sent: seq<Task>, k: nat)
    requires RunOk(n, tasks, sent) && k < |tasks|
    ensures RunOk(n, Without(tasks, k), sent)
  {
    forall y | 0 <= y < |sent| ensures NotAhead(Without(tasks, k), sent[y].vertex) {
      assert NotAhead(tasks, sent[y].vertex);
    }
  }

  lemma AfterRange(n: nat, tasks: seq<Task>, sent: seq<Task>, k: nat, me: nat, ms: seq<Task>)
    requires RunOk(n, tasks, sent) && k < |tasks| && tasks[k].Range?
    requires MessagesOk(ms, me, tasks[k].start, tasks[k].end)
    ensures RunOk(n, Without(tasks, k) + ms, sent + ms)
  {
    AfterMessage(n, tasks, sent, k);
    var tasks', sent' := Without(tasks, k) + ms, sent + ms;
    forall x, y | 0 <= x < y < |sent'| ensures sent'[x] != sent'[y] {
      if x < |sent| <= y { assert NotAhead(tasks, sent[x].vertex); }
    }
    forall y | 0 <= y < |sent'| ensures sent'[y].Message? && NotAhead(tasks', sent'[y].vertex) {
      if y < |sent| {
        assert NotAhead(Without(tasks, k), sent[y].vertex);
      } else {
        forall x | 0 <= x < |tasks'| && tasks'[x].Range? ensures !(tasks'[x].start <= sent'[y].vertex < tasks'[x].end) {
          WithoutElements(tasks, k, x);
        }
      }
    }
  }

  /**
   The whole run, tasks taken in any order: what is counted, and every forwarding ever sent.
   Exactly the triangles from a block's last vertex are missing.
   */
  method CountTriangles(adj: Adjacency, d: Distribution, workers: nat) returns (total: nat, sent: seq<Task>)
    requires IsGraph(adj) && d.Valid() && |adj| == d.n && workers > 0
    ensures total + |Missed(adj, d)| == |Triangles(adj)|
    ensures Distinct(sent) && forall x | 0 <= x < |sent| :: sent[x].Message?
  {
    var owner: nat -> nat := (v: nat) => if v < d.n then d.Owner(v) else 0;
    forall v: nat | v < |adj| ensures owner(v) < MASK_BITS { OwnerIsBlock(d, v); }
    var tasks := StartAll(adj, owner, d, workers);
    total, sent := 0, [];
    while tasks != []
      invariant RunOk(|adj|, tasks, sent)
      invariant total + SharesOf(adj, owner, tasks) + |Missed(adj, d)| == |Triangles(adj)|
      decreases Ranges(tasks), |tasks|
    {
      var k :| 0 <= k < |tasks|;
      var rest := Without(tasks, k);
      SharesOfWithout(adj, owner, tasks, k);
      RangesWithout(tasks, k);
      match tasks[k] {
        case Range(node, start, end) =>
          var c, ms := VisitVertices(adj, owner, node, start, end);
          AfterRange(|adj|, tasks, sent, k, node, ms);
          SharesOfConcat(adj, owner, rest, ms);
          RangesOfConcat(rest, ms);
          NoRanges(ms);
          total, tasks, sent := total + c, rest + ms, sent + ms;
        case Message(i, to) =>
          var c, forwards := VisitForwarded(adj, owner, to, i);
          AfterMessage(|adj|, tasks, sent, k);
          total, tasks := total + c, rest;
      }
    }
  }

  // ---------------------------------------------------------------------------------------
  // When the count is right

  /** Neighbours number x and y of e are higher than e, in this order, and adjacent. */
  predicate OpensTriangle(adj: Adjacency, e: nat, x: nat, y: nat)
    requires e < |adj|
  {
    && x < |adj[e]| && y < |adj[e]| && e < adj[e][x] < adj[e][y] < |adj|
    && adj[e][y] in adj[adj[e][x]]
  }

  /** No block's last vertex has two higher neighbours that are neighbours themselves. */
  predicate LastVerticesOpen(adj: Adjacency, d: Distribution)
    requires d.Valid() && |adj| == d.n
  {
    forall e | 0 <= e < |adj| && IsLast(d, e) ::
      forall x, y | 0 <= x < |adj[e]| && 0 <= y < |adj[e]| :: !OpensTriangle(adj, e, x, y)
  }

  lemma MissedOpens(adj: Adjacency, d: Distribution, t: Triple)
    requires d.Valid() && |adj| == d.n && t in Missed(adj, d)
    ensures t.0 < |adj| && IsLast(d, t.0) && exists x, y :: OpensTriangle(adj, t.0, x, y)
  {
    var x :| 0 <= x < |adj[t.0]| && adj[t.0][x] == t.1;
    var y :| 0 <= y < |adj[t.0]| && adj[t.0][y] == t.2;
    assert OpensTriangle(adj, t.0, x, y);
  }

  lemma NoneMissed(adj: Adjacency, d: Distribution)
    requires d.Valid() && |adj| == d.n && LastVerticesOpen(adj, d)
    ensures |Missed(adj, d)| == 0
  {
    if t :| t in Missed(adj, d) { MissedOpens(adj, d, t); }
  }

  lemma SomeMissed(adj: Adjacency, d: Distribution)
    requires d.Valid() && |adj| == d.n && !LastVerticesOpen(adj, d)
    ensures |Missed(adj, d)| > 0
  {
    var e, x, y :| 0 <= e < |adj| && IsLast(d, e) && 0 <= x && 0 <= y && OpensTriangle(adj, e, x, y);
    TriangleFromEdges(adj, e, x, y);
    assert (e, adj[e][x], adj[e][y]) in Missed(adj, d);
  }

  lemma TriangleFromEdges(adj: Adjacency, e: nat, x: nat, y: nat)
    requires e < |adj| && OpensTriangle(adj, e, x, y)
    ensures Triangle(adj, e, adj[e][x], adj[e][y])
  {
  }

  lemma ExactIff(adj: Adjacency, d: Distribution)
    requires d.Valid() && |adj| == d.n
    ensures |Missed(adj, d)| == 0 <==> LastVerticesOpen(adj, d)
  {
    if LastVerticesOpen(adj, d) { NoneMissed(adj, d); } else { SomeMissed(adj, d); }
  }

  /** On one node nothing is missed. */
  lemma OneNodeIsExact(adj: Adjacency, d: Distribution)
    requires IsGraph(adj) && d.Valid() && |adj| == d.n && d.blocks == 1
    ensures Missed(adj, d) == {}
  {
    assert d.End(0) == d.n - 1;
  }

  lemma OneVertexBlocks(d: Distribution)
    requires d == Distribution(3, 3)
    ensures d.Valid() && IsLast(d, 0)
  {
    assert d.Size() == 1 && d.End(0) == 0 && d.Owner(0) == 0;
  }

  lemma OneTriangle(adj: Adjacency)
    requires adj == [[1, 2], [0, 2], [0, 1]]
    ensures IsGraph(adj) && Triangles(adj) == {(0, 1, 2)}
  {
    assert Triangle(adj, 0, 1, 2);
    assert forall t | t in Triangles(adj) :: t == (0, 1, 2);
  }

  /** A triangle over three nodes is not counted at all. */
  lemma SpreadTriangleIsMissed()
    ensures var adj, d := [[1, 2], [0, 2], [0, 1]], Distribution(3, 3);
      IsGraph(adj) && d.Valid() && Missed(adj, d) == Triangles(adj) == {(0, 1, 2)}
  {
    OneTriangle([[1, 2], [0, 2], [0, 1]]);
    OneVertexBlocks(Distribution(3, 3));
  }
}
