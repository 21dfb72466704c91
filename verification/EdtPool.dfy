/**
 The pool of EDT memory: per thread, a free list for each of four size classes, linked through
 the freed blocks themselves. An EDT may be freed by another thread than the one it was created
 on, so blocks migrate between the threads' lists.
 */
module EdtPool {

  const BUCKETS: nat := 4
  const MAX_PER_BUCKET: nat := 64

  function BucketSize(b: nat): nat { if b == 0 then 128 else if b == 1 then 256 else if b == 2 then 512 else 1024 }

  /** The size class of a request, or none when it is too large. */
  datatype Class = Bucket(b: nat) | Oversized

  function BucketIndex(size: nat): (c: Class)
    ensures c.Bucket? ==> c.b < BUCKETS && size <= BucketSize(c.b) && (c.b > 0 ==> size > BucketSize(c.b - 1))
    ensures c.Oversized? <==> size > BucketSize(BUCKETS - 1)
  {
    if size <= 128 then Bucket(0) else if size <= 256 then Bucket(1) else if size <= 512 then Bucket(2)
    else if size <= 1024 then Bucket(3) else Oversized
  }

  /** Allocations are rounded up to their class. */
  function AllocSize(space: nat): (n: nat)
    ensures n >= space
  {
    match BucketIndex(space)
    case Bucket(b) => BucketSize(b)
    case Oversized => space
  }

  /**
   A block of memory: its capacity, up to where it is known to be zero (its EDT header aside), the
   size in that header, and the link laid over it while it is pooled. Addresses are 1, 2, ...; 0 is
   NULL.
   */
  datatype Block = Block(capacity: nat, zeroed: nat, headerSize: nat, next: nat)

  /** A free list's head and length as stored. */
  datatype List = List(head: nat, count: nat)

  /** Where a block is: just allocated, with an EDT, in list q, or given back to the allocator. */
  datatype Where = New | Live | Pooled(q: nat) | Released

  /** List b of thread t. */
  function ListOf(t: nat, b: nat): nat { BUCKETS * t + b }

  // ---------------------------------------------------------------------------------------
  // The invariant

  /** Following the links from the head gives l. */
  ghost predicate Linked(blocks: seq<Block>, head: nat, l: seq<nat>)
    decreases |l|
  {
    if l == [] then head == 0
    else 1 <= head <= |blocks| && head == l[0] && Linked(blocks, blocks[head - 1].next, l[1..])
  }

  ghost predicate NoRepeats(l: seq<nat>) {
    forall i, j | 0 <= i < j < |l| :: l[i] != l[j]
  }

  /** The list is what its head, count and links say, holds each block once, and is not too long. */
  ghost predicate ListOk(blocks: seq<Block>, list: List, l: seq<nat>) {
    Linked(blocks, list.head, l) && NoRepeats(l) && list.count == |l| <= MAX_PER_BUCKET
  }

  /** A block is on exactly the list it is said to be on, and fits that list's class. */
  ghost predicate BlockOk(lists: seq<seq<nat>>, a: nat, block: Block, w: Where) {
    && (forall q | 0 <= q < |lists| :: a in lists[q] <==> w == Pooled(q))
    && block.capacity == AllocSize(block.capacity)
    && (w.Pooled? ==> w.q < |lists| && block.capacity == BucketSize(w.q % BUCKETS))
    && (w.Live? ==> block.headerSize == block.capacity)
  }

  ghost predicate Inv(blocks: seq<Block>, heads: seq<List>, lists: seq<seq<nat>>, place: seq<Where>) {
    && |lists| == |heads| && |place| == |blocks|
    && (forall q | 0 <= q < |heads| :: ListOk(blocks, heads[q], lists[q]))
    && (forall i | 0 <= i < |blocks| :: BlockOk(lists, i + 1, blocks[i], place[i]))
  }

  // ---------------------------------------------------------------------------------------
  // Taking and putting back

  lemma {:induction false} LinkedUnaffected(blocks: seq<Block>, head: nat, l: seq<nat>, a: nat, block: Block)
    requires Linked(blocks, head, l) && 1 <= a <= |blocks| && a !in l
    ensures Linked(blocks[a - 1 := block], head, l)
    decreases |l|
  {
    if l != [] { LinkedUnaffected(blocks, blocks[head - 1].next, l[1..], a, block); }
  }

  lemma {:induction false} LinkedGrows(blocks: seq<Block>, head: nat, l: seq<nat>, block: Block)
    requires Linked(blocks, head, l)
    ensures Linked(blocks + [block], head, l) && forall x | x in l :: 1 <= x <= |blocks|
    decreases |l|
  {
    if l != [] {
      LinkedGrows(blocks, blocks[head - 1].next, l[1..], block);
      assert forall x | x in l :: x == l[0] || x in l[1..];
    }
  }

  /** Changing a block that is on no list leaves the lists alone. */
  lemma ListUnaffected(blocks: seq<Block>, list: List, l: seq<nat>, a: nat, block: Block)
    requires ListOk(blocks, list, l) && 1 <= a <= |blocks| && a !in l
    ensures ListOk(blocks[a - 1 := block], list, l)
  {
    LinkedUnaffected(blocks, list.head, l, a, block);
  }

  lemma PopLinked(blocks: seq<Block>, list: List, l: seq<nat>, block: Block)
    requires ListOk(blocks, list, l) && l != []
    ensures 1 <= list.head <= |blocks| && list.count > 0
    ensures ListOk(blocks[list.head - 1 := block], List(blocks[list.head - 1].next, list.count - 1), l[1..])
  {
    TailMembers(l);
    LinkedUnaffected(blocks, blocks[list.head - 1].next, l[1..], list.head, block);
  }

  lemma PushLinked(blocks: seq<Block>, list: List, l: seq<nat>, a: nat, block: Block)
    requires ListOk(blocks, list, l) && list.count < MAX_PER_BUCKET
    requires 1 <= a <= |blocks| && a !in l && block.next == list.head
    ensures ListOk(blocks[a - 1 := block], List(a, list.count + 1), [a] + l)
  {
    LinkedUnaffected(blocks, list.head, l, a, block);
    assert ([a] + l)[1..] == l;
  }

  /** Pop: the head of list q is taken off and rewritten. */
  lemma PopKeeps(blocks: seq<Block>, heads: seq<List>, lists: seq<seq<nat>>, place: seq<Where>, q: nat, block: Block)
    requires Inv(blocks, heads, lists, place) && q < |heads| && heads[q].head != 0
    requires var a := heads[q].head;
      1 <= a <= |blocks| ==> block.capacity == blocks[a - 1].capacity
    ensures var a := heads[q].head;
      && 1 <= a <= |blocks| && heads[q].count > 0 && lists[q] != [] && a == lists[q][0] && place[a - 1] == Pooled(q)
      && Inv(blocks[a - 1 := block], heads[q := List(blocks[a - 1].next, heads[q].count - 1)],
             lists[q := lists[q][1..]], place[a - 1 := New])
  {
    var a, l := heads[q].head, lists[q];
    assert ListOk(blocks, heads[q], l);
    assert l != [] && a in l;
    PopLinked(blocks, heads[q], l, block);
    var blocks', lists', place' := blocks[a - 1 := block], lists[q := l[1..]], place[a - 1 := New];
    assert BlockOk(lists, a, blocks[a - 1], place[a - 1]);
    forall p | 0 <= p < |heads| && p != q ensures ListOk(blocks', heads[p], lists'[p]) {
      assert ListOk(blocks, heads[p], lists[p]);
      ListUnaffected(blocks, heads[p], lists[p], a, block);
    }
    TailMembers(l);
    forall i | 0 <= i < |blocks'| ensures BlockOk(lists', i + 1, blocks'[i], place'[i]) {
      assert BlockOk(lists, i + 1, blocks[i], place[i]);
    }
  }

  lemma TailMembers(l: seq<nat>)
    requires l != [] && NoRepeats(l)
    ensures forall x :: x in l[1..] <==> x in l && x != l[0]
  {
  }

  /** Push: a live block becomes the head of list q. */
  lemma PushKeeps(blocks: seq<Block>, heads: seq<List>, lists: seq<seq<nat>>, place: seq<Where>, q: nat, a: nat,
                  block: Block)
    requires Inv(blocks, heads, lists, place) && q < |heads| && heads[q].count < MAX_PER_BUCKET
    requires 1 <= a <= |blocks| && place[a - 1] == Live
    requires block.capacity == blocks[a - 1].capacity == BucketSize(q % BUCKETS) && block.next == heads[q].head
    ensures Inv(blocks[a - 1 := block], heads[q := List(a, heads[q].count + 1)], lists[q := [a] + lists[q]],
      place[a - 1 := Pooled(q)])
  {
    var l := lists[q];
    assert BlockOk(lists, a, blocks[a - 1], place[a - 1]);
    assert ListOk(blocks, heads[q], l);
    PushLinked(blocks, heads[q], l, a, block);
    var blocks', lists', place' := blocks[a - 1 := block], lists[q := [a] + l], place[a - 1 := Pooled(q)];
    forall p | 0 <= p < |heads| && p != q ensures ListOk(blocks', heads[p], lists'[p]) {
      assert ListOk(blocks, heads[p], lists[p]);
      ListUnaffected(blocks, heads[p], lists[p], a, block);
    }
    forall i | 0 <= i < |blocks'| ensures BlockOk(lists', i + 1, blocks'[i], place'[i]) {
      assert BlockOk(lists, i + 1, blocks[i], place[i]);
    }
  }

  /** A block on no list is rewritten in place, handed to an EDT or given back. */
  lemma LiveKeeps(blocks: seq<Block>, heads: seq<List>, lists: seq<seq<nat>>, place: seq<Where>, a: nat, block: Block,
                  w: Where)
    requires Inv(blocks, heads, lists, place) && 1 <= a <= |blocks| && !place[a - 1].Pooled? && !w.Pooled?
    requires block.capacity == blocks[a - 1].capacity && (w == Live ==> block.headerSize == block.capacity)
    ensures Inv(blocks[a - 1 := block], heads, lists, place[a - 1 := w])
  {
    var blocks', place' := blocks[a - 1 := block], place[a - 1 := w];
    assert BlockOk(lists, a, blocks[a - 1], place[a - 1]);
    forall p | 0 <= p < |heads| ensures ListOk(blocks', heads[p], lists[p]) {
      assert ListOk(blocks, heads[p], lists[p]);
      ListUnaffected(blocks, heads[p], lists[p], a, block);
    }
    forall i | 0 <= i < |blocks'| ensures BlockOk(lists, i + 1, blocks'[i], place'[i]) {
      assert BlockOk(lists, i + 1, blocks[i], place[i]);
    }
  }

  /** A block new from the allocator. */
  lemma NewKeeps(blocks: seq<Block>, heads: seq<List>, lists: seq<seq<nat>>, place: seq<Where>, block: Block)
    requires Inv(blocks, heads, lists, place)
    requires block.capacity == AllocSize(block.capacity)
    ensures Inv(blocks + [block], heads, lists, place + [New])
  {
    var blocks', place' := blocks + [block], place + [New];
    forall q | 0 <= q < |heads| ensures ListOk(blocks', heads[q], lists[q]) && |blocks'| !in lists[q] {
      assert ListOk(blocks, heads[q], lists[q]);
      LinkedGrows(blocks, heads[q].head, lists[q], block);
    }
    forall i | 0 <= i < |blocks'| ensures BlockOk(lists, i + 1, blocks'[i], place'[i]) {
      if i < |blocks| { assert BlockOk(lists, i + 1, blocks[i], place[i]); }
    }
  }

  // ---------------------------------------------------------------------------------------
  // The pools

  class Pools {
    var blocks: seq<Block>
    var heads: seq<List>
    ghost var lists: seq<seq<nat>>
    ghost var place: seq<Where>

    /** Every block is in exactly one place, and every list is what it should be. */
    ghost predicate Valid()
      reads this
    {
      Inv(blocks, heads, lists, place)
    }

    constructor (threads: nat)
      ensures Valid() && blocks == [] && |heads| == BUCKETS * threads
    {
      blocks, heads := [], seq(BUCKETS * threads, _ => List(0, 0));
      lists, place := seq(BUCKETS * threads, _ => []), [];
    }

    /** A block just allocated: of its class's capacity, and all zero. */
    ghost predicate Handed(a: nat, size: nat)
      reads this
    {
      && 1 <= a <= |blocks| == |place| && place[a - 1] == New
      && size <= blocks[a - 1].capacity == AllocSize(size) == blocks[a - 1].zeroed
    }

    /** The block was the first of list q, and is off it. */
    ghost predicate TookHead(lists0: seq<seq<nat>>, place0: seq<Where>, q: nat, a: nat)
      reads this
    {
      && q < |lists0| && lists0[q] != [] && a == lists0[q][0] && lists == lists0[q := lists0[q][1..]]
      && 1 <= a <= |place0| && place0[a - 1] == Pooled(q)
    }

    /** edt_pool_alloc: the head of thread t's list for the class, zeroed, or NULL when it is empty. */
    method Alloc(t: nat, size: nat) returns (a: nat)
      requires Valid() && ListOf(t, BUCKETS) <= |heads|
      modifies this
      ensures Valid() && |heads| == |old(heads)| && |blocks| == |old(blocks)|
      ensures a == 0 ==> blocks == old(blocks) && heads == old(heads) && place == old(place) && lists == old(lists)
      ensures a != 0 <==> BucketIndex(size).Bucket? && old(lists)[ListOf(t, BucketIndex(size).b)] != []
      ensures a != 0 ==> Handed(a, size) && place == old(place)[a - 1 := New]
      ensures a != 0 ==> TookHead(old(lists), old(place), ListOf(t, BucketIndex(size).b), a)
    {
      match BucketIndex(size)
      case Oversized =>
        a := 0;
      case Bucket(b) =>
        var q := ListOf(t, b);
        a := heads[q].head;
        HeadIsFirst(blocks, heads, lists, place, q);
        if a != 0 {
          Take(q, b);
        }
    }

    /** Unlink the head of list q and clear it. */
    method Take(q: nat, ghost b: nat)
      requires Valid() && q < |heads| && heads[q].head != 0 && q % BUCKETS == b
      modifies this
      ensures Valid() && |heads| == |old(heads)| && |blocks| == |old(blocks)|
      ensures var a := old(heads)[q].head;
        && TookHead(old(lists), old(place), q, a) && |blocks| == |old(place)| && place == old(place)[a - 1 := New]
        && blocks[a - 1].capacity == BucketSize(b) == blocks[a - 1].zeroed
    {
      var a := heads[q].head;
      assert ListOk(blocks, heads[q], lists[q]) && lists[q] != [];
      var block := blocks[a - 1];
      ghost var cleared := Block(block.capacity, BucketSize(q % BUCKETS), 0, 0);
      PopKeeps(blocks, heads, lists, place, q, cleared);
      assert BlockOk(lists, a, blocks[a - 1], place[a - 1]);
      heads := heads[q := List(block.next, heads[q].count - 1)];
      lists, place := lists[q := lists[q][1..]], place[a - 1 := New];
      blocks := blocks[a - 1 := Block(block.capacity, BucketSize(q % BUCKETS), 0, 0)];
    }

    /** The allocation in arts_edt_create_internal: from the pool, or else zeroed from the allocator. */
    method Create(t: nat, space: nat) returns (a: nat)
      requires Valid() && ListOf(t, BUCKETS) <= |heads|
      modifies this
      ensures Valid() && |heads| == |old(heads)|
      ensures 1 <= a <= |blocks| == |place| && place[a - 1] == Live && blocks[a - 1].capacity >= space
      ensures blocks[a - 1].zeroed == blocks[a - 1].headerSize == blocks[a - 1].capacity
      ensures a <= |old(place)| <==>
        BucketIndex(space).Bucket? && old(lists)[ListOf(t, BucketIndex(space).b)] != []
      ensures a <= |old(place)| ==>
        place == old(place)[a - 1 := Live] && TookHead(old(lists), old(place), ListOf(t, BucketIndex(space).b), a)
      ensures a > |old(place)| ==> place == old(place) + [Live] && lists == old(lists)
    {
      a := Alloc(t, space);
      if a == 0 {
        var n := AllocSize(space);
        NewKeeps(blocks, heads, lists, place, Block(n, n, 0, 0));
        blocks, place := blocks + [Block(n, n, 0, 0)], place + [New];
        a := |blocks|;
      }
      assert Handed(a, space);
      var block := blocks[a - 1].(headerSize := AllocSize(space));
      LiveKeeps(blocks, heads, lists, place, a, block, Live);
      blocks, place := blocks[a - 1 := block], place[a - 1 := Live];
    }

    /** The EDT uses its memory, all but the size in its header. */
    method Use(a: nat, next: nat)
      requires Valid() && 1 <= a <= |place| && place[a - 1] == Live
      modifies this
      ensures Valid() && place == old(place) && heads == old(heads)
    {
      assert BlockOk(lists, a, blocks[a - 1], place[a - 1]);
      var block := blocks[a - 1].(zeroed := 0, next := next);
      LiveKeeps(blocks, heads, lists, place, a, block, Live);
      blocks, place := blocks[a - 1 := block], place[a - 1 := Live];
    }

    /** arts_edt_free by thread t: onto its list for the class, or back to the allocator. */
    method Free(t: nat, a: nat)
      requires Valid() && ListOf(t, BUCKETS) <= |heads| && 1 <= a <= |place| && place[a - 1] == Live
      modifies this
      ensures Valid() && |heads| == |old(heads)| && |blocks| == |old(blocks)|
      ensures var c := BucketIndex(old(blocks)[a - 1].capacity);
        place == old(place)[a - 1 :=
          if c.Bucket? && old(heads)[ListOf(t, c.b)].count < MAX_PER_BUCKET then Pooled(ListOf(t, c.b)) else Released]
      ensures var c := BucketIndex(old(blocks)[a - 1].capacity);
        if c.Bucket? && old(heads)[ListOf(t, c.b)].count < MAX_PER_BUCKET
        then lists == old(lists)[ListOf(t, c.b) := [a] + old(lists)[ListOf(t, c.b)]]
        else lists == old(lists)
    {
      assert BlockOk(lists, a, blocks[a - 1], place[a - 1]);
      var block := blocks[a - 1];
      var c := BucketIndex(block.headerSize);
      if c.Bucket? && heads[ListOf(t, c.b)].count < MAX_PER_BUCKET {
        var q := ListOf(t, c.b);
        block := block.(next := heads[q].head, zeroed := 0);
        PushKeeps(blocks, heads, lists, place, q, a, block);
        blocks, heads := blocks[a - 1 := block], heads[q := List(a, heads[q].count + 1)];
        lists, place := lists[q := [a] + lists[q]], place[a - 1 := Pooled(q)];
      } else {
        LiveKeeps(blocks, heads, lists, place, a, block, Released);
        place := place[a - 1 := Released];
      }
    }

    /** A block freed by a thread whose list has room is the next one the thread creates of its class. */
    method Recycle(t: nat, a: nat, space: nat) returns (a': nat)
      requires Valid() && ListOf(t, BUCKETS) <= |heads| && 1 <= a <= |place| && place[a - 1] == Live
      modifies this
      ensures Valid()
      ensures var c := BucketIndex(old(blocks)[a - 1].capacity);
        BucketIndex(space) == c && c.Bucket? && old(heads)[ListOf(t, c.b)].count < MAX_PER_BUCKET ==>
          a' == a && place == old(place) && lists == old(lists)
    {
      Free(t, a);
      a' := Create(t, space);
    }

    /** arts_cleanup_edt_pool for one list: every block of it goes back to the allocator. */
    method Drain(q: nat)
      requires Valid() && q < |heads|
      modifies this
      ensures Valid() && |heads| == |old(heads)| && |blocks| == |old(blocks)| && heads[q] == List(0, 0)
      ensures forall p | 0 <= p < |heads| && p != q :: heads[p] == old(heads)[p]
      ensures |place| == |old(place)| && forall i | 0 <= i < |place| ::
        place[i] == if old(place)[i] == Pooled(q) then Released else old(place)[i]
    {
      while heads[q].head != 0
        invariant Valid() && |blocks| == |old(blocks)| && q < |heads|
        invariant Drained(old(heads), heads, old(place), place, q)
        decreases heads[q].count
      {
        ghost var heads0, place0 := heads, place;
        DrainOne(q);
        DrainedNext(old(heads), heads0, heads, old(place), place0, place, q, heads0[q].head);
      }
      ListEmpty(blocks, heads, lists, place, q);
    }

    /** arts_cleanup_edt_pool of thread t. */
    method Cleanup(t: nat)
      requires Valid() && ListOf(t, BUCKETS) <= |heads|
      modifies this
      ensures Valid() && |heads| == |old(heads)|
      ensures forall q | 0 <= q < |heads| :: heads[q] == if q / BUCKETS == t then List(0, 0) else old(heads)[q]
      ensures |place| == |old(place)| && forall i | 0 <= i < |place| ::
        place[i] == if old(place)[i].Pooled? && old(place)[i].q / BUCKETS == t then Released else old(place)[i]
    {
      for b := 0 to BUCKETS
        invariant Valid() && |heads| == |old(heads)|
        invariant forall q | 0 <= q < |heads| :: heads[q] == if ListOf(t, 0) <= q < ListOf(t, b) then List(0, 0)
          else old(heads)[q]
        invariant |place| == |old(place)| && forall i | 0 <= i < |place| ::
          place[i] == if old(place)[i].Pooled? && ListOf(t, 0) <= old(place)[i].q < ListOf(t, b) then Released
            else old(place)[i]
      {
        Drain(ListOf(t, b));
      }
    }

    method DrainOne(q: nat)
      requires Valid() && q < |heads| && heads[q].head != 0
      modifies this
      ensures Valid() && |blocks| == |old(blocks)|
      ensures var a := old(heads)[q].head;
        && 1 <= a <= |old(place)| && old(place)[a - 1] == Pooled(q) && place == old(place)[a - 1 := Released]
        && old(heads)[q].count > 0 && heads == old(heads)[q := List(old(blocks)[a - 1].next, old(heads)[q].count - 1)]
    {
      GiveBackKeeps(blocks, heads, lists, place, q);
      var a := heads[q].head;
      heads := heads[q := List(blocks[a - 1].next, heads[q].count - 1)];
      lists, place := lists[q := lists[q][1..]], place[a - 1 := Released];
    }
  }

  /** Some blocks of list q have been given back, and the other lists are as they were. */
  ghost predicate Drained(heads0: seq<List>, heads: seq<List>, place0: seq<Where>, place: seq<Where>, q: nat) {
    && |heads| == |heads0| && |place| == |place0|
    && (forall p | 0 <= p < |heads| && p != q :: heads[p] == heads0[p])
    && (forall i | 0 <= i < |place| :: place[i] == place0[i] || (place0[i] == Pooled(q) && place[i] == Released))
  }

  lemma DrainedNext(heads0: seq<List>, heads: seq<List>, heads': seq<List>, place0: seq<Where>, place: seq<Where>,
                    place': seq<Where>, q: nat, a: nat)
    requires Drained(heads0, heads, place0, place, q) && q < |heads| && 1 <= a <= |place| && place[a - 1] == Pooled(q)
    requires |heads'| == |heads| && heads' == heads[q := heads'[q]] && place' == place[a - 1 := Released]
    ensures Drained(heads0, heads', place0, place', q)
  {
  }

  /** Lists share no block, hold none that is live or given back, and hold only blocks of their class. */
  lemma OneHome(blocks: seq<Block>, heads: seq<List>, lists: seq<seq<nat>>, place: seq<Where>, p: nat, q: nat, a: nat)
    requires Inv(blocks, heads, lists, place) && p < |lists| && q < |lists| && a in lists[p]
    ensures 1 <= a <= |blocks| && place[a - 1] == Pooled(p) && (a in lists[q] ==> p == q)
    ensures blocks[a - 1].capacity == BucketSize(p % BUCKETS) && |lists[p]| == heads[p].count <= MAX_PER_BUCKET
  {
    assert ListOk(blocks, heads[p], lists[p]);
    LinkedGrows(blocks, heads[p].head, lists[p], blocks[0]);
    assert BlockOk(lists, a, blocks[a - 1], place[a - 1]);
  }

  /** The head of list q is taken off and given back as it is. */
  lemma GiveBackKeeps(blocks: seq<Block>, heads: seq<List>, lists: seq<seq<nat>>, place: seq<Where>, q: nat)
    requires Inv(blocks, heads, lists, place) && q < |heads| && heads[q].head != 0
    ensures var a := heads[q].head;
      && 1 <= a <= |blocks| && heads[q].count > 0 && lists[q] != [] && place[a - 1] == Pooled(q)
      && Inv(blocks, heads[q := List(blocks[a - 1].next, heads[q].count - 1)], lists[q := lists[q][1..]],
             place[a - 1 := Released])
  {
    var a := heads[q].head;
    HeadIsFirst(blocks, heads, lists, place, q);
    assert ListOk(blocks, heads[q], lists[q]);
    var block := blocks[a - 1];
    PopKeeps(blocks, heads, lists, place, q, block);
    assert blocks[a - 1 := block] == blocks;
    LiveKeeps(blocks, heads[q := List(block.next, heads[q].count - 1)], lists[q := lists[q][1..]],
              place[a - 1 := New], a, block, Released);
    assert place[a - 1 := New][a - 1 := Released] == place[a - 1 := Released];
  }

  lemma HeadIsFirst(blocks: seq<Block>, heads: seq<List>, lists: seq<seq<nat>>, place: seq<Where>, q: nat)
    requires Inv(blocks, heads, lists, place) && q < |heads|
    ensures heads[q].head == if lists[q] == [] then 0 else lists[q][0]
    ensures heads[q].head == 0 ==> lists[q] == []
  {
    assert ListOk(blocks, heads[q], lists[q]);
  }

  lemma ListEmpty(blocks: seq<Block>, heads: seq<List>, lists: seq<seq<nat>>, place: seq<Where>, q: nat)
    requires Inv(blocks, heads, lists, place) && q < |heads| && heads[q].head == 0
    ensures heads[q] == List(0, 0) && forall i | 0 <= i < |place| :: place[i] != Pooled(q)
  {
    assert ListOk(blocks, heads[q], lists[q]);
    forall i | 0 <= i < |place| ensures place[i] != Pooled(q) { assert BlockOk(lists, i + 1, blocks[i], place[i]); }
  }
}
