/**
 The route table: a chain of hash tables, each twice the size of the one before, that agrees
 with a plain map from GUID to entry. One thread at a time; keys added are new to the table.
 */
module RouteTable {
  import opened Common
  import opened GuidLayout

  // ---------------------------------------------------------------------------------------
  // Hashing

  const COLLISION_RESOLVES: nat := 8
  const BASIS: nat := 14695981039346656037

  /** The factors of the case labels 10 to 22, then 31 and 32; each case falls through to the last. */
  const FACTORS: seq<nat> := [
    1021, 2039, 4093, 8191, 16381, 32749, 65521, 131071, 262139, 524287, 1048573, 2097143, 4194301,
    2147483647, 4294967291]

  function Product(x: nat, factors: seq<nat>): nat
    decreases |factors|
  {
    if factors == [] then x % WORD else Product(x * factors[0] % WORD, factors[1..])
  }

  function Multiplier(shift: nat): nat {
    if 10 <= shift <= 22 then Product(BASIS, FACTORS[shift - 10..])
    else if 31 <= shift <= 32 then Product(BASIS, FACTORS[shift - 18..])
    else BASIS
  }

  function Times(factors: seq<nat>): nat {
    if factors == [] then 1 else factors[0] * Times(factors[1..])
  }

  lemma ModProduct(u: nat, a: nat, w: nat)
    requires w > 0
    ensures u % w * a % w == u * a % w
  {
    var q, r := u / w, u % w;
    assert u == w * q + r;
    assert u * a == w * (q * a) + r * a;
    ModShift(r * a, q * a, w);
  }

  lemma {:induction false} ModShift(x: nat, k: nat, w: nat)
    requires w > 0
    ensures (w * k + x) % w == x % w
    decreases k
  {
    if k > 0 {
      ModShift(x, k - 1, w);
      assert w * k + x == w + (w * (k - 1) + x);
      ModStep(w * (k - 1) + x, w);
    }
  }

  lemma ModStep(x: nat, w: nat)
    requires w > 0
    ensures (w + x) % w == x % w
  {
    var q := x / w;
    assert x == w * q + x % w;
    assert w + x == w * (q + 1) + x % w;
    ModUnique(w + x, q + 1, x % w, w);
  }

  lemma ModUnique(x: nat, q: nat, r: nat, w: nat)
    requires w > 0 && r < w && x == w * q + r
    ensures x % w == r
  {
    var p := x / w;
    assert x == w * p + x % w;
    if p < q { Grows(p + 1, q, w); } else if q < p { Grows(q + 1, p, w); }
  }

  /** Reducing at each factor gives the whole product, modulo 2^64. */
  lemma {:induction false} ProductIs(x: nat, factors: seq<nat>)
    ensures Product(x, factors) == x * Times(factors) % WORD
    decreases |factors|
  {
    if factors != [] {
      var a, rest := factors[0], Times(factors[1..]);
      ProductIs(x * a % WORD, factors[1..]);
      ModProduct(x * a, rest, WORD);
      assert x * a * rest == x * (a * rest);
    }
  }

  /** The factor that the case of this shift puts on top of the later cases. */
  lemma ProductFront(x: nat, a: nat, factors: seq<nat>)
    ensures Product(x, [a] + factors) == Product(x, factors) * a % WORD
  {
    ProductIs(x, [a] + factors);
    ProductIs(x, factors);
    assert ([a] + factors)[1..] == factors;
    Reordered(x, a, Times(factors), WORD);
  }

  lemma Reordered(x: nat, a: nat, t: nat, w: nat)
    requires w > 0
    ensures x * (a * t) % w == x * t % w * a % w
  {
    ModProduct(x * t, a, w);
    assert x * t * a == x * (a * t);
  }

  /** Each case multiplies its own factor and falls through to the next one that there is. */
  lemma FallsThrough(shift: nat)
    ensures 10 <= shift < 22 ==> Multiplier(shift) == Multiplier(shift + 1) * FACTORS[shift - 10] % WORD
    ensures Multiplier(22) == Multiplier(31) * 4194301 % WORD
    ensures Multiplier(31) == Multiplier(32) * 2147483647 % WORD
    ensures Multiplier(32) == BASIS * 4294967291 % WORD
    ensures !(10 <= shift <= 22) && !(31 <= shift <= 32) ==> Multiplier(shift) == BASIS
  {
    if 10 <= shift < 22 {
      assert FACTORS[shift - 10..] == [FACTORS[shift - 10]] + FACTORS[shift - 9..];
      ProductFront(BASIS, FACTORS[shift - 10], FACTORS[shift - 9..]);
    }
    LastCases();
  }

  lemma LastCases()
    ensures Multiplier(22) == Multiplier(31) * 4194301 % WORD
    ensures Multiplier(31) == Multiplier(32) * 2147483647 % WORD
    ensures Multiplier(32) == BASIS * 4294967291 % WORD
  {
    assert FACTORS[12..] == [4194301] + FACTORS[13..] && FACTORS[13..] == [2147483647] + FACTORS[14..];
    assert FACTORS[14..] == [4294967291];
    ProductFront(BASIS, 4194301, FACTORS[13..]);
    ProductFront(BASIS, 2147483647, FACTORS[14..]);
    ProductIs(BASIS, [4294967291]);
    assert [4294967291][1..] == [];
  }

  function Hash64(x: nat, y: nat): (h: nat)
    ensures h < WORD
  {
    x * y % WORD
  }

  function HighBits(x: nat, shift: nat): nat
    requires shift <= 64
  {
    Div(x, Pow2(64 - shift))
  }

  function Div(x: nat, y: nat): nat
    requires y > 0
  {
    x / y
  }

  /** The top `shift` bits of the product. */
  function Bucket(key: Guid, shift: nat): nat
    requires shift <= 64
  {
    HighBits(Hash64(key, Multiplier(shift)), shift)
  }

  /** get_route_table_key: where the probe window of a key begins. */
  function Window(key: Guid, shift: nat): nat {
    if shift <= 64 then Bucket(key, shift) * COLLISION_RESOLVES else 0
  }

  type Windows = (Guid, nat) -> nat

  /** Every probe of a table with 2^shift buckets is in bounds. */
  ghost predicate Bounded(window: Windows) {
    forall key, shift | shift <= 64 :: window(key, shift) + COLLISION_RESOLVES <= COLLISION_RESOLVES * Pow2(shift)
  }

  lemma Grows(a: nat, q: nat, b: nat)
    requires a <= q
    ensures a * b <= q * b
  {
    assert q * b == a * b + (q - a) * b;
  }

  lemma Quotient(x: nat, a: nat, b: nat)
    requires b > 0 && x < a * b
    ensures x / b < a
  {
    var q := x / b;
    assert x == q * b + x % b;
    if a <= q { Grows(a, q, b); }
  }

  /** The window begins at the slots of the bucket that the top `shift` bits of the 64-bit product name. */
  lemma WindowIsTopBits(key: Guid, shift: nat)
    requires shift <= 64
    ensures var b, width := Window(key, shift) / COLLISION_RESOLVES, Pow2(64 - shift);
      && Window(key, shift) == b * COLLISION_RESOLVES
      && b * width <= key * Multiplier(shift) % WORD < b * width + width
  {
    QuotientBounds(Hash64(key, Multiplier(shift)), Pow2(64 - shift));
  }

  lemma QuotientBounds(x: nat, y: nat)
    requires y > 0
    ensures Div(x, y) * y <= x < Div(x, y) * y + y
  {
    assert x == x / y * y + x % y;
  }

  lemma WindowIsBounded()
    ensures Bounded(Window)
  {
    forall key, shift | shift <= 64
      ensures Window(key, shift) + COLLISION_RESOLVES <= COLLISION_RESOLVES * Pow2(shift)
    {
      ProbesInBounds(key, shift);
    }
  }

  lemma ProbesInBounds(key: Guid, shift: nat)
    requires shift <= 64
    ensures Window(key, shift) + COLLISION_RESOLVES <= COLLISION_RESOLVES * Pow2(shift)
  {
    WordIsPow2();
    Pow2Adds(shift, 64 - shift);
    Quotient(Hash64(key, Multiplier(shift)), Pow2(shift), Pow2(64 - shift));
  }

  // ---------------------------------------------------------------------------------------
  // Entries

  /** The lock word: three flag bits over a reference count. */
  datatype Lock = Lock(reserved: bool, available: bool, deleted: bool, count: nat)

  const FREE: Lock := Lock(false, false, false, 0)

  datatype Item = Item(lock: Lock, key: Guid, data: nat, rank: nat)

  const EMPTY: Item := Item(FREE, NULL_GUID, 0, 0)

  datatype ItemState = AnyKey | DeletedKey | AllocatedKey | AvailableKey | RequestedKey | ReservedKey

  predicate CheckState(l: Lock, s: ItemState) {
    match s
    case AnyKey => l != FREE
    case DeletedKey => l.deleted
    case AllocatedKey => (l.reserved || l.available) && !l.deleted
    case AvailableKey => l.available && !l.reserved && !l.deleted
    case RequestedKey => l.available && l.reserved && !l.deleted
    case ReservedKey => l.reserved && !l.available && !l.deleted
  }

  /**
   An entry that is not deleted and is reserved or available is in exactly one of three states,
   and these are the allocated ones. A deleted entry is in none of them.
   */
  lemma OneState(l: Lock)
    ensures CheckState(l, AllocatedKey) <==> !l.deleted && (l.reserved || l.available)
    ensures CheckState(l, AllocatedKey) <==>
      CheckState(l, ReservedKey) || CheckState(l, AvailableKey) || CheckState(l, RequestedKey)
    ensures !(CheckState(l, ReservedKey) && CheckState(l, AvailableKey))
    ensures !(CheckState(l, AvailableKey) && CheckState(l, RequestedKey))
    ensures !(CheckState(l, ReservedKey) && CheckState(l, RequestedKey))
    ensures !(CheckState(l, DeletedKey) && CheckState(l, AllocatedKey))
    ensures forall s :: CheckState(l, s) ==> CheckState(l, AnyKey)
  {
  }

  function Reserved(used: bool): Lock { Lock(true, false, false, if used then 1 else 0) }

  function Written(l: Lock): Lock { if l.reserved then l.(reserved := false, available := true) else l }

  /** Where an entry is: level and index. */
  datatype Place = Place(level: nat, index: nat)

  // ---------------------------------------------------------------------------------------
  // The chain as a value

  type Chain = seq<seq<Item>>

  /** The size of level k, in 32-bit arithmetic. */
  function SizeAt(size: nat, k: nat): nat {
    if k == 0 then size else 2 * SizeAt(size, k - 1) % WORD32
  }

  /** Level k has room for every probe. */
  ghost predicate LevelFits(items: seq<Item>, size: nat, shift: nat) {
    shift <= 64 && size >= Pow2(shift) && |items| == COLLISION_RESOLVES * size
  }

  ghost predicate Shaped(chain: Chain, size: nat, shift: nat) {
    chain != [] && forall k | 0 <= k < |chain| :: LevelFits(chain[k], SizeAt(size, k), shift + k)
  }

  ghost predicate InWindow(window: Windows, key: Guid, shift: nat, index: nat) {
    window(key, shift) <= index < window(key, shift) + COLLISION_RESOLVES
  }

  /** `at` says where each key's entry is, and no other slot is taken. */
  ghost predicate Located(window: Windows, chain: Chain, shift: nat, at: map<Guid, Place>) {
    && (forall k | k in at :: IsAt(window, chain, shift, k, at[k]))
    && (forall l, x | 0 <= l < |chain| && 0 <= x < |chain[l]| :: Known(chain, at, l, x))
  }

  /** A taken slot is where its key is. */
  ghost predicate Known(chain: Chain, at: map<Guid, Place>, l: nat, x: nat) {
    l < |chain| && x < |chain[l]| &&
    (chain[l][x].lock != FREE ==> chain[l][x].key in at && at[chain[l][x].key] == Place(l, x))
  }

  ghost predicate IsAt(window: Windows, chain: Chain, shift: nat, key: Guid, p: Place) {
    && p.level < |chain| && p.index < |chain[p.level]|
    && chain[p.level][p.index].key == key && chain[p.level][p.index].lock != FREE
    && InWindow(window, key, shift + p.level, p.index)
  }

  ghost function ItemAt(chain: Chain, p: Place): Item {
    if p.level < |chain| && p.index < |chain[p.level]| then chain[p.level][p.index] else EMPTY
  }

  /** The map the chain stands for. */
  ghost function ContentsOf(chain: Chain, at: map<Guid, Place>): map<Guid, Item> {
    map k | k in at :: ItemAt(chain, at[k])
  }

  function Put(chain: Chain, p: Place, item: Item): Chain
    requires p.level < |chain| && p.index < |chain[p.level]|
  {
    chain[p.level := chain[p.level][p.index := item]]
  }

  lemma PutShaped(chain: Chain, size: nat, shift: nat, p: Place, item: Item)
    requires Shaped(chain, size, shift) && p.level < |chain| && p.index < |chain[p.level]|
    ensures Shaped(Put(chain, p, item), size, shift)
  {
    var chain' := Put(chain, p, item);
    forall k | 0 <= k < |chain'| ensures LevelFits(chain'[k], SizeAt(size, k), shift + k) {
      assert LevelFits(chain[k], SizeAt(size, k), shift + k);
    }
  }

  /** Taking a free slot in the key's window adds one entry and moves none. */
  lemma PutNew(window: Windows, chain: Chain, shift: nat, at: map<Guid, Place>, p: Place, item: Item)
    requires Located(window, chain, shift, at) && p.level < |chain| && p.index < |chain[p.level]|
    requires chain[p.level][p.index].lock == FREE && item.key !in at && item.lock != FREE
    requires InWindow(window, item.key, shift + p.level, p.index)
    ensures Located(window, Put(chain, p, item), shift, at[item.key := p])
    ensures ContentsOf(Put(chain, p, item), at[item.key := p]) == ContentsOf(chain, at)[item.key := item]
  {
    var chain', at' := Put(chain, p, item), at[item.key := p];
    forall k | k in at ensures IsAt(window, chain', shift, k, at[k]) && ItemAt(chain', at[k]) == ItemAt(chain, at[k]) {
      assert IsAt(window, chain, shift, k, at[k]);
    }
    assert IsAt(window, chain', shift, item.key, p) && ItemAt(chain', p) == item;
    forall l, x | 0 <= l < |chain'| && 0 <= x < |chain'[l]|
      ensures Known(chain', at', l, x)
    {
      assert Known(chain, at, l, x);
    }
  }

  /** Rewriting an entry in place under the same key. */
  lemma PutOver(window: Windows, chain: Chain, shift: nat, at: map<Guid, Place>, k: Guid, item: Item)
    requires Located(window, chain, shift, at) && k in at && item.key == k && item.lock != FREE
    ensures var p := at[k]; p.level < |chain| && p.index < |chain[p.level]|
    ensures Located(window, Put(chain, at[k], item), shift, at)
    ensures ContentsOf(Put(chain, at[k], item), at) == ContentsOf(chain, at)[k := item]
  {
    assert IsAt(window, chain, shift, k, at[k]);
    var chain' := Put(chain, at[k], item);
    forall j | j in at
      ensures IsAt(window, chain', shift, j, at[j]) && (j != k ==> ItemAt(chain', at[j]) == ItemAt(chain, at[j]))
    {
      assert IsAt(window, chain, shift, j, at[j]);
    }
    forall l, x | 0 <= l < |chain'| && 0 <= x < |chain'[l]|
      ensures Known(chain', at, l, x)
    {
      assert Known(chain, at, l, x);
    }
  }

  /** Freeing an entry removes it and moves none. */
  lemma PutFree(window: Windows, chain: Chain, shift: nat, at: map<Guid, Place>, k: Guid, freed: Item)
    requires Located(window, chain, shift, at) && k in at && freed.lock == FREE
    ensures var p := at[k]; p.level < |chain| && p.index < |chain[p.level]|
    ensures Located(window, Put(chain, at[k], freed), shift, at - {k})
    ensures ContentsOf(Put(chain, at[k], freed), at - {k}) == ContentsOf(chain, at) - {k}
  {
    assert IsAt(window, chain, shift, k, at[k]);
    var chain', at' := Put(chain, at[k], freed), at - {k};
    forall j | j in at' ensures IsAt(window, chain', shift, j, at[j]) && ItemAt(chain', at[j]) == ItemAt(chain, at[j]) {
      assert IsAt(window, chain, shift, j, at[j]);
    }
    forall l, x | 0 <= l < |chain'| && 0 <= x < |chain'[l]|
      ensures Known(chain', at', l, x)
    {
      assert Known(chain, at, l, x);
    }
  }

  function Blank(n: nat): (items: seq<Item>)
    ensures |items| == n && forall x | 0 <= x < n :: items[x] == EMPTY
  {
    seq(n, _ => EMPTY)
  }

  /** A new level changes nothing for the entries there are. */
  lemma Grown(window: Windows, chain: Chain, shift: nat, at: map<Guid, Place>, items: seq<Item>)
    requires Located(window, chain, shift, at) && forall x | 0 <= x < |items| :: items[x] == EMPTY
    ensures Located(window, chain + [items], shift, at)
    ensures ContentsOf(chain + [items], at) == ContentsOf(chain, at)
  {
    forall k | k in at
      ensures IsAt(window, chain + [items], shift, k, at[k]) && ItemAt(chain + [items], at[k]) == ItemAt(chain, at[k])
    {
      assert IsAt(window, chain, shift, k, at[k]);
    }
    forall l, x | 0 <= l < |chain + [items]| && 0 <= x < |(chain + [items])[l]|
      ensures Known(chain + [items], at, l, x)
    {
      if l < |chain| { assert Known(chain, at, l, x); }
    }
  }

  /** No slot of the key's window on this level passes. */
  ghost predicate Missed(items: seq<Item>, start: nat, n: nat, key: Guid, state: ItemState) {
    start + n <= |items| && forall i | start <= i < start + n ::
      !(CheckState(items[i].lock, state) && items[i].key == key)
  }

  /** A key looked for in vain on every level is not there in that state. */
  lemma MissedEverywhere(window: Windows, chain: Chain, shift: nat, at: map<Guid, Place>, key: Guid, state: ItemState)
    requires Located(window, chain, shift, at)
    requires forall l | 0 <= l < |chain| :: Missed(chain[l], window(key, shift + l), COLLISION_RESOLVES, key, state)
    ensures key in at ==> !CheckState(ItemAt(chain, at[key]).lock, state)
  {
    if key in at {
      assert IsAt(window, chain, shift, key, at[key]);
      assert Missed(chain[at[key].level], window(key, shift + at[key].level), COLLISION_RESOLVES, key, state);
    }
  }

  lemma Pow32()
    ensures Pow2(32) == WORD32
  {
    assert Pow2(8) == 256;
    Pow2Adds(8, 8);
    Pow2Adds(16, 16);
  }

  lemma {:induction false} Pow2Monotone(a: nat, b: nat)
    requires a <= b
    ensures Pow2(a) <= Pow2(b)
  {
    if a < b { Pow2Monotone(a, b - 1); }
  }

  lemma ShiftBelow32(shift: nat)
    requires Pow2(shift) < WORD32
    ensures shift < 32
  {
    Pow32();
    if shift >= 32 { Pow2Monotone(32, shift); }
  }

  /** A level of 32-bit size with a bucket for every hash has room for every probe. */
  lemma NextFits(size: nat, shift: nat, items: seq<Item>)
    requires Pow2(shift) <= size < WORD32 && |items| == COLLISION_RESOLVES * size
    ensures LevelFits(items, size, shift)
  {
    ShiftBelow32(shift);
  }

  lemma GrownShaped(chain: Chain, size: nat, shift: nat, items: seq<Item>)
    requires Shaped(chain, size, shift)
    requires LevelFits(items, SizeAt(size, |chain|), shift + |chain|)
    ensures Shaped(chain + [items], size, shift)
  {
    var chain' := chain + [items];
    forall k | 0 <= k < |chain'| ensures LevelFits(chain'[k], SizeAt(size, k), shift + k) {
      if k < |chain| { assert LevelFits(chain[k], SizeAt(size, k), shift + k); }
    }
  }

  // ---------------------------------------------------------------------------------------
  // The table

  ghost predicate IsBlank(items: seq<Item>) {
    forall x | 0 <= x < |items| :: items[x] == EMPTY
  }

  /** Every slot of the probe window is taken. */
  ghost predicate WindowFull(items: seq<Item>, start: nat) {
    forall i | start <= i < start + COLLISION_RESOLVES && i < |items| :: items[i].lock != FREE
  }

  /** The probes for a key on one level. */
  method ScanForKey(items: seq<Item>, start: nat, key: Guid, state: ItemState) returns (found: bool, x: nat)
    requires start + COLLISION_RESOLVES <= |items|
    ensures found ==> x < |items| && CheckState(items[x].lock, state) && items[x].key == key
    ensures !found ==> Missed(items, start, COLLISION_RESOLVES, key, state)
  {
    var i := 0;
    while i < COLLISION_RESOLVES
      invariant 0 <= i <= COLLISION_RESOLVES
      invariant Missed(items, start, i, key, state)
    {
      x := start + i;
      if CheckState(items[x].lock, state) && items[x].key == key {
        return true, x;
      }
      i := i + 1;
    }
    return false, start;
  }

  /** The probes for a free slot on one level. */
  method ScanForEmpty(items: seq<Item>, start: nat) returns (found: bool, x: nat)
    requires start + COLLISION_RESOLVES <= |items|
    ensures start <= x < start + COLLISION_RESOLVES
    ensures found ==> items[x].lock == FREE
    ensures found <==> !WindowFull(items, start)
    ensures !found ==> !IsBlank(items)
  {
    var i := 0;
    while i < COLLISION_RESOLVES
      invariant 0 <= i <= COLLISION_RESOLVES
      invariant forall k | start <= k < start + i :: items[k].lock != FREE
    {
      x := start + i;
      if items[x].lock == FREE {
        return true, x;
      }
      i := i + 1;
    }
    assert items[start].lock != FREE;
    return false, start;
  }

  class Table {
    const size: nat
    const shift: nat
    const window: Windows
    var chain: Chain
    ghost var at: map<Guid, Place>

    ghost predicate Valid()
      reads this
    {
      Bounded(window) && Shaped(chain, size, shift) && Located(window, chain, shift, at)
    }

    ghost function Contents(): map<Guid, Item>
      reads this
    {
      ContentsOf(chain, at)
    }

    constructor (size: nat, shift: nat)
      requires shift <= 64 && Pow2(shift) <= size < WORD32
      ensures Valid() && Contents() == map[] && |chain| == 1
      ensures this.size == size && this.shift == shift && window == Window
    {
      WindowIsBounded();
      this.size, this.shift, window := size, shift, Window;
      chain, at := [Blank(COLLISION_RESOLVES * size)], map[];
    }

    /** The key has an entry in this state. */
    ghost predicate Finds(key: Guid, state: ItemState)
      reads this
    {
      key in Contents() && CheckState(Contents()[key].lock, state)
    }

    /** arts_route_table_search_for_key. */
    method SearchForKey(key: Guid, state: ItemState) returns (found: bool, p: Place)
      requires Valid()
      ensures found <==> Finds(key, state)
      ensures found ==> key in at && p == at[key]
    {
      var l := 0;
      ProbesFit(window, chain, size, shift, 0, key);
      while l < |chain|
        invariant 0 <= l <= |chain| && shift + l <= 65
        invariant forall k | 0 <= k < l :: Missed(chain[k], window(key, shift + k), COLLISION_RESOLVES, key, state)
      {
        ProbesFit(window, chain, size, shift, l, key);
        var x;
        found, x := ScanForKey(chain[l], window(key, shift + l), key, state);
        if found {
          FoundIsAt(window, chain, shift, at, l, x);
          return true, Place(l, x);
        }
        l := l + 1;
      }
      MissedEverywhere(window, chain, shift, at, key, state);
      return false, Place(0, 0);
    }

    /** arts_route_table_lookup_item: the payload of an available entry, or NULL. */
    method LookupItem(key: Guid) returns (data: nat)
      requires Valid()
      ensures key in Contents() && Contents()[key].lock == Lock(false, true, false, Contents()[key].lock.count) ==>
        data == Contents()[key].data
      ensures key !in Contents() || Contents()[key].lock.reserved || Contents()[key].lock.deleted ==> data == 0
    {
      var found, p := SearchForKey(key, AvailableKey);
      if found {
        assert IsAt(window, chain, shift, key, p);
        return chain[p.level][p.index].data;
      }
      return 0;
    }

    /** The key's windows have no free slot on any level. */
    ghost predicate Full(key: Guid)
      reads this
    {
      forall l | 0 <= l < |chain| :: WindowFull(chain[l], window(key, shift + l))
    }

    /** The next level, its size doubled in 32 bits, would have a bucket for every hash. */
    predicate CanGrow()
      reads this
    {
      SizeAt(size, |chain|) >= Pow2(shift + |chain|)
    }

    /** A new last level of twice the size. */
    method Grow()
      requires Valid() && CanGrow()
      modifies this`chain
      ensures Valid() && Contents() == old(Contents())
      ensures |chain| == |old(chain)| + 1 && chain[..|old(chain)|] == old(chain) && IsBlank(chain[|old(chain)|])
    {
      var items := Blank(COLLISION_RESOLVES * SizeAt(size, |chain|));
      GrowLemma(window, chain, size, shift, at, items);
      chain := chain + [items];
    }

    /**
     arts_route_table_search_for_empty: take a free slot of the key's windows. Nothing moves, and
     one level is added exactly when every window is full. It fails only where the code would
     probe outside the level it has just added.
     */
    method SearchForEmpty(key: Guid, used: bool) returns (ok: bool, p: Place)
      requires Valid() && key !in Contents()
      modifies this
      ensures Valid()
      ensures ok <==> !old(Full(key)) || old(CanGrow())
      ensures !ok ==> chain == old(chain) && at == old(at)
      ensures ok ==> at == old(at)[key := p] && key in Contents() && Contents()[key].lock == Reserved(used)
      ensures ok ==> Contents() == old(Contents())[key := Contents()[key]]
      ensures ok ==> |chain| == |old(chain)| + if old(Full(key)) then 1 else 0
      ensures ok ==> Finds(key, ReservedKey) && Finds(key, AllocatedKey)
      ensures ok ==> !Finds(key, AvailableKey) && !Finds(key, RequestedKey) && !Finds(key, DeletedKey)
    {
      var l := 0;
      ghost var n := |chain|;
      while l < |chain|
        invariant l <= |chain| == n && chain == old(chain) && at == old(at)
        invariant forall k | 0 <= k < l :: WindowFull(chain[k], window(key, shift + k))
      {
        ProbesFit(window, chain, size, shift, l, key);
        var found, x := ScanForEmpty(chain[l], window(key, shift + l));
        if found {
          assert !Full(key);
          p := Place(l, x);
          Reserve(p, key, used);
          return true, p;
        }
        l := l + 1;
      }
      if !CanGrow() {
        return false, Place(0, 0);
      }
      p := FirstOfNewLevel(key, used);
      return true, p;
    }

    /** The level added, and the key put there. */
    method FirstOfNewLevel(key: Guid, used: bool) returns (p: Place)
      requires Valid() && key !in Contents() && CanGrow()
      modifies this
      ensures Valid() && |chain| == |old(chain)| + 1
      ensures at == old(at)[key := p] && key in Contents() && Contents()[key].lock == Reserved(used)
      ensures Contents() == old(Contents())[key := Contents()[key]]
      ensures Finds(key, ReservedKey) && Finds(key, AllocatedKey)
      ensures !Finds(key, AvailableKey) && !Finds(key, RequestedKey) && !Finds(key, DeletedKey)
    {
      var l := |chain|;
      Grow();
      ProbesFit(window, chain, size, shift, l, key);
      var found, x := ScanForEmpty(chain[l], window(key, shift + l));
      p := Place(l, x);
      Reserve(p, key, used);
    }

    /** mark_reserve on a free slot of the key's window, and the key written. */
    method Reserve(p: Place, key: Guid, used: bool)
      requires Valid() && key !in Contents() && p.level < |chain| && p.index < |chain[p.level]|
      requires chain[p.level][p.index].lock == FREE && InWindow(window, key, shift + p.level, p.index)
      modifies this
      ensures Valid() && |chain| == |old(chain)|
      ensures at == old(at)[key := p] && key in Contents() && Contents()[key].lock == Reserved(used)
      ensures Contents() == old(Contents())[key := Contents()[key]]
      ensures Finds(key, ReservedKey) && Finds(key, AllocatedKey)
      ensures !Finds(key, AvailableKey) && !Finds(key, RequestedKey) && !Finds(key, DeletedKey)
    {
      var item := chain[p.level][p.index].(lock := Reserved(used), key := key);
      PutNew(window, chain, shift, at, p, item);
      PutShaped(chain, size, shift, p, item);
      chain, at := Put(chain, p, item), at[key := p];
    }

    /** internal_route_table_add_item: reserve, fill in, make available. */
    method AddItem(key: Guid, data: nat, rank: nat, used: bool) returns (ok: bool, p: Place)
      requires Valid() && key !in Contents()
      modifies this
      ensures Valid()
      ensures ok <==> !old(Full(key)) || old(CanGrow())
      ensures !ok ==> chain == old(chain) && at == old(at)
      ensures ok ==> at == old(at)[key := p]
      ensures ok ==>
        Contents() == old(Contents())[key := Item(Lock(false, true, false, if used then 1 else 0), key, data, rank)]
      ensures ok ==> |chain| == |old(chain)| + if old(Full(key)) then 1 else 0
      ensures ok ==> Finds(key, AvailableKey) && Finds(key, AllocatedKey)
      ensures ok ==> !Finds(key, ReservedKey) && !Finds(key, RequestedKey) && !Finds(key, DeletedKey)
    {
      ghost var m := Contents();
      ok, p := SearchForEmpty(key, used);
      if ok {
        ghost var reserved := Contents();
        Fill(p, key, data, rank);
        assert Contents() == reserved[key := Item(Written(Reserved(used)), key, data, rank)];
        Overwrite(m, key, reserved[key], Item(Written(Reserved(used)), key, data, rank));
      }
    }

    /** The payload written and mark_write. */
    method Fill(p: Place, key: Guid, data: nat, rank: nat)
      requires Valid() && key in at && at[key] == p && Contents()[key].lock.reserved
      modifies this`chain
      ensures Valid() && |chain| == |old(chain)|
      ensures Contents() == old(Contents())[key := Item(Written(old(Contents())[key].lock), key, data, rank)]
      ensures !old(Contents())[key].lock.deleted ==> Finds(key, AvailableKey) && Finds(key, AllocatedKey)
      ensures !old(Contents())[key].lock.deleted ==> !Finds(key, ReservedKey) && !Finds(key, RequestedKey)
      ensures !old(Contents())[key].lock.deleted ==> !Finds(key, DeletedKey)
    {
      assert IsAt(window, chain, shift, key, p);
      var item := chain[p.level][p.index];
      item := item.(data := data, rank := rank, lock := Written(item.lock));
      PutOver(window, chain, shift, at, key, item);
      PutShaped(chain, size, shift, p, item);
      chain := Put(chain, p, item);
    }

    /** mark_requested: an available entry becomes requested, and is then found as such and no longer as available. */
    method MarkRequested(p: Place, ghost key: Guid) returns (ok: bool)
      requires Valid() && key in at && at[key] == p
      modifies this`chain
      ensures Valid() && |chain| == |old(chain)| && key in old(Contents())
      ensures ok <==> !old(Contents())[key].lock.reserved && !old(Contents())[key].lock.deleted
      ensures var item := old(Contents())[key];
        Contents() == old(Contents())[key := if ok then item.(lock := item.lock.(reserved := true)) else item]
      ensures old(Finds(key, AvailableKey)) ==> ok && Finds(key, RequestedKey) && Finds(key, AllocatedKey)
      ensures ok ==> !Finds(key, AvailableKey) && !Finds(key, DeletedKey)
    {
      assert IsAt(window, chain, shift, key, p);
      var item := chain[p.level][p.index];
      ok := !item.lock.reserved && !item.lock.deleted;
      if ok {
        item := item.(lock := item.lock.(reserved := true));
        PutOver(window, chain, shift, at, key, item);
        PutShaped(chain, size, shift, p, item);
        chain := Put(chain, p, item);
      }
    }

    /** free_item: the slot is free again; its rank stays behind. */
    method FreeItem(p: Place, ghost key: Guid)
      requires Valid() && key in at && at[key] == p
      modifies this
      ensures Valid() && at == old(at) - {key} && Contents() == old(Contents()) - {key}
      ensures |chain| == |old(chain)| && forall state :: !Finds(key, state)
      ensures old(ItemAt(chain, p)).key == key &&
        ItemAt(chain, p) == Item(FREE, NULL_GUID, 0, old(ItemAt(chain, p)).rank)
    {
      assert IsAt(window, chain, shift, key, p);
      var item := chain[p.level][p.index].(lock := FREE, key := NULL_GUID, data := 0);
      PutFree(window, chain, shift, at, key, item);
      PutShaped(chain, size, shift, p, item);
      chain, at := Put(chain, p, item), at - {key};
    }
  }

  // ---------------------------------------------------------------------------------------
  // Runs

  datatype Op = Add(key: Guid, data: nat, rank: nat, used: bool) | Drop(key: Guid)

  /** What an operation does to a plain map. */
  function Apply(m: map<Guid, Item>, op: Op): map<Guid, Item> {
    match op
    case Add(key, data, rank, used) => m[key := Item(Lock(false, true, false, if used then 1 else 0), key, data, rank)]
    case Drop(key) => m - {key}
  }

  function ApplyAll(m: map<Guid, Item>, ops: seq<Op>): map<Guid, Item> {
    if ops == [] then m else Apply(ApplyAll(m, ops[..|ops| - 1]), ops[|ops| - 1])
  }

  /** Every added key is new at that point. */
  predicate FreshAdds(m: map<Guid, Item>, ops: seq<Op>) {
    forall i | 0 <= i < |ops| && ops[i].Add? :: ops[i].key !in ApplyAll(m, ops[..i])
  }

  /** The addition has no free slot in any window and no level to add. */
  ghost predicate Stopped(t: Table, op: Op)
    reads t
  {
    op.Add? && t.Full(op.key) && !t.CanGrow()
  }

  method RunOne(t: Table, op: Op) returns (ok: bool)
    requires t.Valid() && (op.Add? ==> op.key !in t.Contents())
    modifies t
    ensures t.Valid() && (ok <==> !old(Stopped(t, op)))
    ensures !ok ==> t.chain == old(t.chain) && t.at == old(t.at)
    ensures ok ==> t.Contents() == Apply(old(t.Contents()), op)
    ensures ok ==> t.at - {op.key} == old(t.at) - {op.key}
    ensures ok ==> |t.chain| <= |old(t.chain)| + 1
    ensures ok && |t.chain| > |old(t.chain)| ==> op.Add? && old(t.Full(op.key))
  {
    match op {
      case Add(key, data, rank, used) =>
        ghost var at := t.at;
        var p;
        ok, p := t.AddItem(key, data, rank, used);
        UpdatedElsewhere(at, key, p);
      case Drop(key) =>
        Remove(t, key);
        ok := true;
    }
  }

  lemma UpdatedElsewhere(at: map<Guid, Place>, key: Guid, p: Place)
    ensures at[key := p] - {key} == at - {key}
  {
  }

  /** Look the key up and free its entry. */
  method Remove(t: Table, key: Guid)
    requires t.Valid()
    modifies t
    ensures t.Valid() && t.Contents() == old(t.Contents()) - {key}
    ensures |t.chain| == |old(t.chain)| && t.at - {key} == old(t.at) - {key}
  {
    var found, p := t.SearchForKey(key, AnyKey);
    if found {
      t.FreeItem(p, key);
      assert t.at - {key} == old(t.at) - {key};
    } else {
      AbsentKey(t.window, t.chain, t.shift, t.at, key);
      assert t.Contents() - {key} == t.Contents();
    }
  }

  ghost function Touched(ops: seq<Op>): set<Guid> {
    if ops == [] then {} else Touched(ops[..|ops| - 1]) + {ops[|ops| - 1].key}
  }

  /**
   A run of additions and removals of any length leaves the table agreeing with the map, and
   moves no entry. It stops short only at an addition with no free slot and no level to add.
   */
  method RunAll(t: Table, ops: seq<Op>) returns (done: nat)
    requires t.Valid() && FreshAdds(t.Contents(), ops)
    modifies t
    ensures done <= |ops| && t.Valid() && t.Contents() == ApplyAll(old(t.Contents()), ops[..done])
    ensures done < |ops| ==> Stopped(t, ops[done])
    ensures t.at - Touched(ops[..done]) == old(t.at) - Touched(ops[..done])
  {
    ghost var m := t.Contents();
    done := 0;
    while done < |ops|
      invariant 0 <= done <= |ops| && t.Valid() && t.Contents() == ApplyAll(m, ops[..done])
      invariant t.at - Touched(ops[..done]) == old(t.at) - Touched(ops[..done])
    {
      ghost var at := t.at;
      var ok := RunOne(t, ops[done]);
      if !ok {
        return;
      }
      assert ops[..done + 1][..done] == ops[..done];
      UnmovedNext(old(t.at), at, t.at, Touched(ops[..done]), ops[done].key);
      done := done + 1;
    }
  }

  /** A lookup after any run that went through: the payload of the key's last addition, or NULL after its removal. */
  method LookupAfterRun(t: Table, ops: seq<Op>, key: Guid) returns (done: nat, data: nat)
    requires t.Valid() && t.Contents() == map[] && FreshAdds(map[], ops)
    modifies t
    ensures done <= |ops| && (done < |ops| ==> Stopped(t, ops[done]))
    ensures data == LastData(ops[..done], key)
  {
    done := RunAll(t, ops);
    data := t.LookupItem(key);
    LastDataIsThere(ops[..done], key);
  }

  /** The payload of the key's last addition, unless it was removed since. */
  function LastData(ops: seq<Op>, key: Guid): nat {
    if ops == [] then 0 else
      var last := ops[|ops| - 1];
      if last.key != key then LastData(ops[..|ops| - 1], key) else if last.Add? then last.data else 0
  }

  lemma {:induction false} LastDataIsThere(ops: seq<Op>, key: Guid)
    ensures var m := ApplyAll(map[], ops);
      if key in m
      then m[key].data == LastData(ops, key) && m[key].lock == Lock(false, true, false, m[key].lock.count)
      else LastData(ops, key) == 0
  {
    if ops != [] { LastDataIsThere(ops[..|ops| - 1], key); }
  }

  lemma UnmovedNext(first: map<Guid, Place>, before: map<Guid, Place>, after: map<Guid, Place>, touched: set<Guid>,
                    key: Guid)
    requires before - touched == first - touched && after - {key} == before - {key}
    ensures after - (touched + {key}) == first - (touched + {key})
  {
    assert after - (touched + {key}) == (after - {key}) - touched;
    assert first - (touched + {key}) == (first - touched) - {key};
    assert (before - {key}) - touched == (before - touched) - {key};
  }

  /** Every entry passes the test for any state, so a key not found is not there. */
  lemma AbsentKey(window: Windows, chain: Chain, shift: nat, at: map<Guid, Place>, key: Guid)
    requires Located(window, chain, shift, at)
    requires !(key in ContentsOf(chain, at) && CheckState(ContentsOf(chain, at)[key].lock, AnyKey))
    ensures key !in ContentsOf(chain, at)
  {
    if key in at { assert IsAt(window, chain, shift, key, at[key]); }
  }

  /** With 2^shift buckets at first, a level has all its buckets exactly while its shift is below 32. */
  lemma {:induction false} SizesDouble(shift: nat, k: nat)
    requires shift < 32
    ensures SizeAt(Pow2(shift), k) == if shift + k < 32 then Pow2(shift + k) else 0
  {
    Pow32();
    Pow2Monotone(shift, 31);
    if k > 0 {
      SizesDouble(shift, k - 1);
      if shift + k < 32 { Pow2Monotone(shift + k, 31); }
    }
  }

  /** So a probe of level k is in bounds exactly while its shift is below 32, whatever the key. */
  lemma InBoundsIff(shift: nat, k: nat, key: Guid)
    requires shift < 32 && shift + k <= 64
    ensures Window(key, shift + k) + COLLISION_RESOLVES <= COLLISION_RESOLVES * SizeAt(Pow2(shift), k) <==>
      shift + k < 32
  {
    SizesDouble(shift, k);
    ProbesInBounds(key, shift + k);
  }

  /** And a chain that began with 2^shift buckets can grow exactly up to that level. */
  lemma GrowsIff(t: Table)
    requires t.Valid() && t.shift < 32 && t.size == Pow2(t.shift)
    ensures t.CanGrow() <==> t.shift + |t.chain| < 32
  {
    SizesDouble(t.shift, |t.chain|);
  }

  /** The default table of shift 16 has sixteen levels; its seventeenth would have no slot at all. */
  lemma SeventeenthLevelIsEmpty(key: Guid)
    ensures SizeAt(Pow2(16), 16) == 0 && Window(key, 32) +
      COLLISION_RESOLVES > COLLISION_RESOLVES * SizeAt(Pow2(16), 16)
  {
    InBoundsIff(16, 16, key);
    SizesDouble(16, 16);
  }

  // ---------------------------------------------------------------------------------------
  // How much the chain can hold

  /** The slots of the first n levels. */
  function Slots(chain: Chain, n: nat): nat
    requires n <= |chain|
  {
    if n == 0 then 0 else Slots(chain, n - 1) + |chain[n - 1]|
  }

  predicate Earlier(p: Place, level: nat, index: nat) {
    p.level < level || (p.level == level && p.index < index)
  }

  /** The keys whose entries come before this place. */
  ghost function KeysBefore(at: map<Guid, Place>, level: nat, index: nat): set<Guid> {
    set k | k in at && Earlier(at[k], level, index)
  }

  /** A slot adds at most its own key. */
  lemma SlotAddsOne(window: Windows, chain: Chain, shift: nat, at: map<Guid, Place>, level: nat, index: nat)
    requires Located(window, chain, shift, at) && level < |chain| && index < |chain[level]|
    ensures |KeysBefore(at, level, index + 1)| <= |KeysBefore(at, level, index)| + 1
  {
    var before, key := KeysBefore(at, level, index), chain[level][index].key;
    forall k | k in KeysBefore(at, level, index + 1) ensures k in before + {key} {
      assert IsAt(window, chain, shift, k, at[k]);
    }
    SubsetSize(KeysBefore(at, level, index + 1), before + {key});
  }

  lemma {:induction false} LevelHolds(window: Windows, chain: Chain, shift: nat, at: map<Guid, Place>, level: nat,
                                      index: nat)
    requires Located(window, chain, shift, at) && level < |chain| && index <= |chain[level]|
    ensures |KeysBefore(at, level, index)| <= |KeysBefore(at, level, 0)| + index
  {
    if index > 0 {
      LevelHolds(window, chain, shift, at, level, index - 1);
      SlotAddsOne(window, chain, shift, at, level, index - 1);
    }
  }

  lemma {:induction false} LevelsHold(window: Windows, chain: Chain, shift: nat, at: map<Guid, Place>, n: nat)
    requires Located(window, chain, shift, at) && n <= |chain|
    ensures |KeysBefore(at, n, 0)| <= Slots(chain, n)
  {
    if n == 0 {
      assert KeysBefore(at, 0, 0) == {};
    } else {
      LevelsHold(window, chain, shift, at, n - 1);
      LevelHolds(window, chain, shift, at, n - 1, |chain[n - 1]|);
      forall k | k in KeysBefore(at, n, 0) ensures k in KeysBefore(at, n - 1, |chain[n - 1]|) {
        assert IsAt(window, chain, shift, k, at[k]);
      }
      SubsetSize(KeysBefore(at, n, 0), KeysBefore(at, n - 1, |chain[n - 1]|));
    }
  }

  /** Starting from 2^shift buckets, each level has twice the slots of the one before, below shift 32. */
  lemma {:induction false} SlotsOf(chain: Chain, shift: nat, n: nat)
    requires Shaped(chain, Pow2(shift), shift) && shift < 32 && n <= |chain|
    ensures shift + n <= 32 && Slots(chain, n) == COLLISION_RESOLVES * (Pow2(shift + n) - Pow2(shift))
  {
    if n > 0 {
      SlotsOf(chain, shift, n - 1);
      LevelSlots(chain, shift, n - 1);
    }
  }

  lemma LevelSlots(chain: Chain, shift: nat, k: nat)
    requires Shaped(chain, Pow2(shift), shift) && shift < 32 && k < |chain|
    ensures shift + k < 32 && |chain[k]| == COLLISION_RESOLVES * Pow2(shift + k)
  {
    assert LevelFits(chain[k], SizeAt(Pow2(shift), k), shift + k);
    SizesDouble(shift, k);
  }

  /** A table of shift s never holds more than 8 * (2^32 - 2^s) entries. */
  lemma CapacityBound(t: Table)
    requires t.Valid() && t.shift < 32 && t.size == Pow2(t.shift)
    ensures |t.Contents()| <= COLLISION_RESOLVES * (WORD32 - Pow2(t.shift))
  {
    var n, m := |t.chain|, t.Contents();
    LevelsHold(t.window, t.chain, t.shift, t.at, n);
    forall k | k in t.at ensures k in KeysBefore(t.at, n, 0) { assert IsAt(t.window, t.chain, t.shift, k, t.at[k]); }
    assert m.Keys == KeysBefore(t.at, n, 0) && |m| == |m.Keys|;
    SlotsOf(t.chain, t.shift, n);
    Pow32();
    Pow2Monotone(t.shift + n, 32);
  }

  lemma {:induction false} AddsGrow(ops: seq<Op>)
    requires FreshAdds(map[], ops) && forall i | 0 <= i < |ops| :: ops[i].Add?
    ensures |ApplyAll(map[], ops)| == |ops|
  {
    if ops != [] {
      var n := |ops| - 1;
      assert forall i | 0 <= i < n :: ops[..n][..i] == ops[..i];
      AddsGrow(ops[..n]);
      assert ops[n].key !in ApplyAll(map[], ops[..n]);
      var before, after := ApplyAll(map[], ops[..n]), ApplyAll(map[], ops);
      assert after.Keys == before.Keys + {ops[n].key};
      assert |after| == |after.Keys| && |before| == |before.Keys|;
    }
  }

  /** More new keys than that, added to an empty table, come to the addition that cannot be placed. */
  method TooManyAdds(t: Table, ops: seq<Op>) returns (done: nat)
    requires t.Valid() && t.Contents() == map[] && t.shift < 32 && t.size == Pow2(t.shift)
    requires FreshAdds(map[], ops) && forall i | 0 <= i < |ops| :: ops[i].Add?
    requires |ops| > COLLISION_RESOLVES * (WORD32 - Pow2(t.shift))
    modifies t
    ensures t.Valid() && done < |ops| && Stopped(t, ops[done]) && t.shift + |t.chain| == 32
  {
    done := RunAll(t, ops);
    CapacityBound(t);
    if done == |ops| {
      assert ops[..done] == ops;
      AddsGrow(ops);
    }
    GrowsIff(t);
    SlotsOf(t.chain, t.shift, |t.chain|);
  }

  lemma ProbesFit(window: Windows, chain: Chain, size: nat, shift: nat, l: nat, key: Guid)
    requires Bounded(window) && Shaped(chain, size, shift) && l < |chain|
    ensures shift + l <= 64 && window(key, shift + l) + COLLISION_RESOLVES <= |chain[l]|
  {
    assert LevelFits(chain[l], SizeAt(size, l), shift + l);
  }

  /** A taken slot is where its key is. */
  lemma FoundIsAt(window: Windows, chain: Chain, shift: nat, at: map<Guid, Place>, l: nat, x: nat)
    requires Located(window, chain, shift, at) && l < |chain| && x < |chain[l]| && chain[l][x].lock != FREE
    ensures var k := chain[l][x].key; k in at && at[k] == Place(l, x) && ContentsOf(chain, at)[k] == chain[l][x]
  {
    assert Known(chain, at, l, x);
  }

  lemma Overwrite(m: map<Guid, Item>, key: Guid, a: Item, b: Item)
    ensures m[key := a][key := b] == m[key := b]
  {
  }

  lemma GrowLemma(window: Windows, chain: Chain, size: nat, shift: nat, at: map<Guid, Place>, items: seq<Item>)
    requires Shaped(chain, size, shift) && Located(window, chain, shift, at) && IsBlank(items)
    requires SizeAt(size, |chain|) >= Pow2(shift + |chain|) && |items| == COLLISION_RESOLVES * SizeAt(size, |chain|)
    ensures Shaped(chain + [items], size, shift) && Located(window, chain + [items], shift, at)
    ensures ContentsOf(chain + [items], at) == ContentsOf(chain, at)
  {
    NextFits(SizeAt(size, |chain|), shift + |chain|, items);
    GrownShaped(chain, size, shift, items);
    Grown(window, chain, shift, at, items);
  }
}
