/**
 Per-thread tables of EDT statistics: open addressing with linear probing over a fixed number of
 slots, no deletion, and the reduction of many tables into one.
 */
module ObjectTable {
  import opened Common

  /** Three 64-bit counters. */
  datatype Totals = Totals(count: nat, exec: nat, stall: nat)

  const ZERO: Totals := Totals(0, 0, 0)

  /** Addition of words wraps around. */
  function Add(a: Totals, b: Totals): Totals {
    Totals((a.count + b.count) % WORD, (a.exec + b.exec) % WORD, (a.stall + b.stall) % WORD)
  }

  datatype Entry = Entry(valid: bool, id: nat, totals: Totals)

  // ---------------------------------------------------------------------------------------
  // Probing

  /** The slot s steps after h in a table of n. */
  function Probe(n: nat, h: nat, s: nat): (i: nat)
    requires h < n && s < n
    ensures i < n
  {
    if h + s < n then h + s else h + s - n
  }

  /** How many steps from h to i. */
  function Steps(n: nat, h: nat, i: nat): (s: nat)
    requires h < n && i < n
    ensures s < n && Probe(n, h, s) == i
  {
    if i >= h then i - h else i + n - h
  }

  ghost predicate HashOk(hash: nat -> nat, n: nat) {
    forall id :: hash(id) < n
  }

  /** Every slot of the first s steps is taken. */
  ghost predicate Taken(es: seq<Entry>, h: nat, s: nat) {
    h < |es| && s <= |es| && forall t | 0 <= t < s :: es[Probe(|es|, h, t)].valid
  }

  /** `at` says where each id is, no other slot is valid, and each id is reached by probing from its hash. */
  ghost predicate Placed(es: seq<Entry>, hash: nat -> nat, at: map<nat, nat>) {
    && HashOk(hash, |es|)
    && (forall i | 0 <= i < |es| :: Known(es, at, i))
    && (forall id | id in at :: IsAt(es, hash, id, at[id]))
  }

  /** A valid slot is where its id is. */
  ghost predicate Known(es: seq<Entry>, at: map<nat, nat>, i: nat) {
    i < |es| && (es[i].valid ==> es[i].id in at && at[es[i].id] == i)
  }

  ghost predicate IsAt(es: seq<Entry>, hash: nat -> nat, id: nat, i: nat) {
    i < |es| && es[i].valid && es[i].id == id && hash(id) < |es| && Taken(es, hash(id), Steps(|es|, hash(id), i))
  }

  ghost function ContentsOf(es: seq<Entry>, at: map<nat, nat>): map<nat, Totals> {
    map id | id in at :: if at[id] < |es| then es[at[id]].totals else ZERO
  }

  /** Probing past other ids to a free slot, or all the way round, shows the id is not there. */
  lemma NotThere(es: seq<Entry>, hash: nat -> nat, at: map<nat, nat>, id: nat, s: nat)
    requires Placed(es, hash, at) && s <= |es|
    requires forall t | 0 <= t < s :: es[Probe(|es|, hash(id), t)].id != id
    requires s < |es| ==> !es[Probe(|es|, hash(id), s)].valid
    ensures id !in at
  {
  }

  /** A new id goes into the first free slot. */
  lemma InsertKeeps(es: seq<Entry>, hash: nat -> nat, at: map<nat, nat>, id: nat, s: nat)
    requires Placed(es, hash, at) && id !in at && s < |es| && Taken(es, hash(id), s)
    requires !es[Probe(|es|, hash(id), s)].valid
    ensures var i := Probe(|es|, hash(id), s);
      && Placed(es[i := Entry(true, id, ZERO)], hash, at[id := i])
      && ContentsOf(es[i := Entry(true, id, ZERO)], at[id := i]) == ContentsOf(es, at)[id := ZERO]
  {
    var i := Probe(|es|, hash(id), s);
    var es', at' := es[i := Entry(true, id, ZERO)], at[id := i];
    forall k | k in at' ensures IsAt(es', hash, k, at'[k]) {
      if k == id {
        assert Steps(|es|, hash(id), i) == s;
      } else {
        assert IsAt(es, hash, k, at[k]);
      }
    }
    forall j | 0 <= j < |es'| ensures Known(es', at', j) { assert Known(es, at, j); }
  }

  /** Totals are rewritten in place. */
  lemma UpdateKeeps(es: seq<Entry>, hash: nat -> nat, at: map<nat, nat>, id: nat, totals: Totals)
    requires Placed(es, hash, at) && id in at
    ensures at[id] < |es|
    ensures var es' := es[at[id] := es[at[id]].(totals := totals)];
      Placed(es', hash, at) && ContentsOf(es', at) == ContentsOf(es, at)[id := totals]
  {
    assert IsAt(es, hash, id, at[id]);
    var es' := es[at[id] := es[at[id]].(totals := totals)];
    forall k | k in at ensures IsAt(es', hash, k, at[k]) && (k != id ==> at[k] != at[id]) {
      assert IsAt(es, hash, k, at[k]);
    }
    forall j | 0 <= j < |es'| ensures Known(es', at, j) { assert Known(es, at, j); }
  }

  // ---------------------------------------------------------------------------------------
  // Room

  /** The ids in the first n slots. */
  ghost function Ids(es: seq<Entry>, n: nat): set<nat>
    requires n <= |es|
  {
    if n == 0 then {} else Ids(es, n - 1) + if es[n - 1].valid then {es[n - 1].id} else {}
  }

  lemma {:induction false} IdsMember(es: seq<Entry>, n: nat, id: nat)
    requires n <= |es|
    ensures id in Ids(es, n) <==> exists i :: 0 <= i < n && es[i].valid && es[i].id == id
  {
    if n > 0 { IdsMember(es, n - 1, id); }
  }

  lemma {:induction false} IdsCount(es: seq<Entry>, hash: nat -> nat, at: map<nat, nat>, n: nat)
    requires Placed(es, hash, at) && n <= |es|
    ensures |Ids(es, n)| <= n
    ensures |Ids(es, n)| == n <==> forall i | 0 <= i < n :: es[i].valid
  {
    if n > 0 {
      IdsCount(es, hash, at, n - 1);
      NewId(es, hash, at, n - 1);
    }
  }

  /** A valid slot's id is on no earlier slot. */
  lemma NewId(es: seq<Entry>, hash: nat -> nat, at: map<nat, nat>, n: nat)
    requires Placed(es, hash, at) && n < |es|
    ensures es[n].valid ==> es[n].id !in Ids(es, n)
  {
    IdsMember(es, n, es[n].id);
    assert Known(es, at, n);
    forall j | 0 <= j < n ensures es[n].valid && es[j].valid ==> es[j].id != es[n].id { assert Known(es, at, j); }
  }

  lemma IdsAreKeys(es: seq<Entry>, hash: nat -> nat, at: map<nat, nat>)
    requires Placed(es, hash, at)
    ensures Ids(es, |es|) == at.Keys == ContentsOf(es, at).Keys
  {
    forall id ensures id in Ids(es, |es|) <==> id in at {
      IdsMember(es, |es|, id);
      if id in at { assert IsAt(es, hash, id, at[id]); }
      if i :| 0 <= i < |es| && es[i].valid && es[i].id == id { assert Known(es, at, i); }
    }
  }

  /** A table never holds more ids than slots, and exactly as many when no slot is free. */
  lemma RoomCount(es: seq<Entry>, hash: nat -> nat, at: map<nat, nat>)
    requires Placed(es, hash, at)
    ensures |ContentsOf(es, at)| <= |es|
    ensures |ContentsOf(es, at)| == |es| <==> forall i | 0 <= i < |es| :: es[i].valid
  {
    IdsAreKeys(es, hash, at);
    IdsCount(es, hash, at, |es|);
    var m := ContentsOf(es, at);
    assert |m| == |m.Keys|;
  }

  // ---------------------------------------------------------------------------------------
  // Maps

  function Get(m: map<nat, Totals>, id: nat): Totals { if id in m then m[id] else ZERO }

  ghost function Merge(a: map<nat, Totals>, b: map<nat, Totals>): map<nat, Totals> {
    map id | id in a.Keys + b.Keys :: if id in b then Add(Get(a, id), b[id]) else a[id]
  }

  /** The pointwise sum of the maps, in order. */
  ghost function MergeAll(a: map<nat, Totals>, bs: seq<map<nat, Totals>>): map<nat, Totals> {
    if bs == [] then a else Merge(MergeAll(a, bs[..|bs| - 1]), bs[|bs| - 1])
  }

  /** What an id's counters add up to over the maps. */
  ghost function SumOver(a: map<nat, Totals>, bs: seq<map<nat, Totals>>, id: nat): (nat, nat, nat) {
    if bs == [] then (Get(a, id).count, Get(a, id).exec, Get(a, id).stall)
    else
      var (c, e, s) := SumOver(a, bs[..|bs| - 1], id);
      var t := Get(bs[|bs| - 1], id);
      (c + t.count, e + t.exec, s + t.stall)
  }

  predicate IsWords(t: Totals) { t.count < WORD && t.exec < WORD && t.stall < WORD }

  /** Merging one by one gives, for every id, the sums modulo 2^64. */
  lemma {:induction false} MergeAllIsSum(a: map<nat, Totals>, bs: seq<map<nat, Totals>>, id: nat)
    requires IsWords(Get(a, id))
    ensures var (c, e, s) := SumOver(a, bs, id); Get(MergeAll(a, bs), id) == Totals(c % WORD, e % WORD, s % WORD)
  {
    if bs != [] {
      MergeAllIsSum(a, bs[..|bs| - 1], id);
      var (c, e, s) := SumOver(a, bs[..|bs| - 1], id);
      MergeGet(MergeAll(a, bs[..|bs| - 1]), bs[|bs| - 1], id);
      var t := Get(bs[|bs| - 1], id);
      AddMod(c, t.count);
      AddMod(e, t.exec);
      AddMod(s, t.stall);
    }
  }

  lemma MergeGet(a: map<nat, Totals>, b: map<nat, Totals>, id: nat)
    requires IsWords(Get(a, id))
    ensures Get(Merge(a, b), id) == Add(Get(a, id), Get(b, id))
  {
  }

  lemma AddMod(x: nat, y: nat)
    ensures (x % WORD + y) % WORD == (x + y) % WORD
  {
  }

  // ---------------------------------------------------------------------------------------
  // The table

  class Table {
    const entries: array<Entry>
    const hash: nat -> nat
    ghost var at: map<nat, nat>

    ghost predicate Valid()
      reads this, entries
    {
      Placed(entries[..], hash, at)
    }

    ghost function Contents(): map<nat, Totals>
      reads this, entries
    {
      ContentsOf(entries[..], at)
    }

    constructor (n: nat, hash: nat -> nat)
      requires HashOk(hash, n)
      ensures Valid() && Contents() == map[] && fresh(entries) && entries.Length == n && this.hash == hash
    {
      entries := new Entry[n](_ => Entry(false, 0, ZERO));
      this.hash, at := hash, map[];
    }

    /** arts_object_find_edt_slot: the id's slot, made if need be, or none when the table is full without it. */
    method FindSlot(id: nat) returns (r: Option<nat>)
      requires Valid()
      modifies this, entries
      ensures Valid()
      ensures r.Some? <==> id in old(Contents()) || |old(Contents())| < entries.Length
      ensures r.None? ==> Contents() == old(Contents())
      ensures r.Some? ==> id in at && r.value == at[id] && r.value < entries.Length
      ensures r.Some? ==> entries[r.value].totals == Get(old(Contents()), id)
      ensures r.Some? ==> Contents() == old(Contents())[id := Get(old(Contents()), id)]
    {
      var s := Walk(id);
      ghost var es := entries[..];
      RoomCount(es, hash, at);
      if s == entries.Length {
        NotThere(es, hash, at, id, s);
        AllTaken(es, hash(id));
        return None;
      }
      var i := Probe(entries.Length, hash(id), s);
      if !entries[i].valid {
        NotThere(es, hash, at, id, s);
        InsertKeeps(es, hash, at, id, s);
        entries[i] := Entry(true, id, ZERO);
        at := at[id := i];
        assert entries[..] == es[i := Entry(true, id, ZERO)];
      } else {
        assert Known(es, at, i);
      }
      return Some(i);
    }

    /** The loop: past valid slots of other ids, at most once round. */
    method Walk(id: nat) returns (s: nat)
      requires Valid()
      ensures s <= entries.Length && hash(id) < entries.Length && Taken(entries[..], hash(id), s)
      ensures forall t | 0 <= t < s :: entries[..][Probe(entries.Length, hash(id), t)].id != id
      ensures s < entries.Length ==> var e := entries[..][Probe(entries.Length, hash(id), s)]; !e.valid || e.id == id
    {
      var n, start := entries.Length, hash(id);
      s := 0;
      while s < n && entries[Probe(n, start, s)].valid && entries[Probe(n, start, s)].id != id
        invariant s <= n && Taken(entries[..], start, s)
        invariant forall t | 0 <= t < s :: entries[..][Probe(n, start, t)].id != id
      {
        s := s + 1;
      }
    }

    /** arts_object_record_edt. */
    method Record(id: nat, exec: nat, stall: nat)
      requires Valid()
      modifies this, entries
      ensures Valid()
      ensures Contents() ==
        if id == 0 || (id !in old(Contents()) && |old(Contents())| == entries.Length) then old(Contents())
        else old(Contents())[id := Add(Get(old(Contents()), id), Totals(1, exec, stall))]
    {
      RoomCount(entries[..], hash, at);
      if id != 0 {
        var _ := AddTo(id, Totals(1, exec, stall));
      }
    }

    /** Find the slot and add to it, if there is one. */
    method AddTo(id: nat, t: Totals) returns (added: bool)
      requires Valid()
      modifies this, entries
      ensures Valid()
      ensures added == (id in old(Contents()) || |old(Contents())| < entries.Length)
      ensures Contents() ==
        if added then old(Contents())[id := Add(Get(old(Contents()), id), t)] else old(Contents())
    {
      var r := FindSlot(id);
      added := r.Some?;
      if added {
        AddAt(r.value, id, t);
      }
    }

    method AddAt(i: nat, ghost id: nat, t: Totals)
      requires Valid() && id in at && at[id] == i && i < entries.Length
      modifies entries
      ensures Valid() && Contents() == old(Contents())[id := Add(old(entries[i]).totals, t)]
    {
      ghost var es := entries[..];
      var totals := Add(entries[i].totals, t);
      UpdateKeeps(es, hash, at, id, totals);
      entries[i] := entries[i].(totals := totals);
      assert entries[..] == es[i := es[i].(totals := totals)];
    }
  }

  /** Once round means every slot is valid. */
  lemma AllTaken(es: seq<Entry>, h: nat)
    requires Taken(es, h, |es|)
    ensures forall i | 0 <= i < |es| :: es[i].valid
  {
    forall i | 0 <= i < |es| ensures es[i].valid {
      assert es[Probe(|es|, h, Steps(|es|, h, i))].valid;
    }
  }

  // ---------------------------------------------------------------------------------------
  // Reduction

  /** The part of a table's contents that its first n slots hold. */
  ghost function Part(es: seq<Entry>, at: map<nat, nat>, n: nat): map<nat, Totals>
    requires n <= |es|
  {
    map id | id in at && at[id] < n :: es[at[id]].totals
  }

  lemma PartNext(es: seq<Entry>, hash: nat -> nat, at: map<nat, nat>, n: nat, a: map<nat, Totals>)
    requires Placed(es, hash, at) && n < |es|
    ensures !es[n].valid ==> Part(es, at, n + 1) == Part(es, at, n)
    ensures es[n].valid ==>
      Merge(a, Part(es, at, n + 1)) == Merge(a, Part(es, at,
        n))[es[n].id := Add(Get(Merge(a, Part(es, at, n)), es[n].id), es[n].totals)]
  {
    forall id | id in at ensures IsAt(es, hash, id, at[id]) { }
    assert Known(es, at, n);
    if es[n].valid {
      assert Part(es, at, n + 1) == Part(es, at, n)[es[n].id := es[n].totals];
    }
  }

  lemma PartAll(es: seq<Entry>, hash: nat -> nat, at: map<nat, nat>)
    requires Placed(es, hash, at)
    ensures Part(es, at, |es|) == ContentsOf(es, at)
  {
    forall id | id in at ensures IsAt(es, hash, id, at[id]) { }
  }

  /**
   `now` is what a table of n slots that held a has of the merged map m: everything that was there
   before, with m's totals throughout, and as many ids of m as there is room for.
   */
  ghost predicate Holds(a: map<nat, Totals>, m: map<nat, Totals>, now: map<nat, Totals>, n: nat) {
    && a.Keys <= now.Keys <= m.Keys && (forall id | id in now :: now[id] == m[id])
    && |now| == if |m| < n then |m| else n
  }

  lemma HoldsAll(a: map<nat, Totals>, m: map<nat, Totals>, now: map<nat, Totals>, n: nat)
    requires Holds(a, m, now, n)
    ensures now == m <==> |m| <= n
  {
    assert |now.Keys| == |now| && |m.Keys| == |m|;
    if |m| <= n { SameSize(now.Keys, m.Keys); }
  }

  lemma SameSize(a: set<nat>, b: set<nat>)
    requires a <= b && |a| == |b|
    ensures a == b
  {
    assert b == a + (b - a);
  }

  /** One source slot added into a table of n slots. */
  function Combined(m: map<nat, Totals>, e: Entry, n: nat): map<nat, Totals> {
    if e.valid && (e.id in m || |m| < n) then m[e.id := Add(Get(m, e.id), e.totals)] else m
  }

  method AddEntry(dest: Table, e: Entry)
    requires dest.Valid()
    modifies dest, dest.entries
    ensures dest.Valid() && |old(dest.Contents())| <= dest.entries.Length
    ensures dest.Contents() == Combined(old(dest.Contents()), e, dest.entries.Length)
  {
    RoomCount(dest.entries[..], dest.hash, dest.at);
    if e.valid {
      var _ := dest.AddTo(e.id, e.totals);
    }
  }

  /** An id that m does not have, or only from before, is added or finds the table full. */
  lemma HoldsNext(a: map<nat, Totals>, m: map<nat, Totals>, now: map<nat, Totals>, n: nat, e: Entry)
    requires Holds(a, m, now, n) && e.valid && (e.id in m ==> e.id in a)
    ensures Holds(a, m[e.id := Add(Get(m, e.id), e.totals)], Combined(now, e, n), n)
  {
    assert |now.Keys| == |now| && |m.Keys| == |m|;
    var m', now' := m[e.id := Add(Get(m, e.id), e.totals)], Combined(now, e, n);
    assert m'.Keys == m.Keys + {e.id} && |m'.Keys| == |m'|;
    assert |now'.Keys| == |now'|;
    if e.id in now {
      assert now'.Keys == now.Keys && m'.Keys == m.Keys;
    } else if |now| < n {
      SameSize(now.Keys, m.Keys);
      assert now'.Keys == now.Keys + {e.id};
    }
  }

  lemma ReducedNext(a: map<nat, Totals>, es: seq<Entry>, hash: nat -> nat, at: map<nat, nat>, i: nat,
                    now: map<nat, Totals>, now': map<nat, Totals>, n: nat)
    requires Placed(es, hash, at) && i < |es| && Holds(a, Merge(a, Part(es, at, i)), now, n)
    requires now' == Combined(now, es[i], n)
    ensures Holds(a, Merge(a, Part(es, at, i + 1)), now', n)
  {
    PartNext(es, hash, at, i, a);
    if es[i].valid {
      assert Known(es, at, i);
      HoldsNext(a, Merge(a, Part(es, at, i)), now, n, es[i]);
    }
  }

  /**
   arts_object_reduce_tables: every id gets the sum, exactly when `dest` has room for the union.
   Without room, as many ids of the union as fit have their sum, all those of `dest` among them.
   */
  method Reduce(dest: Table, src: Table)
    requires dest.Valid() && src.Valid() && dest != src && dest.entries != src.entries
    modifies dest, dest.entries
    ensures dest.Valid()
    ensures dest.Contents() == Merge(old(dest.Contents()), src.Contents()) <==>
      |Merge(old(dest.Contents()), src.Contents())| <= dest.entries.Length
    ensures Holds(old(dest.Contents()), Merge(old(dest.Contents()), src.Contents()), dest.Contents(),
                  dest.entries.Length)
  {
    ghost var a := dest.Contents();
    assert Merge(a, Part(src.entries[..], src.at, 0)) == a;
    RoomCount(dest.entries[..], dest.hash, dest.at);
    ReduceSlots(dest, src, a);
    PartAll(src.entries[..], src.hash, src.at);
    HoldsAll(a, Merge(a, src.Contents()), dest.Contents(), dest.entries.Length);
  }

  /** The loop over the source's slots. */
  method ReduceSlots(dest: Table, src: Table, ghost a: map<nat, Totals>)
    requires dest.Valid() && src.Valid() && dest != src && dest.entries != src.entries
    requires Holds(a, Merge(a, Part(src.entries[..], src.at, 0)), dest.Contents(), dest.entries.Length)
    modifies dest, dest.entries
    ensures dest.Valid()
    ensures Holds(a, Merge(a, Part(src.entries[..], src.at, src.entries.Length)), dest.Contents(), dest.entries.Length)
  {
    ghost var es, n, hash, at, now := src.entries[..], dest.entries.Length, src.hash, src.at, dest.Contents();
    assert Placed(es, hash, at);
    var i := 0;
    while i < src.entries.Length
      invariant i <= src.entries.Length && es == src.entries[..]
      invariant dest.Valid() && now == dest.Contents() && Holds(a, Merge(a, Part(es, at, i)), now, n)
    {
      AddEntry(dest, src.entries[i]);
      ghost var now' := dest.Contents();
      assert now' == Combined(now, es[i], n);
      ReducedNext(a, es, hash, at, i, now, now', n);
      now := now';
      i := i + 1;
    }
    assert i == |es|;
  }

  lemma {:induction false} MergeAllGrows(a: map<nat, Totals>, bs: seq<map<nat, Totals>>, k: nat)
    requires k <= |bs|
    ensures MergeAll(a, bs[..k]).Keys <= MergeAll(a, bs).Keys
    decreases |bs|
  {
    if k == |bs| {
      assert bs[..k] == bs;
    } else {
      MergeAllGrows(a, bs[..|bs| - 1], k);
      assert bs[..|bs| - 1][..k] == bs[..k];
    }
  }

  /** A table and its contents. */
  ghost predicate Source(t: Table, m: map<nat, Totals>)
    reads t, t.entries
  {
    t.Valid() && t.Contents() == m
  }

  /** Tables other than `dest`, with their contents. */
  ghost predicate Sources(dest: Table, srcs: seq<Table>, ms: seq<map<nat, Totals>>)
    reads srcs, set t | t in srcs :: t.entries
    decreases |srcs|
  {
    |ms| == |srcs| && (srcs != [] ==>
      var n := |srcs| - 1;
      && srcs[n] != dest && srcs[n].entries != dest.entries && Source(srcs[n], ms[n])
      && Sources(dest, srcs[..n], ms[..n]))
  }

  /** A table that holds m, if m fits it at all. */
  ghost predicate HoldsIfFits(t: Table, m: map<nat, Totals>)
    reads t, t.entries
  {
    t.Valid() && (|m| <= t.entries.Length ==> t.Contents() == m)
  }

  /** The last table, after the others. */
  method ReduceLast(dest: Table, ghost a: map<nat, Totals>, src: Table, ghost ms: seq<map<nat, Totals>>)
    requires ms != [] && HoldsIfFits(dest, MergeAll(a, ms[..|ms| - 1]))
    requires Source(src, ms[|ms| - 1]) && dest != src && dest.entries != src.entries
    modifies dest, dest.entries
    ensures HoldsIfFits(dest, MergeAll(a, ms))
  {
    MergeNext(a, ms, dest.entries.Length);
    Reduce(dest, src);
  }

  method ReduceEach(dest: Table, ghost a: map<nat, Totals>, srcs: seq<Table>, ghost ms: seq<map<nat, Totals>>)
    requires Source(dest, a) && Sources(dest, srcs, ms)
    modifies dest, dest.entries
    ensures HoldsIfFits(dest, MergeAll(a, ms))
    decreases |srcs|
  {
    if srcs != [] {
      var n := |srcs| - 1;
      ReduceEach(dest, a, srcs[..n], ms[..n]);
      ReduceLast(dest, a, srcs[n], ms);
    }
  }

  /** Any number of tables into one: every id gets its sum exactly when there is room for all the ids. */
  method ReduceAll(dest: Table, ghost a: map<nat, Totals>, srcs: seq<Table>, ghost ms: seq<map<nat, Totals>>)
    requires Source(dest, a) && Sources(dest, srcs, ms)
    modifies dest, dest.entries
    ensures dest.Valid()
    ensures dest.Contents() == MergeAll(a, ms) <==> |MergeAll(a, ms)| <= dest.entries.Length
  {
    ReduceEach(dest, a, srcs, ms);
    RoomCount(dest.entries[..], dest.hash, dest.at);
  }

  lemma MergeNext(a: map<nat, Totals>, ms: seq<map<nat, Totals>>, room: nat)
    requires ms != []
    ensures var n := |ms| - 1;
      && MergeAll(a, ms) == Merge(MergeAll(a, ms[..n]), ms[n])
      && (|MergeAll(a, ms)| <= room ==> |MergeAll(a, ms[..n])| <= room)
  {
    if |MergeAll(a, ms)| <= room { PrefixFewer(a, ms, |ms| - 1, room); }
  }

  lemma PrefixFewer(a: map<nat, Totals>, bs: seq<map<nat, Totals>>, k: nat, n: nat)
    requires k <= |bs| && |MergeAll(a, bs)| <= n
    ensures |MergeAll(a, bs[..k])| <= n
  {
    MergeAllGrows(a, bs, k);
    var part, all := MergeAll(a, bs[..k]), MergeAll(a, bs);
    SubsetSize(part.Keys, all.Keys);
    assert |part| == |part.Keys| && |all| == |all.Keys|;
  }

  /** Two tables of one slot each that recorded ids 1 and 2: reducing one into the other loses an id. */
  method TwoIdsDoNotFit() returns (dest: Table)
    ensures fresh(dest) && fresh(dest.entries) && dest.Valid() && dest.entries.Length == 1
    ensures !(1 in dest.Contents() && 2 in dest.Contents())
  {
    dest := new Table(1, (id: nat) => 0);
    var src := new Table(1, (id: nat) => 0);
    dest.Record(1, 10, 0);
    src.Record(2, 20, 0);
    Reduce(dest, src);
    RoomCount(dest.entries[..], dest.hash, dest.at);
    if 1 in dest.Contents() && 2 in dest.Contents() { TwoKeys(dest.Contents()); }
  }

  lemma TwoKeys(m: map<nat, Totals>)
    requires 1 in m && 2 in m
    ensures |m| >= 2
  {
    assert {1, 2} <= m.Keys;
    SubsetSize({1, 2}, m.Keys);
    assert |m| == |m.Keys|;
  }
}
