/**
 Racing reservations and additions of route-table entries.

 Callers that know the same GUID take the stripe lock of its hash before they search for the
 entry and create it; a caller that finds the lock busy may pick the entry up without it. Any
 number of calls on any keys run interleaved, one shared-memory access per step. Stripes and
 probe windows are shared between keys.
 */
module RouteRace {

  /** The state bits of an entry's lock word; reference counts are not needed here. */
  datatype Word = Word(reserved: bool, available: bool)

  const FREE: Word := Word(false, false)

  /** A slot of the table; key 0 while none has been written. `maker` records the call that wrote the key. */
  datatype Slot = Slot(word: Word, key: nat, data: nat, maker: nat)

  datatype Op =
    | Reserve(used: bool)
    | Add(data: nat, used: bool)

  datatype Pc =
    | Start
    | Peek                                // the lock was busy
    | Search                              // from here the stripe lock is held
    | Check(i: nat)                       // probe i: is the slot free?
    | Try(i: nat)                         // it was; mark_reserve
    | WriteKey(p: nat)
    | SetData(p: nat)
    | MarkWrite(p: nat)
    | Unlock(item: nat, won: bool)
    | Done(item: nat, won: bool)

  datatype Call = Call(key: nat, op: Op, pc: Pc)

  datatype State = State(slots: seq<Slot>, locks: seq<bool>, calls: seq<Call>)

  /** Which stripe guards a key, and which slots its probes visit in which order. */
  datatype Layout = Layout(stripe: nat -> nat, probes: nat -> seq<nat>)

  // ---------------------------------------------------------------------------------------
  // Steps

  /** The first slot from n on that carries the key, or the end. */
  function Find(slots: seq<Slot>, key: nat, n: nat): (p: nat)
    requires n <= |slots|
    ensures n <= p <= |slots| && (p < |slots| ==> slots[p].key == key)
    ensures forall q | n <= q < p :: slots[q].key != key
    decreases |slots| - n
  {
    if n == |slots| || slots[n].key == key then n else Find(slots, key, n + 1)
  }

  predicate Reserved(w: Word) { w.reserved && !w.available }

  predicate Available(w: Word) { w.available && !w.reserved }

  predicate Requested(w: Word) { w.reserved && w.available }

  function Goto(s: State, c: nat, pc: Pc): State
    requires c < |s.calls|
  {
    s.(calls := s.calls[c := s.calls[c].(pc := pc)])
  }

  function SetSlot(s: State, p: nat, slot: Slot): State
    requires p < |s.slots|
  {
    s.(slots := s.slots[p := slot])
  }

  /** The busy-lock branch; `miss` when the scan passed the slot before the entry was there. */
  function AfterPeek(s: State, c: nat, miss: bool): State
    requires c < |s.calls|
  {
    var call := s.calls[c];
    var p := Find(s.slots, call.key, 0);
    if !miss && p < |s.slots| && (call.op.Reserve? || Available(s.slots[p].word)) then
      Goto(s, c, Done(p, false))
    else
      Goto(s, c, Start)
  }

  /** The search under the lock. */
  function AfterSearch(s: State, c: nat): State
    requires c < |s.calls|
  {
    var call := s.calls[c];
    var p := Find(s.slots, call.key, 0);
    if p == |s.slots| then Goto(s, c, Check(0))
    else if call.op.Add? && Reserved(s.slots[p].word) then Goto(s, c, SetData(p))
    else Goto(s, c, Unlock(p, false))
  }

  /** mark_reserve: a compare-and-swap when the entry is used at once, a fetch-or otherwise. */
  function AfterTry(s: State, c: nat, i: nat, p: nat): State
    requires c < |s.calls| && p < |s.slots|
  {
    if s.slots[p].word == FREE then
      Goto(SetSlot(s, p, s.slots[p].(word := Word(true, false))), c, WriteKey(p))
    else if s.calls[c].op.used then
      Goto(s, c, Check(i + 1))
    else
      Goto(SetSlot(s, p, s.slots[p].(word := s.slots[p].word.(reserved := true))), c, Check(i + 1))
  }

  /** One step of call c. */
  function Advance(layout: Layout, s: State, c: nat, miss: bool): State
    requires c < |s.calls|
  {
    var call := s.calls[c];
    var stripe := layout.stripe(call.key);
    var probes := layout.probes(call.key);
    if stripe >= |s.locks| then s else
    match call.pc
    case Start =>
      if s.locks[stripe] then Goto(s, c, Peek) else Goto(s, c, Search).(locks := s.locks[stripe := true])
    case Peek => AfterPeek(s, c, miss)
    case Search => AfterSearch(s, c)
    case Check(i) =>
      if i < |probes| && probes[i] < |s.slots| then
        Goto(s, c, if s.slots[probes[i]].word == FREE then Try(i) else Check(i + 1))
      else s
    case Try(i) =>
      if i < |probes| && probes[i] < |s.slots| then AfterTry(s, c, i, probes[i]) else s
    case WriteKey(p) =>
      if p < |s.slots| then
        Goto(SetSlot(s, p, s.slots[p].(key := call.key, maker := c)), c,
             if call.op.Add? then SetData(p) else Unlock(p, true))
      else s
    case SetData(p) =>
      if p < |s.slots| && call.op.Add? then
        Goto(SetSlot(s, p, s.slots[p].(data := call.op.data)), c, MarkWrite(p))
      else s
    case MarkWrite(p) =>
      if p < |s.slots| then
        Goto(SetSlot(s, p, s.slots[p].(word := Word(false, true))), c, Unlock(p, true))
      else s
    case Unlock(item, won) => Goto(s, c, Done(item, won)).(locks := s.locks[stripe := false])
    case Done(_, _) => s
  }

  /** Which call moves, and whether an unlocked scan misses. */
  datatype Pick = Pick(call: nat, miss: bool)

  function Exec(layout: Layout, s: State, picks: seq<Pick>): State {
    if picks == [] then s else
      var before := Exec(layout, s, picks[..|picks| - 1]);
      var pick := picks[|picks| - 1];
      if pick.call < |before.calls| then Advance(layout, before, pick.call, pick.miss) else before
  }

  // ---------------------------------------------------------------------------------------
  // The invariant

  predicate InLock(pc: Pc) { !pc.Start? && !pc.Peek? && !pc.Done? }

  /** One call at a time inside a stripe, and the lock word says so. */
  ghost predicate Exclusive(layout: Layout, calls: seq<Call>, locks: seq<bool>) {
    && (forall c | 0 <= c < |calls| && InLock(calls[c].pc) ::
          layout.stripe(calls[c].key) < |locks| && locks[layout.stripe(calls[c].key)])
    && (forall c, d | 0 <= c < d < |calls| && InLock(calls[c].pc) && InLock(calls[d].pc) ::
          layout.stripe(calls[c].key) != layout.stripe(calls[d].key))
  }

  predicate Absent(slots: seq<Slot>, key: nat) {
    forall p | 0 <= p < |slots| :: slots[p].key != key
  }

  /** At most one entry per key, and every entry is taken. */
  ghost predicate OneEntry(slots: seq<Slot>) {
    && (forall p, q | 0 <= p < q < |slots| && slots[p].key != 0 :: slots[p].key != slots[q].key)
    && (forall p | 0 <= p < |slots| && slots[p].key != 0 :: slots[p].word != FREE)
  }

  /** Call c has made no entry. */
  ghost predicate MadeNone(slots: seq<Slot>, c: nat) {
    forall p | 0 <= p < |slots| && slots[p].key != 0 :: slots[p].maker != c
  }

  /**
   What a call that goes home with entry p has seen to: an addition leaves it available, with its
   own payload if it won, and a reservation won exactly when it made the entry.
   */
  ghost predicate Served(slots: seq<Slot>, c: nat, call: Call, p: nat, won: bool) {
    && p < |slots| && slots[p].key == call.key
    && (call.op.Add? ==> slots[p].word.available && (won ==> slots[p].data == call.op.data))
    && (call.op.Reserve? ==> (won <==> slots[p].maker == c))
  }

  /** What call c at its place may rely on. */
  ghost predicate CallOk(slots: seq<Slot>, c: nat, call: Call) {
    call.key != 0 &&
    match call.pc
    case Start => MadeNone(slots, c)
    case Peek => MadeNone(slots, c)
    case Search => MadeNone(slots, c)
    case Check(i) => Absent(slots, call.key) && MadeNone(slots, c)
    case Try(i) => Absent(slots, call.key) && MadeNone(slots, c)
    case WriteKey(p) =>
      Absent(slots, call.key) && MadeNone(slots, c) && p < |slots| && slots[p].key == 0 && Reserved(slots[p].word)
    case SetData(p) => p < |slots| && slots[p].key == call.key && Reserved(slots[p].word) && call.op.Add?
    case MarkWrite(p) =>
      p < |slots| && slots[p].key == call.key && Reserved(slots[p].word) && call.op.Add? &&
      slots[p].data == call.op.data
    case Unlock(p, won) => Served(slots, c, call, p, won)
    case Done(p, won) => Served(slots, c, call, p, won)
  }

  ghost predicate CallsOk(slots: seq<Slot>, calls: seq<Call>) {
    forall c | 0 <= c < |calls| :: CallOk(slots, c, calls[c])
  }

  /** Every entry was made by a call on its key. */
  ghost predicate MakersOk(slots: seq<Slot>, calls: seq<Call>) {
    forall p | 0 <= p < |slots| && slots[p].key != 0 ::
      slots[p].maker < |calls| && calls[slots[p].maker].key == slots[p].key
  }

  /** Two calls never write their keys into the same slot. */
  ghost predicate Apart(calls: seq<Call>) {
    forall c, d | 0 <= c < d < |calls| && calls[c].pc.WriteKey? && calls[d].pc.WriteKey? :: calls[c].pc != calls[d].pc
  }

  /** The additions of the key that report success. */
  function Winners(calls: seq<Call>, key: nat): nat {
    if calls == [] then 0 else Winners(calls[..|calls| - 1], key) + if Won(calls[|calls| - 1], key) then 1 else 0
  }

  predicate Won(call: Call, key: nat) {
    call.key == key && call.op.Add? && ((call.pc.Unlock? && call.pc.won) || (call.pc.Done? && call.pc.won))
  }

  ghost predicate Filled(slots: seq<Slot>, key: nat) {
    exists p :: 0 <= p < |slots| && slots[p].key == key && slots[p].word.available
  }

  ghost predicate WinnersOk(slots: seq<Slot>, calls: seq<Call>) {
    forall key | key != 0 :: Winners(calls, key) == if Filled(slots, key) then 1 else 0
  }

  ghost predicate Inv(layout: Layout, s: State) {
    && Exclusive(layout, s.calls, s.locks) && OneEntry(s.slots) && CallsOk(s.slots, s.calls) && Apart(s.calls)
    && WinnersOk(s.slots, s.calls) && MakersOk(s.slots, s.calls)
  }

  // ---------------------------------------------------------------------------------------
  // Steps keep it

  lemma {:induction false} WinnersUpdate(calls: seq<Call>, c: nat, call: Call, key: nat)
    requires c < |calls|
    ensures Winners(calls[c := call], key) + (if Won(calls[c], key) then 1 else 0) ==
      Winners(calls, key) + if Won(call, key) then 1 else 0
    decreases |calls|
  {
    var n := |calls| - 1;
    if c == n {
      assert calls[c := call][..n] == calls[..n];
    } else {
      assert calls[c := call][..n] == calls[..n][c := call];
      WinnersUpdate(calls[..n], c, call, key);
    }
  }

  /** A move inside or out of the lock, or one that leaves it. */
  lemma ExclusiveKept(layout: Layout, calls: seq<Call>, locks: seq<bool>, c: nat, pc: Pc, locks': seq<bool>)
    requires Exclusive(layout, calls, locks) && c < |calls|
    requires var stripe := layout.stripe(calls[c].key);
      || (locks' == locks && (InLock(pc) ==> InLock(calls[c].pc)))
      || (InLock(calls[c].pc) && !InLock(pc) && stripe < |locks| && locks' == locks[stripe := false])
      || (InLock(pc) && stripe < |locks| && !locks[stripe] && locks' == locks[stripe := true])
    ensures Exclusive(layout, calls[c := calls[c].(pc := pc)], locks')
  {
  }

  /** A step that touches no slot. */
  lemma MoveKeeps(layout: Layout, s: State, c: nat, pc: Pc, locks': seq<bool>)
    requires Inv(layout, s) && c < |s.calls|
    requires Exclusive(layout, s.calls[c := s.calls[c].(pc := pc)], locks')
    requires CallOk(s.slots, c, s.calls[c].(pc := pc)) && !pc.WriteKey?
    requires forall key :: Won(s.calls[c].(pc := pc), key) <==> Won(s.calls[c], key)
    ensures Inv(layout, Goto(s, c, pc).(locks := locks'))
  {
    var calls' := s.calls[c := s.calls[c].(pc := pc)];
    forall key | key != 0 ensures Winners(calls', key) == Winners(s.calls, key) {
      WinnersUpdate(s.calls, c, s.calls[c].(pc := pc), key);
    }
  }

  /** What a step on slot p may do to the slot, as the other calls see it. */
  ghost predicate Harmless(slots: seq<Slot>, p: nat, slot: Slot, d: nat, call: Call) {
    p < |slots| && (CallOk(slots, d, call) ==> CallOk(slots[p := slot], d, call))
  }

  /** The parts of a step that changes slot p, put together. */
  lemma WriteKeeps(layout: Layout, s: State, c: nat, p: nat, slot: Slot, pc: Pc)
    requires Inv(layout, s) && c < |s.calls| && p < |s.slots|
    requires InLock(s.calls[c].pc) && InLock(pc)
    requires forall d | 0 <= d < |s.calls| && d != c :: Harmless(s.slots, p, slot, d, s.calls[d])
    requires CallOk(s.slots[p := slot], c, s.calls[c].(pc := pc)) && OneEntry(s.slots[p := slot])
    requires (slot.key == s.slots[p].key && slot.maker == s.slots[p].maker) ||
      (slot.key == s.calls[c].key && slot.maker == c)
    requires pc.WriteKey? ==> forall d | 0 <= d < |s.calls| && d != c :: s.calls[d].pc != pc
    requires forall key | key != 0 ::
      (if Filled(s.slots[p := slot], key) then 1 else 0) + (if Won(s.calls[c], key) then 1 else 0) ==
      (if Filled(s.slots, key) then 1 else 0) + (if Won(s.calls[c].(pc := pc), key) then 1 else 0)
    ensures Inv(layout, Goto(SetSlot(s, p, slot), c, pc))
  {
    var s' := Goto(SetSlot(s, p, slot), c, pc);
    ExclusiveKept(layout, s.calls, s.locks, c, pc, s.locks);
    forall key | key != 0 ensures Winners(s'.calls, key) == if Filled(s'.slots, key) then 1 else 0 {
      WinnersUpdate(s.calls, c, s.calls[c].(pc := pc), key);
    }
    forall d | 0 <= d < |s'.calls| ensures CallOk(s'.slots, d, s'.calls[d]) {
      if d != c { assert Harmless(s.slots, p, slot, d, s.calls[d]); }
    }
  }

  /** A key that is filled stays so, and no other becomes so, when p keeps its key and its available bit. */
  lemma FilledSame(slots: seq<Slot>, p: nat, slot: Slot, key: nat)
    requires p < |slots| && (slot.key == slots[p].key || (slots[p].key == 0 && !slot.word.available))
    requires slot.word.available == slots[p].word.available && key != 0
    ensures Filled(slots[p := slot], key) == Filled(slots, key)
  {
    var slots' := slots[p := slot];
    if Filled(slots, key) {
      var q :| 0 <= q < |slots| && slots[q].key == key && slots[q].word.available;
      assert slots'[q].key == key && slots'[q].word.available;
    }
    if Filled(slots', key) {
      var q :| 0 <= q < |slots'| && slots'[q].key == key && slots'[q].word.available;
      assert slots[q].key == key && slots[q].word.available;
    }
  }

  lemma FilledElsewhere(slots: seq<Slot>, p: nat, slot: Slot, key: nat)
    requires p < |slots| && slots[p].key != key && slot.key != key
    ensures Filled(slots[p := slot], key) == Filled(slots, key)
  {
    var slots' := slots[p := slot];
    if Filled(slots, key) {
      var q :| 0 <= q < |slots| && slots[q].key == key && slots[q].word.available;
      assert slots'[q].key == key && slots'[q].word.available;
    }
  }

  /** mark_reserve succeeds. */
  lemma TakeKeeps(layout: Layout, s: State, c: nat, p: nat)
    requires Inv(layout, s) && c < |s.calls| && s.calls[c].pc.Try? && p < |s.slots| && s.slots[p].word == FREE
    ensures Inv(layout, Goto(SetSlot(s, p, s.slots[p].(word := Word(true, false))), c, WriteKey(p)))
  {
    var slot := s.slots[p].(word := Word(true, false));
    assert CallOk(s.slots, c, s.calls[c]);
    forall d | 0 <= d < |s.calls| && d != c
      ensures Harmless(s.slots, p, slot, d, s.calls[d]) && s.calls[d].pc != WriteKey(p)
    {
      assert CallOk(s.slots, d, s.calls[d]);
    }
    forall key | key != 0
      ensures Filled(s.slots[p := slot], key) == Filled(s.slots, key)
    {
      FilledSame(s.slots, p, slot, key);
    }
    WriteKeeps(layout, s, c, p, slot, WriteKey(p));
  }

  /** mark_reserve fails, but its fetch-or has set the bit. */
  lemma NudgeKeeps(layout: Layout, s: State, c: nat, i: nat, p: nat)
    requires Inv(layout, s) && c < |s.calls| && s.calls[c].pc.Try? && p < |s.slots| && s.slots[p].word != FREE
    ensures Inv(layout, Goto(SetSlot(s, p, s.slots[p].(word := s.slots[p].word.(reserved := true))), c, Check(i)))
  {
    var slot := s.slots[p].(word := s.slots[p].word.(reserved := true));
    assert CallOk(s.slots, c, s.calls[c]);
    forall d | 0 <= d < |s.calls| && d != c ensures Harmless(s.slots, p, slot, d, s.calls[d]) { }
    forall key | key != 0
      ensures Filled(s.slots[p := slot], key) == Filled(s.slots, key)
    {
      FilledSame(s.slots, p, slot, key);
    }
    WriteKeeps(layout, s, c, p, slot, Check(i));
  }

  /** Nobody else in the lock has this call's key. */
  lemma AloneWithKey(layout: Layout, s: State, c: nat, d: nat)
    requires Exclusive(layout, s.calls, s.locks) && c < |s.calls| && d < |s.calls| && c != d
    requires InLock(s.calls[c].pc) && s.calls[d].key == s.calls[c].key
    ensures !InLock(s.calls[d].pc)
  {
  }

  lemma WriteKeyKeeps(layout: Layout, s: State, c: nat, p: nat)
    requires Inv(layout, s) && c < |s.calls| && s.calls[c].pc == WriteKey(p) && p < |s.slots|
    ensures Inv(layout, Goto(SetSlot(s, p, s.slots[p].(key := s.calls[c].key, maker := c)), c,
                             if s.calls[c].op.Add? then SetData(p) else Unlock(p, true)))
  {
    var slot := s.slots[p].(key := s.calls[c].key, maker := c);
    assert CallOk(s.slots, c, s.calls[c]);
    forall d | 0 <= d < |s.calls| && d != c ensures Harmless(s.slots, p, slot, d, s.calls[d]) {
      if s.calls[d].key == s.calls[c].key { AloneWithKey(layout, s, c, d); }
      assert s.calls[d].pc != WriteKey(p);
    }
    forall key | key != 0
      ensures Filled(s.slots[p := slot], key) == Filled(s.slots, key)
    {
      FilledSame(s.slots, p, slot, key);
    }
    WriteKeeps(layout, s, c, p, slot, if s.calls[c].op.Add? then SetData(p) else Unlock(p, true));
  }

  lemma SetDataKeeps(layout: Layout, s: State, c: nat, p: nat, data: nat)
    requires Inv(layout, s) && c < |s.calls| && s.calls[c].pc == SetData(p) && p < |s.slots|
    requires s.calls[c].op.Add? && data == s.calls[c].op.data
    ensures Inv(layout, Goto(SetSlot(s, p, s.slots[p].(data := data)), c, MarkWrite(p)))
  {
    var slot := s.slots[p].(data := data);
    assert CallOk(s.slots, c, s.calls[c]);
    forall d | 0 <= d < |s.calls| && d != c ensures Harmless(s.slots, p, slot, d, s.calls[d]) {
      if s.calls[d].key == s.calls[c].key { AloneWithKey(layout, s, c, d); }
    }
    forall key | key != 0
      ensures Filled(s.slots[p := slot], key) == Filled(s.slots, key)
    {
      FilledSame(s.slots, p, slot, key);
    }
    WriteKeeps(layout, s, c, p, slot, MarkWrite(p));
  }

  lemma MarkWriteKeeps(layout: Layout, s: State, c: nat, p: nat)
    requires Inv(layout, s) && c < |s.calls| && s.calls[c].pc == MarkWrite(p) && p < |s.slots|
    ensures Inv(layout, Goto(SetSlot(s, p, s.slots[p].(word := Word(false, true))), c, Unlock(p, true)))
  {
    var slot, key := s.slots[p].(word := Word(false, true)), s.calls[c].key;
    var slots' := s.slots[p := slot];
    assert CallOk(s.slots, c, s.calls[c]);
    forall d | 0 <= d < |s.calls| && d != c ensures Harmless(s.slots, p, slot, d, s.calls[d]) {
      if s.calls[d].key == key { AloneWithKey(layout, s, c, d); }
    }
    assert slots'[p].key == key && slots'[p].word.available && Filled(slots', key);
    assert !Filled(s.slots, key);
    forall k | k != 0 && k != key ensures Filled(slots', k) == Filled(s.slots, k) {
      FilledElsewhere(s.slots, p, slot, k);
    }
    WriteKeeps(layout, s, c, p, slot, Unlock(p, true));
  }

  lemma StartKeeps(layout: Layout, s: State, c: nat, miss: bool)
    requires Inv(layout, s) && c < |s.calls| && s.calls[c].pc.Start?
    ensures Inv(layout, Advance(layout, s, c, miss))
  {
    var stripe := layout.stripe(s.calls[c].key);
    assert CallOk(s.slots, c, s.calls[c]);
    if stripe < |s.locks| {
      var pc, locks := if s.locks[stripe] then Peek else Search, if s.locks[stripe] then s.locks
        else s.locks[stripe := true];
      ExclusiveKept(layout, s.calls, s.locks, c, pc, locks);
      MoveKeeps(layout, s, c, pc, locks);
    }
  }

  lemma PeekKeeps(layout: Layout, s: State, c: nat, miss: bool)
    requires Inv(layout, s) && c < |s.calls| && s.calls[c].pc.Peek?
    ensures Inv(layout, AfterPeek(s, c, miss))
  {
    assert CallOk(s.slots, c, s.calls[c]);
    var p := Find(s.slots, s.calls[c].key, 0);
    var pc := if !miss && p < |s.slots| && (s.calls[c].op.Reserve? || Available(s.slots[p].word)) then Done(p, false)
      else Start;
    ExclusiveKept(layout, s.calls, s.locks, c, pc, s.locks);
    MoveKeeps(layout, s, c, pc, s.locks);
  }

  lemma SearchKeeps(layout: Layout, s: State, c: nat)
    requires Inv(layout, s) && c < |s.calls| && s.calls[c].pc.Search?
    ensures Inv(layout, AfterSearch(s, c))
  {
    assert CallOk(s.slots, c, s.calls[c]);
    var p := Find(s.slots, s.calls[c].key, 0);
    var pc :=
      if p == |s.slots| then Check(0)
      else if s.calls[c].op.Add? && Reserved(s.slots[p].word) then SetData(p)
      else Unlock(p, false);
    ExclusiveKept(layout, s.calls, s.locks, c, pc, s.locks);
    MoveKeeps(layout, s, c, pc, s.locks);
  }

  lemma TryKeeps(layout: Layout, s: State, c: nat, i: nat, p: nat)
    requires Inv(layout, s) && c < |s.calls| && s.calls[c].pc.Try? && p < |s.slots|
    ensures Inv(layout, AfterTry(s, c, i, p))
  {
    if s.slots[p].word == FREE {
      TakeKeeps(layout, s, c, p);
    } else if s.calls[c].op.used {
      ScanKeeps(layout, s, c, Check(i + 1));
    } else {
      NudgeKeeps(layout, s, c, i + 1, p);
    }
  }

  lemma ScanKeeps(layout: Layout, s: State, c: nat, pc: Pc)
    requires Inv(layout, s) && c < |s.calls| && (s.calls[c].pc.Check? || s.calls[c].pc.Try?) && (pc.Check? || pc.Try?)
    ensures Inv(layout, Goto(s, c, pc))
  {
    assert CallOk(s.slots, c, s.calls[c]);
    ExclusiveKept(layout, s.calls, s.locks, c, pc, s.locks);
    MoveKeeps(layout, s, c, pc, s.locks);
  }

  lemma UnlockKeeps(layout: Layout, s: State, c: nat, miss: bool)
    requires Inv(layout, s) && c < |s.calls| && s.calls[c].pc.Unlock?
    ensures Inv(layout, Advance(layout, s, c, miss))
  {
    var stripe, pc := layout.stripe(s.calls[c].key), Done(s.calls[c].pc.item, s.calls[c].pc.won);
    assert CallOk(s.slots, c, s.calls[c]);
    if stripe < |s.locks| {
      ExclusiveKept(layout, s.calls, s.locks, c, pc, s.locks[stripe := false]);
      MoveKeeps(layout, s, c, pc, s.locks[stripe := false]);
    }
  }

  lemma ProbeKeeps(layout: Layout, s: State, c: nat, miss: bool)
    requires Inv(layout, s) && c < |s.calls| && (s.calls[c].pc.Check? || s.calls[c].pc.Try?)
    ensures Inv(layout, Advance(layout, s, c, miss))
  {
    var probes, i := layout.probes(s.calls[c].key), s.calls[c].pc.i;
    ProbeIs(layout, s, c, miss);
    if Probes(layout, s, c) { ProbedKeeps(layout, s, c, i, probes[i], Advance(layout, s, c, miss)); }
  }

  lemma ProbedKeeps(layout: Layout, s: State, c: nat, i: nat, p: nat, s': State)
    requires Inv(layout, s) && c < |s.calls| && (s.calls[c].pc == Check(i) || s.calls[c].pc == Try(i)) && p < |s.slots|
    requires s' == if s.calls[c].pc.Try? then AfterTry(s, c, i, p)
      else Goto(s, c, if s.slots[p].word == FREE then Try(i) else Check(i + 1))
    ensures Inv(layout, s')
  {
    if s.calls[c].pc.Try? {
      TryKeeps(layout, s, c, i, p);
    } else if s.slots[p].word == FREE {
      ScanKeeps(layout, s, c, Try(i));
    } else {
      ScanKeeps(layout, s, c, Check(i + 1));
    }
  }

  /** The call is at a probe that is there. */
  predicate Probes(layout: Layout, s: State, c: nat)
    requires c < |s.calls| && (s.calls[c].pc.Check? || s.calls[c].pc.Try?)
  {
    var probes, i := layout.probes(s.calls[c].key), s.calls[c].pc.i;
    layout.stripe(s.calls[c].key) < |s.locks| && i < |probes| && probes[i] < |s.slots|
  }

  lemma ProbeIs(layout: Layout, s: State, c: nat, miss: bool)
    requires c < |s.calls| && (s.calls[c].pc.Check? || s.calls[c].pc.Try?)
    ensures Advance(layout, s, c, miss) ==
      if !Probes(layout, s, c) then s else
        var i, p := s.calls[c].pc.i, layout.probes(s.calls[c].key)[s.calls[c].pc.i];
        if s.calls[c].pc.Try? then AfterTry(s, c, i, p)
        else Goto(s, c, if s.slots[p].word == FREE then Try(i) else Check(i + 1))
  {
  }

  lemma FillKeeps(layout: Layout, s: State, c: nat, miss: bool)
    requires Inv(layout, s) && c < |s.calls| && (s.calls[c].pc.SetData? || s.calls[c].pc.MarkWrite?)
    ensures Inv(layout, Advance(layout, s, c, miss))
  {
    var p := s.calls[c].pc.p;
    if p < |s.slots| {
      if s.calls[c].pc.MarkWrite? {
        MarkWriteKeeps(layout, s, c, p);
      } else if s.calls[c].op.Add? {
        SetDataKeeps(layout, s, c, p, s.calls[c].op.data);
      }
    }
  }

  lemma StepKeepsInv(layout: Layout, s: State, c: nat, miss: bool)
    requires Inv(layout, s) && c < |s.calls|
    ensures Inv(layout, Advance(layout, s, c, miss))
  {
    match s.calls[c].pc
    case Start => StartKeeps(layout, s, c, miss);
    case Peek => PeekKeeps(layout, s, c, miss);
    case Search => SearchKeeps(layout, s, c);
    case Check(_) => ProbeKeeps(layout, s, c, miss);
    case Try(_) => ProbeKeeps(layout, s, c, miss);
    case WriteKey(p) => if p < |s.slots| { WriteKeyKeeps(layout, s, c, p); }
    case SetData(_) => FillKeeps(layout, s, c, miss);
    case MarkWrite(_) => FillKeeps(layout, s, c, miss);
    case Unlock(_, _) => UnlockKeeps(layout, s, c, miss);
    case Done(_, _) =>
  }

  // ---------------------------------------------------------------------------------------
  // Every run

  /** Calls about to start on an empty table. */
  ghost predicate Initial(s: State) {
    && (forall c | 0 <= c < |s.calls| :: s.calls[c].pc.Start? && s.calls[c].key != 0)
    && (forall p | 0 <= p < |s.slots| :: s.slots[p].key == 0 && s.slots[p].word == FREE)
  }

  lemma {:induction false} NoWinners(calls: seq<Call>, key: nat)
    requires forall c | 0 <= c < |calls| :: calls[c].pc.Start?
    ensures Winners(calls, key) == 0
  {
    if calls != [] { NoWinners(calls[..|calls| - 1], key); }
  }

  lemma {:induction false} RunKeepsInv(layout: Layout, s: State, picks: seq<Pick>)
    requires Initial(s)
    ensures Inv(layout, Exec(layout, s, picks))
  {
    if picks == [] {
      forall key | key != 0 ensures Winners(s.calls, key) == 0 { NoWinners(s.calls, key); }
    } else {
      RunKeepsInv(layout, s, picks[..|picks| - 1]);
      var before, pick := Exec(layout, s, picks[..|picks| - 1]), picks[|picks| - 1];
      if pick.call < |before.calls| { StepKeepsInv(layout, before, pick.call, pick.miss); }
    }
  }

  lemma SameItem(slots: seq<Slot>, calls: seq<Call>)
    requires CallsOk(slots, calls) && OneEntry(slots)
    ensures forall c, d | 0 <= c < |calls| && 0 <= d < |calls| && calls[c].pc.Done? && calls[d].pc.Done? &&
      calls[c].key == calls[d].key :: calls[c].pc.item == calls[d].pc.item
  {
    forall c, d | 0 <= c < |calls| && 0 <= d < |calls| && calls[c].pc.Done? && calls[d].pc.Done? &&
      calls[c].key == calls[d].key ensures calls[c].pc.item == calls[d].pc.item
    {
      assert CallOk(slots, c, calls[c]) && CallOk(slots, d, calls[d]);
    }
  }

  lemma DoneFills(slots: seq<Slot>, calls: seq<Call>, key: nat)
    requires CallsOk(slots, calls)
    ensures (exists c :: 0 <= c < |calls| && calls[c].key == key && calls[c].op.Add? && calls[c].pc.Done?) ==>
      Filled(slots, key)
  {
    if c :| 0 <= c < |calls| && calls[c].key == key && calls[c].op.Add? && calls[c].pc.Done? {
      assert CallOk(slots, c, calls[c]);
    }
  }

  lemma WinnersPayload(slots: seq<Slot>, calls: seq<Call>, key: nat)
    requires CallsOk(slots, calls) && OneEntry(slots)
    ensures forall p, c | 0 <= p < |slots| && 0 <= c < |calls| && slots[p].key == key && Won(calls[c], key) ::
      slots[p].word.available && slots[p].data == calls[c].op.data
  {
    forall p, c | 0 <= p < |slots| && 0 <= c < |calls| && slots[p].key == key && Won(calls[c], key)
      ensures slots[p].word.available && slots[p].data == calls[c].op.data
    {
      assert CallOk(slots, c, calls[c]);
    }
  }

  /**
   At most one entry per key, every caller of the key gets it, and exactly one addition wins:
   the one whose payload the entry holds.
   */
  lemma OneWinnerPerKey(layout: Layout, s: State, picks: seq<Pick>, key: nat)
    requires Initial(s) && key != 0
    ensures var e := Exec(layout, s, picks);
      && (forall p, q | 0 <= p < |e.slots| && 0 <= q < |e.slots| && e.slots[p].key == e.slots[q].key == key :: p == q)
      && (forall c, d | 0 <= c < |e.calls| && 0 <= d < |e.calls| && e.calls[c].pc.Done? && e.calls[d].pc.Done? &&
            e.calls[c].key == e.calls[d].key :: e.calls[c].pc.item == e.calls[d].pc.item)
      && Winners(e.calls, key) <= 1
      && ((exists c :: 0 <= c < |e.calls| && e.calls[c].key == key && e.calls[c].op.Add? && e.calls[c].pc.Done?) ==>
            Winners(e.calls, key) == 1)
      && (forall p, c | 0 <= p < |e.slots| && 0 <= c < |e.calls| && e.slots[p].key == key && Won(e.calls[c], key) ::
            e.slots[p].word.available && e.slots[p].data == e.calls[c].op.data)
  {
    RunKeepsInv(layout, s, picks);
    var e := Exec(layout, s, picks);
    SameItem(e.slots, e.calls);
    DoneFills(e.slots, e.calls, key);
    WinnersPayload(e.slots, e.calls, key);
  }

  lemma ReservationsOf(slots: seq<Slot>, calls: seq<Call>, p: nat)
    requires CallsOk(slots, calls) && OneEntry(slots)
    ensures p < |slots| && slots[p].key != 0 ==>
      forall c | 0 <= c < |calls| && calls[c].key == slots[p].key && calls[c].op.Reserve? && calls[c].pc.Done? ::
        calls[c].pc.won <==> c == slots[p].maker
  {
    if p < |slots| && slots[p].key != 0 {
      forall c | 0 <= c < |calls| && calls[c].key == slots[p].key && calls[c].op.Reserve? && calls[c].pc.Done?
        ensures calls[c].pc.won <==> c == slots[p].maker
      {
        assert CallOk(slots, c, calls[c]);
      }
    }
  }

  /**
   Send aggregation. A reservation reports success exactly when it made the entry of its key. So
   at most one reservation of a key does, and no reservation does when an addition made the entry.
   */
  lemma ReservedByItsMaker(layout: Layout, s: State, picks: seq<Pick>, p: nat)
    requires Initial(s)
    ensures var e := Exec(layout, s, picks);
      p < |e.slots| && e.slots[p].key != 0 ==>
        && e.slots[p].maker < |e.calls| && e.calls[e.slots[p].maker].key == e.slots[p].key
        && (forall c | 0 <= c < |e.calls| && e.calls[c].key == e.slots[p].key && e.calls[c].op.Reserve? &&
              e.calls[c].pc.Done? :: e.calls[c].pc.won <==> c == e.slots[p].maker)
  {
    RunKeepsInv(layout, s, picks);
    var e := Exec(layout, s, picks);
    ReservationsOf(e.slots, e.calls, p);
  }

  /**
   A call that met a busy lock goes home with its key's entry exactly when its scan did not miss it
   and the entry is there, available if it is to be added; otherwise it starts over.
   */
  lemma PeekIff(layout: Layout, s: State, c: nat, miss: bool)
    requires Inv(layout, s) && c < |s.calls| && s.calls[c].pc.Peek? && layout.stripe(s.calls[c].key) < |s.locks|
    ensures var call, pc := s.calls[c], Advance(layout, s, c, miss).calls[c].pc;
      && (pc.Done? <==> !miss && exists p ::
            0 <= p < |s.slots| && s.slots[p].key == call.key && (call.op.Reserve? || Available(s.slots[p].word)))
      && (!pc.Done? ==> pc == Start)
  {
    assert CallOk(s.slots, c, s.calls[c]);
    assert 0 <= Find(s.slots, s.calls[c].key, 0);
  }

  /** A stripe lock that is set is held by a call. */
  ghost predicate Held(layout: Layout, s: State) {
    forall l | 0 <= l < |s.locks| && s.locks[l] :: Holder(layout, s.calls, l)
  }

  ghost predicate Holder(layout: Layout, calls: seq<Call>, l: nat) {
    exists c :: 0 <= c < |calls| && InLock(calls[c].pc) && layout.stripe(calls[c].key) == l
  }

  lemma StepKeepsHeld(layout: Layout, s: State, c: nat, miss: bool)
    requires Held(layout, s) && c < |s.calls|
    ensures Held(layout, Advance(layout, s, c, miss))
  {
    var s' := Advance(layout, s, c, miss);
    forall l | 0 <= l < |s'.locks| && s'.locks[l] ensures Holder(layout, s'.calls, l) {
      if s.locks[l] {
        var d :| 0 <= d < |s.calls| && InLock(s.calls[d].pc) && layout.stripe(s.calls[d].key) == l;
        assert InLock(s'.calls[d].pc) && layout.stripe(s'.calls[d].key) == l;
      } else {
        assert InLock(s'.calls[c].pc) && layout.stripe(s'.calls[c].key) == l;
      }
    }
  }

  lemma {:induction false} RunKeepsHeld(layout: Layout, s: State, picks: seq<Pick>)
    requires Held(layout, s)
    ensures Held(layout, Exec(layout, s, picks))
  {
    if picks != [] {
      RunKeepsHeld(layout, s, picks[..|picks| - 1]);
      var before, pick := Exec(layout, s, picks[..|picks| - 1]), picks[|picks| - 1];
      if pick.call < |before.calls| { StepKeepsHeld(layout, before, pick.call, pick.miss); }
    }
  }

  /** From free locks: a stripe lock is set exactly while one call is inside, so it is free again in the end. */
  lemma LockIsHeld(layout: Layout, s: State, picks: seq<Pick>, l: nat)
    requires Initial(s) && forall k | 0 <= k < |s.locks| :: !s.locks[k]
    ensures var e := Exec(layout, s, picks);
      l < |e.locks| ==>
        (e.locks[l] <==> exists c :: 0 <= c < |e.calls| && InLock(e.calls[c].pc) && layout.stripe(e.calls[c].key) == l)
  {
    RunKeepsInv(layout, s, picks);
    RunKeepsHeld(layout, s, picks);
  }

  /** The winner's payload, or an earlier winner's, is not overwritten while requested or available. */
  lemma FilledStays(layout: Layout, s: State, c: nat, miss: bool, p: nat)
    requires Inv(layout, s) && c < |s.calls| && p < |s.slots| && s.slots[p].key != 0 && s.slots[p].word.available
    ensures var slot := Advance(layout, s, c, miss).slots[p];
      slot.key == s.slots[p].key && slot.data == s.slots[p].data && slot.word.available
  {
    assert CallOk(s.slots, c, s.calls[c]);
  }

  // ---------------------------------------------------------------------------------------
  // Requested by accident

  /**
   An entry gets both bits, and so stops being found as available, exactly when a call on another
   key that does not use its entry at once had seen the slot free before the entry took it.
   */
  lemma RequestedIff(layout: Layout, s: State, c: nat, miss: bool, p: nat)
    requires Inv(layout, s) && c < |s.calls| && p < |s.slots| && !Requested(s.slots[p].word)
    ensures Requested(Advance(layout, s, c, miss).slots[p].word) <==>
      var call := s.calls[c];
      && layout.stripe(call.key) < |s.locks| && call.pc.Try? && call.pc.i < |layout.probes(call.key)|
      && layout.probes(call.key)[call.pc.i] == p && !call.op.used && Available(s.slots[p].word)
  {
    assert CallOk(s.slots, c, s.calls[c]);
  }

  ghost predicate NoneRequested(s: State) {
    forall p | 0 <= p < |s.slots| :: !Requested(s.slots[p].word)
  }

  lemma StepNeverRequests(layout: Layout, s: State, c: nat, miss: bool)
    requires Inv(layout, s) && c < |s.calls| && NoneRequested(s) && forall d | 0 <= d < |s.calls| :: s.calls[d].op.used
    ensures var s' := Advance(layout, s, c, miss);
      NoneRequested(s') && |s'.calls| == |s.calls| && (forall d | 0 <= d < |s'.calls| :: s'.calls[d].op.used)
  {
    var s' := Advance(layout, s, c, miss);
    OpsStay(layout, s, c, miss);
    forall p | 0 <= p < |s'.slots| ensures !Requested(s'.slots[p].word) { RequestedIff(layout, s, c, miss, p); }
  }

  lemma OpsStay(layout: Layout, s: State, c: nat, miss: bool)
    requires c < |s.calls|
    ensures var s' := Advance(layout, s, c, miss);
      && |s'.slots| == |s.slots| && |s'.calls| == |s.calls|
      && forall d | 0 <= d < |s.calls| :: s'.calls[d].op == s.calls[d].op
  {
  }

  /** When every call uses its entry at once, no entry is ever requested. */
  lemma {:induction false} UsedAtOnceNeverRequests(layout: Layout, s: State, picks: seq<Pick>)
    requires Initial(s) && forall c | 0 <= c < |s.calls| :: s.calls[c].op.used
    ensures var e := Exec(layout, s, picks);
      NoneRequested(e) && |e.calls| == |s.calls| && (forall c | 0 <= c < |e.calls| :: e.calls[c].op.used)
  {
    if picks != [] {
      var before, pick := Exec(layout, s, picks[..|picks| - 1]), picks[|picks| - 1];
      UsedAtOnceNeverRequests(layout, s, picks[..|picks| - 1]);
      RunKeepsInv(layout, s, picks[..|picks| - 1]);
      if pick.call < |before.calls| { StepNeverRequests(layout, before, pick.call, pick.miss); }
    }
  }

  function Two(): Layout { Layout((key: nat) => key, (key: nat) => [0, 1]) }

  const BLANK: Slot := Slot(FREE, 0, 0, 0)

  /** Both calls of the example: additions without use, of key 1 and of key 2. */
  function Pair(pc: Pc, pc': Pc): seq<Call> { [Call(1, Add(5, false), pc), Call(2, Add(7, false), pc')] }

  function Step(s: State, c: nat): State { if c < |s.calls| then Advance(Two(), s, c, false) else s }

  /** Call 0 finds slot 0 free. */
  lemma FirstSteps(s: State)
    requires s == State([BLANK, BLANK], [false, false, false], Pair(Start, Start))
    ensures Step(Step(Step(s, 0), 0), 0) == State([BLANK, BLANK], [false, true, false], Pair(Try(0), Start))
  {
    var s1 := Step(s, 0);
    assert s1 == State([BLANK, BLANK], [false, true, false], Pair(Search, Start));
    var s2 := Step(s1, 0);
    assert s2 == State([BLANK, BLANK], [false, true, false], Pair(Check(0), Start));
  }

  /** So does call 1. */
  lemma NextSteps(s: State)
    requires s == State([BLANK, BLANK], [false, true, false], Pair(Try(0), Start))
    ensures Step(Step(Step(s, 1), 1), 1) == State([BLANK, BLANK], [false, true, true], Pair(Try(0), Try(0)))
  {
    var s1 := Step(s, 1);
    assert s1 == State([BLANK, BLANK], [false, true, true], Pair(Try(0), Search));
    var s2 := Step(s1, 1);
    assert s2 == State([BLANK, BLANK], [false, true, true], Pair(Try(0), Check(0)));
  }

  /** Call 1 takes the slot and makes its entry available. */
  lemma LastSteps(s: State)
    requires s == State([BLANK, BLANK], [false, true, true], Pair(Try(0), Try(0)))
    ensures Step(Step(Step(Step(s, 1), 1), 1), 1) ==
      State([Slot(Word(false, true), 2, 7, 1), BLANK], [false, true, true], Pair(Try(0), Unlock(0, true)))
  {
    var s1 := Step(s, 1);
    assert s1 == State([Slot(Word(true, false), 0, 0, 0), BLANK], [false, true, true], Pair(Try(0), WriteKey(0)));
    var s2 := Step(s1, 1);
    assert s2 == State([Slot(Word(true, false), 2, 0, 1), BLANK], [false, true, true], Pair(Try(0), SetData(0)));
    var s3 := Step(s2, 1);
    assert s3 == State([Slot(Word(true, false), 2, 7, 1), BLANK], [false, true, true], Pair(Try(0), MarkWrite(0)));
  }

  lemma {:induction false} ExecThen(s: State, picks: seq<Pick>, c: nat)
    ensures Exec(Two(), s, picks + [Pick(c, false)]) == Step(Exec(Two(), s, picks), c)
  {
    assert (picks + [Pick(c, false)])[..|picks|] == picks;
  }

  function Times(c: nat, n: nat): seq<Pick> { if n == 0 then [] else Times(c, n - 1) + [Pick(c, false)] }

  lemma {:induction false} ExecTimes(s: State, picks: seq<Pick>, c: nat, n: nat)
    requires n > 0
    ensures Exec(Two(), s, picks + Times(c, n)) == Step(Exec(Two(), s, picks + Times(c, n - 1)), c)
  {
    assert picks + Times(c, n) == picks + Times(c, n - 1) + [Pick(c, false)];
    ExecThen(s, picks + Times(c, n - 1), c);
  }

  lemma ExecThree(s: State, picks: seq<Pick>, c: nat)
    ensures Exec(Two(), s, picks + Times(c, 3)) == Step(Step(Step(Exec(Two(), s, picks), c), c), c)
  {
    assert picks + Times(c, 0) == picks;
    ExecTimes(s, picks, c, 1);
    ExecTimes(s, picks, c, 2);
    ExecTimes(s, picks, c, 3);
  }

  /** A finished entry becomes requested when call 0 then fails to reserve its slot. */
  lemma RequestedByAccident(s: State)
    requires s == State([BLANK, BLANK], [false, false, false], Pair(Start, Start))
    ensures Initial(s)
    ensures var picks := Times(0, 3) + Times(1, 3) + Times(1, 3) + [Pick(1, false)];
      var done, after := Exec(Two(), s, picks), Exec(Two(), s, picks + [Pick(0, false)]);
      && |done.slots| == |after.slots| == 2 && done.slots[0].key == 2
      && Available(done.slots[0].word) && Requested(after.slots[0].word)
  {
    assert [] + Times(0, 3) == Times(0, 3);
    ExecThree(s, [], 0);
    FirstSteps(s);
    ExecThree(s, Times(0, 3), 1);
    NextSteps(Exec(Two(), s, Times(0, 3)));
    ExecThree(s, Times(0, 3) + Times(1, 3), 1);
    ExecThen(s, Times(0, 3) + Times(1, 3) + Times(1, 3), 1);
    LastSteps(Exec(Two(), s, Times(0, 3) + Times(1, 3)));
    ExecThen(s, Times(0, 3) + Times(1, 3) + Times(1, 3) + [Pick(1, false)], 0);
  }
}
