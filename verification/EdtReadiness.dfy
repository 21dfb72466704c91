/**
 Creating an EDT under a GUID that others already use.

 One creator inserts the EDT and replays the out-of-order list. For each dependency slot one
 sender first (optionally) sets the slot's metadata and then signals the slot, as
 arts_add_dependence_at_ex does. Senders that do not find the EDT in the route table park
 their operation on the list; the list is the one of module OoList, step for step.
 */
module EdtReadiness {
  import opened Common
  import opened OoList
  import OoLock

  /** A slot: zeroed at creation. Mode 0 is DB_MODE_NULL. */
  datatype Dep = Dep(guid: nat, ptr: nat, mode: nat, flags: nat, sliceOffset: nat, sliceSize: nat)

  const ZERO_DEP: Dep := Dep(0, 0, 0, 0, 0, 0)

  datatype Metadata = Metadata(mode: nat, flags: nat, sliceOffset: nat, sliceSize: nat)

  datatype Signal = Signal(guid: nat, ptr: nat, mode: nat, flags: nat)

  /** What the sender of one slot does. */
  datatype Script = Script(meta: Option<Metadata>, sig: Signal)

  /** State of the GUID's route-table item. */
  datatype Item = Absent | Reserved | Available

  datatype Phase = Lookup | Reserve | CheckReserved | Parking | Write | Count

  datatype Sender = SetMeta(phase: Phase) | SendSignal(phase: Phase) | Sent

  datatype Creator =
    | Fill
    | Insert
    | Replaying
    | ReplayLookup(x: nat)
    | ReplayWrite(x: nat)
    | ReplayCount(x: nat)
    | DropSentinel
    | Created

  /**
   List calls: the signal of slot k is call 2k, its metadata is call 2k + 1, the fire is call
   2 * depc. `metaWritten`, `sigWritten` and `counted` record which writes and decrements have
   been made, and `sigWrites` counts the signal writes. `ready` counts the calls of
   arts_handle_ready_edt, and `readySlots` keeps the slots as they were at the first of them.
   */
  datatype World = World(
    scripts: seq<Script>,
    item: Item,
    list: State,
    senders: seq<Sender>,
    creator: Creator,
    depcNeeded: int,
    slots: seq<Dep>,
    metaWritten: set<nat>,
    sigWritten: set<nat>,
    counted: set<nat>,
    sigWrites: nat,
    ready: nat,
    readySlots: seq<Dep>)

  /** The matching signal of a slot with metadata carries DB_MODE_NULL and zero flags. */
  predicate WellFormed(scripts: seq<Script>) {
    forall k | 0 <= k < |scripts| ::
      scripts[k].meta.Some? ==> scripts[k].sig.mode == 0 && scripts[k].sig.flags == 0
  }

  function Calls(depc: nat): seq<Pc> {
    seq(2 * depc, _ => Add(CheckFire)) + [FireOp(Try(0))]
  }

  function Start(scripts: seq<Script>): World {
    World(scripts, Absent, Initial(Calls(|scripts|)),
          seq(|scripts|, k requires 0 <= k < |scripts| => if scripts[k].meta.Some? then SetMeta(Lookup)
            else SendSignal(Lookup)),
          Fill, 0, seq(|scripts|, _ => ZERO_DEP), {}, {}, {}, 0, 0, [])
  }

  /** The writes of internal_signal_edt_ex and arts_set_dep_metadata_ext. */
  function WriteSignal(d: Dep, g: Signal): Dep {
    var d1 := d.(guid := g.guid, ptr := g.ptr);
    var d2 := if g.mode != 0 then d1.(mode := g.mode, sliceOffset := 0, sliceSize := 0) else d1;
    if g.flags != 0 then d2.(flags := g.flags) else d2
  }

  function WriteMeta(d: Dep, m: Metadata): Dep {
    d.(mode := m.mode, flags := m.flags, sliceOffset := m.sliceOffset, sliceSize := m.sliceSize)
  }

  function ApplyMeta(s: World, k: nat): World {
    if k < |s.slots| && k < |s.scripts| && s.scripts[k].meta.Some?
    then s.(slots := s.slots[k := WriteMeta(s.slots[k], s.scripts[k].meta.value)], metaWritten := s.metaWritten + {k})
    else s
  }

  function ApplySignal(s: World, k: nat): World {
    if k < |s.slots| && k < |s.scripts|
    then s.(slots := s.slots[k := WriteSignal(s.slots[k], s.scripts[k].sig)], sigWritten := s.sigWritten + {k},
           sigWrites := s.sigWrites + 1)
    else s
  }

  /** arts_atomic_sub on depc_needed, and arts_handle_ready_edt when it returns 0. */
  function Decrement(s: World): World {
    var s1 := s.(depcNeeded := s.depcNeeded - 1);
    if s1.depcNeeded == 0
    then s1.(ready := s1.ready + 1, readySlots := if s1.ready == 0 then s1.slots else s1.readySlots)
    else s1
  }

  function Go(s: World, k: nat, p: Sender): World
    requires k < |s.senders|
  {
    s.(senders := s.senders[k := p])
  }

  function InPhase(p: Sender, phase: Phase): Sender
    requires !p.Sent?
  {
    if p.SetMeta? then SetMeta(phase) else SendSignal(phase)
  }

  /** What follows once an operation was applied or parked. */
  function AfterOp(p: Sender): Sender {
    if p.SetMeta? then SendSignal(Lookup) else Sent
  }

  function CallOf(p: Sender, k: nat): nat {
    if p.SetMeta? then 2 * k + 1 else 2 * k
  }

  function StepSender(s: World, k: nat): World
    requires k < |s.senders|
  {
    var p := s.senders[k];
    if p.Sent? then s else
    match p.phase
    case Lookup => Go(s, k, InPhase(p, if s.item == Available then Write else Reserve))
    case Reserve =>
      if s.item == Absent then Go(s, k, InPhase(p, Parking)).(item := Reserved) else Go(s, k, InPhase(p, CheckReserved))
    case CheckReserved => Go(s, k, InPhase(p, if s.item == Reserved then Parking else Lookup))
    case Parking =>
      var list' := Advance(s.list, CallOf(p, k));
      var s1 := s.(list := list');
      if CallOf(p, k) >= |list'.pcs| then s
      else if IsAccepted(list'.pcs[CallOf(p, k)]) then Go(s1, k, AfterOp(p))
      else if list'.pcs[CallOf(p, k)] == Add(Refused) then Go(s1, k, InPhase(p, Lookup))
      else s1
    case Write =>
      if p.SetMeta? then Go(ApplyMeta(s, k), k, AfterOp(p)) else Go(ApplySignal(s, k), k, SendSignal(Count))
    case Count =>
      Decrement(Go(s, k, Sent).(counted := s.counted + {k}))
  }

  function StepCreator(s: World): World {
    var depc := |s.scripts|;
    match s.creator
    case Fill =>
      s.(creator := Insert, slots := seq(depc, _ => ZERO_DEP), depcNeeded := depc + 1)
    case Insert =>
      s.(creator := Replaying, item := Available)
    case Replaying =>
      var list' := Advance(s.list, 2 * depc);
      if 2 * depc >= |list'.pcs| then s
      else if |list'.log| > |s.list.log| then s.(list := list', creator := ReplayLookup(list'.log[|list'.log| - 1]))
      else if list'.pcs[2 * depc] == FireOp(Fired) || list'.pcs[2 * depc] == FireOp(GaveUp)
      then s.(list := list', creator := DropSentinel)
      else s.(list := list')
    case ReplayLookup(x) =>
      if s.item == Available then s.(creator := ReplayWrite(x)) else s
    case ReplayWrite(x) =>
      if x % 2 == 1 then ApplyMeta(s, x / 2).(creator := Replaying)
      else ApplySignal(s, x / 2).(creator := ReplayCount(x))
    case ReplayCount(x) =>
      Decrement(s.(creator := Replaying, counted := s.counted + {x / 2}))
    case DropSentinel =>
      Decrement(s.(creator := Created))
    case Created => s
  }

  /** One step of sender `who`, or of the creator when `who` is the number of slots. */
  function Step(s: World, who: nat): World {
    if who < |s.senders| then StepSender(s, who)
    else if who == |s.senders| then StepCreator(s)
    else s
  }

  function Exec(s: World, schedule: seq<nat>): World
    decreases |schedule|
  {
    if schedule == [] then s else Exec(Step(s, schedule[0]), schedule[1..])
  }

  // ---------------------------------------------------------------------------------------
  // What the list tells its users

  /** Adders first, then one fire. */
  ghost predicate Shape(list: State, depc: nat) {
    && |list.pcs| == 2 * depc + 1
    && (forall x | 0 <= x < 2 * depc :: list.pcs[x].Add?)
    && list.pcs[2 * depc].FireOp?
  }

  /** Until the fire starts nothing is refused and nothing is replayed. */
  ghost predicate Fresh(list: State, depc: nat)
    requires Shape(list, depc)
  {
    list.pcs[2 * depc] == FireOp(Try(0)) ==>
      && !list.isFired && list.log == []
      && (forall x | 0 <= x < 2 * depc :: list.pcs[x] != Add(Refused) && list.pcs[x] != Add(LeaveRefused))
  }

  /** Until the fire marks the list nothing is replayed, and no adder that got in is turned away. */
  ghost predicate Unfired(list: State, depc: nat)
    requires Shape(list, depc)
  {
    !PastFire(list.pcs[2 * depc]) ==>
      !list.isFired && list.log == [] && forall x | 0 <= x < 2 * depc :: list.pcs[x] != Add(LeaveRefused)
  }

  ghost predicate ListInv(list: State, depc: nat) {
    Good(list) && FiredInv(list) && Shape(list, depc) && Fresh(list, depc) && Unfired(list, depc)
  }

  lemma StartList(depc: nat)
    ensures ListInv(Initial(Calls(depc)), depc)
  {
    InitialGood(Calls(depc));
  }

  /** The fire word is taken only by the fire. */
  lemma FireWordIsFires(list: State, depc: nat)
    requires OoLock.Inv(list.lock) && HoldsMatch(list) && Shape(list, depc)
    requires list.lock.writerLock == OoLock.Taken(OoLock.Fire)
    ensures OoLock.HasWord(HoldOf(list.pcs[2 * depc]))
  {
    var i: nat :| i < |list.lock.holds| && OoLock.HasWord(list.lock.holds[i]);
    assert list.lock.holds[i] == HoldOf(list.pcs[i]);
  }

  /** What one step of an adder does, as its sender sees it. */
  lemma AdderMoves(list: State, depc: nat, x: nat)
    requires HoldsMatch(list) && Shape(list, depc) && x < 2 * depc
    ensures var list' := Advance(list, x);
      && |list'.pcs| == |list.pcs| && list'.pcs == list.pcs[x := list'.pcs[x]] && list'.pcs[x].Add?
      && list'.log == list.log && list'.isFired == list.isFired && list.history <= list'.history
  {
    assert list.pcs[x] == Add(list.pcs[x].a);
    AddMoves(list, x, list.pcs[x].a);
  }

  /** An operation is accepted before it is replayed. */
  lemma AcceptedIsAhead(list: State, depc: nat, x: nat)
    requires DataInv(list) && Apart(list.pcs) && |list.lock.holds| == |list.pcs| && Shape(list, depc) && x < 2 * depc
    requires IsAccepted(Advance(list, x).pcs[x]) && !IsAccepted(list.pcs[x])
    ensures |list.log| <= Advance(list, x).pcs[x].a.index
  {
    assert list.pcs[x] == Add(list.pcs[x].a);
    assert IsPlacing(list.pcs[x]) && list.pcs[x].a.stage == Leave;
    NotDrained(list, x);
  }

  lemma LogIsAccepted(list: State, i: nat)
    requires DataInv(list) && Apart(list.pcs) && i < |list.log|
    ensures list.log[i] < |list.pcs| && list.pcs[list.log[i]] == Add(Accepted(i))
  {
    var x := list.history[i];
    assert x < |list.pcs| && ClaimOf(list.pcs[x], list.base, i);
    if IsPlacing(list.pcs[x]) { NotDrained(list, x); }
  }

  /** What one step of the fire does, as the creator sees it. */
  lemma FirerMoves(list: State, depc: nat)
    requires DataInv(list) && HoldsMatch(list) && Apart(list.pcs) && Shape(list, depc)
    ensures var list' := Advance(list, 2 * depc);
      && |list'.pcs| == |list.pcs| && list'.pcs == list.pcs[2 * depc := list'.pcs[2 * depc]] &&
        list'.pcs[2 * depc].FireOp?
      && list'.history == list.history
      && (|| list'.log == list.log
          || (|list.log| < |list.history| && list'.log == list.log + [list.history[|list.log|]]))
      && list'.pcs[2 * depc] != FireOp(Try(0))
  {
    var f := list.pcs[2 * depc].f;
    assert list.pcs[2 * depc] == FireOp(f);
    FireMoves(list, 2 * depc, f);
    if f.Swap? && f.done < f.total {
      SwapFindsItem(list, 2 * depc);
    }
  }

  lemma AdderKeepsFresh(list: State, depc: nat, x: nat)
    requires OoLock.Inv(list.lock) && HoldsMatch(list) && Shape(list, depc) && Fresh(list, depc) && x < 2 * depc
    ensures Shape(Advance(list, x), depc) && Fresh(Advance(list, x), depc)
  {
    AdderMoves(list, depc, x);
    if list.lock.writerLock == OoLock.Taken(OoLock.Fire) { FireWordIsFires(list, depc); }
    assert list.pcs[x] == Add(list.pcs[x].a);
  }

  lemma AdderKeepsUnfired(list: State, depc: nat, x: nat)
    requires HoldsMatch(list) && Shape(list, depc) && Unfired(list, depc) && x < 2 * depc
    ensures Shape(Advance(list, x), depc) && Unfired(Advance(list, x), depc)
  {
    AdderMoves(list, depc, x);
    assert list.pcs[x] == Add(list.pcs[x].a);
  }

  lemma FirerKeepsUnfired(list: State, depc: nat)
    requires HoldsMatch(list) && Shape(list, depc) && Unfired(list, depc)
    requires Shape(Advance(list, 2 * depc), depc)
    ensures Unfired(Advance(list, 2 * depc), depc)
  {
    var f := list.pcs[2 * depc].f;
    assert list.pcs[2 * depc] == FireOp(f);
    FireMoves(list, 2 * depc, f);
  }

  lemma AdderKeepsList(list: State, depc: nat, x: nat)
    requires ListInv(list, depc) && x < 2 * depc
    ensures ListInv(Advance(list, x), depc)
  {
    StepKeepsGood(list, x);
    StepKeepsFired(list, x);
    AdderKeepsFresh(list, depc, x);
    AdderKeepsUnfired(list, depc, x);
  }

  lemma FirerKeepsList(list: State, depc: nat)
    requires ListInv(list, depc)
    ensures ListInv(Advance(list, 2 * depc), depc)
  {
    StepKeepsGood(list, 2 * depc);
    StepKeepsFired(list, 2 * depc);
    LockKeepsApart(list);
    FirerMoves(list, depc);
    FirerKeepsUnfired(list, depc);
  }

  // ---------------------------------------------------------------------------------------
  // The invariant, one slot at a time

  /** Everything that concerns one slot. */
  datatype View = View(
    script: Script, sender: Sender, sigPc: Pc, metaPc: Pc, logLen: nat, creator: Creator, item: Item,
    metaWritten: bool, sigWritten: bool, counted: bool, dep: Dep)

  ghost function ViewOf(s: World, k: nat): View
    requires k < |s.scripts| == |s.senders| == |s.slots| && |s.list.pcs| == 2 * |s.scripts| + 1
  {
    View(s.scripts[k], s.senders[k], s.list.pcs[2 * k], s.list.pcs[2 * k + 1], |s.list.log|, s.creator, s.item,
         k in s.metaWritten, k in s.sigWritten, k in s.counted, s.slots[k])
  }

  /** An operation that is not on the list and not being parked. */
  predicate OffList(pc: Pc) {
    pc == Add(CheckFire) || pc == Add(Refused)
  }

  predicate PhaseOk(item: Item, phase: Phase, pc: Pc) {
    match phase
    case Parking => pc.Add? && !IsAccepted(pc) && pc != Add(Refused)
    case Write => OffList(pc) && item == Available
    case Count => OffList(pc) && item == Available
    case _ => pc == Add(CheckFire) || (pc == Add(Refused) && item == Available)
  }

  /** An operation that was parked or applied. */
  predicate Settled(item: Item, pc: Pc) {
    IsAccepted(pc) || (OffList(pc) && item == Available)
  }

  /** A parked operation whose replay has got past the write, or past the decrement. */
  predicate ReplayWrote(pc: Pc, logLen: nat, creator: Creator, x: nat) {
    IsAccepted(pc) ==> pc.a.index < logLen && creator != ReplayLookup(x) && creator != ReplayWrite(x)
  }

  predicate ReplayCounted(pc: Pc, logLen: nat, creator: Creator, x: nat) {
    ReplayWrote(pc, logLen, creator, x) && (IsAccepted(pc) ==> creator != ReplayCount(x))
  }

  /** The slot after the writes made so far. */
  function Render(script: Script, metaWritten: bool, sigWritten: bool): Dep {
    var guid, ptr := if sigWritten then script.sig.guid else 0, if sigWritten then script.sig.ptr else 0;
    if metaWritten && script.meta.Some? then
      var m := script.meta.value;
      Dep(guid, ptr, m.mode, m.flags, m.sliceOffset, m.sliceSize)
    else if sigWritten then Dep(guid, ptr, script.sig.mode, script.sig.flags, 0, 0)
    else ZERO_DEP
  }

  predicate ViewOk(k: nat, v: View) {
    && (match v.sender
        case SetMeta(phase) =>
          v.script.meta.Some? && phase != Count && v.sigPc == Add(CheckFire) && PhaseOk(v.item, phase, v.metaPc)
        case SendSignal(phase) => PhaseOk(v.item, phase, v.sigPc) && MetaSettled(v)
        case Sent => Settled(v.item, v.sigPc) && MetaSettled(v))
    && v.metaWritten == (v.script.meta.Some? && !v.sender.SetMeta? &&
      ReplayWrote(v.metaPc, v.logLen, v.creator, 2 * k + 1))
    && v.sigWritten == ((v.sender == SendSignal(Count) || v.sender.Sent?) &&
      ReplayWrote(v.sigPc, v.logLen, v.creator, 2 * k))
    && v.counted == (v.sender.Sent? && ReplayCounted(v.sigPc, v.logLen, v.creator, 2 * k))
    && v.dep == Render(v.script, v.metaWritten, v.sigWritten)
  }

  predicate MetaSettled(v: View) {
    if v.script.meta.Some? then Settled(v.item, v.metaPc) else v.metaPc == Add(CheckFire)
  }

  ghost predicate Sized(s: World) {
    && |s.scripts| == |s.senders| == |s.slots| && |s.list.pcs| == 2 * |s.scripts| + 1
    && WellFormed(s.scripts)
  }

  ghost predicate ViewsOk(s: World)
    requires Sized(s)
  {
    forall k: nat | k < |s.scripts| :: ViewOk(k, ViewOf(s, k))
  }

  /** Where the creator is. */
  ghost predicate CreatorOk(s: World)
    requires Sized(s)
  {
    var fire := s.list.pcs[2 * |s.scripts|];
    match s.creator
    case Fill => s.item != Available && fire == FireOp(Try(0))
    case Insert => s.item != Available && fire == FireOp(Try(0))
    case Replaying => s.item == Available
    case ReplayLookup(x) => s.item == Available && IsLastOfLog(s.list, x)
    case ReplayWrite(x) => s.item == Available && IsLastOfLog(s.list, x)
    case ReplayCount(x) => s.item == Available && IsLastOfLog(s.list, x) && x % 2 == 0
    case DropSentinel => s.item == Available && (fire == FireOp(Fired) || fire == FireOp(GaveUp))
    case Created => s.item == Available && (fire == FireOp(Fired) || fire == FireOp(GaveUp))
  }

  ghost predicate IsLastOfLog(list: State, x: nat) {
    && |list.log| > 0 && x == list.log[|list.log| - 1]
    && x + 1 < |list.pcs| && list.pcs[x] == Add(Accepted(|list.log| - 1))
  }

  ghost predicate CountOk(s: World) {
    && (forall k <- s.counted :: k < |s.scripts|)
    && (!s.creator.Fill? ==> s.depcNeeded == |s.scripts| - |s.counted| + (if s.creator.Created? then 0 else 1))
    && s.ready == (if s.creator.Created? && |s.counted| == |s.scripts| then 1 else 0)
    && (s.ready == 1 ==> s.readySlots == s.slots)
    && (forall k <- s.sigWritten :: k < |s.scripts|)
    && s.sigWrites == |s.sigWritten|
  }

  ghost predicate Inv(s: World) {
    Sized(s) && ListInv(s.list, |s.scripts|) && ViewsOk(s) && CreatorOk(s) && CountOk(s)
  }

  lemma StartInv(scripts: seq<Script>)
    requires WellFormed(scripts)
    ensures Inv(Start(scripts))
  {
    StartList(|scripts|);
    var s := Start(scripts);
    assert Sized(s);
    forall k: nat | k < |scripts| ensures ViewOk(k, ViewOf(s, k)) { }
  }

  // ---------------------------------------------------------------------------------------
  // Sender steps

  /** A step of sender k that does not touch the list. */
  lemma LocalStepKeepsView(s: World, k: nat)
    requires Sized(s) && ViewsOk(s) && k < |s.senders| && !s.senders[k].Sent? && s.senders[k].phase != Parking
    ensures var s' := StepSender(s, k); Sized(s') && ViewOk(k, ViewOf(s', k))
  {
    assert ViewOk(k, ViewOf(s, k));
  }

  /** A slot does not mind that its item gets reserved for another. */
  lemma ItemKeepsView(k: nat, v: View, item: Item)
    requires ViewOk(k, v) && (item == v.item || (v.item == Absent && item == Reserved))
    ensures ViewOk(k, v.(item := item))
  {
  }

  lemma LocalStepKeepsOthers(s: World, k: nat, j: nat)
    requires Sized(s) && k < |s.senders| && !s.senders[k].Sent? && s.senders[k].phase != Parking
    requires j < |s.senders| && j != k && ViewOk(j, ViewOf(s, j))
    ensures var s' := StepSender(s, k); Sized(s') && ViewOk(j, ViewOf(s', j))
  {
    LocalStepView(s, k, j);
    ItemKeepsView(j, ViewOf(s, j), StepSender(s, k).item);
  }

  lemma LocalStepView(s: World, k: nat, j: nat)
    requires Sized(s) && k < |s.senders| && !s.senders[k].Sent? && s.senders[k].phase != Parking
    requires j < |s.senders| && j != k
    ensures var s' := StepSender(s, k);
      && Sized(s') && ViewOf(s', j) == ViewOf(s, j).(item := s'.item)
      && (s'.item == s.item || (s.item == Absent && s'.item == Reserved))
  {
  }

  /** A list step of an operation of slot k, seen from slot j. */
  ghost predicate ListStep(s: World, list': State, x: nat) {
    && x < |s.list.pcs| == |list'.pcs| && list'.pcs == s.list.pcs[x := list'.pcs[x]]
    && list'.log == s.list.log && list'.pcs[x].Add?
  }

  lemma ParkingKeepsView(s: World, k: nat, list': State)
    requires Sized(s) && ViewsOk(s) && k < |s.senders| && !s.senders[k].Sent? && s.senders[k].phase == Parking
    requires ListStep(s, list', CallOf(s.senders[k], k)) && list' == Advance(s.list, CallOf(s.senders[k], k))
    requires list'.pcs[CallOf(s.senders[k], k)] == Add(Refused) ==> s.item == Available
    requires IsAccepted(list'.pcs[CallOf(s.senders[k], k)]) ==>
      |list'.log| <= list'.pcs[CallOf(s.senders[k], k)].a.index
    ensures var s' := StepSender(s, k); Sized(s') && ViewOk(k, ViewOf(s', k))
  {
    assert ViewOk(k, ViewOf(s, k));
  }

  lemma ParkingKeepsOthers(s: World, k: nat, j: nat, list': State)
    requires Sized(s) && ViewsOk(s) && k < |s.senders| && !s.senders[k].Sent? && s.senders[k].phase == Parking
    requires ListStep(s, list', CallOf(s.senders[k], k)) && list' == Advance(s.list, CallOf(s.senders[k], k))
    requires j < |s.senders| && j != k
    ensures var s' := StepSender(s, k); Sized(s') && ViewOk(j, ViewOf(s', j))
  {
    assert ViewOk(j, ViewOf(s, j));
  }

  lemma RefusedMeansAvailable(s: World, list': State, x: nat)
    requires Sized(s) && CreatorOk(s) && ListInv(s.list, |s.scripts|) && ListStep(s, list', x) && x < 2 * |s.scripts|
    requires Shape(list', |s.scripts|) && Fresh(list', |s.scripts|) && list'.pcs[x] == Add(Refused)
    ensures s.item == Available
  {
    assert list'.pcs[2 * |s.scripts|] == s.list.pcs[2 * |s.scripts|];
  }

  lemma ParkingKeepsViews(s: World, k: nat)
    requires Sized(s) && ListInv(s.list, |s.scripts|) && ViewsOk(s) && CreatorOk(s)
    requires k < |s.senders| && !s.senders[k].Sent? && s.senders[k].phase == Parking
    ensures var s' := StepSender(s, k); Sized(s') && ViewsOk(s')
    ensures ListStep(s, Advance(s.list, CallOf(s.senders[k], k)), CallOf(s.senders[k], k))
  {
    var s' := StepSender(s, k);
    var x, depc := CallOf(s.senders[k], k), |s.scripts|;
    var list' := Advance(s.list, x);
    AdderKeepsFresh(s.list, depc, x);
    AdderMoves(s.list, depc, x);
    LockKeepsApart(s.list);
    if list'.pcs[x] == Add(Refused) { RefusedMeansAvailable(s, list', x); }
    assert ViewOk(k, ViewOf(s, k));
    if IsAccepted(list'.pcs[x]) { AcceptedIsAhead(s.list, depc, x); }
    ParkingKeepsView(s, k, list');
    forall j: nat | j < |s.scripts| && j != k ensures ViewOk(j, ViewOf(s', j)) { ParkingKeepsOthers(s, k, j, list'); }
  }

  lemma LocalStepKeepsViews(s: World, k: nat)
    requires Sized(s) && ViewsOk(s) && k < |s.senders| && !s.senders[k].Sent? && s.senders[k].phase != Parking
    ensures var s' := StepSender(s, k); Sized(s') && ViewsOk(s') && s'.list == s.list
  {
    var s' := StepSender(s, k);
    LocalStepKeepsView(s, k);
    forall j: nat | j < |s.scripts| && j != k ensures ViewOk(j, ViewOf(s', j)) {
      assert ViewOk(j, ViewOf(s, j));
      LocalStepKeepsOthers(s, k, j);
    }
  }

  lemma SenderKeepsCreator(s: World, k: nat)
    requires Sized(s) && CreatorOk(s) && k < |s.senders| && ViewOk(k, ViewOf(s, k)) && Sized(StepSender(s, k))
    requires !s.senders[k].Sent? && s.senders[k].phase == Parking ==>
      ListStep(s, Advance(s.list, CallOf(s.senders[k], k)), CallOf(s.senders[k], k))
    ensures CreatorOk(StepSender(s, k))
  {
    if !s.senders[k].Sent? {
      if s.senders[k].phase == Parking {
        var x := CallOf(s.senders[k], k);
        ListStepKeepsCreator(s, StepSender(s, k), Advance(s.list, x), x);
      } else {
        var s' := StepSender(s, k);
        assert s'.list == s.list && s'.creator == s.creator && s'.scripts == s.scripts;
      }
    }
  }

  lemma ListStepKeepsCreator(s: World, s': World, list': State, x: nat)
    requires Sized(s) && CreatorOk(s) && ListStep(s, list', x) && x < 2 * |s.scripts| && !IsAccepted(s.list.pcs[x])
    requires Sized(s') && s'.list == list' && s'.creator == s.creator && s'.item == s.item && s'.scripts == s.scripts
    ensures CreatorOk(s')
  {
  }

  lemma Card(a: set<nat>, n: nat)
    requires forall k <- a :: k < n
    ensures |a| <= n
    ensures |a| == n ==> forall k: nat | k < n :: k in a
    decreases n
  {
    if n > 0 {
      var b := a - {n - 1};
      Card(b, n - 1);
      assert a == if n - 1 in a then b + {n - 1} else b;
    } else {
      assert a == {};
    }
  }

  lemma CountStepKeepsCount(s: World, k: nat)
    requires Sized(s) && CreatorOk(s) && CountOk(s) && k < |s.senders| && ViewOk(k, ViewOf(s, k))
    requires s.senders[k] == SendSignal(Count)
    ensures CountOk(StepSender(s, k))
  {
    assert k !in s.counted;
    Card(s.counted + {k}, |s.scripts|);
  }

  /** While a slot is not counted the EDT is not ready. */
  lemma NotReadyYet(s: World, k: nat)
    requires CountOk(s) && k < |s.scripts| && k !in s.counted
    ensures s.ready == 0
  {
    Card(s.counted, |s.scripts|);
  }

  /** The two worlds count alike. */
  ghost predicate SameCount(s: World, s': World) {
    && s'.scripts == s.scripts && s'.counted == s.counted && s'.depcNeeded == s.depcNeeded && s'.ready == s.ready
    && s'.creator.Fill? == s.creator.Fill? && s'.creator.Created? == s.creator.Created?
  }

  lemma QuietKeepsCount(s: World, s': World)
    requires CountOk(s) && SameCount(s, s') && s.ready == 0 && s'.sigWritten == s.sigWritten &&
      s'.sigWrites == s.sigWrites
    ensures CountOk(s')
  {
  }

  lemma SignalKeepsCount(s: World, s': World, k: nat)
    requires CountOk(s) && SameCount(s, s') && s.ready == 0 && k < |s.scripts| && k !in s.sigWritten
    requires s'.sigWritten == s.sigWritten + {k} && s'.sigWrites == s.sigWrites + 1
    ensures CountOk(s')
  {
  }

  lemma OtherStepKeepsCount(s: World, k: nat)
    requires Sized(s) && CountOk(s) && k < |s.senders| && ViewOk(k, ViewOf(s, k))
    requires !s.senders[k].Sent? && s.senders[k].phase != Count
    ensures CountOk(StepSender(s, k))
  {
    assert k !in s.counted && (s.senders[k] == SendSignal(Write) ==> k !in s.sigWritten);
    NotReadyYet(s, k);
    OtherStepCounts(s, k);
  }

  lemma OtherStepCounts(s: World, k: nat)
    requires CountOk(s) && s.ready == 0 && k < |s.senders| == |s.scripts| == |s.slots|
    requires !s.senders[k].Sent? && s.senders[k].phase != Count
    requires s.senders[k] == SendSignal(Write) ==> k !in s.sigWritten
    ensures CountOk(StepSender(s, k))
  {
    if s.senders[k] == SendSignal(Write) {
      SignalCounts(s, k);
      SignalKeepsCount(s, StepSender(s, k), k);
    } else {
      OthersCountAlike(s, k);
      QuietKeepsCount(s, StepSender(s, k));
    }
  }

  lemma SignalCounts(s: World, k: nat)
    requires k < |s.senders| == |s.scripts| == |s.slots| && s.senders[k] == SendSignal(Write)
    ensures var s' := StepSender(s, k);
      SameCount(s, s') && s'.sigWritten == s.sigWritten + {k} && s'.sigWrites == s.sigWrites + 1
  {
  }

  lemma OthersCountAlike(s: World, k: nat)
    requires k < |s.senders| && !s.senders[k].Sent? && s.senders[k].phase != Count && s.senders[k] != SendSignal(Write)
    ensures var s' := StepSender(s, k);
      SameCount(s, s') && s'.sigWritten == s.sigWritten && s'.sigWrites == s.sigWrites
  {
  }

  lemma ParkingKeepsList(s: World, k: nat)
    requires Sized(s) && ListInv(s.list, |s.scripts|) && k < |s.senders| && !s.senders[k].Sent? &&
      s.senders[k].phase == Parking
    ensures ListInv(StepSender(s, k).list, |s.scripts|) && StepSender(s, k).scripts == s.scripts
  {
    var x := CallOf(s.senders[k], k);
    AdderKeepsList(s.list, |s.scripts|, x);
    assert StepSender(s, k).list == Advance(s.list, x);
  }

  lemma ParkingKeepsInv(s: World, k: nat)
    requires Inv(s) && k < |s.senders| && !s.senders[k].Sent? && s.senders[k].phase == Parking
    ensures Inv(StepSender(s, k))
  {
    assert ViewOk(k, ViewOf(s, k));
    OtherStepKeepsCount(s, k);
    ParkingKeepsList(s, k);
    ParkingKeepsViews(s, k);
    SenderKeepsCreator(s, k);
  }

  lemma LocalStepKeepsInv(s: World, k: nat)
    requires Inv(s) && k < |s.senders| && !s.senders[k].Sent? && s.senders[k].phase != Parking
    ensures Inv(StepSender(s, k))
  {
    assert ViewOk(k, ViewOf(s, k));
    if s.senders[k].phase == Count { CountStepKeepsCount(s, k); } else { OtherStepKeepsCount(s, k); }
    LocalStepKeepsViews(s, k);
    SenderKeepsCreator(s, k);
  }

  // ---------------------------------------------------------------------------------------
  // Creator steps

  /** Before insertion nothing was written or counted. */
  lemma NothingYet(s: World, k: nat)
    requires Sized(s) && ListInv(s.list, |s.scripts|) && ViewsOk(s) && CreatorOk(s) && k < |s.scripts|
    requires s.item != Available
    ensures k !in s.metaWritten && k !in s.sigWritten && k !in s.counted && s.slots[k] == ZERO_DEP
  {
    assert ViewOk(k, ViewOf(s, k));
    assert s.list.pcs[2 * |s.scripts|] == FireOp(Try(0));
  }

  lemma FillKeepsInv(s: World)
    requires Inv(s) && s.creator == Fill
    ensures Inv(StepCreator(s))
  {
    var s' := StepCreator(s);
    forall k: nat | k < |s.scripts| ensures k !in s.counted { NothingYet(s, k); }
    assert s.counted == {};
    forall k: nat | k < |s.scripts| ensures ViewOk(k, ViewOf(s', k)) {
      NothingYet(s, k);
      assert ViewOk(k, ViewOf(s, k));
    }
  }

  lemma InsertKeepsInv(s: World)
    requires Inv(s) && s.creator == Insert
    ensures Inv(StepCreator(s))
  {
    var s' := StepCreator(s);
    forall k: nat | k < |s.scripts| ensures ViewOk(k, ViewOf(s', k)) {
      assert ViewOk(k, ViewOf(s, k));
    }
  }

  /** The fire takes at most one operation, the oldest one not yet replayed. */
  ghost predicate FireStep(s: World, list': State) {
    && |list'.pcs| == |s.list.pcs| == 2 * |s.scripts| + 1
    && (forall y: nat | y < 2 * |s.scripts| :: list'.pcs[y] == s.list.pcs[y])
    && (|| list'.log == s.list.log
        || (exists x: nat :: x < 2 * |s.scripts| && list'.log == s.list.log + [x]
              && s.list.pcs[x] == Add(Accepted(|s.list.log|))
              && forall y: nat | y < 2 * |s.scripts| && s.list.pcs[y] == Add(Accepted(|s.list.log|)) :: y == x))
  }

  lemma FirerSteps(s: World)
    requires Sized(s) && ListInv(s.list, |s.scripts|)
    ensures FireStep(s, Advance(s.list, 2 * |s.scripts|))
  {
    var depc, list' := |s.scripts|, Advance(s.list, 2 * |s.scripts|);
    LockKeepsApart(s.list);
    FirerMoves(s.list, depc);
    if list'.log != s.list.log {
      FirerKeepsList(s.list, depc);
      LockKeepsApart(list');
      LogIsAccepted(list', |s.list.log|);
      var x := s.list.history[|s.list.log|];
      assert list'.pcs[x] == s.list.pcs[x];
      assert x < 2 * depc && list'.log == s.list.log + [x];
    }
  }

  lemma ReplayKeepsViews(s: World)
    requires Sized(s) && ViewsOk(s) && s.creator == Replaying && FireStep(s, Advance(s.list, 2 * |s.scripts|))
    ensures var s' := StepCreator(s); Sized(s') && ViewsOk(s')
  {
    var s' := StepCreator(s);
    forall k: nat | k < |s.scripts| ensures ViewOk(k, ViewOf(s', k)) {
      assert ViewOk(k, ViewOf(s, k));
    }
  }

  lemma ReplayKeepsList(s: World)
    requires Sized(s) && ListInv(s.list, |s.scripts|) && s.creator == Replaying
    ensures ListInv(StepCreator(s).list, |s.scripts|) && StepCreator(s).scripts == s.scripts
  {
    FirerKeepsList(s.list, |s.scripts|);
    assert StepCreator(s).list == Advance(s.list, 2 * |s.scripts|);
  }

  lemma ReplayKeepsCreator(s: World)
    requires Sized(s) && CreatorOk(s) && CountOk(s) && s.creator == Replaying
    requires FireStep(s, Advance(s.list, 2 * |s.scripts|)) && Sized(StepCreator(s))
    ensures CreatorOk(StepCreator(s)) && CountOk(StepCreator(s))
  {
  }

  lemma ReplayStepKeepsInv(s: World)
    requires Inv(s) && s.creator == Replaying
    ensures Inv(StepCreator(s))
  {
    FirerSteps(s);
    ReplayKeepsList(s);
    ReplayKeepsViews(s);
    ReplayKeepsCreator(s);
  }

  lemma ReplayWriteKeepsView(s: World, k: nat)
    requires Sized(s) && ViewsOk(s) && CreatorOk(s) && s.creator.ReplayWrite? && k == s.creator.x / 2 < |s.scripts|
    ensures var s' := StepCreator(s); Sized(s') && ViewOk(k, ViewOf(s', k))
  {
    assert ViewOk(k, ViewOf(s, k));
  }

  /** A slot does not mind that another slot's operation is replayed. */
  lemma ReplayKeepsView(k: nat, v: View, creator: Creator)
    requires ViewOk(k, v) && v.creator.ReplayWrite? && v.creator.x / 2 != k
    requires creator == Replaying || creator == ReplayCount(v.creator.x)
    ensures ViewOk(k, v.(creator := creator))
  {
  }

  lemma ReplayWriteKeepsOthers(s: World, k: nat)
    requires Sized(s) && k < |s.scripts| && ViewOk(k, ViewOf(s, k)) && s.creator.ReplayWrite? && k != s.creator.x / 2
    ensures var s' := StepCreator(s); Sized(s') && ViewOk(k, ViewOf(s', k))
  {
    var s' := StepCreator(s);
    assert ViewOf(s', k) == ViewOf(s, k).(creator := s'.creator);
    ReplayKeepsView(k, ViewOf(s, k), s'.creator);
  }

  lemma ReplayCountKeepsView(s: World, k: nat)
    requires Sized(s) && ViewsOk(s) && CreatorOk(s) && s.creator.ReplayCount? && k < |s.scripts|
    ensures var s' := StepCreator(s); Sized(s') && ViewOk(k, ViewOf(s', k))
  {
    assert ViewOk(k, ViewOf(s, k));
  }

  /** The slot of the operation being replayed has not been counted. */
  lemma ReplayedSlotUncounted(s: World)
    requires Sized(s) && ViewsOk(s) && CreatorOk(s) && (s.creator.ReplayWrite? || s.creator.ReplayCount?)
    ensures s.creator.x / 2 < |s.scripts|
    ensures s.creator.x % 2 == 0 ==> s.creator.x / 2 !in s.counted
    ensures s.creator.x % 2 == 0 && s.creator.ReplayWrite? ==> s.creator.x / 2 !in s.sigWritten
  {
    var k := s.creator.x / 2;
    assert ViewOk(k, ViewOf(s, k));
  }

  /** While the creator is at work the EDT is not ready. */
  lemma CreatingIsNotReady(s: World)
    requires CountOk(s) && !s.creator.Created?
    ensures s.ready == 0
  {
  }

  lemma CreatorKeepsCount(s: World)
    requires Sized(s) && ViewsOk(s) && CreatorOk(s) && CountOk(s)
    requires s.creator.ReplayWrite? || s.creator.ReplayCount? || s.creator.DropSentinel?
    ensures CountOk(StepCreator(s))
  {
    if s.creator.DropSentinel? {
      DropCounts(s);
    } else {
      ReplayedSlotUncounted(s);
      if s.creator.ReplayWrite? {
        ReplayWriteCounts(s, s.creator.x / 2);
      } else {
        ReplayCountCounts(s, s.creator.x / 2);
      }
    }
  }

  lemma ReplayWriteCounts(s: World, k: nat)
    requires CountOk(s) && s.creator.ReplayWrite? && s.creator.x / 2 == k < |s.scripts| == |s.slots|
    requires s.creator.x % 2 == 0 ==> k !in s.sigWritten
    ensures CountOk(StepCreator(s))
  {
    CreatingIsNotReady(s);
    if s.creator.x % 2 == 0 { SignalKeepsCount(s, StepCreator(s), k); } else { QuietKeepsCount(s, StepCreator(s)); }
  }

  lemma ReplayCountCounts(s: World, k: nat)
    requires CountOk(s) && s.creator.ReplayCount? && s.creator.x / 2 == k < |s.scripts| && k !in s.counted
    ensures CountOk(StepCreator(s))
  {
    Card(s.counted + {k}, |s.scripts|);
  }

  lemma DropCounts(s: World)
    requires CountOk(s) && s.creator.DropSentinel?
    ensures CountOk(StepCreator(s))
  {
    Card(s.counted, |s.scripts|);
  }

  lemma ReplayOpKeepsInv(s: World)
    requires Inv(s) && (s.creator.ReplayWrite? || s.creator.ReplayCount?)
    ensures Inv(StepCreator(s))
  {
    var s' := StepCreator(s);
    ReplayedSlotUncounted(s);
    CreatorKeepsCount(s);
    ReplayOpKeepsViews(s);
    assert s'.list == s.list;
  }

  lemma ReplayOpKeepsViews(s: World)
    requires Sized(s) && ViewsOk(s) && CreatorOk(s) && (s.creator.ReplayWrite? || s.creator.ReplayCount?)
    ensures var s' := StepCreator(s); Sized(s') && ViewsOk(s')
  {
    var s' := StepCreator(s);
    ReplayedSlotUncounted(s);
    forall k: nat | k < |s.scripts| ensures Sized(s') && ViewOk(k, ViewOf(s', k)) {
      if s.creator.ReplayCount? { ReplayCountKeepsView(s, k); }
      else if k == s.creator.x / 2 { ReplayWriteKeepsView(s, k); }
      else { assert ViewOk(k, ViewOf(s, k)); ReplayWriteKeepsOthers(s, k); }
    }
  }

  lemma SimpleCreatorStepKeepsInv(s: World)
    requires Inv(s) && (s.creator.ReplayLookup? || s.creator.DropSentinel?)
    ensures Inv(StepCreator(s))
  {
    if s.creator.DropSentinel? { DropCounts(s); }
    SimpleCreatorStepKeepsViews(s);
  }

  lemma SimpleCreatorStepKeepsViews(s: World)
    requires Sized(s) && ViewsOk(s) && CreatorOk(s) && (s.creator.ReplayLookup? || s.creator.DropSentinel?)
    ensures var s' := StepCreator(s); Sized(s') && ViewsOk(s')
  {
    var s' := StepCreator(s);
    forall k: nat | k < |s.scripts| ensures ViewOk(k, ViewOf(s', k)) {
      assert ViewOk(k, ViewOf(s, k));
    }
  }

  lemma StepKeepsInv(s: World, who: nat)
    requires Inv(s)
    ensures Inv(Step(s, who))
  {
    if who < |s.senders| {
      if s.senders[who].Sent? { }
      else if s.senders[who].phase == Parking { ParkingKeepsInv(s, who); }
      else { LocalStepKeepsInv(s, who); }
    } else if who == |s.senders| {
      match s.creator
      case Fill => FillKeepsInv(s);
      case Insert => InsertKeepsInv(s);
      case Replaying => ReplayStepKeepsInv(s);
      case ReplayLookup(_) => SimpleCreatorStepKeepsInv(s);
      case ReplayWrite(_) => ReplayOpKeepsInv(s);
      case ReplayCount(_) => ReplayOpKeepsInv(s);
      case DropSentinel => SimpleCreatorStepKeepsInv(s);
      case Created =>
    }
  }

  lemma StepKeepsScripts(s: World, who: nat)
    ensures Step(s, who).scripts == s.scripts
  {
  }

  lemma {:induction false} RunKeepsInv(s: World, schedule: seq<nat>)
    requires Inv(s)
    ensures Inv(Exec(s, schedule)) && Exec(s, schedule).scripts == s.scripts
    decreases |schedule|
  {
    if schedule != [] {
      StepKeepsInv(s, schedule[0]);
      StepKeepsScripts(s, schedule[0]);
      RunKeepsInv(Step(s, schedule[0]), schedule[1..]);
    }
  }

  // ---------------------------------------------------------------------------------------
  // Main results

  /** Every sender is through and creation has returned. */
  ghost predicate Finished(s: World) {
    s.creator == Created && forall k | 0 <= k < |s.senders| :: s.senders[k] == Sent
  }

  /** Signal k is still on the list: the fire gave up before replaying it. */
  ghost predicate LeftOnList(s: World, k: nat)
    requires |s.list.pcs| == 2 * |s.scripts| + 1 && k < |s.scripts|
  {
    IsAccepted(s.list.pcs[2 * k]) && |s.list.log| <= s.list.pcs[2 * k].a.index
  }

  lemma FireDrains(s: World)
    requires Inv(s) && s.list.pcs[2 * |s.scripts|] == FireOp(Fired)
    ensures s.list.log == s.list.history
  {
  }

  lemma AllCountedIsAllWritten(s: World, k: nat)
    requires Inv(s) && s.ready == 1 && k < |s.scripts|
    ensures s.senders[k] == Sent && k in s.sigWritten
    ensures s.list.pcs[2 * |s.scripts|] == FireOp(Fired) && s.scripts[k].meta.Some? ==> k in s.metaWritten
  {
    Card(s.counted, |s.scripts|);
    var v := ViewOf(s, k);
    assert ViewOk(k, v);
    if s.list.pcs[2 * |s.scripts|] == FireOp(Fired) { FireDrains(s); }
  }

  lemma AllWritten(s: World)
    requires Inv(s) && s.ready == 1
    ensures |s.sigWritten| == |s.scripts|
  {
    forall k: nat | k < |s.scripts| ensures k in s.sigWritten { AllCountedIsAllWritten(s, k); }
    AllThenCard(s.sigWritten, |s.scripts|);
    Card(s.sigWritten, |s.scripts|);
  }

  /**
   Exactly-once readiness. In every interleaving arts_handle_ready_edt is called at most once;
   when it is called, creation has dropped its sentinel (so the replay has ended), every
   signal has been written to its slot and counted, and there were as many signal writes as
   signals.
   */
  lemma ReadyAtMostOnce(scripts: seq<Script>, schedule: seq<nat>)
    requires WellFormed(scripts)
    ensures var s := Exec(Start(scripts), schedule);
      && s.ready <= 1
      && (s.ready == 1 ==>
            && s.creator == Created
            && s.sigWrites == |scripts|
            && |s.readySlots| == |scripts|
            && (forall k: nat | k < |scripts| :: k in s.counted && k in s.sigWritten
                  && s.readySlots[k].guid == scripts[k].sig.guid && s.readySlots[k].ptr == scripts[k].sig.ptr))
  {
    StartInv(scripts);
    RunKeepsInv(Start(scripts), schedule);
    var s := Exec(Start(scripts), schedule);
    if s.ready == 1 {
      Card(s.counted, |s.scripts|);
      Card(s.sigWritten, |s.scripts|);
      AllWritten(s);
      forall k: nat | k < |scripts|
        ensures k in s.counted && k in s.sigWritten
          && s.readySlots[k].guid == scripts[k].sig.guid && s.readySlots[k].ptr == scripts[k].sig.ptr
      {
        AllCountedIsAllWritten(s, k);
        assert ViewOk(k, ViewOf(s, k));
      }
    }
  }

  /**
   Once everybody is through, the EDT has become ready exactly when no signal was left on the
   list; a fire that got its lock leaves none.
   */
  lemma ReadyIffNothingLeft(scripts: seq<Script>, schedule: seq<nat>)
    requires WellFormed(scripts)
    ensures var s := Exec(Start(scripts), schedule);
      && |s.scripts| == |scripts| && |s.list.pcs| == 2 * |scripts| + 1
      && (Finished(s) ==> (s.ready == 1 <==> forall k: nat | k < |scripts| :: !LeftOnList(s, k)))
      && (Finished(s) && s.list.pcs[2 * |scripts|] == FireOp(Fired) ==> s.ready == 1)
  {
    StartInv(scripts);
    RunKeepsInv(Start(scripts), schedule);
    var s := Exec(Start(scripts), schedule);
    if Finished(s) {
      forall k: nat | k < |scripts| ensures k in s.counted <==> !LeftOnList(s, k) {
        assert ViewOk(k, ViewOf(s, k));
      }
      Card(s.counted, |scripts|);
      if forall k: nat | k < |scripts| :: !LeftOnList(s, k) { AllThenCard(s.counted, |scripts|); }
      if s.list.pcs[2 * |scripts|] == FireOp(Fired) { FireDrains(s); }
    }
  }

  lemma AllThenCard(a: set<nat>, n: nat)
    requires forall k: nat | k < n :: k in a
    ensures |a| >= n
    decreases n
  {
    if n > 0 {
      AllThenCard(a - {n - 1}, n - 1);
    }
  }

  // ---------------------------------------------------------------------------------------
  // What is decided when the fire is over

  /** The fire has returned, having fired or given up. */
  ghost predicate FireOver(s: World) {
    |s.list.pcs| == 2 * |s.scripts| + 1 && (FireIs(s, Fired) || FireIs(s, GaveUp))
  }

  ghost predicate FireIs(s: World, f: FirePc) {
    2 * |s.scripts| < |s.list.pcs| && s.list.pcs[2 * |s.scripts|] == FireOp(f)
  }

  /** When the fire gave up, signal k was on the list or its sender had set out to put it there. */
  ghost predicate SignalLost(s: World, k: nat) {
    k < |s.senders| && 2 * k + 1 < |s.list.pcs| && (IsAccepted(s.list.pcs[2 * k]) ||
      s.senders[k] == SendSignal(Parking))
  }

  /** The same for the metadata of slot k. */
  ghost predicate MetadataLost(s: World, k: nat) {
    k < |s.senders| && 2 * k + 1 < |s.list.pcs| && (IsAccepted(s.list.pcs[2 * k + 1]) ||
      s.senders[k] == SetMeta(Parking))
  }

  /** After the fire gave up an operation that is being parked is accepted in the end. */
  lemma GaveUpAccepts(list: State, depc: nat, x: nat)
    requires OoLock.Inv(list.lock) && HoldsMatch(list) && Shape(list, depc) && Unfired(list, depc)
    requires list.pcs[2 * depc] == FireOp(GaveUp) && x < 2 * depc && list.pcs[x] != Add(Refused)
    ensures Advance(list, x).pcs[x] != Add(Refused)
  {
    if list.lock.writerLock == OoLock.Taken(OoLock.Fire) { FireWordIsFires(list, depc); }
    assert list.pcs[x] == Add(list.pcs[x].a);
  }

  /** Nobody else's loss is touched by the sender of slot k. */
  ghost predicate SameLosses(s: World, s': World, k: nat) {
    (SignalLost(s', k) <==> SignalLost(s, k)) && (MetadataLost(s', k) <==> MetadataLost(s, k))
  }

  lemma ParkingKeepsLosses(s: World, k: nat)
    requires Sized(s) && k < |s.senders| && !s.senders[k].Sent? && s.senders[k].phase == Parking &&
      ViewOk(k, ViewOf(s, k))
    requires OoLock.Inv(s.list.lock) && HoldsMatch(s.list) && Shape(s.list, |s.scripts|) && Unfired(s.list, |s.scripts|)
    requires FireIs(s, GaveUp)
    ensures var s' := StepSender(s, k);
      |s'.list.pcs| == |s.list.pcs| && FireIs(s', GaveUp) && forall j: nat | j < |s.scripts| :: SameLosses(s, s', j)
  {
    var x, s' := CallOf(s.senders[k], k), StepSender(s, k);
    AdderMoves(s.list, |s.scripts|, x);
    GaveUpAccepts(s.list, |s.scripts|, x);
    var list' := Advance(s.list, x);
    assert s'.list == list' && forall y | 0 <= y < |list'.pcs| && y != x :: list'.pcs[y] == s.list.pcs[y];
    forall j: nat | j < |s.scripts| ensures SameLosses(s, s', j) { }
  }

  lemma LocalStepKeepsLosses(s: World, k: nat)
    requires Sized(s) && s.item == Available && k < |s.senders| && !s.senders[k].Sent? && s.senders[k].phase != Parking
    ensures var s' := StepSender(s, k); s'.list == s.list && forall j: nat | j < |s.scripts| :: SameLosses(s, s', j)
  {
    var s' := StepSender(s, k);
    forall j: nat | j < |s.scripts| ensures SameLosses(s, s', j) { }
  }

  lemma CreatorKeepsLosses(s: World)
    requires FireOver(s)
    ensures var s' := StepCreator(s); s'.list == s.list && s'.senders == s.senders && s'.scripts == s.scripts
  {
    var f := s.list.pcs[2 * |s.scripts|].f;
    assert s.list.pcs[2 * |s.scripts|] == FireOp(f);
  }

  /** The fire gave up before both, and the same operations are lost. */
  ghost predicate AllSettled(s: World, s': World) {
    && s'.scripts == s.scripts && FireIs(s, GaveUp) && FireIs(s', GaveUp)
    && forall j: nat | j < |s.scripts| :: SameLosses(s, s', j)
  }

  lemma SettledThrough(s: World, s': World, s'': World)
    requires AllSettled(s, s') && AllSettled(s', s'')
    ensures AllSettled(s, s'')
  {
    forall j: nat | j < |s.scripts| ensures SameLosses(s, s'', j) {
      assert SameLosses(s, s', j) && SameLosses(s', s'', j);
    }
  }

  lemma StepKeepsLosses(s: World, who: nat)
    requires Inv(s) && FireIs(s, GaveUp)
    ensures AllSettled(s, Step(s, who))
  {
    StepKeepsScripts(s, who);
    if who < |s.senders| {
      if !s.senders[who].Sent? {
        assert ViewOk(who, ViewOf(s, who)) && s.item == Available;
        if s.senders[who].phase == Parking { ParkingKeepsLosses(s, who); } else { LocalStepKeepsLosses(s, who); }
      }
    } else if who == |s.senders| {
      CreatorKeepsLosses(s);
    }
  }

  /** From the moment the fire gives up, what is lost is settled. */
  lemma {:induction false} LossesAreSettled(s: World, schedule: seq<nat>)
    requires Inv(s) && FireIs(s, GaveUp)
    ensures AllSettled(s, Exec(s, schedule))
    decreases |schedule|
  {
    if schedule != [] {
      var s' := Step(s, schedule[0]);
      StepKeepsInv(s, schedule[0]);
      StepKeepsLosses(s, schedule[0]);
      LossesAreSettled(s', schedule[1..]);
      SettledThrough(s, s', Exec(s', schedule[1..]));
    }
  }

  lemma StepStaysFired(s: World, who: nat)
    requires Inv(s) && FireIs(s, Fired)
    ensures FireIs(Step(s, who), Fired)
  {
    StepKeepsScripts(s, who);
    if who < |s.senders| {
      if !s.senders[who].Sent? { SenderLeavesFire(s, who); }
    } else if who == |s.senders| {
      CreatorKeepsLosses(s);
    }
  }

  lemma SenderLeavesFire(s: World, k: nat)
    requires Sized(s) && HoldsMatch(s.list) && Shape(s.list, |s.scripts|) && k < |s.senders| && !s.senders[k].Sent?
    ensures FireIs(StepSender(s, k), s.list.pcs[2 * |s.scripts|].f)
  {
    if s.senders[k].phase == Parking { AdderMoves(s.list, |s.scripts|, CallOf(s.senders[k], k)); }
  }

  lemma {:induction false} FiredStays(s: World, schedule: seq<nat>)
    requires Inv(s) && FireIs(s, Fired)
    ensures FireIs(Exec(s, schedule), Fired)
    decreases |schedule|
  {
    if schedule != [] {
      StepKeepsInv(s, schedule[0]);
      StepStaysFired(s, schedule[0]);
      FiredStays(Step(s, schedule[0]), schedule[1..]);
    }
  }

  /** Everybody through: the fire is over. */
  lemma FinishedIsOver(scripts: seq<Script>, schedule: seq<nat>)
    requires WellFormed(scripts)
    ensures var s := Exec(Start(scripts), schedule); s.creator == Created ==> FireOver(s)
  {
    StartInv(scripts);
    RunKeepsInv(Start(scripts), schedule);
  }

  lemma RunInParts(scripts: seq<Script>, before: seq<nat>, after: seq<nat>)
    requires WellFormed(scripts)
    ensures var g, s := Exec(Start(scripts), before), Exec(Start(scripts), before + after);
      s == Exec(g, after) && Inv(g) && Inv(s) && g.scripts == s.scripts == scripts
  {
    var w := Start(scripts);
    ExecConcat(w, before, after);
    StartInv(scripts);
    RunKeepsInv(w, before);
    RunKeepsInv(Exec(w, before), after);
  }

  /**
   Once everybody is through, the EDT has become ready if and only if the fire got its lock, or
   no signal was parked or being parked when it gave up. `before` may be any part of the run
   after which the fire is over, such as the one that ends with its last attempt.
   */
  lemma ReadyIffAtGiveUp(scripts: seq<Script>, before: seq<nat>, after: seq<nat>)
    requires WellFormed(scripts)
    ensures var g, s := Exec(Start(scripts), before), Exec(Start(scripts), before + after);
      FireOver(g) && Finished(s) ==>
        (s.ready == 1 <==> FireIs(g, Fired) || forall k: nat | k < |scripts| :: !SignalLost(g, k))
  {
    var g, s := Exec(Start(scripts), before), Exec(Start(scripts), before + after);
    RunInParts(scripts, before, after);
    if FireOver(g) && Finished(s) {
      ReadyIffNothingLeft(scripts, before + after);
      if FireIs(g, Fired) {
        FiredStays(g, after);
      } else {
        LossesAreSettled(g, after);
        forall k: nat | k < |scripts| ensures LeftOnList(s, k) <==> SignalLost(g, k) { assert SameLosses(g, s, k); }
      }
    }
  }

  /** The slot has the guid and the pointer of its signal, and this mode, these flags and this slice. */
  predicate Holds(d: Dep, g: Signal, mode: nat, flags: nat, sliceOffset: nat, sliceSize: nat) {
    && d.guid == g.guid && d.ptr == g.ptr
    && d.mode == mode && d.flags == flags && d.sliceOffset == sliceOffset && d.sliceSize == sliceSize
  }

  predicate SignalOnly(d: Dep, script: Script) { Holds(d, script.sig, 0, 0, 0, 0) }

  predicate WithMetadata(d: Dep, script: Script)
    requires script.meta.Some?
  {
    var m := script.meta.value;
    Holds(d, script.sig, m.mode, m.flags, m.sliceOffset, m.sliceSize)
  }

  /** A ready EDT's slot lacks its metadata exactly when that was left on the list. */
  lemma ReadySlot(s: World, k: nat)
    requires Inv(s) && s.ready == 1 && k < |s.scripts| && s.scripts[k].meta.Some?
    ensures s.readySlots == s.slots && s.senders[k] == Sent && s.creator == Created
    ensures
      if IsAccepted(s.list.pcs[2 * k + 1]) && |s.list.log| <= s.list.pcs[2 * k + 1].a.index
      then SignalOnly(s.slots[k], s.scripts[k]) else WithMetadata(s.slots[k], s.scripts[k])
  {
    AllCountedIsAllWritten(s, k);
    Card(s.counted, |s.scripts|);
    assert ViewOk(k, ViewOf(s, k));
  }

  /**
   Metadata. When the EDT becomes ready, a slot that was given metadata has exactly that mode,
   those flags and that slice, in whatever order the metadata and the slot's signal were
   parked, replayed or applied, except for metadata that was parked or being parked when the
   fire gave up: that slot has the signal alone.
   */
  lemma MetadataIsInPlace(scripts: seq<Script>, before: seq<nat>, after: seq<nat>, k: nat)
    requires WellFormed(scripts) && k < |scripts| && scripts[k].meta.Some?
    ensures var g, s := Exec(Start(scripts), before), Exec(Start(scripts), before + after);
      FireOver(g) && s.ready == 1 ==>
        && |s.readySlots| == |scripts|
        && var lost := FireIs(g, GaveUp) && MetadataLost(g, k);
           var d, m := s.readySlots[k], scripts[k].meta.value;
           && d.guid == scripts[k].sig.guid && d.ptr == scripts[k].sig.ptr
           && d.mode == (if lost then 0 else m.mode) && d.flags == (if lost then 0 else m.flags)
           && d.sliceOffset == (if lost then 0 else m.sliceOffset) && d.sliceSize == (if lost then 0 else m.sliceSize)
  {
    var g, s := Exec(Start(scripts), before), Exec(Start(scripts), before + after);
    RunInParts(scripts, before, after);
    if FireOver(g) && s.ready == 1 {
      if FireIs(g, Fired) {
        FiredStays(g, after);
        ReadySlotFired(s, k);
      } else {
        LossesAreSettled(g, after);
        ReadySlotGaveUp(g, s, k);
      }
    }
  }

  lemma ReadySlotFired(s: World, k: nat)
    requires Inv(s) && s.ready == 1 && k < |s.scripts| && s.scripts[k].meta.Some? && FireIs(s, Fired)
    ensures |s.readySlots| == |s.scripts| && WithMetadata(s.readySlots[k], s.scripts[k])
  {
    ReadySlot(s, k);
    FireDrains(s);
    AllCountedIsAllWritten(s, k);
  }

  lemma ReadySlotGaveUp(g: World, s: World, k: nat)
    requires Inv(s) && s.ready == 1 && k < |s.scripts| && s.scripts[k].meta.Some? && AllSettled(g, s)
    ensures |s.readySlots| == |s.scripts|
    ensures var d := s.readySlots[k];
      if MetadataLost(g, k) then SignalOnly(d, s.scripts[k]) else WithMetadata(d, s.scripts[k])
  {
    ReadySlot(s, k);
    assert SameLosses(g, s, k);
  }

  /** A slot without metadata: the guid, pointer, mode and flags of its signal, and no slice. */
  lemma SignalIsInPlace(scripts: seq<Script>, schedule: seq<nat>, k: nat)
    requires WellFormed(scripts) && k < |scripts| && scripts[k].meta.None?
    ensures var s := Exec(Start(scripts), schedule);
      s.ready == 1 ==>
        && |s.readySlots| == |scripts|
        && s.readySlots[k].guid == scripts[k].sig.guid && s.readySlots[k].ptr == scripts[k].sig.ptr
        && s.readySlots[k].mode == scripts[k].sig.mode && s.readySlots[k].flags == scripts[k].sig.flags
        && s.readySlots[k].sliceOffset == 0 && s.readySlots[k].sliceSize == 0
  {
    StartInv(scripts);
    RunKeepsInv(Start(scripts), schedule);
    var s := Exec(Start(scripts), schedule);
    if s.ready == 1 {
      Card(s.counted, |s.scripts|);
      AllCountedIsAllWritten(s, k);
      assert ViewOk(k, ViewOf(s, k));
    }
  }

  // ---------------------------------------------------------------------------------------
  // Progress

  /** A fire that is not over moves. */
  lemma FirerAdvances(list: State, depc: nat)
    requires Good(list) && Shape(list, depc)
    requires list.pcs[2 * depc] != FireOp(Fired) && list.pcs[2 * depc] != FireOp(GaveUp)
    ensures Advance(list, 2 * depc) != list
  {
    var f := list.pcs[2 * depc].f;
    assert list.pcs[2 * depc] == FireOp(f);
    if f.Swap? && f.done < f.total {
      FireNeverWaits(list, 2 * depc);
    } else {
      assert |list.chain| > 0 && AdvanceFire(list, 2 * depc, f).pcs[2 * depc] != FireOp(f);
    }
  }

  /** The creator can always go on until it is through. */
  lemma CreatorMoves(s: World)
    requires Sized(s) && Good(s.list) && Shape(s.list, |s.scripts|) && CreatorOk(s) && s.creator != Created
    ensures StepCreator(s) != s
  {
    if s.creator == Replaying {
      if !FireOver(s) { FirerAdvances(s.list, |s.scripts|); }
    }
  }

  /** A call that owns a position is the one its sender is parking. */
  lemma PlacingIsParking(s: World, x: nat)
    requires Sized(s) && ViewsOk(s) && x < 2 * |s.scripts| && IsPlacing(s.list.pcs[x])
    ensures !s.senders[x / 2].Sent? && s.senders[x / 2].phase == Parking && CallOf(s.senders[x / 2], x / 2) == x
  {
    assert ViewOk(x / 2, ViewOf(s, x / 2));
  }

  /** A call that is not placing its item moves when it is stepped. */
  lemma UnplacedMoves(list: State, depc: nat, x: nat)
    requires HoldsMatch(list) && Shape(list, depc) && x < 2 * depc && OoLock.Inv(list.lock) && NoResets(list)
    requires !IsPlacing(list.pcs[x]) && !IsAccepted(list.pcs[x]) && list.pcs[x] != Add(Refused)
    ensures Advance(list, x) != list
  {
    assert list.pcs[x] == Add(list.pcs[x].a);
  }

  lemma ParkingAdvances(s: World, k: nat)
    requires Sized(s) && HoldsMatch(s.list) && Shape(s.list, |s.scripts|)
    requires k < |s.senders| && !s.senders[k].Sent? && s.senders[k].phase == Parking
    ensures StepSender(s, k).list == Advance(s.list, CallOf(s.senders[k], k))
  {
    AdderMoves(s.list, |s.scripts|, CallOf(s.senders[k], k));
  }

  lemma OtherwiseMoves(s: World, k: nat)
    requires Sized(s) && k < |s.senders| && !s.senders[k].Sent? && s.senders[k].phase != Parking
    ensures StepSender(s, k).senders[k] != s.senders[k]
  {
  }

  /** A sender that is not through can move, or it waits for one that can. */
  lemma SenderMoves(s: World, k: nat)
    requires Inv(s) && k < |s.senders| && s.senders[k] != Sent
    ensures SomeSenderMoves(s)
  {
    if s.senders[k].phase != Parking {
      OtherwiseMoves(s, k);
    } else {
      assert ViewOk(k, ViewOf(s, k));
      ParkerMoves(s, k);
    }
  }

  ghost predicate SomeSenderMoves(s: World) {
    exists who: nat :: who < |s.senders| && StepSender(s, who) != s
  }

  lemma ParkerMoves(s: World, k: nat)
    requires Sized(s) && ViewsOk(s) && Good(s.list) && NoResets(s.list) && Shape(s.list, |s.scripts|)
    requires k < |s.senders| && s.senders[k] != Sent && s.senders[k].phase == Parking
    ensures SomeSenderMoves(s)
  {
    var x := CallOf(s.senders[k], k);
    assert ViewOk(k, ViewOf(s, k));
    if IsPlacing(s.list.pcs[x]) && Advance(s.list, x) == s.list {
      MoverOf(s, x);
    } else {
      if !IsPlacing(s.list.pcs[x]) { UnplacedMoves(s.list, |s.scripts|, x); }
      ParkingAdvances(s, k);
    }
  }

  /** The sender for which a spinning one waits. */
  lemma MoverOf(s: World, x: nat)
    requires Sized(s) && ViewsOk(s) && Good(s.list) && Shape(s.list, |s.scripts|)
    requires x < 2 * |s.scripts| && IsPlacing(s.list.pcs[x]) && Advance(s.list, x) == s.list
    ensures SomeSenderMoves(s)
  {
    BlockedAdderHasMover(s.list, x);
    var m: nat :| m < |s.list.pcs| && IsPlacing(s.list.pcs[m]) && Advance(s.list, m) != s.list;
    PlacingIsParking(s, m);
    ParkingAdvances(s, m / 2);
  }

  /** In every reachable state in which not everybody is through, somebody can move. */
  lemma SomebodyMoves(scripts: seq<Script>, schedule: seq<nat>)
    requires WellFormed(scripts)
    ensures var s := Exec(Start(scripts), schedule); Finished(s) || exists who :: Step(s, who) != s
  {
    StartInv(scripts);
    RunKeepsInv(Start(scripts), schedule);
    var s := Exec(Start(scripts), schedule);
    if s.creator != Created {
      CreatorMoves(s);
      assert Step(s, |s.senders|) != s;
    } else if k :| 0 <= k < |s.senders| && s.senders[k] != Sent {
      SenderMoves(s, k);
      var who: nat :| who < |s.senders| && StepSender(s, who) != s;
      assert Step(s, who) != s;
    }
  }

  /** A sender that looks the EDT up and is not disturbed writes to it if it is there, and else parks its operation. */
  lemma LoneSender(s: World, k: nat)
    requires k < |s.senders| && !s.senders[k].Sent? && s.senders[k].phase == Lookup
    ensures var p, s1, s2, s3 := s.senders[k], Step(s, k), Step(Step(s, k), k), Step(Step(Step(s, k), k), k);
      && (s.item == Available ==> s1 == Go(s, k, InPhase(p, Write)))
      && (s.item == Absent ==> s2 == Go(s, k, InPhase(p, Parking)).(item := Reserved))
      && (s.item == Reserved ==> s3 == Go(s, k, InPhase(p, Parking)))
  {
    var p, s1 := s.senders[k], Step(s, k);
    if s.item != Available {
      assert s1 == Go(s, k, InPhase(p, Reserve));
      if s.item == Reserved { assert Step(s1, k) == Go(s, k, InPhase(p, CheckReserved)); }
    }
  }

  // ---------------------------------------------------------------------------------------
  // A fire that gives up loses operations

  /** One slot that is only signalled, or also given a mode. */
  function OneSlot(meta: bool): seq<Script> {
    if meta then [Script(Some(Metadata(3, 0, 0, 0)), Signal(7, 0, 0, 0))] else [Script(None, Signal(7, 0, 1, 0))]
  }

  /** The calls, with the one that is being parked at `x`, or the holds of the lock. */
  function Placed<T>(meta: bool, x: T, other: T, fire: T): seq<T> {
    if meta then [other, x, fire] else [x, other, fire]
  }

  /** The worlds of these runs: one sender, whose list call is at `pc` with hold `h`. */
  function Solo(meta: bool, item: Item, pc: AddPc, h: OoLock.Hold, phase: Phase, creator: Creator, needed: int,
                fire: FirePc): World {
    var claimed := pc.Placing?;
    World(OneSlot(meta), item,
          State(OoLock.Lock(if OoLock.InReaderCount(h) then 1 else 0, OoLock.Free,
                            Placed(meta, h, OoLock.Outside, OoLock.Outside)),
                if claimed then 1 else 0, false, [EMPTY_ELEMENT],
                Placed(meta, Add(pc), Add(CheckFire), FireOp(fire)),
                if claimed then [if meta then 1 else 0] else [], 0, [], [], 0, []),
          [if meta then SetMeta(phase) else SendSignal(phase)], creator, needed, [ZERO_DEP], {}, {}, {}, 0, 0, [])
  }

  lemma SoloStart(meta: bool)
    ensures Start(OneSlot(meta)) == Solo(meta, Absent, CheckFire, OoLock.Outside, Lookup, Fill, 0, Try(0))
  {
    assert Calls(1) == [Add(CheckFire), Add(CheckFire), FireOp(Try(0))];
    assert Start(OneSlot(meta)).list.lock.holds == [OoLock.Outside, OoLock.Outside, OoLock.Outside];
    assert Start(OneSlot(meta)).senders == [if meta then SetMeta(Lookup) else SendSignal(Lookup)];
    assert Start(OneSlot(meta)).slots == [ZERO_DEP];
  }

  lemma SoloReserves(meta: bool)
    ensures Exec(Solo(meta, Absent, CheckFire, OoLock.Outside, Lookup, Fill, 0, Try(0)), [0, 0]) ==
            Solo(meta, Reserved, CheckFire, OoLock.Outside, Parking, Fill, 0, Try(0))
  {
    var s := Solo(meta, Absent, CheckFire, OoLock.Outside, Lookup, Fill, 0, Try(0));
    assert Step(s, 0) == Solo(meta, Absent, CheckFire, OoLock.Outside, Reserve, Fill, 0, Try(0));
    assert [0, 0][1..] == [0] && [0][1..] == [];
  }

  /** One list step of the sender. */
  lemma SoloParks(meta: bool, pc: AddPc, h: OoLock.Hold, pc': AddPc, h': OoLock.Hold)
    requires var s := Solo(meta, Reserved, pc, h, Parking, Fill, 0, Try(0));
      Advance(s.list, if meta then 1 else 0) == Solo(meta, Reserved, pc', h', Parking, Fill, 0, Try(0)).list
    requires !pc'.Accepted? && !pc'.Refused?
    ensures Step(Solo(meta, Reserved, pc, h, Parking, Fill, 0, Try(0)), 0) ==
      Solo(meta, Reserved, pc', h', Parking, Fill, 0, Try(0))
  {
  }

  lemma SoloEnters(meta: bool)
    ensures Exec(Solo(meta, Reserved, CheckFire, OoLock.Outside, Parking, Fill, 0, Try(0)), [0, 0, 0]) ==
            Solo(meta, Reserved, Recheck, OoLock.Counted, Parking, Fill, 0, Try(0))
  {
    SoloParks(meta, CheckFire, OoLock.Outside, WaitReset, OoLock.Outside);
    SoloParks(meta, WaitReset, OoLock.Outside, Enter, OoLock.Outside);
    SoloParks(meta, Enter, OoLock.Outside, Recheck, OoLock.Counted);
    assert [0, 0, 0][1..] == [0, 0] && [0, 0][1..] == [0] && [0][1..] == [];
  }

  lemma SoloClaims(meta: bool)
    ensures Exec(Solo(meta, Reserved, Recheck, OoLock.Counted, Parking, Fill, 0, Try(0)), [0, 0, 0]) ==
            Solo(meta, Reserved, Placing(0, 0, Walk(0)), OoLock.Reading, Parking, Fill, 0, Try(0))
  {
    SoloRechecks(meta);
    SoloParks(meta, CheckFired, OoLock.Reading, Claim, OoLock.Reading);
    SoloTakesPosition(meta);
    assert [0, 0, 0][1..] == [0, 0] && [0, 0][1..] == [0] && [0][1..] == [];
  }

  lemma SoloRechecks(meta: bool)
    ensures Step(Solo(meta, Reserved, Recheck, OoLock.Counted, Parking, Fill, 0, Try(0)), 0) ==
            Solo(meta, Reserved, CheckFired, OoLock.Reading, Parking, Fill, 0, Try(0))
  {
    SoloParks(meta, Recheck, OoLock.Counted, CheckFired, OoLock.Reading);
  }

  lemma SoloTakesPosition(meta: bool)
    ensures Step(Solo(meta, Reserved, Claim, OoLock.Reading, Parking, Fill, 0, Try(0)), 0) ==
            Solo(meta, Reserved, Placing(0, 0, Walk(0)), OoLock.Reading, Parking, Fill, 0, Try(0))
  {
    SoloParks(meta, Claim, OoLock.Reading, Placing(0, 0, Walk(0)), OoLock.Reading);
  }

  /** The sender is descheduled while it holds the reader lock; the fire has tried n times. */
  function Blocked(meta: bool, n: nat): World {
    Solo(meta, Available, Placing(0, 0, Walk(0)), OoLock.Reading, Parking, Replaying, 2, Try(n))
  }

  lemma CreatorInserts(meta: bool)
    ensures Exec(Solo(meta, Reserved, Placing(0, 0, Walk(0)), OoLock.Reading, Parking, Fill, 0, Try(0)), [1, 1]) ==
      Blocked(meta, 0)
  {
    var s := Solo(meta, Reserved, Placing(0, 0, Walk(0)), OoLock.Reading, Parking, Fill, 0, Try(0));
    assert Step(s, 1).slots == [ZERO_DEP];
    assert Step(s, 1) == s.(creator := Insert, depcNeeded := 2);
    assert [1, 1][1..] == [1] && [1][1..] == [];
  }

  lemma ReachBlocked(meta: bool)
    ensures Exec(Start(OneSlot(meta)), [0, 0] + [0, 0, 0] + [0, 0, 0] + [1, 1]) == Blocked(meta, 0)
  {
    SoloStart(meta);
    SoloReserves(meta);
    SoloEnters(meta);
    SoloClaims(meta);
    CreatorInserts(meta);
    ExecConcat(Start(OneSlot(meta)), [0, 0] + [0, 0, 0] + [0, 0, 0], [1, 1]);
    ExecConcat(Start(OneSlot(meta)), [0, 0] + [0, 0, 0], [0, 0, 0]);
    ExecConcat(Start(OneSlot(meta)), [0, 0], [0, 0, 0]);
  }

  lemma {:induction false} ExecConcat(s: World, a: seq<nat>, b: seq<nat>)
    ensures Exec(s, a + b) == Exec(Exec(s, a), b)
    decreases |a|
  {
    if a == [] {
      assert a + b == b;
    } else {
      assert (a + b)[1..] == a[1..] + b;
      ExecConcat(Step(s, a[0]), a[1..], b);
    }
  }

  lemma RetryFails(meta: bool, n: nat)
    requires n < MAX_RETRIES
    ensures Exec(Blocked(meta, n), [1, 1, 1]) == Blocked(meta, n + 1)
  {
    var s1 := Step(Blocked(meta, n), 1);
    assert s1.list.pcs == Placed(meta, Add(Placing(0, 0, Walk(0))), Add(CheckFire), FireOp(AskReaders(n)));
    assert s1.list.lock.holds == Placed(meta, OoLock.Reading, OoLock.Outside, OoLock.Waiting(OoLock.Fire));
    var s2 := Step(s1, 1);
    assert s2 == s1.(list := s1.list.(pcs := Placed(meta, Add(Placing(0, 0, Walk(0))), Add(CheckFire),
      FireOp(GiveBack(n)))));
    assert Step(s2, 1) == Blocked(meta, n + 1);
    assert [1, 1, 1][1..] == [1, 1] && [1, 1][1..] == [1] && [1][1..] == [];
  }

  function Retries(n: nat): seq<nat> {
    if n == 0 then [] else [1, 1, 1] + Retries(n - 1)
  }

  lemma {:induction false} RetriesFail(states: nat -> World, m: nat, n: nat)
    requires m + n <= MAX_RETRIES
    requires forall i: nat | i < MAX_RETRIES :: Exec(states(i), [1, 1, 1]) == states(i + 1)
    ensures Exec(states(m), Retries(n)) == states(m + n)
    decreases n
  {
    if n > 0 {
      ExecConcat(states(m), [1, 1, 1], Retries(n - 1));
      RetriesFail(states, m + 1, n - 1);
    }
  }

  lemma AllRetriesFail(meta: bool, n: nat)
    requires n == MAX_RETRIES
    ensures Exec(Blocked(meta, 0), Retries(n)) == Blocked(meta, n)
  {
    forall i: nat | i < MAX_RETRIES
      ensures Exec(Blocked(meta, i), [1, 1, 1]) == Blocked(meta, i + 1)
    {
      RetryFails(meta, i);
    }
    RetriesFail((i: nat) => Blocked(meta, i), 0, n);
  }

  /** The fire gives up and creation drops its sentinel. */
  lemma CreatorLeaves(meta: bool, n: nat)
    requires n == MAX_RETRIES
    ensures Exec(Blocked(meta, n), [1, 1]) == Solo(meta, Available, Placing(0, 0, Walk(0)), OoLock.Reading, Parking,
      Created, 1, GaveUp)
  {
    var s1 := Step(Blocked(meta, n), 1);
    assert s1.list.pcs == Placed(meta, Add(Placing(0, 0, Walk(0))), Add(CheckFire), FireOp(GaveUp));
    assert [1, 1][1..] == [1] && [1][1..] == [];
  }

  /** Only then does the sender store its item and leave. */
  lemma SenderTooLate(meta: bool, s: World)
    requires s == Solo(meta, Available, Placing(0, 0, Walk(0)), OoLock.Reading, Parking, Created, 1, GaveUp)
    ensures var e := Exec(s, [0, 0, 0]);
      && e.creator == Created && e.ready == 0 && e.item == Available && e.depcNeeded == 1 && e.slots == [ZERO_DEP]
      && e.scripts == s.scripts && e.readySlots == []
      && e.senders == [if meta then SendSignal(Lookup) else Sent]
  {
    SenderStores(meta, s);
    SenderLeaves(meta, s, Step(Step(s, 0), 0));
    assert [0, 0, 0][1..] == [0, 0] && [0, 0][1..] == [0] && [0][1..] == [];
  }

  lemma SenderStores(meta: bool, s: World)
    requires s == Solo(meta, Available, Placing(0, 0, Walk(0)), OoLock.Reading, Parking, Created, 1, GaveUp)
    ensures var s2 := Step(Step(s, 0), 0);
      && s2 == s.(list := s2.list) && s2.list.lock == s.list.lock
      && s2.list.pcs == Placed(meta, Add(Placing(0, 0, Leave)), Add(CheckFire), FireOp(GaveUp))
  {
    SenderWalks(meta, s);
    var s1 := Step(s, 0);
    assert SlotAt(s1.list.chain, 0) == None && HasSlot(s1.list.chain, 0);
  }

  lemma SenderWalks(meta: bool, s: World)
    requires s == Solo(meta, Available, Placing(0, 0, Walk(0)), OoLock.Reading, Parking, Created, 1, GaveUp)
    ensures Step(s, 0) ==
      s.(list := s.list.(pcs := Placed(meta, Add(Placing(0, 0, Store)), Add(CheckFire), FireOp(GaveUp))))
  {
  }

  lemma SenderLeaves(meta: bool, s: World, s2: World)
    requires s == Solo(meta, Available, Placing(0, 0, Walk(0)), OoLock.Reading, Parking, Created, 1, GaveUp)
    requires s2 == s.(list := s2.list) && s2.list.lock == s.list.lock
    requires s2.list.pcs == Placed(meta, Add(Placing(0, 0, Leave)), Add(CheckFire), FireOp(GaveUp))
    ensures Step(s2, 0) == s2.(list := Step(s2, 0).list, senders := [if meta then SendSignal(Lookup) else Sent])
  {
    assert Step(s2, 0).list.pcs == Placed(meta, Add(Accepted(0)), Add(CheckFire), FireOp(GaveUp));
  }

  /** The signal behind the metadata finds the EDT and is applied at once. */
  lemma SignalAfterwards(s: World)
    requires s.senders == [SendSignal(Lookup)] && s.creator == Created && s.ready == 0 && s.item == Available
    requires s.depcNeeded == 1 && s.slots == [ZERO_DEP] && s.scripts == OneSlot(true) && s.readySlots == []
    ensures var e := Exec(s, [0, 0, 0]); Finished(e) && e.ready == 1 && |e.readySlots| == 1 && e.readySlots[0].mode == 0
  {
    var s1 := Step(s, 0);
    assert s1 == s.(senders := [SendSignal(Write)]);
    var s2 := Step(s1, 0);
    assert s2.senders == [SendSignal(Count)] && s2.slots == [Dep(7, 0, 0, 0, 0, 0)];
    var s3 := Step(s2, 0);
    assert s3.senders == [Sent];
    assert [0, 0, 0][1..] == [0, 0] && [0, 0][1..] == [0] && [0][1..] == [];
  }

  lemma ExecInParts(w: World, x: World, y: World, z: World, a: seq<nat>, b: seq<nat>, c: seq<nat>, d: seq<nat>)
    requires Exec(w, a) == x && Exec(x, b) == y && Exec(y, c) == z
    ensures Exec(w, a + b + c + d) == Exec(z, d)
  {
    ExecConcat(w, a + b + c, d);
    ExecConcat(w, a + b, c);
    ExecConcat(w, a, b);
  }

  function LosingSchedule(n: nat): seq<nat> {
    [0, 0] + [0, 0, 0] + [0, 0, 0] + [1, 1] + Retries(n) + [1, 1] + [0, 0, 0]
  }

  lemma LosingRun(meta: bool, n: nat)
    requires n == MAX_RETRIES
    ensures Exec(Start(OneSlot(meta)), LosingSchedule(n)) ==
      Exec(Solo(meta, Available, Placing(0, 0, Walk(0)), OoLock.Reading, Parking, Created, 1, GaveUp), [0, 0, 0])
  {
    var w, z := Start(OneSlot(meta)), Solo(meta, Available, Placing(0, 0, Walk(0)), OoLock.Reading, Parking, Created,
      1, GaveUp);
    ReachBlocked(meta);
    AllRetriesFail(meta, n);
    CreatorLeaves(meta, n);
    ExecInParts(w, Blocked(meta, 0), Blocked(meta, n), z, [0, 0] + [0, 0, 0] + [0, 0, 0] + [1, 1], Retries(n), [1, 1],
      [0, 0, 0]);
  }

  /** There is a run in which everybody finishes and the EDT never becomes ready. */
  lemma SignalCanBeLost(n: nat)
    requires n == MAX_RETRIES
    ensures var e := Exec(Start(OneSlot(false)), LosingSchedule(n)); Finished(e) && e.ready == 0
  {
    LosingRun(false, n);
    SenderTooLate(false, Solo(false, Available, Placing(0, 0, Walk(0)), OoLock.Reading, Parking, Created, 1, GaveUp));
  }

  /** There is a run in which the EDT becomes ready with mode 0 in a slot that was given mode 3. */
  lemma MetadataCanBeLost(n: nat)
    requires n == MAX_RETRIES
    ensures WellFormed(OneSlot(true)) && OneSlot(true)[0].meta.value.mode == 3
    ensures var e := Exec(Start(OneSlot(true)), LosingSchedule(n) + [0, 0, 0]);
      Finished(e) && e.ready == 1 && |e.readySlots| == 1 && e.readySlots[0].mode == 0
  {
    var w := Start(OneSlot(true));
    LosingRun(true, n);
    SenderTooLate(true, Solo(true, Available, Placing(0, 0, Walk(0)), OoLock.Reading, Parking, Created, 1, GaveUp));
    ExecConcat(w, LosingSchedule(n), [0, 0, 0]);
    SignalAfterwards(Exec(w, LosingSchedule(n)));
  }
}
