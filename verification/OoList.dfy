/**
 The out-of-order list: a chain of small fixed-size elements guarded by two lock words.

 Any number of calls run at once. Each call has its own program counter `Pc`, with one step
 per shared-memory access of the C code, and a schedule (a sequence of call numbers) says
 which call moves next. A statement about `Exec(s, schedule)` for every schedule is a
 statement about every sequentially consistent interleaving.
 */
module OoList {
  import opened Common
  import opened OoLock

  /** Items in one element of the chain. */
  const PER_ELEMENT: nat := 4

  /** Attempts a fire makes to get the writer lock before it gives up. */
  const MAX_RETRIES: nat := 1000

  /** Where an adder that owns a position is. */
  datatype Stage = Walk(at: nat) | Link(at: nat) | Store | Leave

  // Program counters. The item an adder brings is its call number; `index` is the place of
  // its claim in the history of all claims.

  /** arts_out_of_order_list_add_item */
  datatype AddPc =
    | CheckFire
    | WaitReset
    | Enter
    | Recheck
    | BackOff
    | CheckFired
    | LeaveRefused
    | Claim
    | Placing(pos: nat, index: nat, stage: Stage)
    | Refused
    | Accepted(index: nat)

  /** arts_out_of_order_list_fire_callback */
  datatype FirePc =
    | Try(attempt: nat)
    | AskReaders(attempt: nat)
    | GiveBack(attempt: nat)
    | Mark
    | ReadCount
    | Swap(total: nat, done: nat)
    | Clear(total: nat)
    | Detach
    | Unlock
    | Fired
    | GaveUp

  /** arts_out_of_order_list_reset */
  datatype ResetPc = Begin | LookReaders | Return | Unmark | Finish | Over

  datatype Pc = Add(a: AddPc) | FireOp(f: FirePc) | ResetOp(r: ResetPc)

  type Element = seq<Option<nat>>

  const EMPTY_ELEMENT: Element := [None, None, None, None]

  /**
   The shared words, the chain of elements (head first), the calls, and histories:
   `history` lists every item that was given a position, in claim order; `base` counts the
   ones claimed before the last clear of `count`; `log` lists the items passed to the
   callback, in call order. `linkers` names the call that allocated each element after the
   head, `allocs` counts all elements ever allocated, and `dropped` lists the elements a
   fire took off the chain.
   */
  datatype State = State(
    lock: Lock,
    count: nat,
    isFired: bool,
    chain: seq<Element>,
    pcs: seq<Pc>,
    history: seq<nat>,
    base: nat,
    log: seq<nat>,
    linkers: seq<nat>,
    allocs: nat,
    dropped: seq<Element>)

  predicate IsStart(pc: Pc) {
    pc == Add(CheckFire) || pc == FireOp(Try(0)) || pc == ResetOp(Begin)
  }

  /** A zeroed list on which any calls are about to start. */
  function Initial(pcs: seq<Pc>): State {
    State(Lock(0, Free, seq(|pcs|, _ => Outside)), 0, false, [EMPTY_ELEMENT], pcs, [], 0, [], [], 0, [])
  }

  predicate HasSlot(chain: seq<Element>, p: nat) {
    p / PER_ELEMENT < |chain| && p % PER_ELEMENT < |chain[p / PER_ELEMENT]|
  }

  /** Contents of position `p`; a position beyond the chain is empty. */
  function SlotAt(chain: seq<Element>, p: nat): Option<nat> {
    if HasSlot(chain, p) then chain[p / PER_ELEMENT][p % PER_ELEMENT] else None
  }

  function SetSlot(chain: seq<Element>, p: nat, v: Option<nat>): seq<Element>
    requires HasSlot(chain, p)
  {
    chain[p / PER_ELEMENT := chain[p / PER_ELEMENT][p % PER_ELEMENT := v]]
  }

  function At(s: State, id: nat, pc: Pc): State
    requires id < |s.pcs|
  {
    s.(pcs := s.pcs[id := pc])
  }

  /** An adder that owns position `pos`: find or make its element, store, leave. */
  function AdvancePlacing(s: State, id: nat, pos: nat, index: nat, stage: Stage): State
    requires id < |s.pcs| == |s.lock.holds|
  {
    match stage
    case Walk(at) =>
      if at == pos / PER_ELEMENT then At(s, id, Add(Placing(pos, index, Store)))
      else if at + 1 < |s.chain| then At(s, id, Add(Placing(pos, index, Walk(at + 1))))
      else if at + 1 == pos / PER_ELEMENT && pos % PER_ELEMENT == 0 then At(s, id, Add(Placing(pos, index, Link(at))))
      else s
    case Link(at) =>
      // The store to `next` replaces whatever the link held.
      if at < |s.chain| && at <= |s.linkers| then
        At(s, id, Add(Placing(pos, index, Walk(at)))).(
          chain := s.chain[..at + 1] + [EMPTY_ELEMENT],
          linkers := s.linkers[..at] + [id],
          allocs := s.allocs + 1)
      else s
    case Store =>
      if HasSlot(s.chain, pos) && SlotAt(s.chain, pos) == None
      then At(s, id, Add(Placing(pos, index, Leave))).(chain := SetSlot(s.chain, pos, Some(id)))
      else s
    case Leave =>
      At(s, id, Add(Accepted(index))).(lock := UncountReader(s.lock, id))
  }

  function AdvanceAdd(s: State, id: nat, pc: AddPc): State
    requires id < |s.pcs| == |s.lock.holds|
  {
    match pc
    case CheckFire =>
      At(s, id, Add(if s.lock.writerLock == Taken(Fire) then Refused else WaitReset))
    case WaitReset =>
      if s.lock.writerLock == Taken(Reset) then s else At(s, id, Add(Enter))
    case Enter =>
      At(s, id, Add(Recheck)).(lock := CountReader(s.lock, id))
    case Recheck =>
      At(s, id, Add(if s.lock.writerLock == Free then CheckFired else BackOff)).(lock := ConfirmReader(s.lock, id))
    case BackOff =>
      At(s, id, Add(CheckFire)).(lock := UncountReader(s.lock, id))
    case CheckFired =>
      At(s, id, Add(if s.isFired then LeaveRefused else Claim))
    case LeaveRefused =>
      At(s, id, Add(Refused)).(lock := UncountReader(s.lock, id))
    case Claim =>
      At(s, id, Add(Placing(s.count, |s.history|, Walk(0)))).(count := s.count + 1, history := s.history + [id])
    case Placing(pos, index, stage) => AdvancePlacing(s, id, pos, index, stage)
    case Refused => s
    case Accepted(_) => s
  }

  function AdvanceFire(s: State, id: nat, pc: FirePc): State
    requires id < |s.pcs| == |s.lock.holds|
  {
    match pc
    case Try(n) =>
      if n >= MAX_RETRIES then At(s, id, FireOp(GaveUp))
      else At(s, id, FireOp(if s.lock.writerLock == Free then AskReaders(n) else Try(n + 1)))
             .(lock := TakeWord(s.lock, id, Fire))
    case AskReaders(n) =>
      At(s, id, FireOp(if s.lock.readerLock != 0 then GiveBack(n) else Mark)).(lock := ConfirmWriter(s.lock, id))
    case GiveBack(n) =>
      At(s, id, FireOp(Try(n + 1))).(lock := ReleaseWord(s.lock, id))
    case Mark =>
      At(s, id, FireOp(ReadCount)).(isFired := true)
    case ReadCount =>
      At(s, id, FireOp(Swap(s.count, 0)))
    case Swap(total, done) =>
      if done >= total then At(s, id, FireOp(Clear(total)))
      else if SlotAt(s.chain, done) == None then s
      else
        At(s, id, FireOp(Swap(total, done + 1))).(
          chain := SetSlot(s.chain, done, None),
          log := s.log + [SlotAt(s.chain, done).value])
    case Clear(total) =>
      At(s, id, FireOp(Detach)).(count := 0, base := s.base + total)
    case Detach =>
      if |s.chain| == 0 then s
      else At(s, id, FireOp(Unlock)).(chain := s.chain[..1], linkers := [], dropped := s.dropped + s.chain[1..])
    case Unlock =>
      At(s, id, FireOp(Fired)).(lock := ReleaseWord(s.lock, id))
    case Fired => s
    case GaveUp => s
  }

  function AdvanceReset(s: State, id: nat, pc: ResetPc): State
    requires id < |s.pcs| == |s.lock.holds|
  {
    match pc
    case Begin =>
      At(s, id, ResetOp(if s.lock.writerLock == Free then LookReaders else Over)).(lock := TakeWord(s.lock, id, Reset))
    case LookReaders =>
      At(s, id, ResetOp(if s.lock.readerLock != 0 then Return else Unmark)).(lock := ConfirmWriter(s.lock, id))
    case Return =>
      At(s, id, ResetOp(Over)).(lock := ReleaseWord(s.lock, id))
    case Unmark =>
      At(s, id, ResetOp(Finish)).(isFired := false)
    case Finish =>
      At(s, id, ResetOp(Over)).(lock := ReleaseWord(s.lock, id))
    case Over => s
  }

  /** One step of call `id`. A spinning, finished or unknown call leaves the state alone. */
  function Advance(s: State, id: nat): State {
    if !(id < |s.pcs| == |s.lock.holds|) then s else
    match s.pcs[id]
    case Add(a) => AdvanceAdd(s, id, a)
    case FireOp(f) => AdvanceFire(s, id, f)
    case ResetOp(r) => AdvanceReset(s, id, r)
  }

  function Exec(s: State, schedule: seq<nat>): State
    decreases |schedule|
  {
    if schedule == [] then s else Exec(Advance(s, schedule[0]), schedule[1..])
  }

  // ---------------------------------------------------------------------------------------
  // The lock words

  /** What a call at `pc` has got from the lock. */
  function HoldOf(pc: Pc): Hold {
    match pc
    case Add(a) =>
      if a.Recheck? || a.BackOff? then Counted
      else if a.CheckFired? || a.LeaveRefused? || a.Claim? || a.Placing? then Reading
      else Outside
    case FireOp(f) =>
      if f.AskReaders? || f.GiveBack? then Waiting(Fire)
      else if f.Try? || f.Fired? || f.GaveUp? then Outside
      else Writing(Fire)
    case ResetOp(r) =>
      if r.LookReaders? || r.Return? then Waiting(Reset)
      else if r.Begin? || r.Over? then Outside
      else Writing(Reset)
  }

  ghost predicate HoldsMatch(s: State) {
    && |s.lock.holds| == |s.pcs|
    && (forall id | 0 <= id < |s.pcs| :: s.lock.holds[id] == HoldOf(s.pcs[id]))
  }

  /** A step moves one program counter and one hold, and keeps them matched. */
  ghost predicate Moves(s: State, s': State, id: nat) {
    && id < |s.pcs| == |s.lock.holds| == |s'.pcs| == |s'.lock.holds|
    && s'.pcs == s.pcs[id := s'.pcs[id]]
    && s'.lock.holds == s.lock.holds[id := HoldOf(s'.pcs[id])]
  }

  // Each step makes at most one lock access, and makes it from the hold it is meant for.

  lemma AddAccess(s: State, id: nat, a: AddPc)
    requires id < |s.pcs| == |s.lock.holds| && s.lock.holds[id] == HoldOf(Add(a))
    ensures Access(s.lock, AdvanceAdd(s, id, a).lock, id)
  {
  }

  lemma FireAccess(s: State, id: nat, f: FirePc)
    requires id < |s.pcs| == |s.lock.holds| && s.lock.holds[id] == HoldOf(FireOp(f))
    ensures Access(s.lock, AdvanceFire(s, id, f).lock, id)
  {
  }

  lemma ResetAccess(s: State, id: nat, r: ResetPc)
    requires id < |s.pcs| == |s.lock.holds| && s.lock.holds[id] == HoldOf(ResetOp(r))
    ensures Access(s.lock, AdvanceReset(s, id, r).lock, id)
  {
  }

  lemma AddMoves(s: State, id: nat, a: AddPc)
    requires id < |s.pcs| == |s.lock.holds| && s.lock.holds[id] == HoldOf(Add(a)) && s.pcs[id] == Add(a)
    ensures Moves(s, AdvanceAdd(s, id, a), id)
  {
  }

  lemma FireMoves(s: State, id: nat, f: FirePc)
    requires id < |s.pcs| == |s.lock.holds| && s.lock.holds[id] == HoldOf(FireOp(f)) && s.pcs[id] == FireOp(f)
    ensures Moves(s, AdvanceFire(s, id, f), id)
  {
  }

  lemma ResetMoves(s: State, id: nat, r: ResetPc)
    requires id < |s.pcs| == |s.lock.holds| && s.lock.holds[id] == HoldOf(ResetOp(r)) && s.pcs[id] == ResetOp(r)
    ensures Moves(s, AdvanceReset(s, id, r), id)
  {
  }

  // ---------------------------------------------------------------------------------------
  // The data under the locks

  predicate IsPlacing(pc: Pc) {
    pc.Add? && pc.a.Placing?
  }

  predicate Unstored(pc: Pc) {
    IsPlacing(pc) && pc.a.stage != Leave
  }

  predicate IsAccepted(pc: Pc) {
    pc.Add? && pc.a.Accepted?
  }

  /** May claim or already owns a position. */
  predicate AddsData(pc: Pc) {
    IsPlacing(pc) || pc == Add(Claim)
  }

  predicate IsSwap(pc: Pc) {
    pc.FireOp? && pc.f.Swap?
  }

  predicate IsClear(pc: Pc) {
    pc.FireOp? && pc.f.Clear?
  }

  /** Drains the list. */
  predicate DrainsData(pc: Pc) {
    IsSwap(pc) || IsClear(pc) || pc == FireOp(Detach) || pc == FireOp(ReadCount)
  }

  /** At most one call drains, and none adds meanwhile. */
  ghost predicate Apart(pcs: seq<Pc>) {
    forall i, j | 0 <= i < |pcs| && 0 <= j < |pcs| && DrainsData(pcs[i]) ::
      !AddsData(pcs[j]) && (DrainsData(pcs[j]) ==> i == j)
  }

  lemma LockKeepsApart(s: State)
    requires Inv(s.lock) && HoldsMatch(s)
    ensures Apart(s.pcs)
  {
    forall i, j | 0 <= i < |s.pcs| && 0 <= j < |s.pcs| && DrainsData(s.pcs[i])
      ensures !AddsData(s.pcs[j]) && (DrainsData(s.pcs[j]) ==> i == j)
    {
      assert s.lock.holds[i] == HoldOf(s.pcs[i]) && s.lock.holds[j] == HoldOf(s.pcs[j]);
    }
  }

  /** Who claimed which position. */
  ghost predicate ClaimInv(s: State) {
    && |s.history| == s.base + s.count && s.base <= |s.log| && s.log <= s.history
    && (forall i | 0 <= i < |s.history| :: s.history[i] < |s.pcs| && ClaimOf(s.pcs[s.history[i]], s.base, i))
    && (forall id | 0 <= id < |s.pcs| && HasIndex(s.pcs[id]) ::
          s.pcs[id].a.index < |s.history| && s.history[s.pcs[id].a.index] == id &&
            ClaimOf(s.pcs[id], s.base, s.pcs[id].a.index))
  }

  predicate HasIndex(pc: Pc) {
    IsPlacing(pc) || IsAccepted(pc)
  }

  /** `pc` is the counter of the call that made claim number `i`. */
  predicate ClaimOf(pc: Pc, base: nat, i: nat) {
    HasIndex(pc) && pc.a.index == i && (IsPlacing(pc) ==> base + pc.a.pos == i)
  }

  ghost predicate DrainInv(s: State) {
    && (forall id | 0 <= id < |s.pcs| && IsSwap(s.pcs[id]) ::
          s.pcs[id].f.total == s.count && s.pcs[id].f.done <= s.count && |s.log| == s.base + s.pcs[id].f.done)
    && (forall id | 0 <= id < |s.pcs| && IsClear(s.pcs[id]) ::
          s.pcs[id].f.total == s.count && |s.log| == s.base + s.count)
    && (forall id | 0 <= id < |s.pcs| && s.pcs[id] == FireOp(Detach) :: s.count == 0)
    && (|s.log| > s.base ==> exists id :: 0 <= id < |s.pcs| && (IsSwap(s.pcs[id]) || IsClear(s.pcs[id])))
  }

  /** The chain reaches as far as the walkers think, and no further than the claims. */
  ghost predicate ChainInv(s: State) {
    && |s.chain| >= 1 && |s.linkers| == |s.chain| - 1
    && (forall k | 0 <= k < |s.chain| :: |s.chain[k]| == PER_ELEMENT)
    && s.allocs == |s.dropped| + |s.linkers|
    && (forall id | 0 <= id < |s.pcs| && IsPlacing(s.pcs[id]) :: StageFits(s.chain, s.pcs[id].a.pos, s.pcs[id].a.stage))
    && ((exists id :: 0 <= id < |s.pcs| && s.pcs[id] == FireOp(Detach)) || LinkersInv(s.linkers, s.base, s.history))
  }

  ghost predicate StageFits(chain: seq<Element>, pos: nat, stage: Stage) {
    match stage
    case Walk(at) => at <= pos / PER_ELEMENT && at < |chain|
    case Link(at) => pos == PER_ELEMENT * (at + 1) && at + 1 == |chain|
    case Store => pos / PER_ELEMENT < |chain|
    case Leave => true
  }

  /** Element k + 1 was allocated by the call that owns its first position. */
  ghost predicate LinkersInv(linkers: seq<nat>, base: nat, history: seq<nat>) {
    forall k | 0 <= k < |linkers| ::
      base + PER_ELEMENT * (k + 1) < |history| && linkers[k] == history[base + PER_ELEMENT * (k + 1)]
  }

  /** What every position of the chain holds. */
  ghost predicate SlotInv(s: State)
    requires ClaimInv(s)
  {
    && (forall p: nat :: SlotAt(s.chain, p) == Expected(s, p))
    && (forall k | 0 <= k < |s.dropped| :: s.dropped[k] == EMPTY_ELEMENT)
  }

  ghost function Expected(s: State, p: nat): Option<nat>
    requires ClaimInv(s)
  {
    if s.base + p < |s.log| || s.count <= p || Unstored(s.pcs[s.history[s.base + p]]) then None
    else Some(s.history[s.base + p])
  }

  ghost predicate DataInv(s: State) {
    ClaimInv(s) && DrainInv(s) && ChainInv(s) && SlotInv(s)
  }

  lemma SlotAfterSet(chain: seq<Element>, p: nat, v: Option<nat>, q: nat)
    requires HasSlot(chain, p)
    ensures SlotAt(SetSlot(chain, p, v), q) == if q == p then v else SlotAt(chain, q)
  {
  }

  lemma SlotAfterLink(chain: seq<Element>, q: nat)
    ensures SlotAt(chain + [EMPTY_ELEMENT], q) == SlotAt(chain, q)
  {
  }

  // One group of lemmas per kind of step. Each takes the new state as written by that step.

  ghost predicate Quiet(pc: Pc) {
    !HasIndex(pc) && !DrainsData(pc)
  }

  /** A step that moves one counter and leaves the data alone keeps what the positions hold. */
  lemma SameSlots(s: State, s': State, id: nat)
    requires ClaimInv(s) && SlotInv(s) && ClaimInv(s') && id < |s.pcs| == |s'.pcs|
    requires s' == s.(pcs := s.pcs[id := s'.pcs[id]], lock := s'.lock, isFired := s'.isFired)
    requires Unstored(s'.pcs[id]) == Unstored(s.pcs[id])
    ensures SlotInv(s')
  {
    forall p: nat ensures SlotAt(s'.chain, p) == Expected(s', p) {
      assert SlotAt(s.chain, p) == Expected(s, p);
      SameExpected(s, s', id, p);
    }
  }

  lemma SameExpected(s: State, s': State, id: nat, p: nat)
    requires ClaimInv(s) && ClaimInv(s') && id < |s.pcs| == |s'.pcs|
    requires s'.pcs == s.pcs[id := s'.pcs[id]] && Unstored(s'.pcs[id]) == Unstored(s.pcs[id])
    requires s'.base == s.base && s'.log == s.log && s'.count == s.count && s'.history == s.history
    ensures Expected(s', p) == Expected(s, p)
  {
  }

  /** A step between counters that neither own a position nor drain. */
  ghost predicate QuietStep(s: State, s': State, id: nat) {
    && id < |s.pcs| == |s'.pcs|
    && s' == s.(pcs := s.pcs[id := s'.pcs[id]], lock := s'.lock, isFired := s'.isFired)
    && Quiet(s.pcs[id]) && Quiet(s'.pcs[id])
  }

  lemma QuietKeepsChain(s: State, s': State, id: nat)
    requires ClaimInv(s) && DrainInv(s) && ChainInv(s) && QuietStep(s, s', id)
    ensures ClaimInv(s') && DrainInv(s') && ChainInv(s')
  {
    assert ClaimInv(s');
    if x :| 0 <= x < |s.pcs| && (IsSwap(s.pcs[x]) || IsClear(s.pcs[x])) {
      assert s'.pcs[x] == s.pcs[x];
    }
    if x :| 0 <= x < |s.pcs| && s.pcs[x] == FireOp(Detach) {
      assert s'.pcs[x] == s.pcs[x];
    } else {
      assert LinkersInv(s.linkers, s.base, s.history);
    }
  }

  ghost predicate ClaimStep(s: State, s': State, id: nat) {
    && id < |s.pcs| && s.pcs[id] == Add(Claim)
    && s' == s.(pcs := s.pcs[id := Add(Placing(s.count, |s.history|, Walk(0)))],
                count := s.count + 1, history := s.history + [id], lock := s'.lock)
  }

  lemma ClaimKeepsClaims(s: State, s': State, id: nat)
    requires ClaimInv(s) && ClaimStep(s, s', id)
    ensures ClaimInv(s')
  {
  }

  lemma ClaimKeepsChain(s: State, s': State, id: nat)
    requires ClaimInv(s) && DrainInv(s) && ChainInv(s) && Apart(s.pcs) && ClaimStep(s, s', id)
    ensures DrainInv(s') && ChainInv(s')
  {
    assert LinkersInv(s.linkers, s.base, s.history) && LinkersInv(s'.linkers, s'.base, s'.history);
  }

  lemma ClaimKeepsSlots(s: State, s': State, id: nat)
    requires ClaimInv(s) && SlotInv(s) && ClaimInv(s') && ClaimStep(s, s', id)
    ensures SlotInv(s')
  {
    forall p: nat ensures SlotAt(s'.chain, p) == Expected(s', p) {
      assert SlotAt(s.chain, p) == Expected(s, p);
      if p < s.count {
        assert s'.history[s.base + p] == s.history[s.base + p];
      }
    }
  }

  /** A call that owns a position changes stage without touching the data. */
  ghost predicate StageStep(s: State, s': State, id: nat, stage: Stage) {
    && id < |s.pcs| && Unstored(s.pcs[id]) && stage != Leave
    && s' == s.(pcs := s.pcs[id := Add(Placing(s.pcs[id].a.pos, s.pcs[id].a.index, stage))])
    && StageFits(s.chain, s.pcs[id].a.pos, stage)
  }

  lemma StageKeepsChain(s: State, s': State, id: nat, stage: Stage)
    requires ClaimInv(s) && DrainInv(s) && ChainInv(s) && Apart(s.pcs) && StageStep(s, s', id, stage)
    ensures ClaimInv(s') && DrainInv(s') && ChainInv(s')
  {
    assert ClaimInv(s');
    assert LinkersInv(s.linkers, s.base, s.history);
  }

  ghost predicate LinkStep(s: State, s': State, id: nat) {
    && id < |s.pcs| && IsPlacing(s.pcs[id]) && s.pcs[id].a.stage.Link?
    && var at := s.pcs[id].a.stage.at;
    && at < |s.chain| && at <= |s.linkers|
    && s' == s.(pcs := s.pcs[id := Add(Placing(s.pcs[id].a.pos, s.pcs[id].a.index, Walk(at)))],
                chain := s.chain[..at + 1] + [EMPTY_ELEMENT],
                linkers := s.linkers[..at] + [id],
                allocs := s.allocs + 1)
  }

  /** The link it writes was empty: no element, and no item in one, is ever lost. */
  lemma LinkExtends(s: State, s': State, id: nat)
    requires ChainInv(s) && LinkStep(s, s', id)
    ensures s'.chain == s.chain + [EMPTY_ELEMENT] && s'.linkers == s.linkers + [id]
  {
    var at := s.pcs[id].a.stage.at;
    assert StageFits(s.chain, s.pcs[id].a.pos, s.pcs[id].a.stage);
    assert s.chain[..at + 1] == s.chain && s.linkers[..at] == s.linkers;
  }

  lemma OneLinker(s: State, id: nat, j: nat)
    requires ClaimInv(s) && ChainInv(s) && id < |s.pcs| && j < |s.pcs|
    requires IsPlacing(s.pcs[id]) && s.pcs[id].a.stage.Link? && IsPlacing(s.pcs[j]) && s.pcs[j].a.stage.Link?
    ensures id == j
  {
    assert StageFits(s.chain, s.pcs[id].a.pos, s.pcs[id].a.stage);
    assert StageFits(s.chain, s.pcs[j].a.pos, s.pcs[j].a.stage);
    assert s.history[s.pcs[id].a.index] == id && s.history[s.pcs[j].a.index] == j;
  }

  lemma LinkKeepsChain(s: State, s': State, id: nat)
    requires ClaimInv(s) && DrainInv(s) && ChainInv(s) && Apart(s.pcs) && LinkStep(s, s', id)
    ensures ClaimInv(s') && DrainInv(s') && ChainInv(s')
  {
    LinkExtends(s, s', id);
    assert StageFits(s.chain, s.pcs[id].a.pos, s.pcs[id].a.stage);
    forall j: nat | j < |s'.pcs| && IsPlacing(s'.pcs[j])
      ensures StageFits(s'.chain, s'.pcs[j].a.pos, s'.pcs[j].a.stage)
    {
      assert StageFits(s.chain, s.pcs[j].a.pos, s.pcs[j].a.stage);
      if j != id && s.pcs[j].a.stage.Link? { OneLinker(s, id, j); }
    }
    assert LinkersInv(s.linkers, s.base, s.history) && LinkersInv(s'.linkers, s'.base, s'.history);
  }

  lemma LinkKeepsSlots(s: State, s': State, id: nat)
    requires ClaimInv(s) && ChainInv(s) && SlotInv(s) && ClaimInv(s') && LinkStep(s, s', id)
    ensures SlotInv(s')
  {
    LinkExtends(s, s', id);
    forall p: nat ensures SlotAt(s'.chain, p) == Expected(s', p) {
      SlotAfterLink(s.chain, p);
      assert SlotAt(s.chain, p) == Expected(s, p);
    }
  }

  ghost predicate StoreStep(s: State, s': State, id: nat) {
    && id < |s.pcs| && IsPlacing(s.pcs[id]) && s.pcs[id].a.stage.Store?
    && var pos := s.pcs[id].a.pos;
    && HasSlot(s.chain, pos)
    && s' == s.(pcs := s.pcs[id := Add(Placing(pos, s.pcs[id].a.index, Leave))],
                chain := SetSlot(s.chain, pos, Some(id)))
  }

  lemma StoreKeepsChain(s: State, s': State, id: nat)
    requires ClaimInv(s) && DrainInv(s) && ChainInv(s) && Apart(s.pcs) && StoreStep(s, s', id)
    ensures ClaimInv(s') && DrainInv(s') && ChainInv(s')
  {
    assert LinkersInv(s.linkers, s.base, s.history) && LinkersInv(s'.linkers, s'.base, s'.history);
  }

  lemma StoreKeepsSlots(s: State, s': State, id: nat)
    requires ClaimInv(s) && DrainInv(s) && SlotInv(s) && Apart(s.pcs) && ClaimInv(s') && StoreStep(s, s', id)
    ensures SlotInv(s')
  {
    var pos := s.pcs[id].a.pos;
    forall p: nat ensures SlotAt(s'.chain, p) == Expected(s', p) {
      SlotAfterSet(s.chain, pos, Some(id), p);
      assert SlotAt(s.chain, p) == Expected(s, p);
    }
  }

  ghost predicate LeaveStep(s: State, s': State, id: nat) {
    && id < |s.pcs| && IsPlacing(s.pcs[id]) && s.pcs[id].a.stage.Leave?
    && s' == s.(pcs := s.pcs[id := Add(Accepted(s.pcs[id].a.index))], lock := s'.lock)
  }

  lemma LeaveKeepsChain(s: State, s': State, id: nat)
    requires ClaimInv(s) && DrainInv(s) && ChainInv(s) && Apart(s.pcs) && LeaveStep(s, s', id)
    ensures ClaimInv(s') && DrainInv(s') && ChainInv(s')
  {
    assert ClaimInv(s');
    assert LinkersInv(s.linkers, s.base, s.history);
  }

  lemma EnterFireKeepsChain(s: State, s': State, id: nat)
    requires ClaimInv(s) && DrainInv(s) && ChainInv(s) && Apart(s.pcs) && id < |s.pcs| && Quiet(s.pcs[id])
    requires s' == s.(pcs := s.pcs[id := FireOp(ReadCount)], isFired := s'.isFired)
    ensures ClaimInv(s') && DrainInv(s') && ChainInv(s')
  {
    assert ClaimInv(s');
    if x :| 0 <= x < |s.pcs| && (IsSwap(s.pcs[x]) || IsClear(s.pcs[x])) {
      assert s'.pcs[x] == s.pcs[x];
    }
    if x :| 0 <= x < |s.pcs| && s.pcs[x] == FireOp(Detach) {
      assert s'.pcs[x] == s.pcs[x];
    } else {
      assert LinkersInv(s.linkers, s.base, s.history);
    }
  }

  lemma ReadCountKeepsChain(s: State, s': State, id: nat)
    requires ClaimInv(s) && DrainInv(s) && ChainInv(s) && Apart(s.pcs) && id < |s.pcs| && s.pcs[id] == FireOp(ReadCount)
    requires s' == s.(pcs := s.pcs[id := FireOp(Swap(s.count, 0))])
    ensures ClaimInv(s') && DrainInv(s') && ChainInv(s')
  {
    assert ClaimInv(s');
    assert LinkersInv(s.linkers, s.base, s.history);
  }

  lemma SwapEndKeepsChain(s: State, s': State, id: nat)
    requires ClaimInv(s) && DrainInv(s) && ChainInv(s) && Apart(s.pcs) && id < |s.pcs| && IsSwap(s.pcs[id]) &&
      s.pcs[id].f.done >= s.pcs[id].f.total
    requires s' == s.(pcs := s.pcs[id := FireOp(Clear(s.pcs[id].f.total))])
    ensures ClaimInv(s') && DrainInv(s') && ChainInv(s')
  {
    assert ClaimInv(s');
    assert IsClear(s'.pcs[id]);
    assert LinkersInv(s.linkers, s.base, s.history);
  }

  /** A fire never meets an empty position: every claimed item has been stored. */
  lemma SwapFindsItem(s: State, id: nat)
    requires DataInv(s) && Apart(s.pcs) && id < |s.pcs| && IsSwap(s.pcs[id]) && s.pcs[id].f.done < s.pcs[id].f.total
    ensures |s.log| < |s.history| && SlotAt(s.chain, s.pcs[id].f.done) == Some(s.history[|s.log|])
  {
    var done := s.pcs[id].f.done;
    assert SlotAt(s.chain, done) == Expected(s, done);
    assert !AddsData(s.pcs[s.history[s.base + done]]);
  }

  ghost predicate SwapStep(s: State, s': State, id: nat) {
    && id < |s.pcs| && IsSwap(s.pcs[id]) && s.pcs[id].f.done < s.pcs[id].f.total && |s.log| < |s.history|
    && var done := s.pcs[id].f.done;
    && HasSlot(s.chain, done)
    && s' == s.(pcs := s.pcs[id := FireOp(Swap(s.pcs[id].f.total, done + 1))],
                chain := SetSlot(s.chain, done, None), log := s.log + [s.history[|s.log|]])
  }

  lemma SwapKeepsChain(s: State, s': State, id: nat)
    requires ClaimInv(s) && DrainInv(s) && ChainInv(s) && Apart(s.pcs) && SwapStep(s, s', id)
    ensures ClaimInv(s') && DrainInv(s') && ChainInv(s')
  {
    assert IsSwap(s'.pcs[id]);
    assert LinkersInv(s.linkers, s.base, s.history) && LinkersInv(s'.linkers, s'.base, s'.history);
  }

  lemma SwapKeepsSlots(s: State, s': State, id: nat)
    requires ClaimInv(s) && DrainInv(s) && SlotInv(s) && ClaimInv(s') && SwapStep(s, s', id)
    ensures SlotInv(s')
  {
    assert |s.log| == s.base + s.pcs[id].f.done;
    forall p: nat ensures SlotAt(s'.chain, p) == Expected(s', p) { SwapKeepsSlot(s, s', id, p); }
  }

  lemma SwapKeepsSlot(s: State, s': State, id: nat, p: nat)
    requires ClaimInv(s) && ClaimInv(s') && SlotAt(s.chain, p) == Expected(s, p) && SwapStep(s, s', id)
    requires |s.log| == s.base + s.pcs[id].f.done
    ensures SlotAt(s'.chain, p) == Expected(s', p)
  {
    var done := s.pcs[id].f.done;
    SlotAfterSet(s.chain, done, None, p);
    if done < p < s.count {
      assert s'.pcs[s.history[s.base + p]] == s.pcs[s.history[s.base + p]];
    }
  }

  lemma ClearKeepsData(s: State, s': State, id: nat)
    requires DataInv(s) && Apart(s.pcs) && id < |s.pcs| && IsClear(s.pcs[id])
    requires s' == s.(pcs := s.pcs[id := FireOp(Detach)], count := 0, base := s.base + s.pcs[id].f.total)
    ensures DataInv(s')
  {
    assert ClaimInv(s');
    assert s'.pcs[id] == FireOp(Detach);
    forall p: nat ensures SlotAt(s'.chain, p) == Expected(s', p) {
      assert SlotAt(s.chain, p) == Expected(s, p);
    }
  }

  /** By the time the extra elements are dropped they are empty. */
  lemma DetachedAreEmpty(s: State, k: nat)
    requires DataInv(s) && s.count == 0 && k < |s.chain|
    ensures s.chain[k] == EMPTY_ELEMENT
  {
    forall i: nat | i < PER_ELEMENT ensures s.chain[k][i] == None {
      assert SlotAt(s.chain, PER_ELEMENT * k + i) == Expected(s, PER_ELEMENT * k + i);
    }
  }

  lemma DetachKeepsData(s: State, s': State, id: nat)
    requires DataInv(s) && Apart(s.pcs) && id < |s.pcs| && s.pcs[id] == FireOp(Detach)
    requires s' == s.(pcs := s.pcs[id := FireOp(Unlock)],
                      chain := s.chain[..1], linkers := [], dropped := s.dropped + s.chain[1..])
    ensures DataInv(s')
  {
    assert ClaimInv(s');
    forall k: nat | k < |s.chain| ensures s.chain[k] == EMPTY_ELEMENT { DetachedAreEmpty(s, k); }
    assert LinkersInv(s'.linkers, s'.base, s'.history);
  }

  // ---------------------------------------------------------------------------------------
  // Every step keeps everything

  ghost predicate Good(s: State) {
    Inv(s.lock) && HoldsMatch(s) && DataInv(s)
  }

  lemma InitialGood(pcs: seq<Pc>)
    requires forall id | 0 <= id < |pcs| :: IsStart(pcs[id])
    ensures Good(Initial(pcs))
  {
    var s := Initial(pcs);
    NobodyReads(s.lock.holds);
    assert ClaimInv(s);
    assert LinkersInv(s.linkers, s.base, s.history);
  }

  lemma NobodyReads(holds: seq<Hold>)
    requires forall i | 0 <= i < |holds| :: holds[i] == Outside
    ensures Readers(holds) == 0
  {
  }

  lemma QuietKeepsData(s: State, s': State, id: nat)
    requires DataInv(s) && QuietStep(s, s', id)
    ensures DataInv(s')
  {
    QuietKeepsChain(s, s', id);
    SameSlots(s, s', id);
  }

  lemma PlacingKeepsData(s: State, id: nat)
    requires DataInv(s) && Apart(s.pcs) && id < |s.pcs| == |s.lock.holds| && IsPlacing(s.pcs[id])
    ensures DataInv(AdvancePlacing(s, id, s.pcs[id].a.pos, s.pcs[id].a.index, s.pcs[id].a.stage))
  {
    var pos, index, stage := s.pcs[id].a.pos, s.pcs[id].a.index, s.pcs[id].a.stage;
    var s' := AdvancePlacing(s, id, pos, index, stage);
    assert StageFits(s.chain, pos, stage);
    if stage.Walk? {
      if s' != s {
        StageKeepsChain(s, s', id, s'.pcs[id].a.stage);
        SameSlots(s, s', id);
      }
    } else if stage.Link? {
      LinkKeepsChain(s, s', id);
      LinkKeepsSlots(s, s', id);
    } else if stage.Store? {
      StoreNeverWaits(s, id);
      StoreKeepsChain(s, s', id);
      StoreKeepsSlots(s, s', id);
    } else {
      LeaveKeepsChain(s, s', id);
      SameSlots(s, s', id);
    }
  }

  /** The compare-and-swap of an adder always finds its own position, and finds it empty. */
  lemma StoreNeverWaits(s: State, id: nat)
    requires DataInv(s) && id < |s.pcs| && IsPlacing(s.pcs[id]) && s.pcs[id].a.stage.Store?
    ensures HasSlot(s.chain, s.pcs[id].a.pos) && SlotAt(s.chain, s.pcs[id].a.pos) == None
  {
    var pos := s.pcs[id].a.pos;
    assert StageFits(s.chain, pos, s.pcs[id].a.stage);
    assert SlotAt(s.chain, pos) == Expected(s, pos);
  }

  lemma AddKeepsData(s: State, id: nat, a: AddPc)
    requires DataInv(s) && Apart(s.pcs) && id < |s.pcs| == |s.lock.holds| && s.pcs[id] == Add(a)
    ensures DataInv(AdvanceAdd(s, id, a))
  {
    var s' := AdvanceAdd(s, id, a);
    if a.Claim? {
      ClaimKeepsClaims(s, s', id);
      ClaimKeepsChain(s, s', id);
      ClaimKeepsSlots(s, s', id);
    } else if a.Placing? {
      PlacingKeepsData(s, id);
    } else if s' != s {
      QuietKeepsData(s, s', id);
    }
  }

  lemma SwapKeepsData(s: State, id: nat, f: FirePc)
    requires DataInv(s) && Apart(s.pcs) && id < |s.pcs| == |s.lock.holds| && s.pcs[id] == FireOp(f) && f.Swap?
    ensures DataInv(AdvanceFire(s, id, f))
  {
    var s' := AdvanceFire(s, id, f);
    if f.done >= f.total {
      SwapEndKeepsChain(s, s', id);
      SameSlots(s, s', id);
    } else {
      SwapFindsItem(s, id);
      SwapKeepsChain(s, s', id);
      SwapKeepsSlots(s, s', id);
    }
  }

  lemma FireKeepsData(s: State, id: nat, f: FirePc)
    requires DataInv(s) && Apart(s.pcs) && id < |s.pcs| == |s.lock.holds| && s.pcs[id] == FireOp(f)
    ensures DataInv(AdvanceFire(s, id, f))
  {
    var s' := AdvanceFire(s, id, f);
    if f.Swap? {
      SwapKeepsData(s, id, f);
    } else if f.Mark? {
      EnterFireKeepsChain(s, s', id);
      SameSlots(s, s', id);
    } else if f.ReadCount? {
      ReadCountKeepsChain(s, s', id);
      SameSlots(s, s', id);
    } else if f.Clear? {
      ClearKeepsData(s, s', id);
    } else if f.Detach? {
      DetachKeepsData(s, s', id);
    } else if s' != s {
      QuietKeepsData(s, s', id);
    }
  }

  lemma ResetKeepsData(s: State, id: nat, r: ResetPc)
    requires DataInv(s) && id < |s.pcs| == |s.lock.holds| && s.pcs[id] == ResetOp(r)
    ensures DataInv(AdvanceReset(s, id, r))
  {
    var s' := AdvanceReset(s, id, r);
    if s' != s { QuietKeepsData(s, s', id); }
  }

  lemma StepKeepsGood(s: State, id: nat)
    requires Good(s)
    ensures Good(Advance(s, id))
  {
    if id < |s.pcs| {
      LockKeepsApart(s);
      match s.pcs[id] {
        case Add(a) => AddAccess(s, id, a); AddMoves(s, id, a); AddKeepsData(s, id, a);
        case FireOp(f) => FireAccess(s, id, f); FireMoves(s, id, f); FireKeepsData(s, id, f);
        case ResetOp(r) => ResetAccess(s, id, r); ResetMoves(s, id, r); ResetKeepsData(s, id, r);
      }
      AccessKeepsInv(s.lock, Advance(s, id).lock, id);
    }
  }

  lemma {:induction false} RunKeepsGood(s: State, schedule: seq<nat>)
    requires Good(s)
    ensures Good(Exec(s, schedule))
    decreases |schedule|
  {
    if schedule != [] {
      StepKeepsGood(s, schedule[0]);
      RunKeepsGood(Advance(s, schedule[0]), schedule[1..]);
    }
  }

  // ---------------------------------------------------------------------------------------
  // Main results

  /** While one call holds the writer lock, no other holds it and none holds the reader lock. */
  lemma WritersExclude(pcs: seq<Pc>, schedule: seq<nat>, i: nat, j: nat)
    requires forall id | 0 <= id < |pcs| :: IsStart(pcs[id])
    ensures var s := Exec(Initial(pcs), schedule);
      i < |s.pcs| && j < |s.pcs| && i != j && HoldOf(s.pcs[i]).Writing? ==>
        HoldOf(s.pcs[j]) != Reading && !HasWord(HoldOf(s.pcs[j]))
  {
    InitialGood(pcs);
    RunKeepsGood(Initial(pcs), schedule);
    var s := Exec(Initial(pcs), schedule);
    if i < |s.pcs| && j < |s.pcs| {
      assert s.lock.holds[i] == HoldOf(s.pcs[i]) && s.lock.holds[j] == HoldOf(s.pcs[j]);
    }
  }

  /** No call claims twice. */
  lemma ClaimsAreDistinct(s: State, i: nat, j: nat)
    requires ClaimInv(s) && i < j < |s.history|
    ensures s.history[i] != s.history[j]
  {
    assert ClaimOf(s.pcs[s.history[i]], s.base, i) && ClaimOf(s.pcs[s.history[j]], s.base, j);
  }

  /** The item of an accepted call was delivered at its place in the order, or is in its position. */
  ghost predicate Kept(s: State, id: nat, i: nat) {
    && i < |s.history| && s.history[i] == id
    && (if i < |s.log| then s.log[i] == id else s.base <= i && SlotAt(s.chain, i - s.base) == Some(id))
  }

  lemma AcceptedIsKept(s: State, id: nat)
    requires DataInv(s) && id < |s.pcs| && IsAccepted(s.pcs[id])
    ensures Kept(s, id, s.pcs[id].a.index)
  {
    var i := s.pcs[id].a.index;
    if |s.log| <= i {
      assert SlotAt(s.chain, i - s.base) == Expected(s, i - s.base);
    }
  }

  lemma RefusedIsNowhere(s: State, id: nat, p: nat)
    requires DataInv(s) && id < |s.pcs| && s.pcs[id] == Add(Refused)
    ensures id !in s.history && SlotAt(s.chain, p) != Some(id)
  {
    assert SlotAt(s.chain, p) == Expected(s, p);
  }

  /**
   Conservation. In every reachable state the callback log is a prefix of the claim history
   and no item is in it twice; an accepted item has been delivered, at its place in that
   order, or sits in its own position; a refused item is nowhere.
   */
  lemma ItemsAreConserved(pcs: seq<Pc>, schedule: seq<nat>)
    requires forall id | 0 <= id < |pcs| :: IsStart(pcs[id])
    ensures var s := Exec(Initial(pcs), schedule);
      && s.log <= s.history
      && (forall i: nat, j: nat | i < j < |s.history| :: s.history[i] != s.history[j])
      && (forall id: nat | id < |s.pcs| && IsAccepted(s.pcs[id]) :: Kept(s, id, s.pcs[id].a.index))
      && (forall id: nat, p: nat | id < |s.pcs| && s.pcs[id] == Add(Refused) ::
            id !in s.history && SlotAt(s.chain, p) != Some(id))
  {
    InitialGood(pcs);
    RunKeepsGood(Initial(pcs), schedule);
    var s := Exec(Initial(pcs), schedule);
    forall i: nat, j: nat | i < j < |s.history| ensures s.history[i] != s.history[j] {
      ClaimsAreDistinct(s, i, j);
    }
    forall id: nat | id < |s.pcs| && IsAccepted(s.pcs[id]) ensures Kept(s, id, s.pcs[id].a.index) {
      AcceptedIsKept(s, id);
    }
    forall id: nat, p: nat | id < |s.pcs| && s.pcs[id] == Add(Refused)
      ensures id !in s.history && SlotAt(s.chain, p) != Some(id)
    {
      RefusedIsNowhere(s, id, p);
    }
  }

  /**
   Elements. Every element ever allocated is on the chain or was dropped by a fire, empty.
   The ones on the chain (except between a clear and its detach) were each allocated by the
   call that owns the element's first position, so by one call only.
   */
  lemma ElementsAreConserved(pcs: seq<Pc>, schedule: seq<nat>)
    requires forall id | 0 <= id < |pcs| :: IsStart(pcs[id])
    ensures var s := Exec(Initial(pcs), schedule);
      && s.allocs == |s.dropped| + |s.chain| - 1
      && (forall k | 0 <= k < |s.dropped| :: s.dropped[k] == EMPTY_ELEMENT)
      && ((exists id :: 0 <= id < |s.pcs| && s.pcs[id] == FireOp(Detach)) || LinkersInv(s.linkers, s.base, s.history))
  {
    InitialGood(pcs);
    RunKeepsGood(Initial(pcs), schedule);
  }

  /** A fire that has the lock never spins: each of its steps takes the next item in order. */
  lemma FireNeverWaits(s: State, id: nat)
    requires Good(s) && id < |s.pcs| && IsSwap(s.pcs[id]) && s.pcs[id].f.done < s.pcs[id].f.total
    ensures |s.log| < |s.history| && Advance(s, id).log == s.log + [s.history[|s.log|]]
  {
    LockKeepsApart(s);
    SwapFindsItem(s, id);
    assert Advance(s, id) == AdvanceFire(s, id, s.pcs[id].f);
  }

  /** An adder that spins on a missing element is waiting for a call that can move. */
  lemma BlockedAdderHasMover(s: State, id: nat)
    requires Good(s) && id < |s.pcs| && IsPlacing(s.pcs[id]) && Advance(s, id) == s
    ensures exists mover: nat :: mover < |s.pcs| && IsPlacing(s.pcs[mover]) && Advance(s, mover) != s
  {
    BlockedAtEnd(s, id);
    LockKeepsApart(s);
    NotDrained(s, id);
    FirstMissing(s, id);
    FirstMissingMoves(s, s.history[s.base + PER_ELEMENT * |s.chain|]);
  }

  /** It waits behind the last element. */
  lemma BlockedAtEnd(s: State, id: nat)
    requires Good(s) && id < |s.pcs| && IsPlacing(s.pcs[id]) && Advance(s, id) == s
    ensures |s.chain| <= s.pcs[id].a.pos / PER_ELEMENT
  {
    var a := s.pcs[id].a;
    assert StageFits(s.chain, a.pos, a.stage);
    assert s.pcs[id] == Add(a);
    if a.stage.Store? { StoreNeverWaits(s, id); }
    assert a.stage.Walk?;
  }

  /** The call that owns the first position of the missing element has not stored its item. */
  lemma FirstMissing(s: State, id: nat)
    requires DataInv(s) && id < |s.pcs| && IsPlacing(s.pcs[id]) && |s.log| == s.base
    requires |s.chain| <= s.pcs[id].a.pos / PER_ELEMENT
    ensures s.base + PER_ELEMENT * |s.chain| < |s.history|
    ensures var mover := s.history[s.base + PER_ELEMENT * |s.chain|];
      mover < |s.pcs| && Unstored(s.pcs[mover]) && s.pcs[mover].a.pos == PER_ELEMENT * |s.chain|
  {
    var first := PER_ELEMENT * |s.chain|;
    assert SlotAt(s.chain, first) == Expected(s, first);
  }

  lemma FirstMissingMoves(s: State, mover: nat)
    requires ChainInv(s) && HoldsMatch(s) && mover < |s.pcs| && Unstored(s.pcs[mover])
    requires s.pcs[mover].a.pos == PER_ELEMENT * |s.chain|
    ensures Advance(s, mover) != s
  {
    var m := s.pcs[mover];
    assert StageFits(s.chain, m.a.pos, m.a.stage);
    assert Advance(s, mover).pcs[mover] != s.pcs[mover];
  }

  predicate IsOver(pc: Pc) {
    match pc
    case Add(a) => a.Refused? || a.Accepted?
    case FireOp(f) => f.Fired? || f.GaveUp?
    case ResetOp(r) => r.Over?
  }

  /** Waits for a reset to give the word back, or for the element before its own to be linked. */
  predicate Spins(s: State, pc: Pc) {
    || (pc == Add(WaitReset) && s.lock.writerLock == Taken(Reset))
    || (IsPlacing(pc) && |s.chain| > 0 && pc.a.stage == Walk(|s.chain| - 1) && pc.a.pos > PER_ELEMENT * |s.chain|)
  }

  /** A call that is not over stays where it is in exactly these two places. */
  lemma SpinsIff(s: State, id: nat)
    requires Good(s) && id < |s.pcs| && !IsOver(s.pcs[id])
    ensures Advance(s, id) == s <==> Spins(s, s.pcs[id])
  {
    if IsPlacing(s.pcs[id]) {
      PlacingSpinsIff(s, id);
    } else if IsSwap(s.pcs[id]) && s.pcs[id].f.done < s.pcs[id].f.total {
      FireNeverWaits(s, id);
    } else {
      OthersSpinIff(s, id);
    }
  }

  lemma OthersSpinIff(s: State, id: nat)
    requires HoldsMatch(s) && |s.chain| > 0 && id < |s.pcs| && !IsOver(s.pcs[id]) && !IsPlacing(s.pcs[id])
    requires IsSwap(s.pcs[id]) ==> s.pcs[id].f.done >= s.pcs[id].f.total
    ensures Advance(s, id) == s <==> Spins(s, s.pcs[id])
  {
    match s.pcs[id]
    case Add(a) => assert a.WaitReset? || AdvanceAdd(s, id, a).pcs[id] != Add(a);
    case FireOp(f) => assert AdvanceFire(s, id, f).pcs[id] != FireOp(f);
    case ResetOp(r) => assert AdvanceReset(s, id, r).pcs[id] != ResetOp(r);
  }

  lemma PlacingSpinsIff(s: State, id: nat)
    requires Good(s) && id < |s.pcs| && IsPlacing(s.pcs[id])
    ensures Advance(s, id) == s <==> Spins(s, s.pcs[id])
  {
    var a := s.pcs[id].a;
    assert s.pcs[id] == Add(a) && StageFits(s.chain, a.pos, a.stage);
    if a.stage.Store? {
      StoreNeverWaits(s, id);
    } else if !a.stage.Walk? {
      assert Advance(s, id).pcs[id] != s.pcs[id];
    } else {
      WalkSpinsIff(s, id, a);
    }
  }

  lemma WalkSpinsIff(s: State, id: nat, a: AddPc)
    requires HoldsMatch(s) && id < |s.pcs| && s.pcs[id] == Add(a) && a.Placing? && a.stage.Walk?
    requires StageFits(s.chain, a.pos, a.stage)
    ensures Advance(s, id) == s <==> Spins(s, s.pcs[id])
  {
    var at := a.stage.at;
    if at == a.pos / PER_ELEMENT || at + 1 < |s.chain| || (at + 1 == a.pos / PER_ELEMENT && a.pos % PER_ELEMENT == 0) {
      assert Advance(s, id).pcs[id] != s.pcs[id];
    }
  }

  lemma NotDrained(s: State, id: nat)
    requires DataInv(s) && Apart(s.pcs) && id < |s.pcs| && AddsData(s.pcs[id])
    ensures |s.log| == s.base
  {
  }

  // ---------------------------------------------------------------------------------------
  // Lists that are never reset

  ghost predicate NoResets(s: State) {
    forall id | 0 <= id < |s.pcs| :: !s.pcs[id].ResetOp?
  }

  predicate PastDrain(pc: Pc) {
    pc == FireOp(Detach) || pc == FireOp(Unlock) || pc == FireOp(Fired)
  }

  /** Once fired, nobody adds; once a fire has drained, everything claimed was delivered. */
  ghost predicate FiredInv(s: State) {
    && NoResets(s)
    && (forall id | 0 <= id < |s.pcs| && PastFire(s.pcs[id]) :: s.isFired)
    && (s.isFired ==> forall id | 0 <= id < |s.pcs| :: !AddsData(s.pcs[id]))
    && (forall id | 0 <= id < |s.pcs| && PastDrain(s.pcs[id]) :: s.log == s.history)
  }

  predicate PastFire(pc: Pc) {
    pc.FireOp? && !pc.f.Try? && !pc.f.AskReaders? && !pc.f.GiveBack? && !pc.f.Mark? && !pc.f.GaveUp?
  }

  lemma MarkFinds(s: State, id: nat)
    requires Inv(s.lock) && HoldsMatch(s) && id < |s.pcs| && s.pcs[id] == FireOp(Mark)
    ensures forall j | 0 <= j < |s.pcs| :: !AddsData(s.pcs[j])
  {
    assert s.lock.holds[id] == HoldOf(s.pcs[id]);
    forall j | 0 <= j < |s.pcs| ensures !AddsData(s.pcs[j]) {
      assert s.lock.holds[j] == HoldOf(s.pcs[j]);
    }
  }

  lemma AddKeepsFired(s: State, id: nat, a: AddPc)
    requires FiredInv(s) && id < |s.pcs| == |s.lock.holds| && s.pcs[id] == Add(a)
    ensures FiredInv(AdvanceAdd(s, id, a))
  {
    var s' := AdvanceAdd(s, id, a);
    assert s'.pcs == s.pcs[id := s'.pcs[id]] && s'.isFired == s.isFired && s'.log == s.log;
    assert s'.pcs[id].Add? && (AddsData(s'.pcs[id]) ==> AddsData(s.pcs[id]) || !s.isFired);
  }

  lemma FireKeepsFired(s: State, id: nat, f: FirePc)
    requires FiredInv(s) && DrainInv(s) && id < |s.pcs| == |s.lock.holds| && s.pcs[id] == FireOp(f)
    requires |s.history| == s.base + s.count && s.log <= s.history
    requires f.Mark? ==> forall j | 0 <= j < |s.pcs| :: !AddsData(s.pcs[j])
    ensures FiredInv(AdvanceFire(s, id, f))
  {
    var s' := AdvanceFire(s, id, f);
    assert s'.pcs == s.pcs[id := s'.pcs[id]] && s'.history == s.history && s'.pcs[id].FireOp?;
  }

  lemma StepKeepsFired(s: State, id: nat)
    requires Good(s) && FiredInv(s)
    ensures FiredInv(Advance(s, id))
  {
    if id < |s.pcs| {
      if s.pcs[id].Add? {
        AddKeepsFired(s, id, s.pcs[id].a);
      } else {
        if s.pcs[id].f.Mark? { MarkFinds(s, id); }
        FireKeepsFired(s, id, s.pcs[id].f);
      }
    }
  }

  // ---------------------------------------------------------------------------------------
  // Fired and reset

  /** What a step of call `id` sets the flag to. */
  function MarkOf(s: State, id: nat): Option<bool> {
    if !(id < |s.pcs| == |s.lock.holds|) then None
    else if s.pcs[id] == FireOp(Mark) then Some(true)
    else if s.pcs[id] == ResetOp(Unmark) then Some(false)
    else None
  }

  /** The last such setting in a run. */
  function LastMark(s: State, schedule: seq<nat>): Option<bool>
    decreases |schedule|
  {
    if schedule == [] then None else
      var later := LastMark(Advance(s, schedule[0]), schedule[1..]);
      if later.Some? then later else MarkOf(s, schedule[0])
  }

  lemma StepMarks(s: State, id: nat)
    ensures Advance(s, id).isFired == if MarkOf(s, id).Some? then MarkOf(s, id).value else s.isFired
  {
  }

  /** In every run the list is fired exactly when the last fire or reset to get its lock was a fire. */
  lemma {:induction false} FiredIsLastMark(s: State, schedule: seq<nat>)
    ensures Exec(s, schedule).isFired ==
      if LastMark(s, schedule).Some? then LastMark(s, schedule).value else s.isFired
    decreases |schedule|
  {
    if schedule != [] {
      StepMarks(s, schedule[0]);
      FiredIsLastMark(Advance(s, schedule[0]), schedule[1..]);
    }
  }

  /** A step turns an adder away exactly when it finds a fire at work, or the list fired once it is inside. */
  lemma TurnedAwayIff(s: State, id: nat)
    requires id < |s.pcs| == |s.lock.holds| && s.pcs[id].Add? && !s.pcs[id].a.Refused? && !s.pcs[id].a.LeaveRefused?
    ensures var pc := Advance(s, id).pcs[id];
      && (pc == Add(Refused) <==> s.pcs[id] == Add(CheckFire) && s.lock.writerLock == Taken(Fire))
      && (pc == Add(LeaveRefused) <==> s.pcs[id] == Add(CheckFired) && s.isFired)
  {
    if IsPlacing(s.pcs[id]) { PlacingStaysIn(s, id); }
  }

  lemma PlacingStaysIn(s: State, id: nat)
    requires id < |s.pcs| == |s.lock.holds| && IsPlacing(s.pcs[id])
    ensures IsPlacing(Advance(s, id).pcs[id]) || IsAccepted(Advance(s, id).pcs[id])
  {
    var a := s.pcs[id].a;
    assert Advance(s, id) == AdvancePlacing(s, id, a.pos, a.index, a.stage);
  }

  /** What a call reaches by six steps on its own. */
  lemma SixSteps(s: State, id: nat)
    ensures Exec(s, [id, id, id, id, id, id]) == Exec(Advance(Advance(Advance(s, id), id), id), [id, id, id])
  {
    FirstStep(s, id, [id, id, id, id, id]);
    FirstStep(Advance(s, id), id, [id, id, id, id]);
    FirstStep(Advance(Advance(s, id), id), id, [id, id, id]);
  }

  lemma FirstStep(s: State, id: nat, rest: seq<nat>)
    ensures Exec(s, [id] + rest) == Exec(Advance(s, id), rest)
  {
    assert ([id] + rest)[1..] == rest;
  }

  lemma ThreeSteps(s: State, id: nat)
    ensures Exec(s, [id, id, id]) == Advance(Advance(Advance(s, id), id), id)
  {
    FirstStep(s, id, [id, id]);
    FirstStep(Advance(s, id), id, [id]);
    FirstStep(Advance(Advance(s, id), id), id, []);
  }

  lemma AdderGetsIn(s: State, id: nat)
    requires id < |s.pcs| == |s.lock.holds| && s.pcs[id] == Add(CheckFire) && s.lock.writerLock == Free
    ensures var s' := Advance(Advance(Advance(s, id), id), id);
      && s' == s.(lock := CountReader(s.lock, id), pcs := s.pcs[id := Add(Recheck)])
  {
    var s1 := Advance(s, id);
    assert s1 == s.(pcs := s.pcs[id := Add(WaitReset)]);
    assert Advance(s1, id) == s.(pcs := s.pcs[id := Add(Enter)]);
  }

  lemma AdderDecides(s: State, id: nat)
    requires id < |s.pcs| == |s.lock.holds| && s.pcs[id] == Add(Recheck) && s.lock.writerLock == Free
    ensures var s' := Advance(Advance(Advance(s, id), id), id);
      && |s'.pcs| == |s.pcs|
      && s'.pcs[id] == Add(if s.isFired then Refused else Placing(s.count, |s.history|, Walk(0)))
      && s'.history == (if s.isFired then s.history else s.history + [id])
  {
    var s1 := Advance(s, id);
    assert s1 == s.(pcs := s.pcs[id := Add(CheckFired)], lock := ConfirmReader(s.lock, id));
    var s2 := Advance(s1, id);
    assert s2 == s1.(pcs := s.pcs[id := Add(if s.isFired then LeaveRefused else Claim)]);
  }

  /** An adder that starts while nobody writes claims the next position exactly when the list is not fired. */
  lemma LoneAdder(s: State, id: nat)
    requires id < |s.pcs| == |s.lock.holds| && s.pcs[id] == Add(CheckFire) && s.lock.writerLock == Free
    ensures var e := Exec(s, [id, id, id, id, id, id]);
      && |e.pcs| == |s.pcs|
      && e.pcs[id] == Add(if s.isFired then Refused else Placing(s.count, |s.history|, Walk(0)))
      && e.history == (if s.isFired then s.history else s.history + [id])
  {
    SixSteps(s, id);
    AdderGetsIn(s, id);
    var s3 := Advance(Advance(Advance(s, id), id), id);
    ThreeSteps(s3, id);
    AdderDecides(s3, id);
  }

  /** A reset that starts while nobody writes lets adders in again exactly when it finds no reader. */
  lemma LoneReset(s: State, id: nat)
    requires id < |s.pcs| == |s.lock.holds| && s.pcs[id] == ResetOp(Begin) && s.lock.writerLock == Free
    ensures var e := Exec(s, [id, id, id, id]);
      && |e.pcs| == |s.pcs| && e.pcs[id] == ResetOp(Over) && e.lock.writerLock == Free
      && e.isFired == (s.isFired && s.lock.readerLock != 0)
      && e.chain == s.chain && e.count == s.count && e.history == s.history && e.log == s.log
  {
    var s1 := Advance(s, id);
    assert s1 == s.(pcs := s.pcs[id := ResetOp(LookReaders)], lock := TakeWord(s.lock, id, Reset));
    FirstStep(s, id, [id, id, id]);
    ThreeSteps(s1, id);
    var s2 := Advance(s1, id);
    assert s2.pcs == s.pcs[id := ResetOp(if s.lock.readerLock != 0 then Return else Unmark)];
    var s3 := Advance(s2, id);
    assert s3.pcs == s.pcs[id := ResetOp(if s.lock.readerLock != 0 then Over else Finish)];
  }
}
