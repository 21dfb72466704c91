/**
 The second phase of readiness: an EDT whose signals have all arrived acquires its datablocks.

 acquire_dbs re-arms the counter with one unit per slot and a sentinel, visits the slots in
 GUID order, and counts each down at once or leaves it to completions that run on other
 threads. arts_handle_ready_edt then drops the sentinel. Whoever brings the counter to zero
 puts the EDT on a deque, except that a slice delivered as a signal runs the phase again.
 */
module Acquire {
  import opened Common
  import opened GuidLayout

  // ---------------------------------------------------------------------------------------
  // Visiting order

  /** `index` inserted into an order of earlier slots, after every slot not above it. */
  function Insert(guids: seq<Guid>, order: seq<nat>, index: nat): seq<nat> {
    if order == [] || !Above(guids, order[|order| - 1], index) then
      order + [index]
    else
      Insert(guids, order[..|order| - 1], index) + [order[|order| - 1]]
  }

  /** The first n slots in the order in which they are visited. */
  function OrderOf(guids: seq<Guid>, n: nat): seq<nat> {
    if n == 0 then [] else Insert(guids, OrderOf(guids, n - 1), n - 1)
  }

  /** Ascending by GUID, and slots of equal GUID in slot order; so no slot occurs twice. */
  ghost predicate Stable(guids: seq<Guid>, order: seq<nat>) {
    && (forall x | 0 <= x < |order| :: order[x] < |guids|)
    && (forall x, y | 0 <= x < y < |order| :: Before(guids, order[x], order[y]))
  }

  ghost predicate Before(guids: seq<Guid>, i: nat, j: nat)
    requires i < |guids| && j < |guids|
  {
    Signed(guids[i]) < Signed(guids[j]) || (guids[i] == guids[j] && i < j)
  }

  lemma {:induction false} InsertKeeps(guids: seq<Guid>, order: seq<nat>, index: nat)
    requires index < |guids| && Stable(guids, order) && forall x | 0 <= x < |order| :: order[x] < index
    ensures var r := Insert(guids, order, index);
      && |r| == |order| + 1 && Stable(guids, r) && (forall x | 0 <= x < |r| :: r[x] <= index)
      && (forall i: nat :: i in r <==> i in order || i == index)
  {
    if order != [] && Signed(guids[order[|order| - 1]]) > Signed(guids[index]) {
      var last, rest := order[|order| - 1], order[..|order| - 1];
      InsertKeeps(guids, rest, index);
      var r := Insert(guids, rest, index);
      forall x | 0 <= x < |r| ensures Before(guids, r[x], last) {
        assert r[x] in r;
        if r[x] != index { assert r[x] in rest; }
      }
      assert forall i: nat :: i in order <==> i in rest || i == last;
    }
  }

  /** Each of the slots once, ascending by GUID and stable. */
  lemma {:induction false} OrderIsStable(guids: seq<Guid>, n: nat)
    requires n <= |guids|
    ensures var order := OrderOf(guids, n); EachOnce(order, n) && Stable(guids, order)
  {
    if n > 0 {
      var order := OrderOf(guids, n - 1);
      OrderIsStable(guids, n - 1);
      InsertKeeps(guids, order, n - 1);
      OneMore(order, Insert(guids, order, n - 1), n - 1);
    }
  }

  /** The slots below n; with `Stable`, each once. */
  ghost predicate EachOnce(order: seq<nat>, n: nat) {
    |order| == n && (forall x | 0 <= x < n :: order[x] < n) && (forall i: nat | i < n :: i in order)
  }

  lemma OneMore(order: seq<nat>, order': seq<nat>, n: nat)
    requires EachOnce(order, n) && |order'| == n + 1 && (forall x | 0 <= x < |order'| :: order'[x] <= n)
    requires forall i: nat :: i in order' <==> i in order || i == n
    ensures EachOnce(order', n + 1)
  {
  }

  /** The insertion sort. */
  method SortSlots(guids: seq<Guid>) returns (sorted: array<nat>)
    ensures fresh(sorted) && sorted[..] == OrderOf(guids, |guids|)
  {
    sorted := new nat[|guids|](k => k);
    var k := 1;
    assert OrderOf(guids, 0) == [] && OrderOf(guids, 1) == [0];
    while k < |guids|
      invariant 1 <= k
      invariant k <= |guids| ==> sorted[..k] == OrderOf(guids, k)
      invariant k > |guids| ==> |guids| == 0
      invariant forall x | k <= x < |guids| :: sorted[x] == x
    {
      InsertInPlace(guids, sorted, k);
      k := k + 1;
    }
    assert |guids| > 0 ==> sorted[..] == sorted[..k];
  }

  lemma {:induction false} InsertLandsAt(guids: seq<Guid>, p: seq<nat>, at: nat, index: nat)
    requires at <= |p|
    requires forall x | at <= x < |p| :: Above(guids, p[x], index)
    requires at > 0 ==> !Above(guids, p[at - 1], index)
    ensures Insert(guids, p, index) == p[..at] + [index] + p[at..]
    decreases |p|
  {
    if at < |p| {
      var n := |p| - 1;
      InsertLandsAt(guids, p[..n], at, index);
      assert p[..n][..at] == p[..at] && p[..n][at..] + [p[n]] == p[at..];
    }
  }

  lemma InsertedIs(guids: seq<Guid>, p: seq<nat>, at: nat, index: nat, q: seq<nat>)
    requires at <= |p|
    requires forall x | at <= x < |p| :: Above(guids, p[x], index)
    requires at > 0 ==> !Above(guids, p[at - 1], index)
    requires |q| == |p| + 1 && q[at] == index
    requires (forall x | 0 <= x < at :: q[x] == p[x]) && (forall x | at < x < |q| :: q[x] == p[x - 1])
    ensures q == Insert(guids, p, index)
  {
    InsertLandsAt(guids, p, at, index);
    assert q == p[..at] + [index] + p[at..];
  }

  predicate Above(guids: seq<Guid>, i: nat, j: nat) {
    i < |guids| && j < |guids| && Signed(guids[i]) > Signed(guids[j])
  }

  /** One round: sorted[k] moves left past the greater ones. */
  method InsertInPlace(guids: seq<Guid>, sorted: array<nat>, k: nat)
    requires k < sorted.Length == |guids| && sorted[k] == k
    modifies sorted
    ensures sorted[..k + 1] == Insert(guids, old(sorted[..k]), k)
    ensures forall x | k < x < sorted.Length :: sorted[x] == old(sorted[x])
  {
    ghost var p := sorted[..k];
    var val := sorted[k];
    var j := k - 1;
    while j >= 0 && Above(guids, sorted[j], val)
      invariant -1 <= j < k
      invariant forall x | 0 <= x <= j :: sorted[x] == p[x]
      invariant forall x | j + 1 < x <= k :: sorted[x] == p[x - 1]
      invariant forall x | k < x < sorted.Length :: sorted[x] == old(sorted[x])
      invariant forall x | j < x < k :: Above(guids, p[x], k)
    {
      sorted[j + 1] := sorted[j];
      j := j - 1;
    }
    sorted[j + 1] := val;
    InsertedIs(guids, p, j + 1, k, sorted[..k + 1]);
  }

  // ---------------------------------------------------------------------------------------
  // One slot

  datatype Mode = Unset | RO | EW | RW | Value | Ptr | LcSync | LcNoCopy | Memset

  datatype Pointer = Null | Db | Copy

  /** A dependency slot. `refs` is the route-table references held on its behalf. */
  datatype Slot = Slot(guid: Guid, mode: Mode, ptr: Pointer, sliceSize: nat, refs: nat)

  /** What the route table and the frontier answer when a slot is visited. */
  datatype Answer = Answer(found: bool, isLocalDb: bool, validRank: int, onHead: bool)

  /** How a deferred slot will be completed. */
  datatype Kind =
    | Callback      // arts_db_request_callback
    | Frontier      // arts_signal_frontier_local
    | LocalSlice    // arts_satisfy_local_edt_slice
    | SignalSlice   // internal_signal_edt_ex in mode PTR

  datatype Outcome =
    | Handled(slot: Slot, counted: nat, asks: seq<Kind>)
    | Abort

  /** The node the EDT runs on. */
  datatype Node = Node(rank: nat, ranks: nat)

  function Promoted(node: Node, mode: Mode): Mode {
    if mode == RW && node.ranks > 1 then EW else mode
  }

  /** One iteration of acquire_dbs. */
  function Visit(node: Node, slot: Slot, a: Answer): Outcome {
    if slot.guid == NULL_GUID && slot.mode != Unset then
      Handled(slot, 1, [])
    else if slot.guid != NULL_GUID && slot.ptr == Null then
      var slot := slot.(mode := Promoted(node, slot.mode));
      if slot.mode == Value then
        Handled(slot, 1, [])
      else if TypeOf(slot.guid) == TYPE_DB then
        var slot := if a.found then slot.(refs := slot.refs + 1) else slot;
        if slot.sliceSize != 0 then VisitSlice(node, slot, a) else VisitDb(node, slot, a)
      else if TypeOf(slot.guid) == TYPE_NULL then
        Handled(slot, 1, [])
      else
        Handled(slot, 0, [])
    else
      Handled(slot, 1, [])
  }

  /** Give back the lookup's reference. */
  function Returned(slot: Slot, a: Answer): Slot {
    if a.found && slot.refs > 0 then slot.(refs := slot.refs - 1) else slot
  }

  function VisitSlice(node: Node, slot: Slot, a: Answer): Outcome {
    var here := a.validRank == node.rank;
    if slot.mode != RO then
      Abort
    else if a.found && a.isLocalDb then
      Handled(Returned(slot, a), 0, [LocalSlice])
    else if a.found && RankOf(slot.guid) == node.rank then
      Handled(Returned(slot, a), 0, [if here then LocalSlice else SignalSlice])
    else if a.found then
      Handled(Returned(slot, a), 0, [if here then LocalSlice else SignalSlice])
    else
      Handled(Returned(slot, a), 0, [SignalSlice])
  }

  function VisitDb(node: Node, slot: Slot, a: Answer): Outcome {
    var here := a.validRank == node.rank;
    if a.found && a.isLocalDb then
      Handled(slot.(ptr := Db), 1, [])
    else if a.found && slot.mode == LcSync && RankOf(slot.guid) == node.rank then
      Handled(slot.(ptr := Db), 1, [])
    else if a.found && RankOf(slot.guid) == node.rank then
      // Registering with the frontier parks the EDT there when it is not accepted on the head.
      var parked := if a.onHead then [] else [Frontier];
      if here && a.onHead then
        Handled(slot.(ptr := Db), 1, [])
      else if here then
        Handled(Returned(slot, a), 0, parked)
      else
        Handled(Returned(slot, a), 0, parked + [Callback])
    else if a.found && here then
      Handled(slot.(ptr := Db), 1, [])
    else
      Handled(Returned(slot, a), 0, [Callback])
  }

  /** Nothing more to fetch for the slot. */
  predicate Resolved(slot: Slot) {
    slot.guid == NULL_GUID || slot.ptr != Null || slot.mode == Value || TypeOf(slot.guid) == TYPE_NULL
  }

  /** A GUID that is neither a datablock nor untyped: no branch counts the slot. */
  predicate Stuck(slot: Slot) {
    !Resolved(slot) && TypeOf(slot.guid) != TYPE_DB
  }

  /** A slot's references: one exactly while it points into a datablock. */
  predicate RefsMatch(slot: Slot) {
    slot.refs == if slot.ptr == Db then 1 else 0
  }

  /** Only read-only slices are served. */
  predicate Refused(node: Node, slot: Slot) {
    !Resolved(slot) && TypeOf(slot.guid) == TYPE_DB && slot.sliceSize != 0 && Promoted(node, slot.mode) != RO
  }

  /**
   An owner that does not hold the valid copy, off the head of the frontier: the EDT is parked
   on the frontier and a remote request is made as well.
   */
  predicate AskedTwice(node: Node, slot: Slot, a: Answer) {
    && !Resolved(slot) && TypeOf(slot.guid) == TYPE_DB && slot.sliceSize == 0
    && a.found && !a.isLocalDb && Promoted(node, slot.mode) != LcSync && RankOf(slot.guid) == node.rank
    && a.validRank != node.rank && !a.onHead
  }

  /** Each slot is counted down at once or left to exactly one completion, with these exceptions. */
  lemma VisitAccounts(node: Node, slot: Slot, a: Answer)
    ensures Visit(node, slot, a) == Abort <==> Refused(node, slot)
    ensures Visit(node, slot, a) != Abort ==>
      var Handled(slot', counted, asks) := Visit(node, slot, a);
      && counted + |asks| == (if Stuck(slot) then 0 else if AskedTwice(node, slot, a) then 2 else 1)
      && (counted == 1 ==> asks == [] && Resolved(slot'))
      && (asks != [] ==> !Resolved(slot') && slot'.ptr == Null)
      && (asks != [] ==> TypeOf(slot'.guid) == TYPE_DB && slot'.guid == slot.guid)
      && (AskedTwice(node, slot, a) ==> asks == [Frontier, Callback])
      && (RefsMatch(slot) ==> RefsMatch(slot'))
      && (Resolved(slot) ==> Resolved(slot') && counted == 1)
      && (Stuck(slot) ==> Stuck(slot') && counted == 0)
  {
  }

  /** The slot names a datablock whose pointer is not there yet. */
  predicate Wanted(node: Node, slot: Slot) {
    !Resolved(slot) && TypeOf(slot.guid) == TYPE_DB && !Refused(node, slot)
  }

  /**
   When the datablock may be used at once: it is in the route table, and it is LOCAL, or this
   node owns it and the slot is LC_SYNC or first in line on the valid copy, or another node
   owns it and the cached copy is the valid one.
   */
  predicate Usable(node: Node, slot: Slot, a: Answer) {
    && Wanted(node, slot) && slot.sliceSize == 0 && a.found
    && (|| a.isLocalDb
        || (RankOf(slot.guid) == node.rank && (slot.mode == LcSync || (a.validRank == node.rank && a.onHead)))
        || (RankOf(slot.guid) != node.rank && a.validRank == node.rank))
  }

  /** The data is on this node: a LOCAL datablock, or the valid copy. */
  predicate DataHere(node: Node, a: Answer) {
    a.found && (a.isLocalDb || a.validRank == node.rank)
  }

  /** LOCAL datablocks, and LC_SYNC at the owner, bypass the frontier and the remote requests. */
  predicate Direct(node: Node, slot: Slot, a: Answer) {
    a.found && (a.isLocalDb || (slot.mode == LcSync && RankOf(slot.guid) == node.rank))
  }

  /**
   A wanted slot gets its pointer in the visit exactly when the datablock is usable. Otherwise a
   slice is copied here exactly when the data is here and fetched if not; a whole datablock waits
   on the frontier exactly when this node owns it and the EDT is not on the head, and is
   requested exactly when the valid copy is not here.
   */
  lemma VisitUses(node: Node, slot: Slot, a: Answer)
    requires Wanted(node, slot)
    ensures Visit(node, slot, a).Handled?
    ensures var Handled(slot', counted, asks) := Visit(node, slot, a);
      && slot' == slot.(ptr := slot'.ptr, refs := slot'.refs, mode := Promoted(node, slot.mode))
      && slot'.ptr != Copy
      && (slot'.ptr == Db <==> Usable(node, slot, a))
      && (LocalSlice in asks <==> slot.sliceSize != 0 && DataHere(node, a))
      && (SignalSlice in asks <==> slot.sliceSize != 0 && !DataHere(node, a))
      && (Frontier in asks <==>
            slot.sliceSize == 0 && a.found && RankOf(slot.guid) == node.rank && !Direct(node, slot, a) && !a.onHead)
      && (Callback in asks <==>
            slot.sliceSize == 0 && !Direct(node, slot, a) && (!a.found || a.validRank != node.rank))
  {
  }

  /** Any other slot is left alone, except that its mode is promoted. */
  lemma VisitLeaves(node: Node, slot: Slot, a: Answer)
    requires !Wanted(node, slot) && !Refused(node, slot)
    ensures Visit(node, slot, a).Handled? && Visit(node, slot, a).asks == []
    ensures var slot' := Visit(node, slot, a).slot;
      slot' == slot || (slot.ptr == Null && slot' == slot.(mode := Promoted(node, slot.mode)))
  {
  }

  // ---------------------------------------------------------------------------------------
  // The protocol

  /** A slot's outstanding completion: asked for, or its data written and the count-down due. */
  datatype Wait = NoWait | Asked(kind: Kind) | Written(kind: Kind)

  /**
   `waits` is each slot's completion and `seconds` the second one of a slot asked twice.
   `twice` and `stuck` count the slots visited in this round with two completions or none.
   `misfired` records that the counter once reached zero too early.
   */
  datatype State = State(
    node: Node, slots: seq<Slot>, needed: nat, order: seq<nat>, position: nat, sentinel: bool,
    waits: seq<Wait>, seconds: seq<Wait>, twice: nat, stuck: nat,
    round: nat, enqueued: nat, aborted: bool, misfired: bool)

  /** Steps of the acquiring thread and of the completions. */
  datatype Step =
    | VisitNext(answer: Answer)
    | DropSentinel
    | WriteSlot(slot: nat, second: bool, gone: bool)
    | CountDown(slot: nat, second: bool)

  function GuidsOf(slots: seq<Slot>): (guids: seq<Guid>)
    ensures |guids| == |slots|
  {
    seq(|slots|, i requires 0 <= i < |slots| => slots[i].guid)
  }

  /** acquire_dbs begins. */
  function Arm(s: State): State {
    s.(needed := (|s.slots| + 1) % WORD32, order := OrderOf(GuidsOf(s.slots), |s.slots|), position := 0,
       sentinel := true, stuck := 0, round := s.round + 1)
  }

  function NoWaits(n: nat): (ws: seq<Wait>)
    ensures |ws| == n && forall i | 0 <= i < n :: ws[i] == NoWait
  {
    seq(n, _ => NoWait)
  }

  function Start(node: Node, slots: seq<Slot>): State {
    Arm(State(node, slots, 0, [], 0, false, NoWaits(|slots|), NoWaits(|slots|), 0, 0, 0, 0, false, false))
  }

  /** The counter reached zero; `again` when a slice signal brought it there. */
  function AtZero(s: State, again: bool): State {
    var s := s.(misfired := s.misfired || !Settled(s));
    if again then Arm(s) else s.(enqueued := s.enqueued + 1)
  }

  /** Every slot resolved, no completion outstanding, and the acquiring thread through. */
  predicate Settled(s: State) {
    Quiet(s) && !s.sentinel
  }

  predicate Quiet(s: State) {
    && (forall i | 0 <= i < |s.slots| :: Resolved(s.slots[i]))
    && (forall i | 0 <= i < |s.waits| :: s.waits[i] == NoWait)
    && (forall i | 0 <= i < |s.seconds| :: s.seconds[i] == NoWait)
  }

  /** The atomic count-down by n <= 1. */
  function Sub(needed: nat, n: nat): nat {
    if n == 0 then needed else if needed == 0 then WORD32 - 1 else needed - 1
  }

  function FirstAsk(asks: seq<Kind>): Wait { if |asks| > 0 then Asked(asks[0]) else NoWait }

  function SecondAsk(asks: seq<Kind>): Wait { if |asks| > 1 then Asked(asks[1]) else NoWait }

  predicate CanVisit(s: State) {
    s.sentinel && s.position < |s.order| && s.order[s.position] < |s.slots| == |s.waits| == |s.seconds|
  }

  function AfterVisit(s: State, a: Answer): State
    requires CanVisit(s)
  {
    var i := s.order[s.position];
    match Visit(s.node, s.slots[i], a)
    case Abort => s.(aborted := true)
    case Handled(slot, counted, asks) =>
      s.(slots := s.slots[i := slot], needed := Sub(s.needed, counted), position := s.position + 1,
         waits := s.waits[i := FirstAsk(asks)], seconds := s.seconds[i := SecondAsk(asks)],
         twice := s.twice + (if |asks| > 1 then 1 else 0),
         stuck := s.stuck + (if counted == 0 && asks == [] then 1 else 0),
         misfired := s.misfired || Sub(s.needed, counted) == 0)
  }

  /** What a completion writes into its slot; `gone` when the datablock was destroyed meanwhile. */
  function Delivered(slot: Slot, kind: Kind, gone: bool): Slot {
    match kind
    case Callback => if gone then slot.(guid := NULL_GUID, ptr := Null) else slot.(ptr := Db, refs := slot.refs + 1)
    case Frontier => slot.(ptr := Db, refs := slot.refs + 1)
    case LocalSlice => slot.(ptr := Copy, mode := Ptr, sliceSize := 0)
    case SignalSlice => slot.(ptr := Copy, mode := Ptr, sliceSize := 0)
  }

  function WaitOf(s: State, i: nat, second: bool): Wait
    requires i < |s.slots| == |s.waits| == |s.seconds|
  {
    if second then s.seconds[i] else s.waits[i]
  }

  function WithWait(s: State, i: nat, second: bool, w: Wait): State
    requires i < |s.slots| == |s.waits| == |s.seconds|
  {
    if second then s.(seconds := s.seconds[i := w]) else s.(waits := s.waits[i := w])
  }

  predicate Fits(s: State, i: nat) {
    i < |s.slots| == |s.waits| == |s.seconds|
  }

  function AfterWrite(s: State, i: nat, second: bool, gone: bool): State
    requires Fits(s, i) && WaitOf(s, i, second).Asked?
  {
    var kind := WaitOf(s, i, second).kind;
    WithWait(s.(slots := s.slots[i := Delivered(s.slots[i], kind, gone)]), i, second, Written(kind))
  }

  function AfterCount(s: State, i: nat, second: bool): State
    requires Fits(s, i) && WaitOf(s, i, second).Written?
  {
    var kind := WaitOf(s, i, second).kind;
    var s := WithWait(s, i, second, NoWait).(needed := Sub(s.needed, 1));
    if s.needed == 0 then AtZero(s, kind == SignalSlice) else s
  }

  function AfterSentinel(s: State): State {
    var s := s.(sentinel := false, needed := Sub(s.needed, 1));
    if s.needed == 0 then AtZero(s, false) else s
  }

  /** One step; a step that is not enabled changes nothing. */
  function Advance(s: State, step: Step): State {
    if s.aborted then s else
    match step
    case VisitNext(a) => if CanVisit(s) then AfterVisit(s, a) else s
    case DropSentinel => if s.sentinel && s.position == |s.order| then AfterSentinel(s) else s
    case WriteSlot(i, second, gone) =>
      if Fits(s, i) && WaitOf(s, i, second).Asked? then AfterWrite(s, i, second, gone) else s
    case CountDown(i, second) =>
      if Fits(s, i) && WaitOf(s, i, second).Written? then AfterCount(s, i, second) else s
  }

  function Exec(s: State, steps: seq<Step>): State {
    if steps == [] then s else Advance(Exec(s, steps[..|steps| - 1]), steps[|steps| - 1])
  }

  // ---------------------------------------------------------------------------------------
  // The invariant

  function Outstanding(ws: seq<Wait>): nat {
    if ws == [] then 0 else Outstanding(ws[..|ws| - 1]) + if ws[|ws| - 1] == NoWait then 0 else 1
  }

  function One(w: Wait): nat { if w == NoWait then 0 else 1 }

  lemma {:induction false} OutstandingUpdate(ws: seq<Wait>, i: nat, w: Wait)
    requires i < |ws|
    ensures Outstanding(ws[i := w]) + One(ws[i]) == Outstanding(ws) + One(w)
    decreases |ws|
  {
    var n := |ws| - 1;
    if i == n {
      assert ws[i := w][..n] == ws[..n];
    } else {
      assert ws[i := w][..n] == ws[..n][i := w];
      OutstandingUpdate(ws[..n], i, w);
    }
  }

  lemma {:induction false} NoneOutstanding(ws: seq<Wait>)
    ensures Outstanding(ws) == 0 <==> forall i | 0 <= i < |ws| :: ws[i] == NoWait
  {
    if ws != [] { NoneOutstanding(ws[..|ws| - 1]); }
  }

  ghost predicate IsPermutation(order: seq<nat>, n: nat) {
    && |order| == n && (forall x | 0 <= x < n :: order[x] < n)
    && (forall x, y | 0 <= x < y < n :: order[x] != order[y])
    && (forall i: nat | i < n :: i in order)
  }

  ghost predicate Shape(s: State) {
    && |s.waits| == |s.seconds| == |s.slots| && IsPermutation(s.order, |s.slots|)
    && s.position <= |s.slots| && |s.slots| + 1 < WORD32
    && (s.position < |s.slots| ==> s.sentinel)
  }

  /** The counter owes a unit for the sentinel, each slot ahead, each stuck slot and each completion. */
  ghost predicate Balanced(s: State) {
    s.needed + s.twice ==
      (if s.sentinel then 1 else 0) + (|s.slots| - s.position) + s.stuck + Outstanding(s.waits) + Outstanding(s.seconds)
  }

  ghost predicate Ahead(s: State, i: nat) {
    s.position <= |s.order| && i in s.order[s.position..]
  }

  /** Slots with a completion are visited datablock slots; a stuck one is to be seen. */
  ghost predicate WaitsOk(s: State)
    requires Shape(s)
  {
    && (forall i | 0 <= i < |s.slots| && (s.waits[i] != NoWait || s.seconds[i] != NoWait) ::
          !Ahead(s, i) && !Stuck(s.slots[i]))
    && (s.stuck > 0 ==> exists i :: 0 <= i < |s.slots| && Stuck(s.slots[i]))
  }

  /** As long as no slot was asked twice. */
  ghost predicate SlotOk(slot: Slot, wait: Wait, second: Wait, ahead: bool, stuck: nat) {
    && second == NoWait
    && RefsMatch(slot)
    && match wait
       case NoWait => ahead || Resolved(slot) || (Stuck(slot) && stuck > 0)
       case Asked(_) => slot.ptr == Null
       case Written(_) => Resolved(slot)
  }

  ghost predicate SlotsOk(s: State)
    requires Shape(s)
  {
    forall i | 0 <= i < |s.slots| :: SlotOk(s.slots[i], s.waits[i], s.seconds[i], Ahead(s, i), s.stuck)
  }

  ghost predicate Core(s: State) {
    && Shape(s)
    && (s.twice == 0 ==> SlotsOk(s))
    && if s.enqueued == 0 then
         Balanced(s) && WaitsOk(s) && s.needed > 0 && 1 <= s.round <= 2 && (s.round > 1 ==> s.twice == 0 && Quiet(s))
       else
         s.enqueued == 1 && s.twice == 0 && Settled(s)
  }

  ghost predicate Inv(s: State) {
    if s.misfired then s.twice > 0 else Core(s)
  }

  // ---------------------------------------------------------------------------------------
  // Every step keeps it

  lemma ArmedOrder(s: State)
    ensures IsPermutation(Arm(s).order, |s.slots|)
  {
    var guids := GuidsOf(s.slots);
    var order := OrderOf(guids, |s.slots|);
    OrderIsStable(guids, |s.slots|);
    forall x, y | 0 <= x < y < |order| ensures order[x] != order[y] { assert Before(guids, order[x], order[y]); }
  }

  /** At zero, nothing is left to do exactly when no slot was asked twice. */
  lemma ZeroIsSettledIff(s: State)
    requires Shape(s) && Balanced(s) && WaitsOk(s) && s.needed == 0 && (s.twice == 0 ==> SlotsOk(s))
    ensures Settled(s) <==> s.twice == 0
  {
    NoneOutstanding(s.waits);
    NoneOutstanding(s.seconds);
    if s.twice == 0 {
      forall i | 0 <= i < |s.slots| ensures Resolved(s.slots[i]) {
        assert SlotOk(s.slots[i], s.waits[i], s.seconds[i], Ahead(s, i), s.stuck);
        assert s.order[s.position..] == [];
      }
    }
  }

  /** After the decrement that reached zero. */
  lemma AtZeroKeeps(s: State, again: bool)
    requires !s.misfired && Shape(s) && Balanced(s) && WaitsOk(s) && s.needed == 0
    requires (s.twice == 0 ==> SlotsOk(s)) && s.enqueued == 0 && (again ==> s.round == 1)
    ensures Inv(AtZero(s, again))
  {
    ZeroIsSettledIff(s);
    if s.twice == 0 && again { ArmKeeps(s); }
  }

  lemma ArmKeeps(s: State)
    requires !s.misfired && Shape(s) && Settled(s) && s.twice == 0 && s.enqueued == 0 && SlotsOk(s) && s.round <= 1
    ensures Core(Arm(s))
  {
    ArmedOrder(s);
    ArmedCore(s, Arm(s).order, Arm(s));
  }

  lemma ArmedCore(s: State, order: seq<nat>, s': State)
    requires !s.misfired && Shape(s) && Settled(s) && s.twice == 0 && s.enqueued == 0 && SlotsOk(s) && s.round <= 1
    requires IsPermutation(order, |s.slots|)
    requires s' == s.(needed := |s.slots| + 1, order := order, position := 0, sentinel := true, stuck := 0,
      round := s.round + 1)
    ensures Core(s')
  {
    NoneOutstanding(s.waits);
    NoneOutstanding(s.seconds);
    forall i | 0 <= i < |s'.slots| ensures SlotOk(s'.slots[i], s'.waits[i], s'.seconds[i], Ahead(s', i), s'.stuck) {
      assert SlotOk(s.slots[i], s.waits[i], s.seconds[i], Ahead(s, i), s.stuck);
    }
  }

  lemma SentinelKeeps(s: State)
    requires Core(s) && !s.misfired && s.sentinel && s.position == |s.order|
    ensures Inv(AfterSentinel(s))
  {
    var s' := s.(sentinel := false, needed := s.needed - 1);
    forall i ensures Ahead(s', i) <==> Ahead(s, i) { }
    if s.twice == 0 { SlotsSame(s, s'); }
    if s'.needed == 0 { AtZeroKeeps(s', false); }
  }

  lemma SlotsSame(s: State, s': State)
    requires Shape(s) && Shape(s') && SlotsOk(s) && s'.slots == s.slots && s'.waits == s.waits &&
      s'.seconds == s.seconds
    requires s'.order == s.order && s'.position == s.position && s'.stuck == s.stuck
    ensures SlotsOk(s')
  {
    forall i | 0 <= i < |s'.slots| ensures SlotOk(s'.slots[i], s'.waits[i], s'.seconds[i], Ahead(s', i), s'.stuck) {
      assert SlotOk(s.slots[i], s.waits[i], s.seconds[i], Ahead(s, i), s.stuck);
    }
  }

  lemma AheadStep(order: seq<nat>, position: nat, i: nat)
    requires IsPermutation(order, |order|) && position < |order|
    ensures i in order[position + 1..] <==> i in order[position..] && i != order[position]
  {
    assert order[position..] == [order[position]] + order[position + 1..];
    if i in order[position + 1..] {
      var x :| 0 <= x < |order[position + 1..]| && order[position + 1..][x] == i;
      assert order[position + 1 + x] == i;
    }
  }

  /** What a visit does, without the branches. */
  ghost predicate Visited(s: State, s': State, i: nat, slot: Slot, counted: nat, asks: seq<Kind>)
    requires Shape(s) && i < |s.slots|
  {
    s' == s.(slots := s.slots[i := slot], needed := Sub(s.needed, counted), position := s.position + 1,
      waits := s.waits[i := FirstAsk(asks)], seconds := s.seconds[i := SecondAsk(asks)],
      twice := s.twice + (if |asks| > 1 then 1 else 0),
      stuck := s.stuck + (if counted == 0 && asks == [] then 1 else 0),
      misfired := s.misfired || Sub(s.needed, counted) == 0)
  }

  lemma VisitBalances(s: State, s': State, i: nat, slot: Slot, counted: nat, asks: seq<Kind>)
    requires Shape(s) && Balanced(s) && i < |s.slots| && s.position < |s.slots| && s.needed > 0
    requires counted + |asks| <= 2 && counted <= 1 && (counted == 1 ==> asks == [])
    requires s.waits[i] == NoWait && s.seconds[i] == NoWait
    requires Visited(s, s', i, slot, counted, asks)
    ensures Balanced(s')
  {
    OutstandingUpdate(s.waits, i, FirstAsk(asks));
    OutstandingUpdate(s.seconds, i, SecondAsk(asks));
  }

  lemma VisitKeepsSlots(s: State, s': State, i: nat, slot: Slot, counted: nat, asks: seq<Kind>)
    requires Shape(s) && SlotsOk(s) && s.position < |s.slots| && i == s.order[s.position]
    requires Visited(s, s', i, slot, counted, asks) && s'.twice == 0
    requires RefsMatch(slot) && (counted == 1 ==> Resolved(slot)) && (asks != [] ==> slot.ptr == Null)
    requires counted == 0 && asks == [] ==> Stuck(slot)
    requires counted == 0 || counted == 1
    ensures Shape(s') && SlotsOk(s')
  {
    forall j | 0 <= j < |s'.slots| ensures SlotOk(s'.slots[j], s'.waits[j], s'.seconds[j], Ahead(s', j), s'.stuck) {
      assert SlotOk(s.slots[j], s.waits[j], s.seconds[j], Ahead(s, j), s.stuck);
      AheadStep(s.order, s.position, j);
    }
  }

  lemma VisitKeepsWaits(s: State, s': State, i: nat, slot: Slot, counted: nat, asks: seq<Kind>)
    requires Shape(s) && WaitsOk(s) && s.position < |s.slots| && i == s.order[s.position]
    requires Visited(s, s', i, slot, counted, asks)
    requires (counted == 0 && asks == [] ==> Stuck(slot)) && (asks != [] ==> !Stuck(slot))
    requires Stuck(s.slots[i]) ==> Stuck(slot)
    ensures Shape(s') && WaitsOk(s')
  {
    forall j | 0 <= j < |s'.slots| && (s'.waits[j] != NoWait || s'.seconds[j] != NoWait)
      ensures !Ahead(s', j) && !Stuck(s'.slots[j])
    {
      AheadStep(s.order, s.position, j);
    }
    if s.stuck > 0 {
      var w :| 0 <= w < |s.slots| && Stuck(s.slots[w]);
      assert Stuck(s'.slots[w]);
    } else if s'.stuck > 0 {
      assert Stuck(s'.slots[i]);
    }
  }

  /** The next slot has no completion yet. */
  lemma NextIsFree(s: State)
    requires Shape(s) && WaitsOk(s) && s.position < |s.slots|
    ensures var i := s.order[s.position]; s.waits[i] == NoWait && s.seconds[i] == NoWait
  {
    assert s.order[s.position..][0] == s.order[s.position];
    assert Ahead(s, s.order[s.position]);
  }

  lemma VisitKeepsCore(s: State, s': State, i: nat, a: Answer)
    requires Core(s) && !s.misfired && s.sentinel && s.position < |s.slots| && i == s.order[s.position]
    requires Visit(s.node, s.slots[i], a).Handled?
    requires var o := Visit(s.node, s.slots[i], a); Visited(s, s', i, o.slot, o.counted, o.asks)
    ensures Inv(s')
  {
    var Handled(slot, counted, asks) := Visit(s.node, s.slots[i], a);
    VisitAccounts(s.node, s.slots[i], a);
    NextIsFree(s);
    VisitBalances(s, s', i, slot, counted, asks);
    VisitKeepsWaits(s, s', i, slot, counted, asks);
    if s'.twice == 0 {
      assert SlotOk(s.slots[i], s.waits[i], s.seconds[i], Ahead(s, i), s.stuck);
      VisitKeepsSlots(s, s', i, slot, counted, asks);
    }
  }

  lemma VisitKeeps(s: State, a: Answer)
    requires Core(s) && !s.misfired && CanVisit(s)
    ensures Inv(AfterVisit(s, a))
  {
    var i, s' := s.order[s.position], AfterVisit(s, a);
    if Visit(s.node, s.slots[i], a) == Abort {
      if s.twice == 0 { SlotsSame(s, s'); }
    } else {
      VisitKeepsCore(s, s', i, a);
    }
  }

  // Completions

  /** A completion's data reaches its slot. */
  lemma WriteKeeps(s: State, i: nat, second: bool, gone: bool)
    requires Core(s) && !s.misfired && Fits(s, i) && WaitOf(s, i, second).Asked?
    ensures Core(AfterWrite(s, i, second, gone))
  {
    var kind, s' := WaitOf(s, i, second).kind, AfterWrite(s, i, second, gone);
    OutstandingUpdate(if second then s.seconds else s.waits, i, Written(kind));
    assert s.enqueued == 0 && s.round <= 1;
    if s.stuck > 0 {
      var w :| 0 <= w < |s.slots| && Stuck(s.slots[w]);
      assert Stuck(s'.slots[w]);
    }
    forall j | 0 <= j < |s'.slots| && (s'.waits[j] != NoWait || s'.seconds[j] != NoWait)
      ensures !Ahead(s', j) && !Stuck(s'.slots[j])
    {
      assert Ahead(s', j) <==> Ahead(s, j);
    }
    if s.twice == 0 { WriteKeepsSlots(s, s', i, gone); }
  }

  lemma WriteKeepsSlots(s: State, s': State, i: nat, gone: bool)
    requires Shape(s) && SlotsOk(s) && i < |s.slots| && s.waits[i].Asked?
    requires s' == s.(slots := s.slots[i := Delivered(s.slots[i], s.waits[i].kind, gone)],
      waits := s.waits[i := Written(s.waits[i].kind)])
    ensures SlotsOk(s')
  {
    forall j | 0 <= j < |s'.slots| ensures SlotOk(s'.slots[j], s'.waits[j], s'.seconds[j], Ahead(s', j), s'.stuck) {
      assert SlotOk(s.slots[j], s.waits[j], s.seconds[j], Ahead(s, j), s.stuck);
    }
  }

  lemma CountKeepsSlots(s: State, s': State, i: nat, needed: nat)
    requires Shape(s) && SlotsOk(s) && i < |s.slots| && s.waits[i].Written?
    requires s' == s.(waits := s.waits[i := NoWait], needed := needed)
    ensures SlotsOk(s')
  {
    forall j | 0 <= j < |s'.slots| ensures SlotOk(s'.slots[j], s'.waits[j], s'.seconds[j], Ahead(s', j), s'.stuck) {
      assert SlotOk(s.slots[j], s.waits[j], s.seconds[j], Ahead(s, j), s.stuck);
    }
  }

  lemma CountKeeps(s: State, i: nat, second: bool)
    requires Core(s) && !s.misfired && Fits(s, i) && WaitOf(s, i, second).Written?
    ensures Inv(AfterCount(s, i, second))
  {
    var kind := WaitOf(s, i, second).kind;
    var s' := WithWait(s, i, second, NoWait).(needed := Sub(s.needed, 1));
    assert s.enqueued == 0 && s.round <= 1;
    OutstandingUpdate(if second then s.seconds else s.waits, i, NoWait);
    assert WaitsOk(s') by {
      forall j | 0 <= j < |s'.slots| && (s'.waits[j] != NoWait || s'.seconds[j] != NoWait)
        ensures !Ahead(s', j) && !Stuck(s'.slots[j])
      {
        assert Ahead(s', j) <==> Ahead(s, j);
      }
    }
    if s.twice == 0 { CountKeepsSlots(s, s', i, s'.needed); }
    if s'.needed == 0 { AtZeroKeeps(s', kind == SignalSlice); }
  }

  lemma StepKeepsInv(s: State, step: Step)
    requires Inv(s)
    ensures Inv(Advance(s, step))
  {
    if !s.aborted && !s.misfired {
      match step
      case VisitNext(a) => if CanVisit(s) { VisitKeeps(s, a); }
      case DropSentinel => if s.sentinel && s.position == |s.order| { SentinelKeeps(s); }
      case WriteSlot(i, second, gone) =>
        if Fits(s, i) && WaitOf(s, i, second).Asked? { WriteKeeps(s, i, second, gone); }
      case CountDown(i, second) =>
        if Fits(s, i) && WaitOf(s, i, second).Written? { CountKeeps(s, i, second); }
    }
  }

  // ---------------------------------------------------------------------------------------
  // Every run

  ghost predicate Initial(slots: seq<Slot>) {
    |slots| + 1 < WORD32 && forall i | 0 <= i < |slots| :: RefsMatch(slots[i])
  }

  lemma StartKeeps(node: Node, slots: seq<Slot>)
    requires Initial(slots)
    ensures Core(Start(node, slots)) && !Start(node, slots).misfired
  {
    var s := Start(node, slots);
    ArmedOrder(s);
    StartCore(s, s.order);
  }

  lemma StartCore(s: State, order: seq<nat>)
    requires Initial(s.slots) && IsPermutation(order, |s.slots|)
    requires s == State(s.node, s.slots, |s.slots| + 1, order, 0, true, s.waits, s.seconds, 0, 0, 1, 0, false, false)
    requires |s.waits| == |s.seconds| == |s.slots|
    requires (forall i | 0 <= i < |s.slots| :: s.waits[i] == NoWait && s.seconds[i] == NoWait)
    ensures Core(s)
  {
    NoneOutstanding(s.waits);
    NoneOutstanding(s.seconds);
    assert order[0..] == order;
    forall i | 0 <= i < |s.slots| ensures SlotOk(s.slots[i], s.waits[i], s.seconds[i], Ahead(s, i), s.stuck) { }
  }

  lemma {:induction false} RunKeepsInv(node: Node, slots: seq<Slot>, steps: seq<Step>)
    requires Initial(slots)
    ensures Inv(Exec(Start(node, slots), steps))
  {
    if steps == [] {
      StartKeeps(node, slots);
    } else {
      RunKeepsInv(node, slots, steps[..|steps| - 1]);
      StepKeepsInv(Exec(Start(node, slots), steps[..|steps| - 1]), steps[|steps| - 1]);
    }
  }

  /** Over any run in which no slot is asked twice: one enqueue at most, and only when all is in place. */
  lemma EnqueuedOnceResolved(node: Node, slots: seq<Slot>, steps: seq<Step>)
    requires Initial(slots)
    ensures var s := Exec(Start(node, slots), steps);
      s.twice == 0 ==>
        && s.enqueued <= 1
        && (s.enqueued == 1 ==> Settled(s) && forall i | 0 <= i < |s.slots| :: RefsMatch(s.slots[i]))
  {
    RunKeepsInv(node, slots, steps);
    var s := Exec(Start(node, slots), steps);
    if s.twice == 0 {
      forall i | 0 <= i < |s.slots| ensures RefsMatch(s.slots[i]) {
        assert SlotOk(s.slots[i], s.waits[i], s.seconds[i], Ahead(s, i), s.stuck);
      }
    }
  }

  /** An EDT that reaches a deque got there too early exactly when a slot was asked twice. */
  lemma MisfireIff(node: Node, slots: seq<Slot>, steps: seq<Step>)
    requires Initial(slots)
    ensures var s := Exec(Start(node, slots), steps);
      && (s.misfired ==> s.twice > 0)
      && (s.enqueued > 0 ==> (s.misfired <==> s.twice > 0))
  {
    RunKeepsInv(node, slots, steps);
  }

  /** `twice` counts the visits whose guard AskedTwice held. */
  lemma TwiceMeans(s: State, step: Step)
    ensures Advance(s, step).twice == s.twice +
      if !s.aborted && step.VisitNext? && CanVisit(s) && AskedTwice(s.node, s.slots[s.order[s.position]], step.answer)
      then 1 else 0
  {
    if !s.aborted && step.VisitNext? && CanVisit(s) {
      VisitAccounts(s.node, s.slots[s.order[s.position]], step.answer);
    }
  }

  /** The counter takes the step to zero. */
  predicate Finishes(s: State, step: Step) {
    && !s.aborted && s.needed == 1
    && match step
       case VisitNext(_) => false
       case DropSentinel => s.sentinel && s.position == |s.order|
       case WriteSlot(_, _, _) => false
       case CountDown(i, second) => Fits(s, i) && WaitOf(s, i, second).Written?
  }

  predicate BySliceSignal(s: State, step: Step) {
    step.CountDown? && Fits(s, step.slot) && WaitOf(s, step.slot, step.second) == Written(SignalSlice)
  }

  /** The phase runs again exactly when the last unit was a slice signal's, and the EDT is enqueued otherwise. */
  lemma RerunIff(s: State, step: Step)
    ensures var s' := Advance(s, step);
      && s'.round == s.round + (if Finishes(s, step) && BySliceSignal(s, step) then 1 else 0)
      && s'.enqueued == s.enqueued + (if Finishes(s, step) && !BySliceSignal(s, step) then 1 else 0)
  {
  }

  // ---------------------------------------------------------------------------------------
  // Where a pointer came from

  /** The step visits slot i. */
  predicate Visits(s: State, step: Step, i: nat) {
    !s.aborted && step.VisitNext? && CanVisit(s) && s.order[s.position] == i
  }

  /** The step visits slot i and asks for this completion. */
  predicate AsksFor(s: State, step: Step, i: nat, kind: Kind) {
    Visits(s, step, i) && Wanted(s.node, s.slots[i]) && kind in Visit(s.node, s.slots[i], step.answer).asks
  }

  /** The step writes the data of this completion into slot i. */
  predicate Delivers(s: State, step: Step, i: nat, kind: Kind) {
    && !s.aborted && step.WriteSlot? && step.slot == i && Fits(s, i) && WaitOf(s, i, step.second) == Asked(kind)
    && (step.gone ==> kind != Callback)
  }

  /** The step makes slot i point at its datablock. */
  predicate Brings(s: State, step: Step, i: nat) {
    || (Visits(s, step, i) && Usable(s.node, s.slots[i], step.answer))
    || Delivers(s, step, i, Frontier) || Delivers(s, step, i, Callback)
  }

  lemma StepBrings(s: State, step: Step, i: nat)
    requires i < |s.slots| && s.slots[i].ptr != Db
    ensures |Advance(s, step).slots| == |s.slots|
    ensures Advance(s, step).slots[i].ptr == Db <==> Brings(s, step, i)
  {
    if Visits(s, step, i) {
      var slot := s.slots[i];
      if Wanted(s.node, slot) {
        VisitUses(s.node, slot, step.answer);
      } else if !Refused(s.node, slot) {
        VisitLeaves(s.node, slot, step.answer);
      }
    }
  }

  lemma StepKeepsSize(s: State, step: Step)
    ensures |Advance(s, step).slots| == |s.slots| && Advance(s, step).node == s.node
  {
  }

  lemma {:induction false} RunKeepsSize(s: State, steps: seq<Step>)
    ensures |Exec(s, steps).slots| == |s.slots| && Exec(s, steps).node == s.node
  {
    if steps != [] {
      RunKeepsSize(s, steps[..|steps| - 1]);
      StepKeepsSize(Exec(s, steps[..|steps| - 1]), steps[|steps| - 1]);
    }
  }

  lemma PrefixOfInit(steps: seq<Step>, t: nat)
    requires t < |steps|
    ensures steps[..|steps| - 1][..t] == steps[..t]
  {
  }

  /**
   In every run, a slot that came to point at its datablock was made to by a visit that found it
   usable, or by the frontier's or a request's completion.
   */
  lemma {:induction false} DbCameFrom(s: State, steps: seq<Step>, i: nat)
    requires i < |s.slots| && s.slots[i].ptr != Db
    ensures var e := Exec(s, steps);
      && |e.slots| == |s.slots|
      && (e.slots[i].ptr == Db ==> exists t :: 0 <= t < |steps| && Brings(Exec(s, steps[..t]), steps[t], i))
  {
    RunKeepsSize(s, steps);
    if steps != [] {
      var n := |steps| - 1;
      var before := Exec(s, steps[..n]);
      DbCameFrom(s, steps[..n], i);
      if before.slots[i].ptr == Db {
        var t :| 0 <= t < n && Brings(Exec(s, steps[..n][..t]), steps[..n][t], i);
        PrefixOfInit(steps, t);
        assert Brings(Exec(s, steps[..t]), steps[t], i);
      } else {
        StepBrings(before, steps[n], i);
      }
    }
  }

  lemma StepAsks(s: State, step: Step, i: nat, second: bool)
    requires Fits(s, i) && WaitOf(s, i, second) == NoWait
    ensures Fits(Advance(s, step), i)
    ensures var w := WaitOf(Advance(s, step), i, second); w != NoWait ==> w.Asked? && AsksFor(s, step, i, w.kind)
  {
    if Visits(s, step, i) {
      var slot := s.slots[i];
      if Wanted(s.node, slot) {
        VisitUses(s.node, slot, step.answer);
      } else if !Refused(s.node, slot) {
        VisitLeaves(s.node, slot, step.answer);
      }
    }
  }

  lemma StepAnswers(s: State, step: Step, i: nat, second: bool)
    requires Fits(s, i) && WaitOf(s, i, second) != NoWait
    ensures Fits(Advance(s, step), i)
    ensures var w, w' := WaitOf(s, i, second), WaitOf(Advance(s, step), i, second);
      w' == NoWait || w'.kind == w.kind || (w'.Asked? && AsksFor(s, step, i, w'.kind))
  {
    if Visits(s, step, i) {
      var slot := s.slots[i];
      if Wanted(s.node, slot) {
        VisitUses(s.node, slot, step.answer);
      } else if !Refused(s.node, slot) {
        VisitLeaves(s.node, slot, step.answer);
      }
    }
  }

  /** A completion of slot i that is outstanding was asked for by a visit of the slot. */
  lemma {:induction false} WaitCameFrom(s: State, steps: seq<Step>, i: nat, second: bool)
    requires Fits(s, i) && WaitOf(s, i, second) == NoWait
    ensures var e := Exec(s, steps);
      && Fits(e, i)
      && (WaitOf(e, i, second) != NoWait ==>
            exists t :: 0 <= t < |steps| && AsksFor(Exec(s, steps[..t]), steps[t], i, WaitOf(e, i, second).kind))
  {
    if steps != [] {
      var n, e := |steps| - 1, Exec(s, steps);
      var before := Exec(s, steps[..n]);
      WaitCameFrom(s, steps[..n], i, second);
      if WaitOf(before, i, second) == NoWait {
        StepAsks(before, steps[n], i, second);
      } else {
        StepAnswers(before, steps[n], i, second);
        var kind := WaitOf(before, i, second).kind;
        var t :| 0 <= t < n && AsksFor(Exec(s, steps[..n][..t]), steps[..n][t], i, kind);
        PrefixOfInit(steps, t);
        assert AsksFor(Exec(s, steps[..t]), steps[t], i, kind);
      }
    }
  }

  // ---------------------------------------------------------------------------------------
  // Modes

  predicate IsSlice(kind: Kind) { kind == LocalSlice || kind == SignalSlice }

  /** What an outstanding completion says about the slot as it was signalled. */
  predicate WaitLawful(node: Node, slot0: Slot, slot: Slot, w: Wait) {
    w != NoWait ==>
      && Wanted(node, slot0) && (IsSlice(w.kind) <==> slot0.sliceSize != 0)
      && (slot.ptr != Copy ==> slot.mode == Promoted(node, slot0.mode))
  }

  /** How a slot may differ from `slot0`, as which it was signalled. */
  predicate Lawful(node: Node, slot0: Slot, slot: Slot) {
    && (!Wanted(node, slot0) ==>
          slot == slot0 || (slot0.ptr == Null && slot == slot0.(mode := Promoted(node, slot0.mode))))
    && (Wanted(node, slot0) ==>
          && (slot.guid == slot0.guid || slot.guid == NULL_GUID)
          && match slot.ptr
             case Null => slot.sliceSize == slot0.sliceSize &&
                          (slot.mode == slot0.mode || slot.mode == Promoted(node, slot0.mode))
             case Db => slot0.sliceSize == 0 == slot.sliceSize && slot.mode == Promoted(node, slot0.mode)
             case Copy => slot0.sliceSize != 0 && slot.sliceSize == 0 && slot.mode == Ptr)
  }

  predicate AllLawful(slot0: Slot, s: State, i: nat) {
    && Fits(s, i) && Lawful(s.node, slot0, s.slots[i])
    && WaitLawful(s.node, slot0, s.slots[i], s.waits[i]) && WaitLawful(s.node, slot0, s.slots[i], s.seconds[i])
  }

  lemma VisitLawful(node: Node, slot0: Slot, slot: Slot, a: Answer)
    requires Lawful(node, slot0, slot) && !Refused(node, slot)
    ensures Visit(node, slot, a).Handled?
    ensures var Handled(slot', counted, asks) := Visit(node, slot, a);
      && Lawful(node, slot0, slot')
      && WaitLawful(node, slot0, slot', FirstAsk(asks)) && WaitLawful(node, slot0, slot', SecondAsk(asks))
  {
    if Wanted(node, slot) {
      VisitUses(node, slot, a);
      var asks := Visit(node, slot, a).asks;
      assert forall k | 0 <= k < |asks| :: asks[k] in asks;
    } else {
      VisitLeaves(node, slot, a);
    }
  }

  lemma DeliveredLawful(node: Node, slot0: Slot, slot: Slot, kind: Kind, gone: bool, other: Wait)
    requires Lawful(node, slot0, slot) && WaitLawful(node, slot0, slot, Asked(kind))
    requires WaitLawful(node, slot0, slot, other)
    ensures var slot' := Delivered(slot, kind, gone);
      && Lawful(node, slot0, slot') && WaitLawful(node, slot0, slot', Written(kind))
      && WaitLawful(node, slot0, slot', other)
  {
  }

  lemma VisitKeepsLawful(slot0: Slot, s: State, a: Answer, i: nat)
    requires AllLawful(slot0, s, i)
    ensures AllLawful(slot0, Advance(s, VisitNext(a)), i)
  {
    if Visits(s, VisitNext(a), i) && !Refused(s.node, s.slots[i]) { VisitLawful(s.node, slot0, s.slots[i], a); }
  }

  lemma WriteKeepsLawful(slot0: Slot, s: State, j: nat, second: bool, gone: bool, i: nat)
    requires AllLawful(slot0, s, i)
    ensures AllLawful(slot0, Advance(s, WriteSlot(j, second, gone)), i)
  {
    if j == i && WaitOf(s, i, second).Asked? {
      DeliveredLawful(s.node, slot0, s.slots[i], WaitOf(s, i, second).kind, gone, WaitOf(s, i, !second));
    }
  }

  lemma CountKeepsLawful(slot0: Slot, s: State, j: nat, second: bool, i: nat)
    requires AllLawful(slot0, s, i)
    ensures AllLawful(slot0, Advance(s, CountDown(j, second)), i)
  {
  }

  lemma StepKeepsLawful(slot0: Slot, s: State, step: Step, i: nat)
    requires AllLawful(slot0, s, i)
    ensures AllLawful(slot0, Advance(s, step), i)
  {
    match step
    case VisitNext(a) => VisitKeepsLawful(slot0, s, a, i);
    case DropSentinel =>
    case WriteSlot(j, second, gone) => WriteKeepsLawful(slot0, s, j, second, gone, i);
    case CountDown(j, second) => CountKeepsLawful(slot0, s, j, second, i);
  }

  lemma {:induction false} RunKeepsLawful(slot0: Slot, s: State, steps: seq<Step>, i: nat)
    requires AllLawful(slot0, s, i)
    ensures AllLawful(slot0, Exec(s, steps), i)
  {
    if steps != [] {
      RunKeepsLawful(slot0, s, steps[..|steps| - 1], i);
      StepKeepsLawful(slot0, Exec(s, steps[..|steps| - 1]), steps[|steps| - 1], i);
    }
  }

  /**
   In every run a slot that waited for its datablock ends up with the whole of it, in exclusive
   write mode if it was read-write and there are several nodes and in its own mode otherwise, or
   with a copy of its slice in mode PTR, and never with the one for the other.
   */
  lemma ModesOfRun(node: Node, slots: seq<Slot>, steps: seq<Step>, i: nat)
    requires i < |slots| && Wanted(node, slots[i])
    ensures var s := Exec(Start(node, slots), steps);
      && |s.slots| == |slots|
      && (s.slots[i].ptr == Db ==>
            slots[i].sliceSize == 0 &&
            s.slots[i].mode == if slots[i].mode == RW && node.ranks > 1 then EW else slots[i].mode)
      && (s.slots[i].ptr == Copy ==> slots[i].sliceSize != 0 && s.slots[i].mode == Ptr && s.slots[i].sliceSize == 0)
  {
    RunKeepsSize(Start(node, slots), steps);
    RunKeepsLawful(slots[i], Start(node, slots), steps, i);
  }

  /** No step is enabled. */
  ghost predicate Ended(s: State) {
    !s.aborted && forall step :: Advance(s, step) == s
  }

  lemma EndedMeans(s: State)
    requires Core(s) && Ended(s)
    ensures !s.sentinel && Outstanding(s.waits) == 0 && Outstanding(s.seconds) == 0
  {
    NoneOutstanding(s.waits);
    NoneOutstanding(s.seconds);
    if s.sentinel {
      var step := if s.position < |s.slots| then VisitNext(Answer(false, false, 0, false)) else DropSentinel;
      assert Advance(s, step) == s;
    }
    if i :| 0 <= i < |s.slots| && s.waits[i] != NoWait { WaitingMoves(s, i, false); }
    if i :| 0 <= i < |s.slots| && s.seconds[i] != NoWait { WaitingMoves(s, i, true); }
  }

  lemma WaitingMoves(s: State, i: nat, second: bool)
    requires Fits(s, i) && !s.aborted && WaitOf(s, i, second) != NoWait
    ensures exists step :: Advance(s, step) != s
  {
    var step := if WaitOf(s, i, second).Asked? then WriteSlot(i, second, false) else CountDown(i, second);
    var s' := Advance(s, step);
    assert Fits(s', i) && WaitOf(s', i, second) != WaitOf(s, i, second);
  }

  lemma StuckStays(s: State, step: Step, i: nat)
    requires Core(s) && !s.misfired && i < |s.slots|
    ensures |Advance(s, step).slots| == |s.slots|
    ensures Stuck(Advance(s, step).slots[i]) <==> Stuck(s.slots[i])
  {
    if !s.aborted {
      match step
      case VisitNext(a) => if CanVisit(s) { VisitKeepsStuck(s, a, i); }
      case DropSentinel =>
      case WriteSlot(k, second, gone) =>
        if Fits(s, k) && WaitOf(s, k, second).Asked? {
          assert s.enqueued == 0 && !Stuck(s.slots[k]);
          WriteKeepsStuck(s, k, second, gone, i);
        }
      case CountDown(_, _) =>
    }
  }

  lemma StuckSlotsStay(s: State, step: Step)
    requires Core(s) && !s.misfired
    ensures |Advance(s, step).slots| == |s.slots|
    ensures forall i | 0 <= i < |s.slots| :: Stuck(Advance(s, step).slots[i]) <==> Stuck(s.slots[i])
  {
    StepKeepsSize(s, step);
    forall i | 0 <= i < |s.slots| ensures Stuck(Advance(s, step).slots[i]) <==> Stuck(s.slots[i]) {
      StuckStays(s, step, i);
    }
  }

  lemma VisitKeepsStuck(s: State, a: Answer, i: nat)
    requires CanVisit(s) && i < |s.slots|
    ensures |AfterVisit(s, a).slots| == |s.slots| && (Stuck(AfterVisit(s, a).slots[i]) <==> Stuck(s.slots[i]))
  {
    VisitAccounts(s.node, s.slots[s.order[s.position]], a);
  }

  lemma WriteKeepsStuck(s: State, k: nat, second: bool, gone: bool, i: nat)
    requires Fits(s, k) && WaitOf(s, k, second).Asked? && !Stuck(s.slots[k]) && i < |s.slots|
    ensures var s' := AfterWrite(s, k, second, gone);
      |s'.slots| == |s.slots| && (Stuck(s'.slots[i]) <==> Stuck(s.slots[i]))
  {
  }

  lemma MisfireStays(s: State, step: Step)
    requires s.misfired
    ensures Advance(s, step).misfired
  {
  }

  /** Being stuck is decided by the slot as it was signalled. */
  lemma {:induction false} StuckFromStart(node: Node, slots: seq<Slot>, steps: seq<Step>)
    requires Initial(slots) && !Exec(Start(node, slots), steps).misfired
    ensures var s := Exec(Start(node, slots), steps);
      |s.slots| == |slots| && forall i | 0 <= i < |slots| :: Stuck(s.slots[i]) <==> Stuck(slots[i])
  {
    if steps != [] {
      var before, step := steps[..|steps| - 1], steps[|steps| - 1];
      var s := Exec(Start(node, slots), before);
      if s.misfired { MisfireStays(s, step); }
      StuckFromStart(node, slots, before);
      RunKeepsInv(node, slots, before);
      StuckSlotsStay(s, step);
    }
  }

  /** A run that has come to rest enqueued the EDT exactly when no slot was of an unsupported type. */
  lemma EnqueuedIffNotStuck(node: Node, slots: seq<Slot>, steps: seq<Step>)
    requires Initial(slots)
    ensures var s := Exec(Start(node, slots), steps);
      !s.misfired && Ended(s) ==> (s.enqueued == 1 <==> forall i | 0 <= i < |slots| :: !Stuck(slots[i]))
  {
    var s := Exec(Start(node, slots), steps);
    RunKeepsInv(node, slots, steps);
    if !s.misfired && Ended(s) {
      EndedMeans(s);
      StuckFromStart(node, slots, steps);
      if s.enqueued == 0 { assert s.stuck > 0; }
    }
  }

  /** An EDT with one slot, signalled with the GUID of an event: its run ends without an enqueue. */
  lemma EventSlotIsStuck(slot: Slot, a: Answer)
    requires slot == Slot(Make(2, 0, 1), RO, Null, 0, 0)
    ensures Initial([slot]) && Stuck(slot)
    ensures var s := Exec(Start(Node(0, 1), [slot]), [VisitNext(a), DropSentinel]);
      Ended(s) && !s.misfired && s.enqueued == 0
  {
    assert slot.guid != NULL_GUID by { assert TypeOf(NULL_GUID) == 0; }
    var s0 := Start(Node(0, 1), [slot]);
    var s1 := Advance(s0, VisitNext(a));
    StuckVisit(s0, slot, a, s1);
    ExecTwo(s0, VisitNext(a), DropSentinel);
    RestsWhenQuiet(Advance(s1, DropSentinel));
  }

  lemma SingleOrder(s: State)
    requires |s.slots| == 1
    ensures Arm(s).order == [0]
  {
    ArmedOrder(s);
  }

  lemma StuckVisit(s: State, slot: Slot, a: Answer, s': State)
    requires s == Start(Node(0, 1), [slot]) && Stuck(slot) && s' == Advance(s, VisitNext(a))
    ensures |s'.order| == 1
    ensures s' == s.(slots := s'.slots, position := 1, waits := [NoWait], seconds := [NoWait], stuck := 1)
    ensures s.needed == 2 && !s.aborted && !s.misfired && s.enqueued == 0 && s.sentinel
  {
    SingleOrder(s);
    VisitAccounts(s.node, slot, a);
    assert s'.waits == [NoWait] && s'.seconds == [NoWait];
  }

  lemma ExecTwo(s: State, a: Step, b: Step)
    ensures Exec(s, [a, b]) == Advance(Advance(s, a), b)
  {
    assert [a, b][..1] == [a] && [a][..0] == [];
    assert Exec(s, [a]) == Advance(s, a);
  }

  lemma RestsWhenQuiet(s: State)
    requires !s.aborted && !s.sentinel
    requires forall i | 0 <= i < |s.waits| :: s.waits[i] == NoWait
    requires forall i | 0 <= i < |s.seconds| :: s.seconds[i] == NoWait
    ensures Ended(s)
  {
    forall step ensures Advance(s, step) == s { }
  }

  // ---------------------------------------------------------------------------------------
  // Runs end

  function Work(ws: seq<Wait>): nat {
    if ws == [] then 0 else Work(ws[..|ws| - 1]) + Effort(ws[|ws| - 1])
  }

  function Effort(w: Wait): nat { if w.Asked? then 2 else if w.Written? then 1 else 0 }

  lemma {:induction false} WorkUpdate(ws: seq<Wait>, i: nat, w: Wait)
    requires i < |ws|
    ensures Work(ws[i := w]) + Effort(ws[i]) == Work(ws) + Effort(w)
    decreases |ws|
  {
    var n := |ws| - 1;
    if i == n {
      assert ws[i := w][..n] == ws[..n];
    } else {
      assert ws[i := w][..n] == ws[..n][i := w];
      WorkUpdate(ws[..n], i, w);
    }
  }

  /** Steps left in this round, at most. */
  ghost function Left(s: State): nat
    requires Shape(s)
  {
    if s.aborted then 0
    else 5 * (|s.slots| - s.position) + (if s.sentinel then 1 else 0) + Work(s.waits) + Work(s.seconds)
  }

  /** The second and last round has begun, or this one is nearer its end. */
  ghost predicate Closer(s: State, s': State)
    requires Shape(s)
  {
    Shape(s') && ((s.round == 1 && s'.round == 2) || (s'.round == s.round && Left(s') < Left(s)))
  }

  /** Every step that does something brings the run nearer its end. */
  lemma StepDecreases(s: State, step: Step)
    requires Core(s) && !s.misfired && Advance(s, step) != s && !Advance(s, step).misfired
    ensures Closer(s, Advance(s, step))
  {
    StepKeepsInv(s, step);
    match step
    case VisitNext(a) => VisitDecreases(s, a);
    case DropSentinel => SentinelDecreases(s);
    case WriteSlot(i, second, gone) => WriteDecreases(s, i, second, gone);
    case CountDown(i, second) => CountDecreases(s, i, second);
  }

  lemma SentinelDecreases(s: State)
    requires Shape(s) && !s.aborted && s.sentinel && s.position == |s.order| && Shape(AfterSentinel(s))
    ensures Closer(s, AfterSentinel(s))
  {
  }

  lemma WriteDecreases(s: State, i: nat, second: bool, gone: bool)
    requires Shape(s) && !s.aborted && Fits(s, i) && WaitOf(s, i, second).Asked? &&
      Shape(AfterWrite(s, i, second, gone))
    ensures Closer(s, AfterWrite(s, i, second, gone))
  {
    WorkUpdate(if second then s.seconds else s.waits, i, Written(WaitOf(s, i, second).kind));
  }

  lemma CountDecreases(s: State, i: nat, second: bool)
    requires Core(s) && !s.aborted && Fits(s, i) && WaitOf(s, i, second).Written? && Shape(AfterCount(s, i, second))
    ensures Closer(s, AfterCount(s, i, second))
  {
    WorkUpdate(if second then s.seconds else s.waits, i, NoWait);
    assert s.enqueued == 0 && s.round == 1;
  }

  lemma VisitDecreases(s: State, a: Answer)
    requires Shape(s) && !s.aborted && CanVisit(s) && Shape(AfterVisit(s, a))
    ensures Closer(s, AfterVisit(s, a))
  {
    var i := s.order[s.position];
    VisitAccounts(s.node, s.slots[i], a);
    if Visit(s.node, s.slots[i], a) != Abort {
      var asks := Visit(s.node, s.slots[i], a).asks;
      WorkUpdate(s.waits, i, FirstAsk(asks));
      WorkUpdate(s.seconds, i, SecondAsk(asks));
    }
  }

  // ---------------------------------------------------------------------------------------
  // Asked twice

  /**
   One datablock owned here whose valid copy is on rank 1, behind another EDT's frontier: both
   completions arrive and the EDT is enqueued while arts_handle_ready_edt still holds the sentinel.
   */
  lemma AskedTwiceMisfires(slot: Slot, s0: State)
    requires slot == Slot(Make(TYPE_DB, 0, 1), EW, Null, 0, 0) && s0 == Start(Node(0, 2), [slot])
    ensures Initial([slot])
    ensures var steps := [VisitNext(Answer(true, false, 1, false)), WriteSlot(0, false, false),
      WriteSlot(0, true, false),
                          CountDown(0, false), CountDown(0, true)];
      var s := Exec(s0, steps);
      s.misfired && s.enqueued == 1 && s.sentinel && |s.slots| == 1 && s.slots[0].refs == 2
  {
    var visit, write1, write2, count1, count2 :=
      VisitNext(Answer(true, false, 1, false)), WriteSlot(0, false, false), WriteSlot(0, true, false),
      CountDown(0, false), CountDown(0, true);
    assert slot.guid != NULL_GUID by { assert TypeOf(NULL_GUID) == 0; }
    SingleOrder(s0);
    var s1 := Advance(s0, visit);
    TwiceVisited(slot, s0, s1);
    BothArrive(s1);
    ExecFive(s0, visit, write1, write2, count1, count2);
  }

  lemma TwiceVisited(slot: Slot, s0: State, s1: State)
    requires slot == Slot(Make(TYPE_DB, 0, 1), EW, Null, 0, 0) && slot.guid != NULL_GUID
    requires s0.node == Node(0, 2) && s0.slots == [slot] && s0.needed == 2 && s0.order == [0] && s0.position == 0
    requires s0.sentinel && |s0.waits| == |s0.seconds| == 1 && !s0.aborted && s0.enqueued == 0
    requires s1 == Advance(s0, VisitNext(Answer(true, false, 1, false)))
    ensures s1.waits == [Asked(Frontier)] && s1.seconds == [Asked(Callback)] && s1.needed == 2 && s1.sentinel
    ensures |s1.slots| == 1 && s1.slots[0].refs == 0 && !s1.aborted && s1.enqueued == 0
  {
    VisitAccounts(s0.node, slot, Answer(true, false, 1, false));
  }

  lemma BothArrive(s1: State)
    requires s1.waits == [Asked(Frontier)] && s1.seconds == [Asked(Callback)] && s1.needed == 2 && s1.sentinel
    requires |s1.slots| == 1 && s1.slots[0].refs == 0 && !s1.aborted && s1.enqueued == 0
    ensures var s3 := Advance(Advance(s1, WriteSlot(0, false, false)), WriteSlot(0, true, false));
      var s := Advance(Advance(s3, CountDown(0, false)), CountDown(0, true));
      s.misfired && s.enqueued == 1 && s.sentinel && |s.slots| == 1 && s.slots[0].refs == 2
  {
    var s2 := Advance(s1, WriteSlot(0, false, false));
    assert s2.waits == [Written(Frontier)] && s2.slots[0].refs == 1;
    var s3 := Advance(s2, WriteSlot(0, true, false));
    assert s3.seconds == [Written(Callback)] && s3.slots[0].refs == 2;
    var s4 := Advance(s3, CountDown(0, false));
    assert s4.needed == 1 && s4.waits == [NoWait] && s4.seconds == [Written(Callback)];
  }

  lemma ExecFive(s: State, a: Step, b: Step, c: Step, d: Step, e: Step)
    ensures Exec(s, [a, b, c, d, e]) == Advance(Advance(Advance(Advance(Advance(s, a), b), c), d), e)
  {
    assert [a, b, c, d, e][..4] == [a, b, c, d];
    assert [a, b, c, d][..3] == [a, b, c];
    assert [a, b, c][..2] == [a, b];
    assert [a, b][..1] == [a];
    assert [a][..0] == [];
    assert Exec(s, [a]) == Advance(s, a);
    assert Exec(s, [a, b]) == Advance(Advance(s, a), b);
    assert Exec(s, [a, b, c]) == Advance(Advance(Advance(s, a), b), c);
  }
}
