/**
 Releasing an EDT's datablocks: release_dbs when it ends, and arts_db_release in the middle.

 Frontier progress, owner updates, reference returns and frees are logged as actions.
 */
module Release {
  import opened GuidLayout
  import Acquire
  import Common

  type Mode = Acquire.Mode

  /** A dependency slot; pointer 0 is NULL. */
  datatype Dep = Dep(guid: Guid, mode: Mode, ptr: nat)

  datatype Action =
    | Free(ptr: nat)
    | Progress(guid: Guid)
    | RemoteUpdate(guid: Guid)
    | ReturnRef(guid: Guid)
    | ReaderUnlock(ptr: nat)

  datatype Subtype = Default | Local | Gpu | Lc

  /** The datablock header in front of a pointer. */
  datatype Header = Header(subtype: Subtype, hasFrontier: bool)

  /** The node: which GUIDs have its rank, the headers in its memory, and whether the EDT is a GPU one. */
  datatype World = World(owns: Guid -> bool, header: nat -> Header, gpu: bool)

  const CLEARED: Dep := Dep(NULL_GUID, Acquire.Unset, 0)

  predicate IsWrite(mode: Mode) { mode == Acquire.EW || mode == Acquire.Memset }

  // ---------------------------------------------------------------------------------------
  // Specification

  function SubtypeOf(w: World, d: Dep): Subtype {
    if d.guid != NULL_GUID && d.ptr != 0 && d.mode != Acquire.Value then w.header(d.ptr).subtype else Default
  }

  /** An earlier slot writes through the same pointer to the same datablock. */
  predicate Seen(deps: seq<Dep>, end: nat, guid: Guid, ptr: nat)
    requires end <= |deps|
  {
    guid != NULL_GUID && ptr != 0 &&
    exists j :: 0 <= j < end && deps[j].guid == guid && deps[j].ptr == ptr && IsWrite(deps[j].mode)
  }

  /** A write to the datablock is made known: to the local frontier, or to its owner. */
  function Announce(w: World, d: Dep): seq<Action> {
    if SubtypeOf(w, d) == Local then []
    else if !w.owns(d.guid) then [RemoteUpdate(d.guid)]
    else if w.header(d.ptr).hasFrontier then [Progress(d.guid)]
    else []
  }

  /** release_dbs on slot i: its copy, its write or its lock, and its reference. */
  function SlotActions(w: World, deps: seq<Dep>, i: nat): seq<Action>
    requires i < |deps|
  {
    UseActions(w, deps, i) + RefActions(deps[i])
  }

  function UseActions(w: World, deps: seq<Dep>, i: nat): seq<Action>
    requires i < |deps|
  {
    var d := deps[i];
    if d.mode == Acquire.Ptr then (if d.ptr != 0 then [Free(d.ptr)] else [])
    else if d.guid != NULL_GUID && IsWrite(d.mode) then (if Seen(deps, i, d.guid, d.ptr) then [] else Announce(w, d))
    else if d.guid != NULL_GUID && d.mode == Acquire.RO then []
    else if !w.gpu && SubtypeOf(w, d) == Lc && d.ptr != 0 then [ReaderUnlock(d.ptr)]
    else []
  }

  function RefActions(d: Dep): seq<Action> {
    if d.guid != NULL_GUID && d.mode != Acquire.Ptr && d.mode != Acquire.Value &&
      d.ptr != 0 then [ReturnRef(d.guid)] else []
  }

  function Flatten(parts: seq<seq<Action>>): seq<Action> {
    if parts == [] then [] else Flatten(parts[..|parts| - 1]) + parts[|parts| - 1]
  }

  /** release_dbs, slot by slot. */
  function EndParts(w: World, deps: seq<Dep>): (parts: seq<seq<Action>>)
    ensures |parts| == |deps| && forall i | 0 <= i < |deps| :: parts[i] == SlotActions(w, deps, i)
  {
    seq(|deps|, i requires 0 <= i < |deps| => SlotActions(w, deps, i))
  }

  /** release_dbs drops the slice copies. */
  function WithoutCopies(deps: seq<Dep>): (r: seq<Dep>)
    ensures |r| == |deps|
  {
    seq(|deps|, i requires 0 <= i < |deps| => WithoutCopy(deps[i]))
  }

  function WithoutCopy(d: Dep): Dep { if d.mode == Acquire.Ptr then d.(ptr := 0) else d }

  /** A write slot naming the datablock among the first n. */
  predicate Wrote(deps: seq<Dep>, guid: Guid, n: nat)
    requires n <= |deps|
  {
    exists j :: 0 <= j < n && deps[j].guid == guid && IsWrite(deps[j].mode)
  }

  /** arts_db_release on slot i. */
  function MidSlot(w: World, deps: seq<Dep>, guid: Guid, i: nat): seq<Action>
    requires i < |deps|
  {
    if deps[i].guid != guid then [] else MidUse(w, deps, i) + MidRef(deps[i])
  }

  function MidUse(w: World, deps: seq<Dep>, i: nat): seq<Action>
    requires i < |deps|
  {
    var d := deps[i];
    if d.mode == Acquire.Ptr then (if d.ptr != 0 then [Free(d.ptr)] else [])
    else if IsWrite(d.mode) && !Wrote(deps, d.guid, i) then AnnounceMid(w, d)
    else []
  }

  function MidRef(d: Dep): seq<Action> {
    if d.mode != Acquire.Ptr && d.ptr != 0 then [ReturnRef(d.guid)] else []
  }

  function AnnounceMid(w: World, d: Dep): seq<Action> {
    if w.header(d.ptr).subtype == Local then []
    else if w.owns(d.guid) then [Progress(d.guid)]
    else [RemoteUpdate(d.guid)]
  }

  /** arts_db_release, slot by slot. */
  function MidParts(w: World, deps: seq<Dep>, guid: Guid): (parts: seq<seq<Action>>)
    ensures |parts| == |deps| && forall i | 0 <= i < |deps| :: parts[i] == MidSlot(w, deps, guid, i)
  {
    seq(|deps|, i requires 0 <= i < |deps| => MidSlot(w, deps, guid, i))
  }

  function ClearIf(d: Dep, guid: Guid): Dep { if d.guid == guid then CLEARED else d }

  function MidDeps(deps: seq<Dep>, guid: Guid): (r: seq<Dep>)
    ensures |r| == |deps| && forall i | 0 <= i < |deps| :: r[i] == ClearIf(deps[i], guid)
  {
    seq(|deps|, i requires 0 <= i < |deps| => ClearIf(deps[i], guid))
  }

  /** What an EDT logs that releases `guids` in the middle and then ends. */
  function RunActions(w: World, deps: seq<Dep>, guids: seq<Guid>): seq<Action>
    decreases |guids|
  {
    if guids == [] then
      Flatten(EndParts(w, deps))
    else
      Flatten(MidParts(w, deps, guids[0])) + RunActions(w, MidDeps(deps, guids[0]), guids[1..])
  }

  // ---------------------------------------------------------------------------------------
  // The operations

  class Edt {
    const depv: array<Dep>
    const world: World
    var log: seq<Action>

    constructor (world: World, depv: array<Dep>)
      ensures this.world == world && this.depv == depv && log == []
    {
      this.world, this.depv, log := world, depv, [];
    }

    method SeenWriteDep(end: nat, guid: Guid, ptr: nat) returns (seen: bool)
      requires end <= depv.Length
      ensures seen <==> Seen(depv[..], end, guid, ptr)
    {
      if guid == NULL_GUID || ptr == 0 {
        return false;
      }
      var j := 0;
      while j < end
        invariant 0 <= j <= end
        invariant !Seen(depv[..], j, guid, ptr)
      {
        if depv[j].guid == guid && depv[j].ptr == ptr && IsWrite(depv[j].mode) {
          return true;
        }
        j := j + 1;
      }
      return false;
    }

    /** The frontier progress or owner update of the first write slot for a datablock. */
    method ReleaseWrite(i: nat)
      requires i < depv.Length && depv[i].guid != NULL_GUID && IsWrite(depv[i].mode)
      modifies this`log
      ensures log == old(log) + if Seen(depv[..], i, depv[i].guid, depv[i].ptr) then [] else Announce(world, depv[i])
    {
      var d := depv[i];
      var seen := SeenWriteDep(i, d.guid, d.ptr);
      if !seen {
        var subtype := if d.ptr != 0 then world.header(d.ptr).subtype else Default;
        if subtype == Local {
        } else if world.owns(d.guid) {
          if world.header(d.ptr).hasFrontier {
            log := log + [Progress(d.guid)];
          }
        } else {
          log := log + [RemoteUpdate(d.guid)];
        }
      }
    }

    method ReleaseSlot(i: nat)
      requires i < depv.Length
      modifies depv, this`log
      ensures log == old(log) + SlotActions(world, old(depv[..]), i)
      ensures depv[..] == old(depv[..])[i := WithoutCopy(old(depv[i]))]
    {
      var d := depv[i];
      if d.mode == Acquire.Ptr {
        if d.ptr != 0 {
          log := log + [Free(d.ptr)];
          depv[i] := d.(ptr := 0);
        }
        return;
      }
      var subtype := SubtypeOf(world, d);
      if d.guid != NULL_GUID && IsWrite(d.mode) {
        ReleaseWrite(i);
      } else if d.guid != NULL_GUID && d.mode == Acquire.RO {
      } else if !world.gpu && subtype == Lc {
        if d.ptr != 0 {
          log := log + [ReaderUnlock(d.ptr)];
        }
      }
      if d.guid != NULL_GUID && d.mode != Acquire.Value && d.ptr != 0 {
        log := log + [ReturnRef(d.guid)];
      }
    }

    /** release_dbs. */
    method ReleaseDbs()
      modifies depv, this`log
      ensures log == old(log) + Flatten(EndParts(world, old(depv[..])))
      ensures depv[..] == WithoutCopies(old(depv[..]))
    {
      ghost var deps, parts := depv[..], EndParts(world, depv[..]);
      var i := 0;
      while i < depv.Length
        invariant 0 <= i <= depv.Length
        invariant Logged(old(log), parts, i, log)
        invariant CopiesDropped(deps, depv[..], i)
      {
        CopiesDroppedNext(world, deps, depv[..], i);
        ghost var before := log;
        ReleaseSlot(i);
        LoggedNext(old(log), parts, i, before, log);
        i := i + 1;
      }
      assert parts[..i] == parts;
    }

    /** arts_db_release of a datablock the EDT did not create. */
    method DbRelease(guid: Guid)
      requires forall i | 0 <= i < depv.Length && depv[i].guid == guid && IsWrite(depv[i].mode) :: depv[i].ptr != 0
      requires HasFrontiers(world, depv[..], guid)
      modifies depv, this`log
      ensures log == old(log) + Flatten(MidParts(world, old(depv[..]), guid))
      ensures depv[..] == MidDeps(old(depv[..]), guid)
    {
      ghost var deps, parts := depv[..], MidParts(world, depv[..], guid);
      var progressed := false;
      var i := 0;
      while i < depv.Length
        invariant 0 <= i <= depv.Length
        invariant progressed == Wrote(deps, guid, i)
        invariant Logged(old(log), parts, i, log)
        invariant ClearedTo(deps, guid, depv[..], i)
      {
        ClearedNext(deps, guid, depv[..], i);
        ghost var before := log;
        progressed := DbReleaseSlot(deps, guid, i, progressed);
        LoggedNext(old(log), parts, i, before, log);
        i := i + 1;
      }
      assert parts[..i] == parts;
    }

    /** One slot. */
    method DbReleaseSlot(ghost deps: seq<Dep>, guid: Guid, i: nat, progressed: bool) returns (progressed': bool)
      requires i < depv.Length == |deps| && depv[i] == deps[i]
      requires progressed == Wrote(deps, guid, i)
      modifies depv, this`log
      ensures log == old(log) + MidSlot(world, deps, guid, i)
      ensures depv[..] == old(depv[..])[i := ClearIf(old(depv[i]), guid)]
      ensures progressed' == Wrote(deps, guid, i + 1)
    {
      var d := depv[i];
      progressed' := progressed;
      if d.guid != guid {
        return;
      }
      if d.mode == Acquire.Ptr {
        if d.ptr != 0 {
          log := log + [Free(d.ptr)];
        }
      } else {
        if IsWrite(d.mode) && !progressed {
          log := log + AnnounceMid(world, d);
          progressed' := true;
        }
        if d.ptr != 0 {
          log := log + [ReturnRef(guid)];
        }
      }
      depv[i] := CLEARED;
    }

    /** An EDT's releases in order: any datablocks in the middle, then the rest at the end. */
    method ReleaseAll(guids: seq<Guid>)
      requires Resolved(depv[..]) && Early(world, depv[..], guids)
      modifies depv, this`log
      ensures log == old(log) + RunActions(world, old(depv[..]), guids)
      decreases |guids|
    {
      if guids == [] {
        ReleaseDbs();
      } else {
        ghost var start, deps := log, depv[..];
        WritersPoint(deps, guids[0]);
        DbRelease(guids[0]);
        ghost var part := Flatten(MidParts(world, deps, guids[0]));
        assert log == start + part;
        MidKeepsResolved(deps, guids[0]);
        EarlyStays(world, deps, guids);
        ghost var rest := RunActions(world, MidDeps(deps, guids[0]), guids[1..]);
        RunSplits(world, deps, guids, start, part, rest);
        ReleaseAll(guids[1..]);
      }
    }
  }

  lemma RunSplits(w: World, deps: seq<Dep>, guids: seq<Guid>, start: seq<Action>, part: seq<Action>, rest: seq<Action>)
    requires guids != [] && part == Flatten(MidParts(w, deps, guids[0]))
    requires rest == RunActions(w, MidDeps(deps, guids[0]), guids[1..])
    ensures start + part + rest == start + RunActions(w, deps, guids)
  {
    assert start + part + rest == start + (part + rest);
  }

  lemma WritersPoint(deps: seq<Dep>, guid: Guid)
    requires Resolved(deps) && guid != NULL_GUID
    ensures forall i | 0 <= i < |deps| && deps[i].guid == guid && IsWrite(deps[i].mode) :: deps[i].ptr != 0
  {
    forall i | 0 <= i < |deps| && deps[i].guid == guid && IsWrite(deps[i].mode) ensures deps[i].ptr != 0 {
      assert SlotResolved(deps[i]);
    }
  }

  lemma FlattenNext(parts: seq<seq<Action>>, i: nat)
    requires i < |parts|
    ensures Flatten(parts[..i + 1]) == Flatten(parts[..i]) + parts[i]
  {
    assert parts[..i + 1][..i] == parts[..i];
  }

  /** The log after i slots. */
  ghost predicate Logged(start: seq<Action>, parts: seq<seq<Action>>, i: nat, log: seq<Action>) {
    i <= |parts| && log == start + Flatten(parts[..i])
  }

  lemma LoggedNext(start: seq<Action>, parts: seq<seq<Action>>, i: nat, log: seq<Action>, log': seq<Action>)
    requires Logged(start, parts, i, log) && i < |parts| && log' == log + parts[i]
    ensures Logged(start, parts, i + 1, log')
  {
    FlattenNext(parts, i);
    assert (start + Flatten(parts[..i])) + parts[i] == start + (Flatten(parts[..i]) + parts[i]);
  }

  /** The slots after i steps of release_dbs. */
  ghost predicate CopiesDropped(deps: seq<Dep>, now: seq<Dep>, i: nat) {
    && |now| == |deps|
    && forall j | 0 <= j < |deps| :: now[j] == if j < i then WithoutCopy(deps[j]) else deps[j]
  }

  /** The copies dropped so far do not matter to a later slot. */
  lemma CopiesDroppedNext(w: World, deps: seq<Dep>, now: seq<Dep>, i: nat)
    requires CopiesDropped(deps, now, i) && i < |deps|
    ensures SlotActions(w, now, i) == SlotActions(w, deps, i)
    ensures CopiesDropped(deps, now[i := WithoutCopy(now[i])], i + 1)
  {
    var d := deps[i];
    assert forall j | 0 <= j < i :: IsWrite(deps[j].mode) ==> now[j] == deps[j];
    assert Seen(now, i, d.guid, d.ptr) <==> Seen(deps, i, d.guid, d.ptr);
  }

  /** The slots after i steps of arts_db_release. */
  ghost predicate ClearedTo(deps: seq<Dep>, guid: Guid, now: seq<Dep>, i: nat) {
    && |now| == |deps|
    && forall j | 0 <= j < |deps| :: now[j] == if j < i then ClearIf(deps[j], guid) else deps[j]
  }

  lemma ClearedNext(deps: seq<Dep>, guid: Guid, now: seq<Dep>, i: nat)
    requires ClearedTo(deps, guid, now, i) && i < |deps|
    ensures now[i] == deps[i] && ClearedTo(deps, guid, now[i := ClearIf(now[i], guid)], i + 1)
  {
  }

  // ---------------------------------------------------------------------------------------
  // Resolved arrays

  /** After acquisition: write slots that name a datablock point at it, and value slots carry no pointer. */
  predicate Resolved(deps: seq<Dep>) {
    forall i | 0 <= i < |deps| :: SlotResolved(deps[i])
  }

  predicate SlotResolved(d: Dep) {
    && (IsWrite(d.mode) && d.guid != NULL_GUID ==> d.ptr != 0)
    && (d.mode == Acquire.Value ==> d.ptr == 0)
  }

  /** Write slots of one name point at the same copy of the datablock. */
  predicate Agree(deps: seq<Dep>) {
    forall i, j | 0 <= i < j < |deps| && IsWrite(deps[i].mode) && IsWrite(deps[j].mode) ::
      deps[i].guid == deps[j].guid ==> deps[i].ptr == deps[j].ptr
  }

  /** A shared datablock owned here has a frontier: arts_db_release follows its list unasked. */
  predicate HasFrontiers(w: World, deps: seq<Dep>, guid: Guid) {
    forall i | 0 <= i < |deps| && deps[i].guid == guid && IsWrite(deps[i].mode) :: CanAnnounce(w, deps[i])
  }

  predicate CanAnnounce(w: World, d: Dep) {
    w.header(d.ptr).subtype != Local && w.owns(d.guid) ==> w.header(d.ptr).hasFrontier
  }

  /** What an EDT may release early. */
  predicate Early(w: World, deps: seq<Dep>, guids: seq<Guid>) {
    forall k | 0 <= k < |guids| :: guids[k] != NULL_GUID && HasFrontiers(w, deps, guids[k])
  }

  lemma EarlyStays(w: World, deps: seq<Dep>, guids: seq<Guid>)
    requires Early(w, deps, guids) && guids != []
    ensures Early(w, MidDeps(deps, guids[0]), guids[1..])
  {
    var deps' := MidDeps(deps, guids[0]);
    forall k | 0 <= k < |guids[1..]| ensures guids[1..][k] != NULL_GUID && HasFrontiers(w, deps', guids[1..][k]) {
      assert guids[1..][k] == guids[k + 1] && HasFrontiers(w, deps, guids[k + 1]);
    }
  }

  lemma MidKeepsResolved(deps: seq<Dep>, guid: Guid)
    requires Resolved(deps)
    ensures Resolved(MidDeps(deps, guid)) && (Agree(deps) ==> Agree(MidDeps(deps, guid)))
  {
  }

  // ---------------------------------------------------------------------------------------
  // Accounting

  /**
   What the log is asked about: announcements of a write to g (frontier progress when `own`, owner
   updates otherwise), references to g, frees of p, reader unlocks of p.
   */
  datatype Account = Announced(g: Guid, own: bool) | Refs(g: Guid) | Freed(p: nat) | Unlocked(p: nat)

  function Tally(acc: Account, log: seq<Action>): nat {
    match acc
    case Announced(g, own) => if own then multiset(log)[Progress(g)] else multiset(log)[RemoteUpdate(g)]
    case Refs(g) => multiset(log)[ReturnRef(g)]
    case Freed(p) => multiset(log)[Free(p)]
    case Unlocked(p) => multiset(log)[ReaderUnlock(p)]
  }

  lemma TallyConcat(acc: Account, a: seq<Action>, b: seq<Action>)
    ensures Tally(acc, a + b) == Tally(acc, a) + Tally(acc, b)
  {
  }

  /** An action counts towards the account. */
  predicate Matches(acc: Account, a: Action) {
    match acc
    case Announced(g, own) => a == if own then Progress(g) else RemoteUpdate(g)
    case Refs(g) => a == ReturnRef(g)
    case Freed(p) => a == Free(p)
    case Unlocked(p) => a == ReaderUnlock(p)
  }

  /** The slot holds a reference to g. */
  predicate HoldsRef(d: Dep, g: Guid) {
    d.guid == g && g != NULL_GUID && d.ptr != 0 && d.mode != Acquire.Ptr && d.mode != Acquire.Value
  }

  predicate HoldsCopy(d: Dep, p: nat) { d.mode == Acquire.Ptr && d.ptr == p && p != 0 }

  /** The slot writes to the shared datablock g, which has a frontier or another owner to tell. */
  predicate Writes(w: World, d: Dep, g: Guid) {
    && d.guid == g && g != NULL_GUID && (d.mode == Acquire.EW || d.mode == Acquire.Memset)
    && w.header(d.ptr).subtype != Local && CanAnnounce(w, d)
  }

  /** The account of the announcements that a write to g calls for: to its frontier here, or to its owner. */
  function Announcing(w: World, g: Guid): Account { Announced(g, w.owns(g)) }

  /** The log announces writes to g n times: all by frontier progress when it is owned here, else all to its owner. */
  predicate Announces(w: World, g: Guid, log: seq<Action>, n: nat) {
    && multiset(log)[Progress(g)] == (if w.owns(g) then n else 0)
    && multiset(log)[RemoteUpdate(g)] == (if w.owns(g) then 0 else n)
  }

  /** A CPU EDT's use of a locally coherent datablock other than for reading or writing. */
  predicate Unlocks(w: World, d: Dep, p: nat) {
    && !w.gpu && d.guid != NULL_GUID && d.ptr == p != 0 && w.header(p).subtype == Lc
    && d.mode != Acquire.Ptr && d.mode != Acquire.Value && d.mode != Acquire.RO && !IsWrite(d.mode)
  }

  /** What slot i adds to the account: a shared write counts at its first slot only. */
  function Due(acc: Account, w: World, deps: seq<Dep>, i: nat): nat
    requires i < |deps|
  {
    match acc
    case Announced(g, own) => if own == w.owns(g) && Writes(w, deps[i], g) && !Wrote(deps, g, i) then 1 else 0
    case Refs(g) => if HoldsRef(deps[i], g) then 1 else 0
    case Freed(p) => if HoldsCopy(deps[i], p) then 1 else 0
    case Unlocked(p) => if Unlocks(w, deps[i], p) then 1 else 0
  }

  function Dues(acc: Account, w: World, deps: seq<Dep>): (dues: seq<nat>)
    ensures |dues| == |deps| && forall i | 0 <= i < |deps| :: dues[i] == Due(acc, w, deps, i)
  {
    seq(|deps|, i requires 0 <= i < |deps| => Due(acc, w, deps, i))
  }

  function Sum(ns: seq<nat>): nat {
    if ns == [] then 0 else Sum(ns[..|ns| - 1]) + ns[|ns| - 1]
  }

  /** What the slots hold. */
  function TotalDue(acc: Account, w: World, deps: seq<Dep>): nat { Sum(Dues(acc, w, deps)) }

  /** Slot by slot, logged plus still held is what was held. */
  lemma {:induction false} TallyParts(acc: Account, parts: seq<seq<Action>>, rest: seq<nat>, dues: seq<nat>)
    requires |parts| == |rest| == |dues|
    requires forall i | 0 <= i < |parts| :: Tally(acc, parts[i]) + rest[i] == dues[i]
    ensures Tally(acc, Flatten(parts)) + Sum(rest) == Sum(dues)
  {
    if parts != [] {
      var n := |parts| - 1;
      TallyParts(acc, parts[..n], rest[..n], dues[..n]);
      TallyConcat(acc, Flatten(parts[..n]), parts[n]);
    }
  }

  function Zeros(n: nat): (zs: seq<nat>)
    ensures |zs| == n && (forall i | 0 <= i < n :: zs[i] == 0) && Sum(zs) == 0
  {
    if n == 0 then [] else
      assert (Zeros(n - 1) + [0])[..n - 1] == Zeros(n - 1);
      Zeros(n - 1) + [0]
  }

  /** Tally of at most one action. */
  function Hits(acc: Account, a: seq<Action>): nat { if |a| == 1 && Matches(acc, a[0]) then 1 else 0 }

  lemma TallyShort(acc: Account, a: seq<Action>)
    requires |a| <= 1
    ensures Tally(acc, a) == Hits(acc, a)
  {
    if |a| == 1 { assert a == [a[0]]; }
  }

  lemma TallyTwo(acc: Account, a: seq<Action>, b: seq<Action>)
    requires |a| <= 1 && |b| <= 1
    ensures Tally(acc, a + b) == Hits(acc, a) + Hits(acc, b)
  {
    TallyConcat(acc, a, b);
    TallyShort(acc, a);
    TallyShort(acc, b);
  }

  lemma RefHits(acc: Account, d: Dep)
    ensures Hits(acc, RefActions(d)) == if acc.Refs? && HoldsRef(d, acc.g) then 1 else 0
  {
  }

  lemma UseHits(acc: Account, w: World, deps: seq<Dep>, i: nat)
    requires i < |deps| && Resolved(deps) && (acc.Announced? ==> Agree(deps))
    ensures |UseActions(w, deps, i)| <= 1
    ensures Hits(acc, UseActions(w, deps, i)) == if acc.Refs? then 0 else Due(acc, w, deps, i)
  {
    assert SlotResolved(deps[i]);
    if acc.Announced? && deps[i].guid != NULL_GUID && IsWrite(deps[i].mode) { SeenIsWrote(deps, i); }
  }

  lemma SeenIsWrote(deps: seq<Dep>, i: nat)
    requires i < |deps| && Resolved(deps) && Agree(deps) && deps[i].guid != NULL_GUID && IsWrite(deps[i].mode)
    ensures Seen(deps, i, deps[i].guid, deps[i].ptr) <==> Wrote(deps, deps[i].guid, i)
  {
  }

  lemma SlotAccounts(acc: Account, w: World, deps: seq<Dep>, i: nat)
    requires i < |deps| && Resolved(deps) && (acc.Announced? ==> Agree(deps))
    ensures Tally(acc, SlotActions(w, deps, i)) == Due(acc, w, deps, i)
  {
    UseHits(acc, w, deps, i);
    RefHits(acc, deps[i]);
    TallyTwo(acc, UseActions(w, deps, i), RefActions(deps[i]));
  }

  /** At the end, the log matches what the slots hold. */
  lemma EndAccounts(acc: Account, w: World, deps: seq<Dep>)
    requires Resolved(deps) && (acc.Announced? ==> Agree(deps))
    ensures Tally(acc, Flatten(EndParts(w, deps))) == TotalDue(acc, w, deps)
  {
    var parts, dues := EndParts(w, deps), Dues(acc, w, deps);
    forall i | 0 <= i < |deps| ensures Tally(acc, parts[i]) == dues[i] { SlotAccounts(acc, w, deps, i); }
    TallyParts(acc, parts, Zeros(|deps|), dues);
  }

  /** Releasing m moves what its slots hold from the account into the log. */
  lemma MidSlotAccounts(acc: Account, w: World, deps: seq<Dep>, m: Guid, i: nat)
    requires i < |deps| && Resolved(deps) && m != NULL_GUID && HasFrontiers(w, deps, m) && !acc.Unlocked?
    ensures Tally(acc, MidSlot(w, deps, m, i)) + Due(acc, w, MidDeps(deps, m), i) == Due(acc, w, deps, i)
  {
    assert SlotResolved(deps[i]);
    if deps[i].guid == m {
      MidSlotReleased(acc, w, deps, i);
      assert MidDeps(deps, m)[i] == CLEARED;
    } else {
      MidSlotKept(acc, w, deps, m, i);
      assert MidSlot(w, deps, m, i) == [];
    }
  }

  lemma MidSlotKept(acc: Account, w: World, deps: seq<Dep>, m: Guid, i: nat)
    requires i < |deps| && deps[i].guid != m
    ensures Due(acc, w, MidDeps(deps, m), i) == Due(acc, w, deps, i)
  {
    if acc.Announced? && acc.g != m { WroteStays(deps, m, acc.g, i); }
  }

  lemma MidSlotReleased(acc: Account, w: World, deps: seq<Dep>, i: nat)
    requires i < |deps| && SlotResolved(deps[i]) && deps[i].guid != NULL_GUID && !acc.Unlocked?
    requires IsWrite(deps[i].mode) ==> CanAnnounce(w, deps[i])
    ensures Tally(acc, MidUse(w, deps, i) + MidRef(deps[i])) == Due(acc, w, deps, i)
  {
    MidUseHits(acc, w, deps, i);
    TallyTwo(acc, MidUse(w, deps, i), MidRef(deps[i]));
  }

  lemma MidUseHits(acc: Account, w: World, deps: seq<Dep>, i: nat)
    requires i < |deps| && SlotResolved(deps[i]) && deps[i].guid != NULL_GUID && !acc.Unlocked?
    requires IsWrite(deps[i].mode) ==> CanAnnounce(w, deps[i])
    ensures |MidUse(w, deps, i)| <= 1 && |MidRef(deps[i])| <= 1
    ensures Hits(acc, MidUse(w, deps, i)) == if acc.Refs? then 0 else Due(acc, w, deps, i)
    ensures Hits(acc, MidRef(deps[i])) == if acc.Refs? && HoldsRef(deps[i], acc.g) then 1 else 0
  {
  }

  lemma WroteStays(deps: seq<Dep>, m: Guid, g: Guid, i: nat)
    requires i <= |deps| && g != m
    ensures Wrote(MidDeps(deps, m), g, i) <==> Wrote(deps, g, i)
  {
    var deps' := MidDeps(deps, m);
    if Wrote(deps, g, i) {
      var j :| 0 <= j < i && deps[j].guid == g && IsWrite(deps[j].mode);
      assert deps'[j] == deps[j];
    }
  }

  lemma MidAccounts(acc: Account, w: World, deps: seq<Dep>, m: Guid)
    requires Resolved(deps) && m != NULL_GUID && HasFrontiers(w, deps, m) && !acc.Unlocked?
    ensures Tally(acc, Flatten(MidParts(w, deps, m))) + TotalDue(acc, w, MidDeps(deps, m)) == TotalDue(acc, w, deps)
  {
    var parts, rest, dues := MidParts(w, deps, m), Dues(acc, w, MidDeps(deps, m)), Dues(acc, w, deps);
    forall i | 0 <= i < |deps|
      ensures Tally(acc, parts[i]) + rest[i] == dues[i]
    {
      MidSlotAccounts(acc, w, deps, m, i);
    }
    TallyParts(acc, parts, rest, dues);
  }

  /** Over the whole EDT, whatever it releases early, the log matches what its slots held. */
  lemma {:induction false} RunAccounts(acc: Account, w: World, deps: seq<Dep>, guids: seq<Guid>)
    requires Resolved(deps) && Early(w, deps, guids) && (acc.Announced? ==> Agree(deps)) && !acc.Unlocked?
    ensures Tally(acc, RunActions(w, deps, guids)) == TotalDue(acc, w, deps)
    decreases |guids|
  {
    if guids == [] {
      EndAccounts(acc, w, deps);
    } else {
      var deps' := MidDeps(deps, guids[0]);
      MidKeepsResolved(deps, guids[0]);
      EarlyStays(w, deps, guids);
      RunAccounts(acc, w, deps', guids[1..]);
      MidAccounts(acc, w, deps, guids[0]);
      TallyConcat(acc, Flatten(MidParts(w, deps, guids[0])), RunActions(w, deps', guids[1..]));
    }
  }

  lemma {:induction false} WritesDueOnce(w: World, deps: seq<Dep>, g: Guid, n: nat)
    requires n <= |deps| && Agree(deps)
    ensures Sum(Dues(Announcing(w, g), w, deps)[..n]) ==
      if exists i :: 0 <= i < n && Writes(w, deps[i], g) then 1 else 0
  {
    if n > 0 {
      var dues, i := Dues(Announcing(w, g), w, deps), n - 1;
      WritesDueOnce(w, deps, g, i);
      assert dues[..n][..i] == dues[..i];
      if Writes(w, deps[i], g) {
        if Wrote(deps, g, i) {
          var j :| 0 <= j < i && deps[j].guid == g && IsWrite(deps[j].mode);
          assert Writes(w, deps[j], g);
        }
      }
    }
  }

  /** Each shared datablock written gets exactly one frontier progress at its owner, or one update sent to it. */
  lemma OneAnnouncement(w: World, deps: seq<Dep>, guids: seq<Guid>, g: Guid)
    requires Resolved(deps) && Agree(deps) && Early(w, deps, guids)
    ensures var n := if exists i :: 0 <= i < |deps| && Writes(w, deps[i], g) then 1 else 0;
      var log := multiset(RunActions(w, deps, guids));
      && log[Progress(g)] == (if w.owns(g) then n else 0)
      && log[RemoteUpdate(g)] == (if w.owns(g) then 0 else n)
  {
    RunAccounts(Announcing(w, g), w, deps, guids);
    OtherKindNever(w, deps, guids, g);
    WritesDueOnce(w, deps, g, |deps|);
    assert Dues(Announcing(w, g), w, deps)[..|deps|] == Dues(Announcing(w, g), w, deps);
  }

  /** The slots among the first n that hold a reference to g. */
  ghost function Holders(deps: seq<Dep>, g: Guid, n: nat): set<nat>
    requires n <= |deps|
  {
    set i: nat | i < n && HoldsRef(deps[i], g)
  }

  ghost function CopyHolders(deps: seq<Dep>, p: nat, n: nat): set<nat>
    requires n <= |deps|
  {
    set i: nat | i < n && HoldsCopy(deps[i], p)
  }

  /** Each slot's reference is returned exactly once. */
  lemma OneReturnPerSlot(w: World, deps: seq<Dep>, guids: seq<Guid>, g: Guid)
    requires Resolved(deps) && Early(w, deps, guids)
    ensures Tally(Refs(g), RunActions(w, deps, guids)) == |Holders(deps, g, |deps|)|
  {
    RunAccounts(Refs(g), w, deps, guids);
    RefsDue(w, deps, g, |deps|);
    assert Dues(Refs(g), w, deps)[..|deps|] == Dues(Refs(g), w, deps);
  }

  /** Each slice copy is freed exactly once. */
  lemma OneFreePerCopy(w: World, deps: seq<Dep>, guids: seq<Guid>, p: nat)
    requires Resolved(deps) && Early(w, deps, guids)
    ensures Tally(Freed(p), RunActions(w, deps, guids)) == |CopyHolders(deps, p, |deps|)|
  {
    RunAccounts(Freed(p), w, deps, guids);
    CopiesDue(w, deps, p, |deps|);
    assert Dues(Freed(p), w, deps)[..|deps|] == Dues(Freed(p), w, deps);
  }

  lemma {:induction false} RefsDue(w: World, deps: seq<Dep>, g: Guid, n: nat)
    requires n <= |deps|
    ensures Sum(Dues(Refs(g), w, deps)[..n]) == |Holders(deps, g, n)|
  {
    if n > 0 {
      RefsDue(w, deps, g, n - 1);
      assert Dues(Refs(g), w, deps)[..n][..n - 1] == Dues(Refs(g), w, deps)[..n - 1];
      assert Holders(deps, g, n) == Holders(deps, g, n - 1) + if HoldsRef(deps[n - 1], g) then {n - 1} else {};
    }
  }

  lemma {:induction false} CopiesDue(w: World, deps: seq<Dep>, p: nat, n: nat)
    requires n <= |deps|
    ensures Sum(Dues(Freed(p), w, deps)[..n]) == |CopyHolders(deps, p, n)|
  {
    if n > 0 {
      CopiesDue(w, deps, p, n - 1);
      assert Dues(Freed(p), w, deps)[..n][..n - 1] == Dues(Freed(p), w, deps)[..n - 1];
      assert CopyHolders(deps, p, n) == CopyHolders(deps, p, n - 1) + if HoldsCopy(deps[n - 1], p) then {n - 1} else {};
    }
  }

  // ---------------------------------------------------------------------------------------
  // The other kind of announcement

  function OtherKind(w: World, g: Guid): Account { Announced(g, !w.owns(g)) }

  lemma SlotNotOther(w: World, deps: seq<Dep>, g: Guid, i: nat)
    requires i < |deps|
    ensures Tally(OtherKind(w, g), SlotActions(w, deps, i)) == 0
  {
    TallyTwo(OtherKind(w, g), UseActions(w, deps, i), RefActions(deps[i]));
  }

  lemma MidSlotNotOther(w: World, deps: seq<Dep>, m: Guid, g: Guid, i: nat)
    requires i < |deps|
    ensures Tally(OtherKind(w, g), MidSlot(w, deps, m, i)) == 0
  {
    if deps[i].guid == m { TallyTwo(OtherKind(w, g), MidUse(w, deps, i), MidRef(deps[i])); }
  }

  lemma NoneInParts(acc: Account, parts: seq<seq<Action>>)
    requires forall i | 0 <= i < |parts| :: Tally(acc, parts[i]) == 0
    ensures Tally(acc, Flatten(parts)) == 0
  {
    TallyParts(acc, parts, Zeros(|parts|), Zeros(|parts|));
  }

  lemma EndNotOther(w: World, deps: seq<Dep>, g: Guid, n: nat)
    requires n <= |deps|
    ensures Tally(OtherKind(w, g), Flatten(EndParts(w, deps)[..n])) == 0
  {
    var parts := EndParts(w, deps)[..n];
    forall i | 0 <= i < n ensures Tally(OtherKind(w, g), parts[i]) == 0 { SlotNotOther(w, deps, g, i); }
    NoneInParts(OtherKind(w, g), parts);
  }

  lemma MidNotOther(w: World, deps: seq<Dep>, m: Guid, g: Guid)
    ensures Tally(OtherKind(w, g), Flatten(MidParts(w, deps, m))) == 0
  {
    var parts := MidParts(w, deps, m);
    forall i | 0 <= i < |deps| ensures Tally(OtherKind(w, g), parts[i]) == 0 { MidSlotNotOther(w, deps, m, g, i); }
    NoneInParts(OtherKind(w, g), parts);
  }

  /** No frontier progress on a datablock owned elsewhere, and no update sent for one owned here. */
  lemma {:induction false} OtherKindNever(w: World, deps: seq<Dep>, guids: seq<Guid>, g: Guid)
    ensures Tally(OtherKind(w, g), RunActions(w, deps, guids)) == 0
    decreases |guids|
  {
    if guids == [] {
      EndNotOther(w, deps, g, |deps|);
      assert EndParts(w, deps)[..|deps|] == EndParts(w, deps);
    } else {
      var deps' := MidDeps(deps, guids[0]);
      OtherKindNever(w, deps', guids[1..], g);
      MidNotOther(w, deps, guids[0], g);
      TallyConcat(OtherKind(w, g), Flatten(MidParts(w, deps, guids[0])), RunActions(w, deps', guids[1..]));
    }
  }

  lemma KindsTogether(w: World, g: Guid, log: seq<Action>, n: nat)
    requires Tally(Announcing(w, g), log) == n && Tally(OtherKind(w, g), log) == 0
    ensures Announces(w, g, log, n)
  {
  }

  // ---------------------------------------------------------------------------------------
  // Reader locks of locally coherent datablocks

  /** The slots after the early releases. */
  function Remaining(deps: seq<Dep>, guids: seq<Guid>): seq<Dep>
    decreases |guids|
  {
    if guids == [] then deps else Remaining(MidDeps(deps, guids[0]), guids[1..])
  }

  lemma {:induction false} RemainingAt(deps: seq<Dep>, guids: seq<Guid>, i: nat)
    requires i < |deps|
    ensures |Remaining(deps, guids)| == |deps|
    ensures Remaining(deps, guids)[i] == if deps[i].guid in guids then CLEARED else deps[i]
    decreases |guids|
  {
    if guids != [] { RemainingAt(MidDeps(deps, guids[0]), guids[1..], i); }
  }

  lemma MidUnlocksNone(w: World, deps: seq<Dep>, m: Guid, p: nat)
    ensures Tally(Unlocked(p), Flatten(MidParts(w, deps, m))) == 0
  {
    var parts := MidParts(w, deps, m);
    forall i | 0 <= i < |deps| ensures Tally(Unlocked(p), parts[i]) == 0 {
      if deps[i].guid == m { TallyTwo(Unlocked(p), MidUse(w, deps, i), MidRef(deps[i])); }
    }
    NoneInParts(Unlocked(p), parts);
  }

  lemma {:induction false} RunUnlocks(w: World, deps: seq<Dep>, guids: seq<Guid>, p: nat)
    requires Resolved(deps)
    ensures Tally(Unlocked(p), RunActions(w, deps, guids)) == TotalDue(Unlocked(p), w, Remaining(deps, guids))
    decreases |guids|
  {
    if guids == [] {
      EndAccounts(Unlocked(p), w, deps);
    } else {
      var deps' := MidDeps(deps, guids[0]);
      MidKeepsResolved(deps, guids[0]);
      RunUnlocks(w, deps', guids[1..], p);
      MidUnlocksNone(w, deps, guids[0], p);
      TallyConcat(Unlocked(p), Flatten(MidParts(w, deps, guids[0])), RunActions(w, deps', guids[1..]));
    }
  }

  /** The slots that unlock p at the end. */
  ghost function Unlockers(w: World, deps: seq<Dep>, p: nat, n: nat): set<nat>
    requires n <= |deps|
  {
    set i: nat | i < n && Unlocks(w, deps[i], p)
  }

  lemma UnlockersNext(w: World, deps: seq<Dep>, p: nat, i: nat)
    requires i < |deps|
    ensures |Unlockers(w, deps, p, i + 1)| == |Unlockers(w, deps, p, i)| + if Unlocks(w, deps[i], p) then 1 else 0
  {
    var before, after := Unlockers(w, deps, p, i), Unlockers(w, deps, p, i + 1);
    if Unlocks(w, deps[i], p) {
      assert after == before + {i};
    } else {
      assert after == before;
    }
  }

  lemma {:induction false} UnlocksDue(w: World, deps: seq<Dep>, p: nat, n: nat)
    requires n <= |deps|
    ensures Sum(Dues(Unlocked(p), w, deps)[..n]) == |Unlockers(w, deps, p, n)|
  {
    if n > 0 {
      UnlocksDue(w, deps, p, n - 1);
      assert Dues(Unlocked(p), w, deps)[..n][..n - 1] == Dues(Unlocked(p), w, deps)[..n - 1];
      UnlockersNext(w, deps, p, n - 1);
    }
  }

  /** prep_dbs took the reader lock for the slot, in a GPU build. */
  predicate Locks(w: World, d: Dep, p: nat) {
    && !w.gpu && d.ptr == p != 0 && w.header(p).subtype == Lc
    && d.mode != Acquire.Ptr && d.mode != Acquire.Value && d.mode != Acquire.LcSync
  }

  ghost function Lockers(w: World, deps: seq<Dep>, p: nat): set<nat> {
    set i: nat | i < |deps| && Locks(w, deps[i], p)
  }

  /** The slots that took the lock on p and will give it back. */
  ghost function GivenBack(w: World, deps: seq<Dep>, guids: seq<Guid>, p: nat): set<nat> {
    set i: nat | i < |deps| && Unlocks(w, deps[i], p) && deps[i].guid !in guids
  }

  /** Early releases unlock nothing; at the end each remaining slot of another mode than RO or a write does. */
  lemma UnlocksOfRun(w: World, deps: seq<Dep>, guids: seq<Guid>, p: nat)
    requires Resolved(deps)
    ensures multiset(RunActions(w, deps, guids))[ReaderUnlock(p)] == |GivenBack(w, deps, guids, p)|
  {
    var rest := Remaining(deps, guids);
    RunUnlocks(w, deps, guids, p);
    if deps != [] { RemainingAt(deps, guids, 0); } else { NoDeps(guids); }
    UnlocksDue(w, rest, p, |rest|);
    assert Dues(Unlocked(p), w, rest)[..|rest|] == Dues(Unlocked(p), w, rest);
    forall i: nat | i < |deps| ensures i in Unlockers(w, rest, p, |rest|) <==> i in GivenBack(w, deps, guids, p) {
      RemainingAt(deps, guids, i);
    }
    assert Unlockers(w, rest, p, |rest|) == GivenBack(w, deps, guids, p);
  }

  lemma {:induction false} NoDeps(guids: seq<Guid>)
    ensures Remaining([], guids) == []
    decreases |guids|
  {
    if guids != [] {
      assert MidDeps([], guids[0]) == [];
      NoDeps(guids[1..]);
    }
  }

  /**
   Of the reader locks that prep_dbs took on p, with no LC_SYNC slot on it, as many are given back
   exactly when no such slot was for reading or writing and none was released early.
   */
  lemma LocksBalanceIff(w: World, deps: seq<Dep>, guids: seq<Guid>, p: nat)
    requires Resolved(deps) && forall i | 0 <= i < |deps| :: deps[i].ptr == p ==> deps[i].mode != Acquire.LcSync
    ensures multiset(RunActions(w, deps, guids))[ReaderUnlock(p)] == |Lockers(w, deps, p)| <==>
      forall i | 0 <= i < |deps| && Locks(w, deps[i], p) ::
        deps[i].mode != Acquire.RO && !IsWrite(deps[i].mode) && deps[i].guid != NULL_GUID && deps[i].guid !in guids
  {
    UnlocksOfRun(w, deps, guids, p);
    var back, all := GivenBack(w, deps, guids, p), Lockers(w, deps, p);
    assert back <= all;
    if forall i | 0 <= i < |deps| && Locks(w, deps[i], p) ::
      deps[i].mode != Acquire.RO && !IsWrite(deps[i].mode) && deps[i].guid != NULL_GUID && deps[i].guid !in guids
    {
      assert back == all;
    } else {
      var i :| 0 <= i < |deps| && Locks(w, deps[i], p) &&
        !(deps[i].mode != Acquire.RO && !IsWrite(deps[i].mode) && deps[i].guid != NULL_GUID && deps[i].guid !in guids);
      assert i in all && i !in back;
      Common.SubsetSize(back, all - {i});
    }
  }

  /** One locally coherent datablock acquired for reading: its lock is never given back. */
  lemma ReadLockIsKept(w: World, g: Guid, deps: seq<Dep>)
    requires g != NULL_GUID && deps == [Dep(g, Acquire.RO, 1)]
    requires w == World((x: Guid) => true, (p: nat) => Header(Lc, true), false)
    ensures Resolved(deps) && |Lockers(w, deps, 1)| == 1
    ensures multiset(RunActions(w, deps, []))[ReaderUnlock(1)] == 0
  {
    UnlocksOfRun(w, deps, [], 1);
    assert Lockers(w, deps, 1) == {0} && GivenBack(w, deps, [], 1) == {};
  }

  // ---------------------------------------------------------------------------------------
  // Without agreement

  /** The pointers through which the slots write to the shared datablock g. */
  ghost function WritePtrs(w: World, deps: seq<Dep>, g: Guid, n: nat): set<nat>
    requires n <= |deps|
  {
    if n == 0 then {} else WritePtrs(w, deps, g, n - 1) + if Writes(w, deps[n - 1], g) then {deps[n - 1].ptr} else {}
  }

  lemma {:induction false} WritePtrsMember(w: World, deps: seq<Dep>, g: Guid, n: nat, p: nat)
    requires n <= |deps|
    ensures p in WritePtrs(w, deps, g, n) <==> exists j :: 0 <= j < n && Writes(w, deps[j], g) && deps[j].ptr == p
  {
    if n > 0 { WritePtrsMember(w, deps, g, n - 1, p); }
  }

  /** Only the first slot for a pointer announces the write. */
  lemma SlotAnnounces(w: World, deps: seq<Dep>, g: Guid, i: nat)
    requires i < |deps| && SlotResolved(deps[i])
    ensures Tally(Announcing(w, g), SlotActions(w, deps, i)) ==
      if Writes(w, deps[i], g) && !Seen(deps, i, g, deps[i].ptr) then 1 else 0
  {
    AnnounceHits(w, deps, g, i);
    RefHits(Announcing(w, g), deps[i]);
    TallyTwo(Announcing(w, g), UseActions(w, deps, i), RefActions(deps[i]));
  }

  lemma AnnounceHits(w: World, deps: seq<Dep>, g: Guid, i: nat)
    requires i < |deps| && SlotResolved(deps[i])
    ensures |UseActions(w, deps, i)| <= 1
    ensures Hits(Announcing(w, g), UseActions(w, deps, i)) == if Writes(w, deps[i], g) &&
      !Seen(deps, i, g, deps[i].ptr) then 1 else 0
  {
  }

  lemma SeenIsWritten(w: World, deps: seq<Dep>, g: Guid, i: nat)
    requires i < |deps| && Writes(w, deps[i], g) && SlotResolved(deps[i])
    ensures Seen(deps, i, g, deps[i].ptr) <==> deps[i].ptr in WritePtrs(w, deps, g, i)
  {
    var p := deps[i].ptr;
    WritePtrsMember(w, deps, g, i, p);
    if Seen(deps, i, g, p) {
      var j :| 0 <= j < i && deps[j].guid == g && deps[j].ptr == p && IsWrite(deps[j].mode);
      assert Writes(w, deps[j], g);
    }
  }

  lemma WritePtrsGrow(w: World, deps: seq<Dep>, g: Guid, i: nat)
    requires i < |deps| && SlotResolved(deps[i])
    ensures |WritePtrs(w, deps, g, i + 1)| == |WritePtrs(w, deps, g, i)| +
      if Writes(w, deps[i], g) && !Seen(deps, i, g, deps[i].ptr) then 1 else 0
  {
    if Writes(w, deps[i], g) {
      SeenIsWritten(w, deps, g, i);
      if Seen(deps, i, g, deps[i].ptr) {
        assert WritePtrs(w, deps, g, i + 1) == WritePtrs(w, deps, g, i);
      }
    }
  }

  /** Part by part, the tally follows the sizes. */
  lemma {:induction false} TallyPrefix(acc: Account, parts: seq<seq<Action>>, sizes: seq<nat>, n: nat)
    requires |sizes| == |parts| + 1 && sizes[0] == 0 && n <= |parts|
    requires forall i | 0 <= i < |parts| :: sizes[i] + Tally(acc, parts[i]) == sizes[i + 1]
    ensures Tally(acc, Flatten(parts[..n])) == sizes[n]
  {
    if n > 0 {
      TallyPrefix(acc, parts, sizes, n - 1);
      FlattenNext(parts, n - 1);
      TallyConcat(acc, Flatten(parts[..n - 1]), parts[n - 1]);
    }
  }

  /** release_dbs alone, pointers agreeing or not: one announcement per pointer, not per datablock. */
  lemma OneAnnouncementPerPointer(w: World, deps: seq<Dep>, g: Guid, n: nat)
    requires n <= |deps| && Resolved(deps)
    ensures Announces(w, g, Flatten(EndParts(w, deps)[..n]), |WritePtrs(w, deps, g, n)|)
  {
    PointersTold(w, deps, g, n);
    EndNotOther(w, deps, g, n);
    KindsTogether(w, g, Flatten(EndParts(w, deps)[..n]), |WritePtrs(w, deps, g, n)|);
  }

  lemma PointersTold(w: World, deps: seq<Dep>, g: Guid, n: nat)
    requires n <= |deps| && Resolved(deps)
    ensures Tally(Announcing(w, g), Flatten(EndParts(w, deps)[..n])) == |WritePtrs(w, deps, g, n)|
  {
    var parts, sizes := EndParts(w, deps), PointerCounts(w, deps, g);
    forall i | 0 <= i < |parts| ensures sizes[i] + Tally(Announcing(w, g), parts[i]) == sizes[i + 1] {
      NextPointer(w, deps, g, i);
    }
    TallyPrefix(Announcing(w, g), parts, sizes, n);
  }

  /** How many pointers the first slots write through, for each number of slots. */
  ghost function PointerCounts(w: World, deps: seq<Dep>, g: Guid): (sizes: seq<nat>)
    ensures |sizes| == |deps| + 1 && forall i | 0 <= i <= |deps| :: sizes[i] == |WritePtrs(w, deps, g, i)|
  {
    seq(|deps| + 1, i requires 0 <= i <= |deps| => |WritePtrs(w, deps, g, i)|)
  }

  lemma NextPointer(w: World, deps: seq<Dep>, g: Guid, i: nat)
    requires i < |deps| && Resolved(deps)
    ensures |WritePtrs(w, deps, g, i)| + Tally(Announcing(w, g), SlotActions(w, deps, i)) ==
      |WritePtrs(w, deps, g, i + 1)|
  {
    assert SlotResolved(deps[i]);
    SlotAnnounces(w, deps, g, i);
    WritePtrsGrow(w, deps, g, i);
  }

  /** An early release of m announces m at its first write slot, and nothing else. */
  lemma MidSlotAnnounces(w: World, deps: seq<Dep>, m: Guid, g: Guid, i: nat)
    requires i < |deps| && SlotResolved(deps[i]) && m != NULL_GUID && HasFrontiers(w, deps, m)
    ensures Tally(Announcing(w, g), MidSlot(w, deps, m, i)) == if m == g then Due(Announcing(w, g), w, deps, i) else 0
  {
    if deps[i].guid == m { MidSlotReleased(Announcing(w, g), w, deps, i); }
  }

  lemma MidAnnounces(w: World, deps: seq<Dep>, m: Guid, g: Guid)
    requires Resolved(deps) && m != NULL_GUID && HasFrontiers(w, deps, m)
    ensures Tally(Announcing(w, g), Flatten(MidParts(w, deps, m))) ==
      if m == g then TotalDue(Announcing(w, g), w, deps) else 0
  {
    var parts, zeros := MidParts(w, deps, m), Zeros(|deps|);
    var dues := if m == g then Dues(Announcing(w, g), w, deps) else zeros;
    forall i | 0 <= i < |deps| ensures Tally(Announcing(w, g), parts[i]) == dues[i] {
      MidSlotAnnounces(w, deps, m, g, i);
    }
    TallyParts(Announcing(w, g), parts, zeros, dues);
  }

  /** After an early release of m, the other datablocks' write slots are as they were. */
  lemma {:induction false} WritePtrsAfter(w: World, deps: seq<Dep>, m: Guid, g: Guid, n: nat)
    requires n <= |deps| && m != NULL_GUID
    ensures WritePtrs(w, MidDeps(deps, m), g, n) == if m == g then {} else WritePtrs(w, deps, g, n)
  {
    if n > 0 { WritePtrsAfter(w, deps, m, g, n - 1); }
  }

  lemma DuesAfter(w: World, deps: seq<Dep>, m: Guid, g: Guid)
    requires m != NULL_GUID && g != NULL_GUID
    ensures TotalDue(Announcing(w, g), w, MidDeps(deps, m)) == if m == g then 0 else TotalDue(Announcing(w, g), w, deps)
  {
    var after := Dues(Announcing(w, g), w, MidDeps(deps, m));
    if m == g {
      SumOfZeros(after);
    } else {
      forall i | 0 <= i < |deps| ensures after[i] == Dues(Announcing(w, g), w, deps)[i] { WroteStays(deps, m, g, i); }
      assert after == Dues(Announcing(w, g), w, deps);
    }
  }

  lemma {:induction false} SumOfZeros(ns: seq<nat>)
    requires forall i | 0 <= i < |ns| :: ns[i] == 0
    ensures Sum(ns) == 0
  {
    if ns != [] { SumOfZeros(ns[..|ns| - 1]); }
  }

  /**
   Over the whole EDT, pointers agreeing or not: a datablock released early is announced at its
   first write slot, any other one once per pointer.
   */
  lemma AnnouncementsOfRun(w: World, deps: seq<Dep>, guids: seq<Guid>, g: Guid)
    requires Resolved(deps) && Early(w, deps, guids) && g != NULL_GUID
    ensures Announces(w, g, RunActions(w, deps, guids),
                      if g in guids then TotalDue(Announcing(w, g), w, deps) else |WritePtrs(w, deps, g, |deps|)|)
  {
    RunTold(w, deps, guids, g);
    OtherKindNever(w, deps, guids, g);
  }

  lemma {:induction false} RunTold(w: World, deps: seq<Dep>, guids: seq<Guid>, g: Guid)
    requires Resolved(deps) && Early(w, deps, guids) && g != NULL_GUID
    ensures Tally(Announcing(w, g), RunActions(w, deps, guids)) ==
      if g in guids then TotalDue(Announcing(w, g), w, deps) else |WritePtrs(w, deps, g, |deps|)|
    decreases |guids|
  {
    if guids == [] {
      PointersTold(w, deps, g, |deps|);
      assert EndParts(w, deps)[..|deps|] == EndParts(w, deps);
    } else {
      var m, deps' := guids[0], MidDeps(deps, guids[0]);
      EarlyStays(w, deps, guids);
      RunTold(w, deps', guids[1..], g);
      MidAnnounces(w, deps, m, g);
      WritePtrsAfter(w, deps, m, g, |deps|);
      DuesAfter(w, deps, m, g);
      TallyConcat(Announcing(w, g), Flatten(MidParts(w, deps, m)), RunActions(w, deps', guids[1..]));
    }
  }

  /** Exactly the first write slot is due. */
  lemma {:induction false} FirstIsDue(w: World, deps: seq<Dep>, g: Guid, first: nat, n: nat)
    requires n <= |deps| && first < |deps| && Writes(w, deps[first], g) && !Wrote(deps, g, first)
    ensures Sum(Dues(Announcing(w, g), w, deps)[..n]) == if first < n then 1 else 0
  {
    if n > 0 {
      FirstIsDue(w, deps, g, first, n - 1);
      assert Dues(Announcing(w, g), w, deps)[..n][..n - 1] == Dues(Announcing(w, g), w, deps)[..n - 1];
      assert n - 1 < first ==> !Writes(w, deps[n - 1], g);
      assert first < n - 1 ==> Wrote(deps, g, n - 1);
    }
  }

  /**
   A datablock whose first write slot is to be announced is announced exactly once if and only
   if the EDT released it early or its write slots share one pointer.
   */
  lemma OnceIffAgreed(w: World, deps: seq<Dep>, guids: seq<Guid>, g: Guid, first: nat)
    requires Resolved(deps) && Early(w, deps, guids)
    requires first < |deps| && Writes(w, deps[first], g) && !Wrote(deps, g, first)
    ensures Announces(w, g, RunActions(w, deps, guids), 1) <==>
      g in guids || forall i | 0 <= i < |deps| && Writes(w, deps[i], g) :: deps[i].ptr == deps[first].ptr
  {
    AnnouncementsOfRun(w, deps, guids, g);
    FirstIsDue(w, deps, g, first, |deps|);
    assert Dues(Announcing(w, g), w, deps)[..|deps|] == Dues(Announcing(w, g), w, deps);
    OnePointerIff(w, deps, g, first);
  }

  /** Two write slots of one datablock that point at different copies: it is announced twice. */
  lemma TwoPointersAnnounceTwice(w: World, g: Guid, deps: seq<Dep>)
    requires g != NULL_GUID && deps == [Dep(g, Acquire.EW, 1), Dep(g, Acquire.EW, 2)]
    requires w == World((x: Guid) => false, (p: nat) => Header(Default, false), false)
    ensures Resolved(deps) && Early(w, deps, [])
    ensures Announces(w, g, RunActions(w, deps, []), 2)
  {
    AnnouncementsOfRun(w, deps, [], g);
    TwoPointers(w, g, deps);
  }

  lemma TwoPointers(w: World, g: Guid, deps: seq<Dep>)
    requires |deps| == 2 && Writes(w, deps[0], g) && Writes(w, deps[1], g) && deps[0].ptr != deps[1].ptr
    ensures |WritePtrs(w, deps, g, 2)| == 2
  {
    assert WritePtrs(w, deps, g, 0) == {} && WritePtrs(w, deps, g, 1) == {deps[0].ptr};
    assert WritePtrs(w, deps, g, 2) == {deps[0].ptr, deps[1].ptr};
  }

  lemma OnePointerIff(w: World, deps: seq<Dep>, g: Guid, first: nat)
    requires first < |deps| && Writes(w, deps[first], g)
    ensures |WritePtrs(w, deps, g, |deps|)| == 1 <==>
      forall i | 0 <= i < |deps| && Writes(w, deps[i], g) :: deps[i].ptr == deps[first].ptr
  {
    var ptrs, p := WritePtrs(w, deps, g, |deps|), deps[first].ptr;
    WritePtrsMember(w, deps, g, |deps|, p);
    if forall i | 0 <= i < |deps| && Writes(w, deps[i], g) :: deps[i].ptr == p {
      forall q | q in ptrs ensures q == p { WritePtrsMember(w, deps, g, |deps|, q); }
      assert ptrs == {p};
    }
    if |ptrs| == 1 {
      assert |ptrs - {p}| == 0;
      forall i | 0 <= i < |deps| && Writes(w, deps[i], g) ensures deps[i].ptr == p {
        WritePtrsMember(w, deps, g, |deps|, deps[i].ptr);
        assert deps[i].ptr !in ptrs - {p};
      }
    }
  }
}
