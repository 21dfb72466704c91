/**
 A lock-free interval timer.

 One thread starts and stops the timer while any number of captures bring `count` up to date
 by moving `start` forward. Every shared access is a step of its own; timestamps are arbitrary
 non-zero words, so they may run backwards between processors.
 */
module Timer {
  import opened Common

  type Word = x: int | 0 <= x < 0x1_0000_0000_0000_0000

  function Plus(a: Word, b: Word): Word { (a + b) % WORD }

  function Minus(a: Word, b: Word): Word { (a - b) % WORD }

  /** The timed thread: stopped, running, in timer_end with the end time read, or about to add. */
  datatype Owner = Stopped | Running | Ending(end: Word) | Adding(amount: Word)

  /**
   A capture: about to read `start` (first, or again after a failed swap), with it read, with its
   own timestamp, or about to add.
   */
  datatype Capture = Idle | Read(expected: Word) | Stamped(expected: Word, now: Word) | Due(amount: Word)

  /** `begun` is when the running interval really started, `elapsed` the sum over completed ones. */
  datatype State = State(start: Word, count: Word, owner: Owner, captures: seq<Capture>, begun: Word, elapsed: int,
      failed: bool)

  /** Who moves; the timestamp is used by the steps that read the clock. */
  datatype Step = OwnerStep(now: Word) | CaptureStep(c: nat, now: Word)

  function OwnerMoves(s: State, now: Word): State {
    match s.owner
    case Stopped =>
      if now == 0 then s
      else if s.start != 0 then s.(failed := true)
      else s.(start := now, owner := Running, begun := now)
    case Running => s.(owner := Ending(now))
    case Ending(end) =>
      if s.start == 0 then s.(failed := true)
      else s.(start := 0, owner := Adding(Minus(end, s.start)), elapsed := s.elapsed + (end - s.begun))
    case Adding(amount) => s.(count := Plus(s.count, amount), owner := Stopped)
  }

  function CaptureMoves(s: State, c: nat, now: Word): State
    requires c < |s.captures|
  {
    match s.captures[c]
    case Idle => s.(captures := s.captures[c := if s.start == 0 then Idle else Read(s.start)])
    case Read(expected) => if now == 0 then s else s.(captures := s.captures[c := Stamped(expected, now)])
    case Stamped(expected, stamp) =>
      if s.start == expected then s.(start := stamp, captures := s.captures[c := Due(Minus(stamp, expected))])
      else s.(captures := s.captures[c := Idle])
    case Due(amount) => s.(count := Plus(s.count, amount), captures := s.captures[c := Idle])
  }

  function Advance(s: State, step: Step): State {
    match step
    case OwnerStep(now) => OwnerMoves(s, now)
    case CaptureStep(c, now) => if c < |s.captures| then CaptureMoves(s, c, now) else s
  }

  function Exec(s: State, steps: seq<Step>): State {
    if steps == [] then s else Advance(Exec(s, steps[..|steps| - 1]), steps[|steps| - 1])
  }

  // ---------------------------------------------------------------------------------------
  // Conservation

  function Amount(c: Capture): int { if c.Due? then c.amount else 0 }

  function Pending(captures: seq<Capture>): int {
    if captures == [] then 0 else Pending(captures[..|captures| - 1]) + Amount(captures[|captures| - 1])
  }

  lemma {:induction false} PendingUpdate(captures: seq<Capture>, c: nat, capture: Capture)
    requires c < |captures|
    ensures Pending(captures[c := capture]) == Pending(captures) - Amount(captures[c]) + Amount(capture)
    decreases |captures|
  {
    var n := |captures| - 1;
    if c == n {
      assert captures[c := capture][..n] == captures[..n];
    } else {
      assert captures[c := capture][..n] == captures[..n][c := capture];
      PendingUpdate(captures[..n], c, capture);
    }
  }

  predicate Congruent(a: int, b: int) { (a - b) % WORD == 0 }

  /** What has been counted or is about to be, against what has passed up to `start`. */
  ghost predicate Conserved(s: State) {
    Congruent(
      s.count + Pending(s.captures) + (if s.owner.Adding? then s.owner.amount else 0),
      s.elapsed + (if s.start != 0 then s.start - s.begun else 0))
  }

  ghost predicate Inv(s: State) {
    && Conserved(s) && !s.failed
    && (s.start != 0 <==> s.owner.Running? || s.owner.Ending?)
    && (forall c | 0 <= c < |s.captures| :: NonZero(s.captures[c]))
  }

  /** No capture works with a zero start or a zero timestamp. */
  predicate NonZero(c: Capture) {
    (c.Read? ==> c.expected != 0) && (c.Stamped? ==> c.expected != 0 && c.now != 0)
  }

  lemma OwnerKeeps(s: State, now: Word)
    requires Inv(s)
    ensures Inv(OwnerMoves(s, now))
  {
  }

  lemma CaptureKeeps(s: State, c: nat, now: Word)
    requires Inv(s) && c < |s.captures|
    ensures Inv(CaptureMoves(s, c, now))
  {
    assert NonZero(s.captures[c]);
    var s' := CaptureMoves(s, c, now);
    PendingUpdate(s.captures, c, s'.captures[c]);
    CaptureConserves(s, c, now, s');
  }

  lemma CaptureConserves(s: State, c: nat, now: Word, s': State)
    requires Conserved(s) && c < |s.captures| && NonZero(s.captures[c]) && s' == CaptureMoves(s, c, now)
    requires Pending(s'.captures) == Pending(s.captures) - Amount(s.captures[c]) + Amount(s'.captures[c])
    ensures Conserved(s')
  {
    match s.captures[c]
    case Idle =>
    case Read(_) =>
    case Stamped(expected, stamp) => if s.start == expected { SwapConserves(s, c, s', expected, stamp); }
    case Due(amount) => AddConserves(s, c, s', amount);
  }

  lemma SwapConserves(s: State, c: nat, s': State, expected: Word, stamp: Word)
    requires Conserved(s) && s.start == expected != 0 && stamp != 0
    requires s' == s.(start := stamp, captures := s'.captures)
    requires Pending(s'.captures) == Pending(s.captures) + Minus(stamp, expected)
    ensures Conserved(s')
  {
    var due := if s.owner.Adding? then s.owner.amount else 0;
    Balance(s.count + Pending(s.captures) + due, s.elapsed - s.begun, expected, stamp);
  }

  lemma AddConserves(s: State, c: nat, s': State, amount: Word)
    requires Conserved(s) && s' == s.(count := Plus(s.count, amount), captures := s'.captures)
    requires Pending(s'.captures) == Pending(s.captures) - amount
    ensures Conserved(s')
  {
    PlusBalance(s.count, amount);
  }

  /** Moving `start` from a to b and owing b - a leaves the balance as it is. */
  lemma Balance(x: int, y: int, a: Word, b: Word)
    ensures Congruent(x, y + a) <==> Congruent(x + Minus(b, a), y + b)
  {
  }

  lemma PlusBalance(count: Word, amount: Word)
    ensures Plus(count, amount) == count + amount || Plus(count, amount) == count + amount - WORD
  {
  }

  ghost predicate Initial(s: State) {
    s == State(0, 0, Stopped, s.captures, 0, 0, false) && forall c | 0 <= c < |s.captures| :: s.captures[c].Idle?
  }

  lemma {:induction false} NothingPending(captures: seq<Capture>)
    requires forall c | 0 <= c < |captures| :: !captures[c].Due?
    ensures Pending(captures) == 0
  {
    if captures != [] { NothingPending(captures[..|captures| - 1]); }
  }

  lemma {:induction false} RunKeepsInv(s: State, steps: seq<Step>)
    requires Initial(s)
    ensures Inv(Exec(s, steps))
  {
    if steps == [] {
      NothingPending(s.captures);
    } else {
      var before := Exec(s, steps[..|steps| - 1]);
      RunKeepsInv(s, steps[..|steps| - 1]);
      match steps[|steps| - 1]
      case OwnerStep(now) => OwnerKeeps(before, now);
      case CaptureStep(c, now) => if c < |before.captures| { CaptureKeeps(before, c, now); }
    }
  }

  // ---------------------------------------------------------------------------------------
  // The timestamps of the run

  /** The timestamp that the timed thread takes in a step. */
  function ReadIn(s: State, step: Step): seq<Word> {
    if step.OwnerStep? && ((s.owner.Stopped? && step.now != 0) || s.owner.Running?) then [step.now] else []
  }

  /** The timestamps that timer_start and timer_end take in a run, in order. */
  function Reads(s: State, steps: seq<Step>): seq<Word> {
    if steps == [] then [] else
      var before := steps[..|steps| - 1];
      Reads(s, before) + ReadIn(Exec(s, before), steps[|steps| - 1])
  }

  /** Each second timestamp minus the one before it, added up. */
  function Intervals(stamps: seq<Word>): int {
    if |stamps| < 2 then 0 else Intervals(stamps[..|stamps| - 2]) + stamps[|stamps| - 1] - stamps[|stamps| - 2]
  }

  /** Where the timed thread is in the timestamps. */
  ghost predicate ReadsOk(s: State, stamps: seq<Word>) {
    match s.owner
    case Stopped => |stamps| % 2 == 0 && s.elapsed == Intervals(stamps)
    case Running =>
      |stamps| % 2 == 1 && s.begun == stamps[|stamps| - 1] && s.elapsed == Intervals(stamps[..|stamps| - 1])
    case Ending(end) =>
      && |stamps| % 2 == 0 && |stamps| > 0 && end == stamps[|stamps| - 1] && s.begun == stamps[|stamps| - 2]
      && s.elapsed == Intervals(stamps[..|stamps| - 2])
    case Adding(_) => |stamps| % 2 == 0 && s.elapsed == Intervals(stamps)
  }

  lemma StepReads(s: State, step: Step, stamps: seq<Word>)
    requires Inv(s) && ReadsOk(s, stamps)
    ensures ReadsOk(Advance(s, step), stamps + ReadIn(s, step))
  {
    var stamps' := stamps + ReadIn(s, step);
    if ReadIn(s, step) == [] {
      assert stamps' == stamps;
    } else {
      assert stamps'[..|stamps|] == stamps;
      if s.owner.Running? { assert stamps'[..|stamps'| - 2] == stamps[..|stamps| - 1]; }
    }
  }

  lemma {:induction false} RunReads(s: State, steps: seq<Step>)
    requires Initial(s)
    ensures ReadsOk(Exec(s, steps), Reads(s, steps))
  {
    if steps != [] {
      var before := steps[..|steps| - 1];
      RunReads(s, before);
      RunKeepsInv(s, before);
      StepReads(Exec(s, before), steps[|steps| - 1], Reads(s, before));
    }
  }

  /**
   Whenever the timer is stopped and no add is due, `count` is the sum of the intervals between
   the timestamps of the starts and ends so far, modulo 2^64, however the captures interleave.
   */
  lemma CountIsElapsed(s: State, steps: seq<Step>)
    requires Initial(s)
    ensures var e := Exec(s, steps);
      e.owner == Stopped && (forall c | 0 <= c < |e.captures| :: !e.captures[c].Due?) ==>
        |Reads(s, steps)| % 2 == 0 && e.count == Intervals(Reads(s, steps)) % WORD
  {
    RunReads(s, steps);
    RunKeepsInv(s, steps);
    StoppedCount(Exec(s, steps));
  }

  lemma StoppedCount(e: State)
    requires Inv(e)
    ensures e.owner == Stopped && (forall c | 0 <= c < |e.captures| :: !e.captures[c].Due?) ==>
      e.count == e.elapsed % WORD
  {
    if e.owner == Stopped && (forall c | 0 <= c < |e.captures| :: !e.captures[c].Due?) {
      NothingPending(e.captures);
    }
  }

  /** The timer's own error exits are never taken. */
  lemma NeverFails(s: State, steps: seq<Step>)
    requires Initial(s)
    ensures !Exec(s, steps).failed
  {
    RunKeepsInv(s, steps);
  }
}
