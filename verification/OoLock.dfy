/**
 The two lock words of an out-of-order list: a count of readers and one writer word.

 `holds` records what each call has got from the lock so far. The six functions are the six
 atomic accesses the C code makes; the caller decides when to make them.
 */
module OoLock {

  datatype Kind = Fire | Reset

  datatype WriterWord = Free | Taken(kind: Kind)

  datatype Hold =
    | Outside
    | Counted            // in `readerLock`, has not yet seen a free writer word since
    | Reading            // holds the reader lock
    | Waiting(kind: Kind) // has the writer word, has not yet seen zero readers
    | Writing(kind: Kind) // holds the writer lock

  datatype Lock = Lock(readerLock: int, writerLock: WriterWord, holds: seq<Hold>)

  predicate InReaderCount(h: Hold) {
    h == Counted || h == Reading
  }

  predicate HasWord(h: Hold) {
    h.Waiting? || h.Writing?
  }

  /** How many calls are in the reader count. */
  function Readers(holds: seq<Hold>): nat {
    if holds == [] then 0 else (if InReaderCount(holds[0]) then 1 else 0) + Readers(holds[1..])
  }

  function CountReader(l: Lock, id: nat): Lock
    requires id < |l.holds|
  {
    l.(readerLock := l.readerLock + 1, holds := l.holds[id := Counted])
  }

  function ConfirmReader(l: Lock, id: nat): Lock
    requires id < |l.holds|
  {
    if l.writerLock == Free then l.(holds := l.holds[id := Reading]) else l
  }

  function UncountReader(l: Lock, id: nat): Lock
    requires id < |l.holds|
  {
    l.(readerLock := l.readerLock - 1, holds := l.holds[id := Outside])
  }

  function TakeWord(l: Lock, id: nat, kind: Kind): Lock
    requires id < |l.holds|
  {
    if l.writerLock == Free then l.(writerLock := Taken(kind), holds := l.holds[id := Waiting(kind)]) else l
  }

  function ConfirmWriter(l: Lock, id: nat): Lock
    requires id < |l.holds|
  {
    if l.readerLock == 0 && l.holds[id].Waiting? then l.(holds := l.holds[id := Writing(l.holds[id].kind)]) else l
  }

  function ReleaseWord(l: Lock, id: nat): Lock
    requires id < |l.holds|
  {
    l.(writerLock := Free, holds := l.holds[id := Outside])
  }

  /** The counter counts, the word has exactly one owner, and writing excludes reading. */
  ghost predicate Inv(l: Lock) {
    && l.readerLock == Readers(l.holds)
    && (forall i: nat, j: nat :: i < |l.holds| && j < |l.holds| && HasWord(l.holds[i]) && HasWord(l.holds[j]) ==>
      i == j)
    && (forall i: nat :: i < |l.holds| && HasWord(l.holds[i]) ==> l.writerLock == Taken(l.holds[i].kind))
    && (l.writerLock != Free ==> exists i: nat :: i < |l.holds| && HasWord(l.holds[i]))
    && (forall i: nat, j: nat :: i < |l.holds| && j < |l.holds| && l.holds[i].Writing? ==> l.holds[j] != Reading)
  }

  lemma {:induction false} ReadersAfter(holds: seq<Hold>, id: nat, h: Hold)
    requires id < |holds|
    ensures Readers(holds[id := h]) ==
      Readers(holds) - (if InReaderCount(holds[id]) then 1 else 0) + (if InReaderCount(h) then 1 else 0)
  {
    if id == 0 {
      assert holds[id := h][1..] == holds[1..];
    } else {
      assert holds[id := h][1..] == holds[1..][id - 1 := h];
      ReadersAfter(holds[1..], id - 1, h);
    }
  }

  lemma {:induction false} NoReaders(holds: seq<Hold>, i: nat)
    requires Readers(holds) == 0 && i < |holds|
    ensures !InReaderCount(holds[i])
  {
    if i > 0 { NoReaders(holds[1..], i - 1); }
  }

  // Every access, made from the hold it is meant for, keeps the lock sound.

  lemma CountKeepsInv(l: Lock, id: nat)
    requires Inv(l) && id < |l.holds| && l.holds[id] == Outside
    ensures Inv(CountReader(l, id))
  {
    ReadersAfter(l.holds, id, Counted);
    if i: nat :| i < |l.holds| && HasWord(l.holds[i]) {
      assert HasWord(CountReader(l, id).holds[i]);
    }
  }

  lemma ConfirmReaderKeepsInv(l: Lock, id: nat)
    requires Inv(l) && id < |l.holds| && l.holds[id] == Counted
    ensures Inv(ConfirmReader(l, id))
  {
    ReadersAfter(l.holds, id, Reading);
  }

  lemma UncountKeepsInv(l: Lock, id: nat)
    requires Inv(l) && id < |l.holds| && InReaderCount(l.holds[id])
    ensures Inv(UncountReader(l, id))
  {
    ReadersAfter(l.holds, id, Outside);
    if i: nat :| i < |l.holds| && HasWord(l.holds[i]) {
      assert HasWord(UncountReader(l, id).holds[i]);
    }
  }

  lemma TakeKeepsInv(l: Lock, id: nat, kind: Kind)
    requires Inv(l) && id < |l.holds| && l.holds[id] == Outside
    ensures Inv(TakeWord(l, id, kind))
  {
    ReadersAfter(l.holds, id, Waiting(kind));
    if l.writerLock == Free {
      assert HasWord(TakeWord(l, id, kind).holds[id]);
    }
  }

  lemma ConfirmWriterKeepsInv(l: Lock, id: nat)
    requires Inv(l) && id < |l.holds| && l.holds[id].Waiting?
    ensures Inv(ConfirmWriter(l, id))
  {
    ReadersAfter(l.holds, id, Writing(l.holds[id].kind));
    if l.readerLock == 0 {
      assert HasWord(ConfirmWriter(l, id).holds[id]);
      forall j: nat | j < |l.holds| ensures l.holds[j] != Reading { NoReaders(l.holds, j); }
    }
  }

  lemma ReleaseKeepsInv(l: Lock, id: nat)
    requires Inv(l) && id < |l.holds| && HasWord(l.holds[id])
    ensures Inv(ReleaseWord(l, id))
  {
    ReadersAfter(l.holds, id, Outside);
  }

  /** One access of call `id`, or none. */
  ghost predicate Access(l: Lock, l': Lock, id: nat) {
    && id < |l.holds|
    && (|| l' == l
        || (l.holds[id] == Outside && (l' == CountReader(l, id) || l' == TakeWord(l, id, Fire) ||
          l' == TakeWord(l, id, Reset)))
        || (l.holds[id] == Counted && l' == ConfirmReader(l, id))
        || (InReaderCount(l.holds[id]) && l' == UncountReader(l, id))
        || (l.holds[id].Waiting? && l' == ConfirmWriter(l, id))
        || (HasWord(l.holds[id]) && l' == ReleaseWord(l, id)))
  }

  lemma AccessKeepsInv(l: Lock, l': Lock, id: nat)
    requires Inv(l) && Access(l, l', id)
    ensures Inv(l')
  {
    if l' == l {
    } else if l.holds[id] == Outside {
      if l' == CountReader(l, id) { CountKeepsInv(l, id); }
      else if l' == TakeWord(l, id, Fire) { TakeKeepsInv(l, id, Fire); }
      else { TakeKeepsInv(l, id, Reset); }
    } else if l.holds[id] == Counted && l' == ConfirmReader(l, id) {
      ConfirmReaderKeepsInv(l, id);
    } else if InReaderCount(l.holds[id]) {
      UncountKeepsInv(l, id);
    } else if l.holds[id].Waiting? && l' == ConfirmWriter(l, id) {
      ConfirmWriterKeepsInv(l, id);
    } else {
      ReleaseKeepsInv(l, id);
    }
  }
}
