/** GUIDs: 64 bits packing an 8-bit type, a 16-bit rank and a 40-bit key. */
module GuidLayout {
  import opened Common

  const KEYS: nat := 0x100_0000_0000
  const RANKS: nat := 0x1_0000
  const TYPES: nat := 0x100

  type Guid = g: int | 0 <= g < 0x1_0000_0000_0000_0000

  const NULL_GUID: Guid := 0

  /** Object types, as numbered in the type field. */
  const TYPE_NULL: nat := 0
  const TYPE_DB: nat := 6
  const LAST_TYPE: nat := 7

  function KeyOf(g: Guid): nat { g % KEYS }

  function RankOf(g: Guid): nat { g / KEYS % RANKS }

  function TypeOf(g: Guid): nat { g / KEYS / RANKS }

  function Make(type': nat, rank: nat, key: nat): (g: Guid)
    ensures TypeOf(g) == type' % TYPES && RankOf(g) == rank % RANKS && KeyOf(g) == key % KEYS
  {
    var (t, r, k) := (type' % TYPES, rank % RANKS, key % KEYS);
    assert (k + (r + t * RANKS) * KEYS) / KEYS == r + t * RANKS;
    assert (r + t * RANKS) / RANKS == t;
    k + (r + t * RANKS) * KEYS
  }

  /** Unpacking and packing again gives the same word. */
  lemma MakeInverse(g: Guid)
    ensures Make(TypeOf(g), RankOf(g), KeyOf(g)) == g
  {
    assert g / KEYS == RankOf(g) + TypeOf(g) * RANKS;
    assert TypeOf(g) < TYPES;
  }

  /** Words are ordered by type, then rank, then key. */
  lemma OrderedByFields(a: Guid, b: Guid)
    ensures a < b <==>
      || TypeOf(a) < TypeOf(b)
      || (TypeOf(a) == TypeOf(b) && RankOf(a) < RankOf(b))
      || (TypeOf(a) == TypeOf(b) && RankOf(a) == RankOf(b) && KeyOf(a) < KeyOf(b))
  {
    var x, y := a / KEYS, b / KEYS;
    assert a == x * KEYS + KeyOf(a) && b == y * KEYS + KeyOf(b);
    assert x == TypeOf(a) * RANKS + RankOf(a) && y == TypeOf(b) * RANKS + RankOf(b);
  }

  /** The word as the signed integer that comparisons see. */
  function Signed(g: Guid): int { if g < WORD / 2 then g else g - WORD }
}
