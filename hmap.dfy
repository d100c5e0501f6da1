/**
 * The fixed-capacity open-addressing table of hmap.h.
 *
 * The table is one array of 64-bit words.  Slot i starts at word
 * i * EntryLen(valSz): its first word is the key (0 marks an empty slot) and
 * the EntryLen(valSz) - 1 words after it hold the value.  A key is looked up
 * by linear probing with wrap-around, starting at slot key % cap; there are
 * no tombstones, which is why keys must be removed in the reverse order of
 * their insertion.
 */
module HMap {
  import opened Util

  const WORD_MOD: int := 0x1_0000_0000_0000_0000

  /** `uint64_t`, and `size_t` on the 64-bit targets the table is written for. */
  type Word = x: int | 0 <= x < WORD_MOD

  /** sizeof(Map_Entry): the key word; the flexible value array adds nothing. */
  const ENTRY_SIZE: nat := 8

  // ---------------------------------------------------------------------
  // align
  // ---------------------------------------------------------------------

  /** align(sz, alignment) = (sz + alignment - 1) & ~(alignment - 1), in size_t arithmetic. */
  function Align(sz: Word, alignment: Word): Word
    requires alignment > 0
  {
    BitAndBelow((sz + alignment - 1) % WORD_MOD, WORD_MOD - alignment)
  }

  /** `&` of two words is a word. */
  function BitAndBelow(a: Word, b: Word): Word {
    BitAndBound(a, b);
    BitAnd(a, b)
  }

  lemma {:induction false} BitAndBound(a: nat, b: nat)
    ensures BitAnd(a, b) <= a
  {
    if a != 0 && b != 0 {
      BitAndBound(a / 2, b / 2);
    }
  }

  /**
   * For a power-of-two alignment and no wrap-around of sz + alignment - 1,
   * align rounds sz up to the next multiple of alignment: the result is a
   * multiple, at least sz, less than sz + alignment, and equal to sz exactly
   * when sz is already aligned.
   */
  lemma AlignRoundsUp(sz: Word, alignment: Word, k: nat)
    requires k < 64 && alignment == Pow2(k)
    requires sz + alignment - 1 < WORD_MOD
    ensures Align(sz, alignment) % alignment == 0
    ensures Align(sz, alignment) >= sz
    ensures Align(sz, alignment) - sz < alignment
    ensures Align(sz, alignment) == sz <==> sz % alignment == 0
  {
    AlignClearsLow(sz, alignment, k);
    RoundUp(sz, alignment);
  }

  /** Under the same premises, align clears the low k bits of sz + alignment - 1. */
  lemma AlignClearsLow(sz: Word, alignment: Word, k: nat)
    requires k < 64 && alignment == Pow2(k)
    requires sz + alignment - 1 < WORD_MOD
    ensures Align(sz, alignment) == (sz + alignment - 1) - (sz + alignment - 1) % alignment
  {
    Pow2Of64();
    var x := sz + alignment - 1;
    ModUnique(x, WORD_MOD, 0, x);
    assert Align(sz, alignment) == BitAnd(x, WORD_MOD - alignment);
    BitAndClearsLow(x, 64, k);
  }

  /** Rounding up by subtracting the remainder of sz + m - 1, in plain integers. */
  lemma RoundUp(sz: nat, m: nat)
    requires m > 0
    ensures var r := (sz + m - 1) - (sz + m - 1) % m;
      r % m == 0 && r >= sz && r - sz < m && (r == sz <==> sz % m == 0)
  {
    var x := sz + m - 1;
    var q := sz / m;
    var rem := sz % m;
    assert sz == q * m + rem;
    if rem == 0 {
      ModUnique(x, m, q, m - 1);
      assert x - x % m == q * m;
      ModUnique(q * m, m, q, 0);
    } else {
      assert x == (q + 1) * m + (rem - 1);
      ModUnique(x, m, q + 1, rem - 1);
      assert x - x % m == (q + 1) * m;
      ModUnique((q + 1) * m, m, q + 1, 0);
    }
  }

  /**
   * The ACSL contract asks only alignment > 0, which is not enough: with
   * alignment 3, align(1, 3) is 1, which is no multiple of 3.
   */
  lemma AlignAcslPremiseTooWeak()
    ensures Align(1, 3) == 1 && Align(1, 3) % 3 != 0
  {
    Pow2Of64();
    var m := WORD_MOD - 3;
    assert m % 2 == 1 && m / 2 % 2 == 0;
    assert BitAnd(3, m) == 2 * BitAnd(1, m / 2) + 1;
    assert BitAnd(1, m / 2) == 2 * BitAnd(0, m / 4) + 0;
  }

  // ---------------------------------------------------------------------
  // Entry stride
  // ---------------------------------------------------------------------

  /** The largest value size for which the stride computation does not wrap. */
  const MAX_VAL_SZ: int := WORD_MOD - 2 * ENTRY_SIZE

  /** entry_len = align(sizeof(Map_Entry) + val_sz, sizeof(Map_Entry)) / sizeof(Map_Entry). */
  function EntryLen(valSz: Word): (n: nat)
    requires valSz <= MAX_VAL_SZ
    ensures n == 1 + (valSz + ENTRY_SIZE - 1) / ENTRY_SIZE
  {
    AlignRoundsUp(ENTRY_SIZE + valSz, ENTRY_SIZE, 3);
    Align(ENTRY_SIZE + valSz, ENTRY_SIZE) / ENTRY_SIZE
  }

  /** The ACSL logic function entry_len(val_sz) = 1 + ((val_sz + 7) & ~7) / 8. */
  function AcslEntryLen(valSz: Word): nat
    requires valSz <= MAX_VAL_SZ
  {
    1 + BitAndBelow(valSz + ENTRY_SIZE - 1, WORD_MOD - ENTRY_SIZE) / ENTRY_SIZE
  }

  /** The code's stride, the ACSL stride and 1 + ceil(val_sz / 8) are the same number. */
  lemma StrideMatchesAcsl(valSz: Word)
    requires valSz <= MAX_VAL_SZ
    ensures EntryLen(valSz) == AcslEntryLen(valSz)
    ensures EntryLen(valSz) >= 1
    ensures 8 * (EntryLen(valSz) - 1) >= valSz > 8 * (EntryLen(valSz) - 2)
  {
    Pow2Of64();
    var x := valSz + 7;
    BitAndClearsLow(x, 64, 3);
    assert Pow2(3) == 8;
    var q := x / 8;
    ModUnique(x - x % 8, 8, q, 0);
  }

  // ---------------------------------------------------------------------
  // Table layout and probing
  // ---------------------------------------------------------------------

  /** The words of a table of `cap` slots with a stride of `len` words. */
  predicate Shaped(s: seq<Word>, cap: nat, len: nat) {
    cap > 0 && len >= 1 && |s| == cap * len
  }

  lemma SlotInBounds(cap: nat, len: nat, i: nat)
    requires i < cap
    ensures i * len + len <= cap * len
  {
    assert (i + 1) * len <= cap * len;
  }

  /** The key word of slot i. */
  function SlotKey(s: seq<Word>, cap: nat, len: nat, i: nat): Word
    requires Shaped(s, cap, len) && i < cap
  {
    SlotInBounds(cap, len, i);
    s[i * len]
  }

  /** The value words of slot i. */
  function SlotValue(s: seq<Word>, cap: nat, len: nat, i: nat): (v: seq<Word>)
    requires Shaped(s, cap, len) && i < cap
    ensures |v| == len - 1
  {
    SlotInBounds(cap, len, i);
    s[i * len + 1 .. i * len + len]
  }

  /** The key of every slot, in slot order. */
  function Keys(s: seq<Word>, cap: nat, len: nat): (ks: seq<Word>)
    requires Shaped(s, cap, len)
    ensures |ks| == cap
    ensures forall i :: 0 <= i < cap ==> ks[i] == SlotKey(s, cap, len, i)
  {
    seq(cap, i requires 0 <= i < cap => SlotKey(s, cap, len, i))
  }

  /** The slot visited at step j of a probe for `key`. */
  function Probe(key: nat, cap: nat, j: nat): (i: nat)
    requires cap > 0
    ensures i < cap
  {
    (key % cap + j) % cap
  }

  /** Probing starts at slot key % cap. */
  lemma ProbeStart(key: nat, cap: nat)
    requires cap > 0
    ensures Probe(key, cap, 0) == key % cap
  {
    ModUnique(key % cap, cap, 0, key % cap);
  }

  /** Advancing `index = (index + 1) % cap` moves the probe one step on. */
  lemma ProbeStep(key: nat, cap: nat, j: nat)
    requires cap > 0
    ensures (Probe(key, cap, j) + 1) % cap == Probe(key, cap, j + 1)
  {
    StepMod(key % cap + j, cap);
  }

  lemma StepMod(a: nat, m: nat)
    requires m > 0
    ensures (a % m + 1) % m == (a + 1) % m
  {
    var q, r := a / m, a % m;
    assert a + 1 == q * m + (r + 1);
    if r + 1 < m {
      ModUnique(a + 1, m, q, r + 1);
      ModUnique(r + 1, m, 0, r + 1);
    } else {
      assert a + 1 == (q + 1) * m + 0;
      ModUnique(a + 1, m, q + 1, 0);
      ModUnique(r + 1, m, 1, 0);
    }
  }

  /** The first cap probe steps visit every slot: slot i is reached at step (i - key % cap) mod cap. */
  lemma ProbeCoversAll(key: nat, cap: nat, i: nat)
    requires i < cap
    ensures exists j :: 0 <= j < cap && Probe(key, cap, j) == i
  {
    var b := key % cap;
    var j := if i >= b then i - b else i + cap - b;
    if i >= b {
      ModUnique(b + j, cap, 0, i);
    } else {
      ModUnique(b + j, cap, 1, i);
    }
    assert Probe(key, cap, j) == i;
  }

  /** map_get's test on a probed slot (and map_pop's). */
  predicate HoldsKey(s: seq<Word>, cap: nat, len: nat, key: Word, i: nat)
    requires Shaped(s, cap, len) && i < cap
  {
    SlotKey(s, cap, len, i) == key
  }

  /** map_set's test on a probed slot: it holds key or is empty. */
  predicate KeyOrEmpty(s: seq<Word>, cap: nat, len: nat, key: Word, i: nat)
    requires Shaped(s, cap, len) && i < cap
  {
    SlotKey(s, cap, len, i) == key || SlotKey(s, cap, len, i) == 0
  }

  /** Whether probe step j stops the search (`orEmpty` selects map_set's test). */
  predicate Stops(s: seq<Word>, cap: nat, len: nat, key: Word, orEmpty: bool, j: nat)
    requires Shaped(s, cap, len)
  {
    if orEmpty then KeyOrEmpty(s, cap, len, key, Probe(key, cap, j))
    else HoldsKey(s, cap, len, key, Probe(key, cap, j))
  }

  /** The first probe step in [j, cap) that stops the search. */
  function FirstStop(s: seq<Word>, cap: nat, len: nat, key: Word, orEmpty: bool, j: nat): (r: Option<nat>)
    requires Shaped(s, cap, len) && j <= cap
    ensures r.None? <==> forall jj :: j <= jj < cap ==> !Stops(s, cap, len, key, orEmpty, jj)
    ensures r.Some? ==> j <= r.value < cap && Stops(s, cap, len, key, orEmpty, r.value)
    ensures r.Some? ==> forall jj :: j <= jj < r.value ==> !Stops(s, cap, len, key, orEmpty, jj)
    decreases cap - j
  {
    if j == cap then None
    else if Stops(s, cap, len, key, orEmpty, j) then Some(j)
    else FirstStop(s, cap, len, key, orEmpty, j + 1)
  }

  /** The slot map_get (orEmpty = false) or map_set (orEmpty = true) stops at, if any. */
  function Found(s: seq<Word>, cap: nat, len: nat, key: Word, orEmpty: bool): (r: Option<nat>)
    requires Shaped(s, cap, len)
    ensures r.Some? ==> r.value < cap
  {
    match FirstStop(s, cap, len, key, orEmpty, 0)
    case None => None
    case Some(j) => Some(Probe(key, cap, j))
  }

  /** Some slot passes the test exactly when the probe finds one: probing misses no slot. */
  lemma FoundIffSomeSlot(s: seq<Word>, cap: nat, len: nat, key: Word, orEmpty: bool)
    requires Shaped(s, cap, len)
    ensures Found(s, cap, len, key, orEmpty).Some? <==>
      exists i :: 0 <= i < cap && (if orEmpty then KeyOrEmpty(s, cap, len, key, i) else HoldsKey(s, cap, len, key, i))
  {
    if Found(s, cap, len, key, orEmpty).None? {
      forall i | 0 <= i < cap
        ensures !(if orEmpty then KeyOrEmpty(s, cap, len, key, i) else HoldsKey(s, cap, len, key, i))
      {
        ProbeCoversAll(key, cap, i);
        var j :| 0 <= j < cap && Probe(key, cap, j) == i;
        assert !Stops(s, cap, len, key, orEmpty, j);
      }
    } else {
      var j := FirstStop(s, cap, len, key, orEmpty, 0).value;
      var i := Probe(key, cap, j);
      assert Stops(s, cap, len, key, orEmpty, j);
    }
  }

  // ---------------------------------------------------------------------
  // The effect of map_get, map_set and map_pop on the table's words
  // ---------------------------------------------------------------------

  /** What map_get copies out: the value of the first probed slot holding key. */
  function GetSpec(s: seq<Word>, cap: nat, len: nat, key: Word): (r: Option<seq<Word>>)
    requires Shaped(s, cap, len)
  {
    match Found(s, cap, len, key, false)
    case None => None
    case Some(i) => Some(SlotValue(s, cap, len, i))
  }

  /** Writes key and value into slot i; every other word is kept. */
  function WriteSlot(s: seq<Word>, cap: nat, len: nat, i: nat, key: Word, val: seq<Word>): (t: seq<Word>)
    requires Shaped(s, cap, len) && i < cap && |val| == len - 1
    ensures Shaped(t, cap, len)
  {
    SlotInBounds(cap, len, i);
    s[..i * len] + [key] + val + s[i * len + len..]
  }

  /** The table after map_set: unchanged when it fails. */
  function SetSpec(s: seq<Word>, cap: nat, len: nat, key: Word, val: seq<Word>): (t: seq<Word>)
    requires Shaped(s, cap, len) && |val| == len - 1
    ensures Shaped(t, cap, len)
  {
    match Found(s, cap, len, key, true)
    case None => s
    case Some(i) => WriteSlot(s, cap, len, i, key, val)
  }

  /** The table after map_pop: the key word of the found slot becomes 0, its value words stay. */
  function PopSpec(s: seq<Word>, cap: nat, len: nat, key: Word): (t: seq<Word>)
    requires Shaped(s, cap, len)
    ensures Shaped(t, cap, len)
  {
    match Found(s, cap, len, key, false)
    case None => s
    case Some(i) =>
      SlotInBounds(cap, len, i);
      s[i * len := 0]
  }

  lemma SlotOffsets(cap: nat, len: nat, i: nat, k: nat)
    requires i < cap && k < cap && i != k && len >= 1
    ensures k * len + len <= i * len || i * len + len <= k * len
  {
    if k < i {
      assert (k + 1) * len <= i * len;
    } else {
      assert (i + 1) * len <= k * len;
    }
  }

  /** WriteSlot changes slot i to (key, val) and no other slot. */
  lemma WriteSlotEffect(s: seq<Word>, cap: nat, len: nat, i: nat, key: Word, val: seq<Word>, k: nat)
    requires Shaped(s, cap, len) && i < cap && |val| == len - 1 && k < cap
    ensures k == i ==> SlotKey(WriteSlot(s, cap, len, i, key, val), cap, len, k) == key
    ensures k == i ==> SlotValue(WriteSlot(s, cap, len, i, key, val), cap, len, k) == val
    ensures k != i ==> SlotKey(WriteSlot(s, cap, len, i, key, val), cap, len, k) == SlotKey(s, cap, len, k)
    ensures k != i ==> SlotValue(WriteSlot(s, cap, len, i, key, val), cap, len, k) == SlotValue(s, cap, len, k)
  {
    var t := WriteSlot(s, cap, len, i, key, val);
    SlotInBounds(cap, len, i);
    SlotInBounds(cap, len, k);
    if k != i {
      SlotOffsets(cap, len, i, k);
      if k < i {
        assert t[k * len .. k * len + len] == s[k * len .. k * len + len];
      } else {
        assert t[k * len .. k * len + len] == s[k * len .. k * len + len];
      }
    }
  }

  /** map_set changes at most one slot: the one it found, which then holds key and val. */
  lemma SetChangesOneSlot(s: seq<Word>, cap: nat, len: nat, key: Word, val: seq<Word>, k: nat)
    requires Shaped(s, cap, len) && |val| == len - 1 && k < cap
    ensures Found(s, cap, len, key, true) != Some(k) ==>
      SlotKey(SetSpec(s, cap, len, key, val), cap, len, k) == SlotKey(s, cap, len, k) &&
      SlotValue(SetSpec(s, cap, len, key, val), cap, len, k) == SlotValue(s, cap, len, k)
    ensures Found(s, cap, len, key, true) == Some(k) ==>
      SlotKey(SetSpec(s, cap, len, key, val), cap, len, k) == key &&
      SlotValue(SetSpec(s, cap, len, key, val), cap, len, k) == val
  {
    match Found(s, cap, len, key, true)
    case None =>
    case Some(i) => WriteSlotEffect(s, cap, len, i, key, val, k);
  }

  /**
   * After a successful map_set(key, val), map_get(key) finds val: both probe
   * from key % cap, every slot map_set passed holds another nonzero key, and
   * the slot it wrote now holds key.
   */
  lemma {:induction false} GetAfterSet(s: seq<Word>, cap: nat, len: nat, key: Word, val: seq<Word>)
    requires Shaped(s, cap, len) && |val| == len - 1 && key != 0
    requires Found(s, cap, len, key, true).Some?
    ensures GetSpec(SetSpec(s, cap, len, key, val), cap, len, key) == Some(val)
  {
    var j := FirstStop(s, cap, len, key, true, 0).value;
    var i := Probe(key, cap, j);
    var t := SetSpec(s, cap, len, key, val);
    assert t == WriteSlot(s, cap, len, i, key, val);
    forall jj | 0 <= jj < j ensures !Stops(t, cap, len, key, false, jj) {
      assert !Stops(s, cap, len, key, true, jj);
      var p := Probe(key, cap, jj);
      WriteSlotEffect(s, cap, len, i, key, val, p);
    }
    WriteSlotEffect(s, cap, len, i, key, val, i);
    assert Stops(t, cap, len, key, false, j);
    FirstStopIs(t, cap, len, key, false, 0, j);
  }

  /** FirstStop returns j when j stops and no earlier step does. */
  lemma {:induction false} FirstStopIs(s: seq<Word>, cap: nat, len: nat, key: Word, orEmpty: bool, from: nat, j: nat)
    requires Shaped(s, cap, len) && from <= j < cap
    requires Stops(s, cap, len, key, orEmpty, j)
    requires forall jj :: from <= jj < j ==> !Stops(s, cap, len, key, orEmpty, jj)
    ensures FirstStop(s, cap, len, key, orEmpty, from) == Some(j)
    decreases j - from
  {
    if from < j {
      FirstStopIs(s, cap, len, key, orEmpty, from + 1, j);
    }
  }

  /**
   * The reverse-order discipline: inserting a key the table does not hold and
   * popping it right away restores every key word.  (The value words of the
   * slot used stay overwritten; map_pop does not clear them.)
   */
  lemma {:induction false} PopUndoesFreshSet(s: seq<Word>, cap: nat, len: nat, key: Word, val: seq<Word>)
    requires Shaped(s, cap, len) && |val| == len - 1 && key != 0
    requires forall i :: 0 <= i < cap ==> SlotKey(s, cap, len, i) != key
    ensures Keys(PopSpec(SetSpec(s, cap, len, key, val), cap, len, key), cap, len) == Keys(s, cap, len)
  {
    var t := SetSpec(s, cap, len, key, val);
    match Found(s, cap, len, key, true)
    case None =>
      assert t == s;
      FoundIffSomeSlot(s, cap, len, key, false);
      assert Found(s, cap, len, key, false).None?;
    case Some(i) =>
      assert SlotKey(s, cap, len, i) == 0;
      GetAfterSet(s, cap, len, key, val);
      var j := FirstStop(s, cap, len, key, true, 0).value;
      assert Found(t, cap, len, key, false) == Some(i) by {
        forall jj | 0 <= jj < j ensures !Stops(t, cap, len, key, false, jj) {
          var p := Probe(key, cap, jj);
          assert !Stops(s, cap, len, key, true, jj);
          WriteSlotEffect(s, cap, len, i, key, val, p);
        }
        WriteSlotEffect(s, cap, len, i, key, val, i);
        FirstStopIs(t, cap, len, key, false, 0, j);
      }
      var u := PopSpec(t, cap, len, key);
      SlotInBounds(cap, len, i);
      assert u == t[i * len := 0];
      forall k | 0 <= k < cap ensures SlotKey(u, cap, len, k) == SlotKey(s, cap, len, k) {
        SlotInBounds(cap, len, k);
        WriteSlotEffect(s, cap, len, i, key, val, k);
        if k != i {
          SlotOffsets(cap, len, i, k);
        }
      }
  }

  /** A probe that stops at step j, and at no earlier step, finds slot Probe(key, cap, j). */
  lemma StopHere(s: seq<Word>, cap: nat, len: nat, key: Word, orEmpty: bool, j: nat)
    requires Shaped(s, cap, len) && j < cap
    requires if orEmpty then KeyOrEmpty(s, cap, len, key, Probe(key, cap, j)) else HoldsKey(s, cap, len, key, Probe(key, cap, j))
    requires forall jj :: 0 <= jj < j ==> !Stops(s, cap, len, key, orEmpty, jj)
    ensures Found(s, cap, len, key, orEmpty) == Some(Probe(key, cap, j))
  {
    FirstStopIs(s, cap, len, key, orEmpty, 0, j);
  }

  /** A probe that stops at none of the cap steps finds nothing. */
  lemma NoStop(s: seq<Word>, cap: nat, len: nat, key: Word, orEmpty: bool)
    requires Shaped(s, cap, len)
    requires forall jj :: 0 <= jj < cap ==> !Stops(s, cap, len, key, orEmpty, jj)
    ensures Found(s, cap, len, key, orEmpty) == None
  {
  }

  // ---------------------------------------------------------------------
  // The three probing loops, in place on the word array
  // ---------------------------------------------------------------------

  /**
   * map_get: probes every slot from key % cap; reports whether one holds key
   * and, if so, copies the value of the first such slot out.  `valIn` is the
   * caller's buffer, left as it was when nothing is found.
   */
  method MapGet(entries: array<Word>, cap: Word, key: Word, valIn: seq<Word>, valSz: Word)
    returns (found: bool, val: seq<Word>)
    requires cap != 0 && key != 0 && valSz <= MAX_VAL_SZ
    requires entries.Length == cap * EntryLen(valSz)
    requires |valIn| == EntryLen(valSz) - 1
    ensures found <==> exists i :: 0 <= i < cap && HoldsKey(entries[..], cap, EntryLen(valSz), key, i)
    ensures found ==> GetSpec(entries[..], cap, EntryLen(valSz), key) == Some(val)
    ensures !found ==> val == valIn
  {
    var index: nat := key % cap;
    var steps: nat := 0;
    var entryLen := EntryLen(valSz);
    ghost var s := entries[..];
    assert Shaped(s, cap, entryLen);
    ProbeStart(key, cap);
    val := valIn;
    while true
      invariant steps < cap && index == Probe(key, cap, steps)
      invariant forall jj :: 0 <= jj < steps ==> !Stops(s, cap, entryLen, key, false, jj)
      decreases cap - steps
    {
      SlotInBounds(cap, entryLen, index);
      if entries[index * entryLen] == key {
        StopHere(s, cap, entryLen, key, false, steps);
        FoundIffSomeSlot(s, cap, entryLen, key, false);
        found, val := true, entries[index * entryLen + 1 .. index * entryLen + entryLen];
        return;
      }
      ProbeStep(key, cap, steps);
      index := (index + 1) % cap;
      steps := steps + 1;
      if steps >= cap {
        break;
      }
    }
    NoStop(s, cap, entryLen, key, false);
    FoundIffSomeSlot(s, cap, entryLen, key, false);
    found := false;
  }

  /**
   * map_set: writes key and val into the first probed slot that holds key or
   * is empty and returns true; returns false, changing nothing, when every
   * slot holds another key.
   */
  method MapSet(entries: array<Word>, cap: Word, key: Word, val: seq<Word>, valSz: Word)
    returns (ok: bool)
    requires cap != 0 && key != 0 && valSz <= MAX_VAL_SZ
    requires entries.Length == cap * EntryLen(valSz)
    requires |val| == EntryLen(valSz) - 1
    modifies entries
    ensures ok <==> exists i :: 0 <= i < cap && KeyOrEmpty(old(entries[..]), cap, EntryLen(valSz), key, i)
    ensures entries[..] == SetSpec(old(entries[..]), cap, EntryLen(valSz), key, val)
  {
    var index: nat := key % cap;
    var steps: nat := 0;
    var entryLen := EntryLen(valSz);
    ghost var s := entries[..];
    assert Shaped(s, cap, entryLen);
    ProbeStart(key, cap);
    while true
      invariant entries[..] == s
      invariant steps < cap && index == Probe(key, cap, steps)
      invariant forall jj :: 0 <= jj < steps ==> !Stops(s, cap, entryLen, key, true, jj)
      decreases cap - steps
    {
      SlotInBounds(cap, entryLen, index);
      var base := index * entryLen;
      if entries[base] == key || entries[base] == 0 {
        StopHere(s, cap, entryLen, key, true, steps);
        FoundIffSomeSlot(s, cap, entryLen, key, true);
        entries[base] := key;
        var k := 0;
        while k < |val|
          invariant 0 <= k <= |val|
          invariant entries[..] == s[..base] + [key] + val[..k] + s[base + 1 + k..]
        {
          entries[base + 1 + k] := val[k];
          k := k + 1;
        }
        assert entries[..] == WriteSlot(s, cap, entryLen, index, key, val);
        return true;
      }
      ProbeStep(key, cap, steps);
      index := (index + 1) % cap;
      steps := steps + 1;
      if steps >= cap {
        break;
      }
    }
    NoStop(s, cap, entryLen, key, true);
    FoundIffSomeSlot(s, cap, entryLen, key, true);
    return false;
  }

  /**
   * map_pop: sets the key word of the first probed slot holding key to 0 and
   * returns true; returns false, changing nothing, when no slot holds key.
   */
  method MapPop(entries: array<Word>, cap: Word, key: Word, valSz: Word)
    returns (ok: bool)
    requires cap != 0 && valSz <= MAX_VAL_SZ
    requires entries.Length == cap * EntryLen(valSz)
    modifies entries
    ensures ok <==> exists i :: 0 <= i < cap && HoldsKey(old(entries[..]), cap, EntryLen(valSz), key, i)
    ensures entries[..] == PopSpec(old(entries[..]), cap, EntryLen(valSz), key)
  {
    var index: nat := key % cap;
    var steps: nat := 0;
    var entryLen := EntryLen(valSz);
    ghost var s := entries[..];
    assert Shaped(s, cap, entryLen);
    ProbeStart(key, cap);
    while true
      invariant entries[..] == s
      invariant steps < cap && index == Probe(key, cap, steps)
      invariant forall jj :: 0 <= jj < steps ==> !Stops(s, cap, entryLen, key, false, jj)
      decreases cap - steps
    {
      SlotInBounds(cap, entryLen, index);
      if entries[index * entryLen] == key {
        StopHere(s, cap, entryLen, key, false, steps);
        FoundIffSomeSlot(s, cap, entryLen, key, false);
        entries[index * entryLen] := 0;
        return true;
      }
      ProbeStep(key, cap, steps);
      index := (index + 1) % cap;
      steps := steps + 1;
      if steps >= cap {
        break;
      }
    }
    NoStop(s, cap, entryLen, key, false);
    FoundIffSomeSlot(s, cap, entryLen, key, false);
    return false;
  }
}
