/**
 The on-disk form of a point-in-time field: what the two files of `<field>` hold once a given
 sequence of rows has been published.  The log of rows is the abstract state; the bytes of both
 files are a function of it.
 */
module PitLayout {
  import opened BinaryFile

  /** A float64 is only ever copied, so it stays the eight bytes it is stored as. */
  type Float64 = b: seq<Byte> | |b| == 8 witness [0, 0, 0, 0, 0, 0, 0, 0]

  const NAN: Float64 := [0, 0, 0, 0, 0, 0, 0xF8, 0x7F]
  const NA_INDEX: U32 := 0xFFFF_FFFF

  /** Records are 20 bytes: date, period, an 8-byte value, and at byte 16 the link. */
  function RecordOffset(i: nat): nat { 20 * i }

  /** Index words are 4 bytes; the first one is the year. */
  function SlotOffset(k: nat): nat { 4 + 4 * k }

  /** Number of records whose offsets still fit an unsigned 32-bit field. */
  const MAX_RECORDS: nat := 214_748_365

  datatype Row = Row(date: U32, period: U32, value: Float64)

  datatype Layout = Layout(firstYear: U32, quarterly: bool) {
    /** Index slot of a period; nothing here checks that the quarter is one of 1 to 4. */
    function Slot(period: U32): int {
      if quarterly then (period / 100 - firstYear) * 4 + period % 100 - 1
      else period - firstYear
    }

    /** The periods the format is meant for: any year from the first, quarters 1 to 4. */
    predicate WellFormed(period: U32) {
      if quarterly then firstYear <= period / 100 && 1 <= period % 100 <= 4
      else firstYear <= period
    }

    /** The first period of the first year has slot 0, and periods that follow each other have slots that do. */
    lemma SlotsInOrder(period: U32)
      requires WellFormed(period)
      ensures Slot(if quarterly then firstYear * 100 + 1 else firstYear) == 0
      ensures quarterly && period % 100 < 4 ==> Slot(period + 1) == Slot(period) + 1
      ensures quarterly && period % 100 == 4 && period + 97 <= 0xFFFF_FFFF ==> Slot(period + 97) == Slot(period) + 1
      ensures !quarterly && period < 0xFFFF_FFFF ==> Slot(period + 1) == Slot(period) + 1
    {
    }

    /** Four slots a year, and within the year one a quarter; quarters are not checked. */
    lemma SlotOfQuarter(year: nat, quarter: nat)
      requires quarterly && quarter < 100 && year * 100 + quarter <= 0xFFFF_FFFF
      ensures Slot(year * 100 + quarter) == 4 * (year - firstYear) + quarter - 1
    {
      assert (year * 100 + quarter) / 100 == year && (year * 100 + quarter) % 100 == quarter;
    }

    /** The slots of the rows, in log order. */
    function Keys(rows: seq<Row>): (keys: seq<int>)
      ensures |keys| == |rows|
    {
      if rows == [] then [] else Keys(rows[..|rows| - 1]) + [Slot(rows[|rows| - 1].period)]
    }

    lemma {:induction false} KeysAt(rows: seq<Row>, i: nat)
      requires i < |rows|
      ensures Keys(rows)[i] == Slot(rows[i].period)
    {
      if i < |rows| - 1 {
        KeysAt(rows[..|rows| - 1], i);
      }
    }

    lemma KeysAppend(rows: seq<Row>, r: Row)
      ensures Keys(rows + [r]) == Keys(rows) + [Slot(r.period)]
    {
      assert (rows + [r])[..|rows|] == rows;
    }
  }

  // ----- links between records

  /** First index at or after `from` that holds key `k`; the length when there is none. */
  function NextIn(keys: seq<int>, k: int, from: nat): (j: nat)
    requires from <= |keys|
    ensures from <= j <= |keys|
    ensures j < |keys| ==> keys[j] == k
    ensures forall i :: from <= i < j ==> keys[i] != k
    decreases |keys| - from
  {
    if from == |keys| || keys[from] == k then from else NextIn(keys, k, from + 1)
  }

  /** The offset stored for a link to record `j` of `n`. */
  function LinkTo(n: nat, j: nat): (o: U32)
    requires n <= MAX_RECORDS && j <= n
    ensures o == NA_INDEX <==> j == n
    ensures j < n ==> o == RecordOffset(j)
  {
    if j == n then NA_INDEX else RecordOffset(j)
  }

  function RecordLink(keys: seq<int>, i: nat): (o: U32)
    requires |keys| <= MAX_RECORDS && i < |keys|
  {
    LinkTo(|keys|, NextIn(keys, keys[i], i + 1))
  }

  function SlotLink(keys: seq<int>, k: int): (o: U32)
    requires |keys| <= MAX_RECORDS
  {
    LinkTo(|keys|, NextIn(keys, k, 0))
  }

  // ----- the bytes of both files

  function EncodeRow(r: Row, next: U32): (b: seq<Byte>)
    ensures |b| == 20
    ensures b[16..] == Pack(next)
  {
    Pack(r.date) + Pack(r.period) + r.value + Pack(next)
  }

  function DecodeRow(b: seq<Byte>): (Row, U32)
    requires |b| == 20
  {
    (Row(Unpack(b[..4]), Unpack(b[4..8]), b[8..16]), Unpack(b[16..]))
  }

  /** Date, period, value and link, in that order, of 4, 4, 8 and 4 bytes. */
  lemma RecordFields(r: Row, next: U32)
    ensures var b := EncodeRow(r, next);
            b[..4] == Pack(r.date) && b[4..8] == Pack(r.period) && b[8..16] == r.value && b[16..20] == Pack(next)
  {
  }

  lemma DecodeEncode(r: Row, next: U32)
    ensures DecodeRow(EncodeRow(r, next)) == (r, next)
  {
    var b := EncodeRow(r, next);
    UnpackPack(r.date);
    UnpackPack(r.period);
    UnpackPack(next);
    assert b[..4] == Pack(r.date) && b[4..8] == Pack(r.period) && b[8..16] == r.value;
  }

  lemma RelinkRow(r: Row, next: U32, next': U32)
    ensures Overwrite(EncodeRow(r, next), 16, Pack(next')) == EncodeRow(r, next')
  {
  }

  function DataParts(keys: seq<int>, log: seq<Row>): (parts: seq<seq<Byte>>)
    requires |keys| == |log| <= MAX_RECORDS
    ensures |parts| == |log|
    ensures forall i :: 0 <= i < |log| ==> parts[i] == EncodeRow(log[i], RecordLink(keys, i))
    ensures Uniform(20, parts)
  {
    seq(|log|, i requires 0 <= i < |log| => EncodeRow(log[i], RecordLink(keys, i)))
  }

  /** Word 0 is the first year; word 1 + k is the head of the chain of slot k. */
  function IndexParts(firstYear: U32, slots: nat, keys: seq<int>): (parts: seq<seq<Byte>>)
    requires |keys| <= MAX_RECORDS
    ensures |parts| == 1 + slots
    ensures parts[0] == Pack(firstYear)
    ensures forall w :: 1 <= w <= slots ==> parts[w] == Pack(SlotLink(keys, w - 1))
    ensures Uniform(4, parts)
  {
    seq(1 + slots, w requires 0 <= w <= slots => if w == 0 then Pack(firstYear) else Pack(SlotLink(keys, w - 1)))
  }

  ghost function DataImage(keys: seq<int>, log: seq<Row>): seq<Byte>
    requires |keys| == |log| <= MAX_RECORDS
  {
    Flatten(DataParts(keys, log))
  }

  ghost function IndexImage(firstYear: U32, slots: nat, keys: seq<int>): seq<Byte>
    requires |keys| <= MAX_RECORDS
  {
    Flatten(IndexParts(firstYear, slots, keys))
  }

  lemma DataLength(keys: seq<int>, log: seq<Row>)
    requires |keys| == |log| <= MAX_RECORDS
    ensures |DataImage(keys, log)| == RecordOffset(|log|)
  {
    FlattenLength(20, DataParts(keys, log));
  }

  lemma DataImageAt(keys: seq<int>, log: seq<Row>, i: nat)
    requires |keys| == |log| <= MAX_RECORDS && i < |log|
    ensures |DataImage(keys, log)| == RecordOffset(|log|)
    ensures var b := DataImage(keys, log)[RecordOffset(i)..RecordOffset(i) + 20];
            DecodeRow(b) == (log[i], RecordLink(keys, i))
  {
    FlattenSlice(20, DataParts(keys, log), i);
    DecodeEncode(log[i], RecordLink(keys, i));
  }

  lemma DataNextAt(keys: seq<int>, log: seq<Row>, i: nat)
    requires |keys| == |log| <= MAX_RECORDS && i < |log|
    ensures |DataImage(keys, log)| == RecordOffset(|log|)
    ensures Unpack(DataImage(keys, log)[RecordOffset(i) + 16..RecordOffset(i) + 20]) == RecordLink(keys, i)
  {
    FlattenSlice(20, DataParts(keys, log), i);
    UnpackPack(RecordLink(keys, i));
    var b := DataImage(keys, log)[RecordOffset(i)..RecordOffset(i) + 20];
    assert b[16..] == DataImage(keys, log)[RecordOffset(i) + 16..RecordOffset(i) + 20];
  }

  lemma IndexImageAt(firstYear: U32, slots: nat, keys: seq<int>, k: nat)
    requires |keys| <= MAX_RECORDS && k < slots
    ensures |IndexImage(firstYear, slots, keys)| == SlotOffset(slots)
    ensures Unpack(IndexImage(firstYear, slots, keys)[SlotOffset(k)..SlotOffset(k) + 4]) == SlotLink(keys, k)
  {
    hide Pack, Unpack;
    FlattenSlice(4, IndexParts(firstYear, slots, keys), 1 + k);
    UnpackPack(SlotLink(keys, k));
  }

  lemma IndexImageHeader(firstYear: U32, slots: nat, keys: seq<int>)
    requires |keys| <= MAX_RECORDS
    ensures |IndexImage(firstYear, slots, keys)| == SlotOffset(slots)
    ensures Unpack(IndexImage(firstYear, slots, keys)[..4]) == firstYear
  {
    FlattenSlice(4, IndexParts(firstYear, slots, keys), 0);
    UnpackPack(firstYear);
  }

  // ----- what one published row changes

  lemma {:induction false} NextInAppend(keys: seq<int>, key: int, k: int, from: nat)
    requires from <= |keys|
    ensures var j := NextIn(keys, k, from);
            NextIn(keys + [key], k, from) == if j < |keys| then j else if key == k then |keys| else |keys| + 1
    decreases |keys| - from
  {
    if from < |keys| {
      NextInAppend(keys, key, k, from + 1);
    }
  }

  lemma RecordLinkAppend(keys: seq<int>, key: int, i: nat)
    requires |keys| < MAX_RECORDS && i < |keys|
    ensures RecordLink(keys + [key], i) ==
            if NextIn(keys, keys[i], i + 1) == |keys| && keys[i] == key then RecordOffset(|keys|) else RecordLink(keys, i)
  {
    NextInAppend(keys, key, keys[i], i + 1);
  }

  lemma SlotLinkAppend(keys: seq<int>, key: int, k: int)
    requires |keys| < MAX_RECORDS
    ensures SlotLink(keys + [key], k) ==
            if NextIn(keys, k, 0) == |keys| && k == key then RecordOffset(|keys|) else SlotLink(keys, k)
  {
    NextInAppend(keys, key, k, 0);
  }

  /** First record of its slot: every stored link stays, and the record is appended. */
  lemma PublishFirstData(keys: seq<int>, log: seq<Row>, r: Row, k: int)
    requires |keys| == |log| < MAX_RECORDS
    requires NextIn(keys, k, 0) == |log|
    ensures |DataImage(keys, log)| == RecordOffset(|log|)
    ensures Overwrite(DataImage(keys, log), RecordOffset(|log|), EncodeRow(r, NA_INDEX)) == DataImage(keys + [k], log + [r])
  {
    var parts, parts' := DataParts(keys, log), DataParts(keys + [k], log + [r]);
    FlattenLength(20, parts);
    forall i | 0 <= i < |log|
      ensures parts[i] == parts'[i]
    {
      RecordLinkAppend(keys, k, i);
    }
    assert parts' == parts + [EncodeRow(r, NA_INDEX)];
    FlattenAppend(parts, EncodeRow(r, NA_INDEX));
  }

  /** First record of its slot: the slot is pointed at it. */
  lemma PublishFirstIndex(firstYear: U32, slots: nat, keys: seq<int>, k: nat)
    requires |keys| < MAX_RECORDS && k < slots
    requires NextIn(keys, k, 0) == |keys|
    ensures Overwrite(IndexImage(firstYear, slots, keys), SlotOffset(k), Pack(RecordOffset(|keys|)))
         == IndexImage(firstYear, slots, keys + [k])
  {
    hide Pack, Overwrite, SlotLink, NextIn;
    FirstIndexParts(firstYear, slots, keys, k);
    FlattenReplace(4, IndexParts(firstYear, slots, keys), 1 + k, Pack(RecordOffset(|keys|)));
  }

  lemma FirstIndexParts(firstYear: U32, slots: nat, keys: seq<int>, k: nat)
    requires |keys| < MAX_RECORDS && k < slots
    requires NextIn(keys, k, 0) == |keys|
    ensures IndexParts(firstYear, slots, keys + [k])
         == IndexParts(firstYear, slots, keys)[1 + k := Pack(RecordOffset(|keys|))]
  {
    hide Pack;
    var heads, heads' := IndexParts(firstYear, slots, keys), IndexParts(firstYear, slots, keys + [k]);
    forall w | 1 <= w <= slots
      ensures heads'[w] == if w == 1 + k then Pack(RecordOffset(|keys|)) else heads[w]
    {
      SlotLinkAppend(keys, k, w - 1);
    }
  }

  /** The data file after the link of record `tail` is pointed past the last record. */
  ghost function RelinkedParts(keys: seq<int>, log: seq<Row>, tail: nat): (parts: seq<seq<Byte>>)
    requires |keys| == |log| < MAX_RECORDS && tail < |log|
    ensures |parts| == |log| && Uniform(20, parts)
  {
    DataParts(keys, log)[tail := EncodeRow(log[tail], RecordOffset(|log|))]
  }

  /** Later record of its slot: the link of the slot's last record is patched in place ... */
  lemma RelinkTail(keys: seq<int>, log: seq<Row>, tail: nat)
    requires |keys| == |log| < MAX_RECORDS && tail < |log|
    ensures Overwrite(DataImage(keys, log), RecordOffset(tail) + 16, Pack(RecordOffset(|log|)))
         == Flatten(RelinkedParts(keys, log, tail))
  {
    hide Pack, Overwrite;
    RelinkRow(log[tail], RecordLink(keys, tail), RecordOffset(|log|));
    FlattenPatch(20, DataParts(keys, log), tail, 16, Pack(RecordOffset(|log|)));
  }

  /** ... and then the record is appended. */
  lemma PublishRevisionData(keys: seq<int>, log: seq<Row>, r: Row, k: int, tail: nat)
    requires |keys| == |log| < MAX_RECORDS
    requires tail < |log| && keys[tail] == k && NextIn(keys, k, tail + 1) == |log|
    ensures Overwrite(Flatten(RelinkedParts(keys, log, tail)), RecordOffset(|log|), EncodeRow(r, NA_INDEX))
         == DataImage(keys + [k], log + [r])
  {
    hide Pack, EncodeRow, Overwrite;
    var parts, parts' := RelinkedParts(keys, log, tail), DataParts(keys + [k], log + [r]);
    forall i | 0 <= i < |log|
      ensures parts'[i] == parts[i]
    {
      RecordLinkAppend(keys, k, i);
      if i < tail && keys[i] == k {
        assert NextIn(keys, k, i + 1) <= tail;
      }
    }
    assert parts' == parts + [EncodeRow(r, NA_INDEX)];
    FlattenLength(20, parts);
    FlattenAppend(parts, EncodeRow(r, NA_INDEX));
  }

  /** Later record of its slot: no slot changes. */
  lemma PublishRevisionIndex(firstYear: U32, slots: nat, keys: seq<int>, k: int, tail: nat)
    requires tail < |keys| < MAX_RECORDS && keys[tail] == k
    ensures IndexImage(firstYear, slots, keys) == IndexImage(firstYear, slots, keys + [k])
  {
    hide Pack;
    var heads, heads' := IndexParts(firstYear, slots, keys), IndexParts(firstYear, slots, keys + [k]);
    forall w | 1 <= w <= slots
      ensures heads'[w] == heads[w]
    {
      SlotLinkAppend(keys, k, w - 1);
      assert w - 1 == k ==> NextIn(keys, w - 1, 0) <= tail;
    }
    assert heads' == heads;
  }

  /** A new index file is just the first year ... */
  lemma NoSlots(firstYear: U32)
    ensures Overwrite([], 0, Pack(firstYear)) == IndexImage(firstYear, 0, []) == Pack(firstYear)
  {
    hide Pack;
    var parts := IndexParts(firstYear, 0, []);
    assert parts == [Pack(firstYear)] && parts[..0] == [];
    assert Flatten(parts) == Flatten([]) + Pack(firstYear);
  }

  /** ... and one more empty word is one more empty slot. */
  lemma EmptyIndex(firstYear: U32, slots: nat)
    ensures Overwrite(IndexImage(firstYear, slots, []), |IndexImage(firstYear, slots, [])|, Pack(NA_INDEX))
         == IndexImage(firstYear, slots + 1, [])
  {
    hide Pack;
    var parts := IndexParts(firstYear, slots, []);
    assert IndexParts(firstYear, slots + 1, []) == parts + [Pack(NA_INDEX)];
    FlattenAppend(parts, Pack(NA_INDEX));
  }
}
