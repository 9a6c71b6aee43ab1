/**
 Writing a point-in-time field: `DumpPitData._dump_pit` on a fresh or overwritten pair of files.
 */
module PitDump {
  import opened Common
  import opened BinaryFile
  import opened PitLayout

  function MinPeriod(rows: seq<Row>): (p: U32)
    requires rows != []
    ensures forall r :: r in rows ==> p <= r.period
    ensures exists r :: r in rows && r.period == p
  {
    if |rows| == 1 then rows[0].period
    else
      var rest := MinPeriod(rows[1..]);
      if rows[0].period < rest then rows[0].period else rest
  }

  function MaxPeriod(rows: seq<Row>): (p: U32)
    requires rows != []
    ensures forall r :: r in rows ==> r.period <= p
    ensures exists r :: r in rows && r.period == p
  {
    if |rows| == 1 then rows[0].period
    else
      var rest := MaxPeriod(rows[1..]);
      if rows[0].period > rest then rows[0].period else rest
  }

  function YearOf(period: U32, quarterly: bool): U32 {
    if quarterly then period / 100 else period
  }

  /** Where a fresh dump of `rows` puts its index: the first year, and the slots up to the last year. */
  function FreshLayout(rows: seq<Row>, quarterly: bool): Layout
    requires rows != []
  {
    Layout(YearOf(MinPeriod(rows), quarterly), quarterly)
  }

  function FreshSlots(rows: seq<Row>, quarterly: bool): nat
    requires rows != []
  {
    var years: int := YearOf(MaxPeriod(rows), quarterly) as int - YearOf(MinPeriod(rows), quarterly) + 1;
    if quarterly then 4 * years else years
  }

  /** The index runs from the year of the first row period to that of the last, with four words a year or one. */
  ghost predicate Spans(rows: seq<Row>, quarterly: bool, firstYear: int, slots: int) {
    exists lo, hi :: SpansFrom(rows, quarterly, firstYear, slots, lo, hi)
  }

  ghost predicate SpansFrom(rows: seq<Row>, quarterly: bool, firstYear: int, slots: int, lo: Row, hi: Row) {
    && lo in rows && hi in rows
    && (forall r :: r in rows ==> YearOf(lo.period, quarterly) <= YearOf(r.period, quarterly) <= YearOf(hi.period, quarterly))
    && firstYear == YearOf(lo.period, quarterly)
    && slots == (YearOf(hi.period, quarterly) - firstYear + 1) * if quarterly then 4 else 1
  }

  lemma PeriodBounds(rows: seq<Row>) returns (lo: Row, hi: Row)
    requires rows != []
    ensures lo in rows && lo.period == MinPeriod(rows) && hi in rows && hi.period == MaxPeriod(rows)
    ensures forall r :: r in rows ==> lo.period <= r.period <= hi.period
  {
    var least, greatest := MinPeriod(rows), MaxPeriod(rows);
    lo :| lo in rows && lo.period == least;
    hi :| hi in rows && hi.period == greatest;
  }

  lemma FreshSpans(rows: seq<Row>, quarterly: bool)
    requires rows != []
    ensures Spans(rows, quarterly, FreshLayout(rows, quarterly).firstYear, FreshSlots(rows, quarterly))
  {
    hide YearOf, MinPeriod, MaxPeriod, FreshLayout, FreshSlots;
    var lo, hi := PeriodBounds(rows);
    forall r | r in rows
      ensures YearOf(lo.period, quarterly) <= YearOf(r.period, quarterly) <= YearOf(hi.period, quarterly)
    {
      YearsOrder(lo.period, r.period, quarterly);
      YearsOrder(r.period, hi.period, quarterly);
    }
    SlotsOfYears(rows, quarterly);
    assert SpansFrom(rows, quarterly, FreshLayout(rows, quarterly).firstYear, FreshSlots(rows, quarterly), lo, hi);
  }

  lemma SlotsOfYears(rows: seq<Row>, quarterly: bool)
    requires rows != []
    ensures FreshLayout(rows, quarterly).firstYear == YearOf(MinPeriod(rows), quarterly)
    ensures FreshSlots(rows, quarterly) ==
            (YearOf(MaxPeriod(rows), quarterly) - YearOf(MinPeriod(rows), quarterly) + 1) * if quarterly then 4 else 1
  {
    hide MinPeriod, MaxPeriod, YearOf;
  }

  lemma YearsOrder(p: U32, q: U32, quarterly: bool)
    requires p <= q
    ensures YearOf(p, quarterly) <= YearOf(q, quarterly)
  {
  }

  ghost predicate WellFormedRows(rows: seq<Row>, quarterly: bool) {
    rows != [] && forall r :: r in rows ==> FreshLayout(rows, quarterly).WellFormed(r.period)
  }

  /** Every well-formed row of a fresh dump has a slot of its own period. */
  lemma FreshSlotsCover(rows: seq<Row>, quarterly: bool, r: Row)
    requires WellFormedRows(rows, quarterly) && r in rows
    ensures 0 <= FreshLayout(rows, quarterly).Slot(r.period) < FreshSlots(rows, quarterly)
  {
    assert MinPeriod(rows) <= r.period <= MaxPeriod(rows);
  }

  /** How publishing one row ends; `Derailed` when its slot is the year word and that word is taken for a link into the data. */
  datatype Outcome = Published | Refused | Derailed

  function OutcomeOf(layout: Layout, slots: nat, published: nat, row: Row): Outcome {
    var k := layout.Slot(row.period);
    if k < -1 then Refused
    else if k == -1 then
      if layout.firstYear != NA_INDEX && RecordOffset(published) < layout.firstYear + 20 then Refused else Derailed
    else if k < slots && published < MAX_RECORDS then Published else Refused
  }

  /** In a fresh dump no row comes before the year word. */
  lemma FreshSlotsFrom(rows: seq<Row>, quarterly: bool, r: Row)
    requires r in rows
    ensures FreshLayout(rows, quarterly).Slot(r.period) >= -1
    ensures FreshLayout(rows, quarterly).Slot(r.period) == -1 <==>
            quarterly && r.period == FreshLayout(rows, quarterly).firstYear * 100
  {
    assert MinPeriod(rows) <= r.period;
  }

  /** Of rows published on top of `base` ones, the first `done` go through, and the next one does not. */
  ghost predicate StopsAt(layout: Layout, slots: nat, base: nat, rows: seq<Row>, done: nat) {
    && done <= |rows|
    && (forall i :: 0 <= i < done ==> OutcomeOf(layout, slots, base + i, rows[i]) == Published)
    && (done < |rows| ==> OutcomeOf(layout, slots, base + done, rows[done]) != Published)
  }

  lemma AllPublished(rows: seq<Row>, quarterly: bool, done: nat)
    requires WellFormedRows(rows, quarterly)
    requires StopsAt(FreshLayout(rows, quarterly), FreshSlots(rows, quarterly), 0, rows, done)
    ensures done == if |rows| <= MAX_RECORDS then |rows| else MAX_RECORDS
  {
    hide FreshLayout, FreshSlots, Layout.Slot, WellFormedRows;
    if done < |rows| {
      assert rows[done] in rows;
      FreshSlotsCover(rows, quarterly, rows[done]);
    }
    if done > 0 {
      assert OutcomeOf(FreshLayout(rows, quarterly), FreshSlots(rows, quarterly), 0 + (done - 1), rows[done - 1]) == Published;
    }
  }

  /** The word of slot `k`, counting the year word as slot -1. */
  lemma SlotWord(firstYear: U32, slots: nat, keys: seq<int>, k: int)
    requires |keys| <= MAX_RECORDS && k >= -1
    ensures |IndexImage(firstYear, slots, keys)| == 4 + 4 * slots
    ensures k < slots ==>
              Unpack(IndexImage(firstYear, slots, keys)[4 + 4 * k..8 + 4 * k]) == if k == -1 then firstYear else SlotLink(keys, k)
  {
    hide IndexImage, Unpack, SlotLink;
    IndexImageHeader(firstYear, slots, keys);
    if 0 <= k < slots {
      IndexImageAt(firstYear, slots, keys, k);
    }
  }

  class PitFiles {
    const layout: Layout
    const slots: nat
    const data: File
    const index: File
    ghost var log: seq<Row>

    ghost function Keys(): (keys: seq<int>)
      reads this
      ensures |keys| == |log|
    {
      layout.Keys(log)
    }

    /** Both files hold exactly the image of the rows published so far. */
    ghost predicate Valid()
      reads this, data, index
    {
      && data != index
      && |log| <= MAX_RECORDS
      && data.bytes == DataImage(Keys(), log)
      && index.bytes == IndexImage(layout.firstYear, slots, Keys())
    }

    /** The cursor of the data file is where the next record belongs. */
    ghost predicate AtEnd()
      reads this, data
    {
      data.pos == RecordOffset(|log|)
    }

    /** Creates the index with every slot empty and an empty data file. */
    constructor (layout: Layout, years: nat)
      ensures Valid() && AtEnd() && log == [] && fresh(data) && fresh(index)
      ensures this.layout == layout && slots == if layout.quarterly then 4 * years else years
    {
      this.layout := layout;
      this.slots := if layout.quarterly then 4 * years else years;
      this.data := new File([]);
      var words := EmptySlots(layout, years);
      this.index := words;
      log := [];
    }

    /** Reads the head of the chain of slot `k`, the year word for slot -1; nothing when the index has no such slot. */
    method ReadSlot(k: int) returns (head: Option<U32>)
      requires Valid() && k >= -1
      modifies index`pos
      ensures head == if k == -1 then Some(layout.firstYear) else if k < slots then Some(SlotLink(Keys(), k)) else None
    {
      hide DataImage, IndexImage, Unpack, SlotLink;
      SlotWord(layout.firstYear, slots, Keys(), k);
      index.Seek(4 + 4 * k);
      var raw := index.Read(4);
      if |raw| != 4 {
        return None;
      }
      return Some(Unpack(raw));
    }

    /** Follows the links of slot `k` from its head to the record whose link is empty. */
    method FindTail(k: nat, head: U32) returns (prev: U32, ghost tail: nat)
      requires Valid()
      requires head == SlotLink(Keys(), k) != NA_INDEX
      modifies data`pos
      ensures tail < |log| && prev == RecordOffset(tail)
      ensures Keys()[tail] == k && NextIn(Keys(), k, tail + 1) == |log|
    {
      hide IndexImage, DataImage, Unpack, NextIn;
      var cur := head;
      prev, tail := NA_INDEX, 0;
      ghost var keys, from := Keys(), 0;
      while cur != NA_INDEX
        invariant from <= |keys| && cur == LinkTo(|keys|, NextIn(keys, k, from))
        invariant from == 0 ==> cur != NA_INDEX
        invariant from > 0 ==> tail == from - 1 && prev == RecordOffset(tail) && keys[tail] == k
        decreases |keys| - from
      {
        tail := NextIn(keys, k, from);
        data.Seek(cur as int + 20 - 4);
        prev := cur;
        var raw := data.Read(4);
        DataNextAt(keys, log, tail);
        cur := Unpack(raw);
        from := tail + 1;
      }
    }

    /** Case I: the first record of its slot. */
    method PublishFirst(row: Row, k: nat)
      requires Valid() && AtEnd() && |log| < MAX_RECORDS
      requires k == layout.Slot(row.period) < slots && SlotLink(Keys(), k) == NA_INDEX
      modifies `log, data, index
      ensures Valid() && AtEnd() && log == old(log) + [row]
    {
      var here := data.pos;
      index.Seek(SlotOffset(k));
      index.Write(Pack(here));
      PublishFirstIndex(layout.firstYear, slots, Keys(), k);
      PublishFirstData(Keys(), log, row, k);
      data.Write(EncodeRow(row, NA_INDEX));
      layout.KeysAppend(log, row);
      log := log + [row];
    }

    /** Case II: a revision, linked from the record at `prev`. */
    method PublishRevision(row: Row, prev: U32, ghost tail: nat, here: U32)
      requires Valid() && here == RecordOffset(|log|) && |log| < MAX_RECORDS
      requires tail < |log| && prev == RecordOffset(tail)
      requires Keys()[tail] == layout.Slot(row.period) && NextIn(Keys(), Keys()[tail], tail + 1) == |log|
      modifies `log, data
      ensures Valid() && AtEnd() && log == old(log) + [row]
    {
      hide DataImage, IndexImage, Overwrite, Pack, EncodeRow, RelinkedParts, Layout.Slot;
      ghost var k := Keys()[tail];
      data.Seek(prev as int + 20 - 4);
      RelinkTail(Keys(), log, tail);
      data.Write(Pack(here));
      data.Seek(here);
      PublishRevisionData(Keys(), log, row, k, tail);
      PublishRevisionIndex(layout.firstYear, slots, Keys(), k, tail);
      data.Write(EncodeRow(row, NA_INDEX));
      layout.KeysAppend(log, row);
      log := log + [row];
    }

    /** Publishes one row, or leaves the bytes of both files alone. */
    method DumpRow(row: Row) returns (outcome: Outcome)
      requires Valid() && AtEnd()
      modifies `log, data, index
      ensures outcome == OutcomeOf(layout, slots, |old(log)|, row)
      ensures outcome == Published <==> 0 <= layout.Slot(row.period) < slots && 20 * |old(log)| <= 0xFFFF_FFFF
      ensures outcome == Derailed <==>
              layout.Slot(row.period) == -1 && (layout.firstYear == 0xFFFF_FFFF || layout.firstYear + 20 <= 20 * |old(log)|)
      ensures Valid()
      ensures log == if outcome == Published then old(log) + [row] else old(log)
      ensures outcome == Published ==> AtEnd()
    {
      hide DataImage, IndexImage;
      var k := layout.Slot(row.period);
      if k < -1 {
        return Refused;
      }
      var cur := ReadSlot(k);
      if cur == None {
        return Refused;
      }
      var here := data.pos;
      if k == -1 {
        outcome := FollowYear(cur.value);
      } else if cur.value == NA_INDEX {
        if here > MAX_U32 {
          return Refused;
        }
        PublishFirst(row, k);
        outcome := Published;
      } else {
        var prev, tail := FindTail(k, cur.value);
        if here > MAX_U32 {
          return Refused;
        }
        PublishRevision(row, prev, tail, here);
        outcome := Published;
      }
    }

    /** Takes the year for a link: the read fails where the data ends before, and what follows otherwise is not modelled. */
    method FollowYear(year: U32) returns (outcome: Outcome)
      requires Valid()
      modifies data`pos
      ensures outcome == if year != NA_INDEX && RecordOffset(|log|) < year + 20 then Refused else Derailed
    {
      hide DataImage, IndexImage;
      DataLength(Keys(), log);
      if year == NA_INDEX {
        return Derailed;
      }
      data.Seek(year as int + 20 - 4);
      var raw := data.Read(4);
      outcome := if |raw| == 4 then Derailed else Refused;
    }

    /** Publishes rows in order up to the first one that is not published. */
    method DumpRows(rows: seq<Row>) returns (done: nat)
      requires Valid() && AtEnd()
      modifies `log, data, index
      ensures Valid()
      ensures done <= |rows| && log == old(log) + rows[..done]
      ensures done == |rows| ==> AtEnd()
      ensures StopsAt(layout, slots, |old(log)|, rows, done)
    {
      hide Valid, AtEnd, OutcomeOf;
      done := 0;
      while done < |rows|
        invariant Valid() && AtEnd()
        invariant done <= |rows| && log == old(log) + rows[..done]
        invariant forall i :: 0 <= i < done ==> OutcomeOf(layout, slots, |old(log)| + i, rows[i]) == Published
      {
        var outcome := DumpRow(rows[done]);
        if outcome != Published {
          return;
        }
        done := done + 1;
      }
    }
  }

  /** A new index file: the first year, then one empty word per period of every year. */
  method EmptySlots(layout: Layout, years: nat) returns (index: File)
    ensures fresh(index)
    ensures index.bytes == IndexImage(layout.firstYear, if layout.quarterly then 4 * years else years, [])
  {
    hide IndexImage, Overwrite, Pack;
    index := new File([]);
    index.Write(Pack(layout.firstYear));
    NoSlots(layout.firstYear);
    ghost var slots := 0;
    for year := 0 to years
      invariant index.bytes == IndexImage(layout.firstYear, slots, []) && index.pos == |index.bytes|
      invariant slots == if layout.quarterly then 4 * year else year
    {
      for word := 0 to if layout.quarterly then 4 else 1
        invariant index.bytes == IndexImage(layout.firstYear, slots + word, []) && index.pos == |index.bytes|
      {
        EmptyIndex(layout.firstYear, slots + word);
        index.Write(Pack(NA_INDEX));
      }
      slots := slots + if layout.quarterly then 4 else 1;
    }
  }

  /** The first year of the dump and how many years its index covers. */
  method FreshYears(rows: seq<Row>, quarterly: bool) returns (layout: Layout, years: nat)
    requires rows != []
    ensures layout == FreshLayout(rows, quarterly) && layout.quarterly == quarterly
    ensures FreshSlots(rows, quarterly) == if quarterly then 4 * years else years
  {
    var startYear, endYear := MinPeriod(rows), MaxPeriod(rows);
    if quarterly {
      startYear := startYear / 100;
      endYear := endYear / 100;
    }
    layout := Layout(startYear, quarterly);
    years := endYear as int - startYear + 1;
  }

  /**
   A fresh or overwriting dump of one field; without rows no file is touched.  Rows are published in order up to the first
   one that is not, and that one tells how the dump ends.  Well-formed rows are published as far as offsets fit 32 bits.
   */
  method DumpField(rows: seq<Row>, quarterly: bool) returns (files: Option<PitFiles>, done: nat)
    ensures files == None <==> rows == []
    ensures done <= |rows|
    ensures files.Some? ==>
              && fresh(files.value) && files.value.Valid() && files.value.log == rows[..done]
              && files.value.layout == FreshLayout(rows, quarterly) && files.value.slots == FreshSlots(rows, quarterly)
              && StopsAt(files.value.layout, files.value.slots, 0, rows, done)
              && Spans(rows, quarterly, files.value.layout.firstYear, files.value.slots)
    ensures WellFormedRows(rows, quarterly) ==> done == if |rows| <= MAX_RECORDS then |rows| else MAX_RECORDS
  {
    if rows == [] {
      return None, 0;
    }
    FreshSpans(rows, quarterly);
    hide Spans, FreshLayout, FreshSlots, PitFiles.Valid, PitFiles.AtEnd, WellFormedRows, StopsAt;
    var layout, years := FreshYears(rows, quarterly);
    var pit := new PitFiles(layout, years);
    done := pit.DumpRows(rows);
    files := Some(pit);
    if WellFormedRows(rows, quarterly) {
      AllPublished(rows, quarterly, done);
    }
  }

  /** Quarter 0 of the first year has slot -1, and that word of the index is the year itself. */
  lemma QuarterZeroReadsYear(firstYear: U32, slots: nat, keys: seq<int>)
    requires firstYear < 42_000_000 && |keys| <= MAX_RECORDS
    ensures Layout(firstYear, true).Slot(firstYear * 100) == -1
    ensures |IndexImage(firstYear, slots, keys)| >= 4
    ensures Unpack(IndexImage(firstYear, slots, keys)[4 + 4 * -1..8 + 4 * -1]) == firstYear
  {
    IndexImageHeader(firstYear, slots, keys);
    assert firstYear * 100 / 100 == firstYear && firstYear * 100 % 100 == 0;
  }

  /**
   Writing a slot's first record at cursor `c` publishes it exactly when `c` is the end of the data.  A
   reopened file has its cursor at 0, so an update on existing data replaces record 0 instead.
   */
  lemma CursorMustBeAtEnd(keys: seq<int>, log: seq<Row>, r: Row, k: int, c: nat)
    requires |keys| == |log| < MAX_RECORDS && NextIn(keys, k, 0) == |log|
    ensures Overwrite(DataImage(keys, log), c, EncodeRow(r, NA_INDEX)) == DataImage(keys + [k], log + [r])
            <==> c == RecordOffset(|log|)
    ensures c == 0 ==> DecodeRow(Overwrite(DataImage(keys, log), c, EncodeRow(r, NA_INDEX))[..20]) == (r, NA_INDEX)
  {
    hide DataImage, DecodeRow, EncodeRow;
    DataLength(keys, log);
    DataLength(keys + [k], log + [r]);
    PublishFirstData(keys, log, r, k);
    DecodeEncode(r, NA_INDEX);
    var image := DataImage(keys, log);
    var record := EncodeRow(r, NA_INDEX);
    assert c == 0 ==> Overwrite(image, c, record)[..20] == record;
  }

  /**
   The same for a later record of a slot, whose tail is linked to the cursor before the record is written there: the
   record is published exactly when the cursor is the end of the data.
   */
  lemma RevisionCursorMustBeAtEnd(keys: seq<int>, log: seq<Row>, r: Row, k: int, tail: nat, c: U32)
    requires |keys| == |log| < MAX_RECORDS
    requires tail < |log| && keys[tail] == k && NextIn(keys, k, tail + 1) == |log|
    ensures var linked := Overwrite(DataImage(keys, log), RecordOffset(tail) + 16, Pack(c));
            Overwrite(linked, c, EncodeRow(r, NA_INDEX)) == DataImage(keys + [k], log + [r]) <==> c == RecordOffset(|log|)
    ensures var linked := Overwrite(DataImage(keys, log), RecordOffset(tail) + 16, Pack(c));
            c == 0 ==> DecodeRow(Overwrite(linked, c, EncodeRow(r, NA_INDEX))[..20]) == (r, NA_INDEX)
  {
    hide DataImage, DecodeRow, EncodeRow, Pack, RelinkedParts;
    DataLength(keys, log);
    DataLength(keys + [k], log + [r]);
    RelinkTail(keys, log, tail);
    PublishRevisionData(keys, log, r, k, tail);
    DecodeEncode(r, NA_INDEX);
    var linked := Overwrite(DataImage(keys, log), RecordOffset(tail) + 16, Pack(c));
    var record := EncodeRow(r, NA_INDEX);
    assert c == 0 ==> Overwrite(linked, c, record)[..20] == record;
  }
}
