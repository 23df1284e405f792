/** The receiver's memory: one buffer of laid-out PVs, its shadow copy, and the change flags. A PV's
    region holds its value bytes and then eight bytes of timestamp. */
module ReceiverStore {
  import opened Bytes
  import opened Records

  datatype Pv = Pv(totalSize: Word, offset: nat)

  const NUMBER_OF_TYPES := 11

  // ----- the layout

  /** Where PV i starts when the regions follow one another. */
  function Base(pvs: seq<Pv>, i: nat): nat
    requires i <= |pvs|
  {
    if i == 0 then 0 else Base(pvs, i - 1) + pvs[i - 1].totalSize + STAMP
  }

  ghost predicate LaidOut(pvs: seq<Pv>, total: nat)
  {
    (forall i | 0 <= i < |pvs| :: OffsetIs(pvs, i)) && total == Base(pvs, |pvs|)
  }

  ghost predicate OffsetIs(pvs: seq<Pv>, i: nat)
    requires i < |pvs|
  {
    pvs[i].offset == Base(pvs, i)
  }

  lemma {:induction false} BaseGrows(pvs: seq<Pv>, i: nat, j: nat)
    requires i <= j <= |pvs|
    ensures Base(pvs, i) <= Base(pvs, j)
    ensures i < j ==> Base(pvs, i) + pvs[i].totalSize + STAMP <= Base(pvs, j)
    decreases j
  {
    if i < j { BaseGrows(pvs, i, j - 1); }
  }

  function End(pv: Pv): nat
  {
    pv.offset + pv.totalSize + STAMP
  }

  lemma RegionsInOrder(pvs: seq<Pv>, total: nat, i: nat, j: nat)
    requires LaidOut(pvs, total) && i < j <= |pvs|
    ensures End(pvs[i]) <= if j < |pvs| then pvs[j].offset else total
  {
    BaseGrows(pvs, i, j);
    assert OffsetIs(pvs, i);
    assert j < |pvs| ==> OffsetIs(pvs, j);
  }

  ghost predicate InRegion(pv: Pv, at: nat)
  {
    pv.offset <= at < End(pv)
  }

  lemma SomeRegion(pvs: seq<Pv>, k: nat, at: nat) returns (i: nat)
    requires k <= |pvs| && at < Base(pvs, k)
    ensures i < k && Base(pvs, i) <= at < Base(pvs, i) + pvs[i].totalSize + STAMP
    decreases k
  {
    if at < Base(pvs, k - 1) { i := SomeRegion(pvs, k - 1, at); } else { i := k - 1; }
  }

  /** The regions tile the buffer: every byte of it lies in one of them, and in no other. */
  lemma RegionsTile(pvs: seq<Pv>, total: nat, at: nat) returns (i: nat)
    requires LaidOut(pvs, total) && at < total
    ensures i < |pvs| && InRegion(pvs[i], at)
    ensures forall j | 0 <= j < |pvs| && InRegion(pvs[j], at) :: j == i
  {
    i := SomeRegion(pvs, |pvs|, at);
    assert OffsetIs(pvs, i);
    forall j | 0 <= j < |pvs| && InRegion(pvs[j], at) ensures j == i {
      if j < i { RegionsInOrder(pvs, total, j, i); }
      if i < j { RegionsInOrder(pvs, total, i, j); }
    }
  }

  // ----- updates

  /** `strayed` says that bytes of a record were copied to places outside the region of its PV: what of
      them lands in the buffer is there, what lands beyond it is not followed. */
  datatype Store = Store(memory: seq<Byte>, prec: seq<Byte>, flag: seq<bool>, strayed: bool)

  /** Whatever the type conversion makes of a PV's value bytes; it keeps their number. */
  type Conversion = (nat, Byte, seq<Byte>, seq<Byte>) -> seq<Byte>

  ghost predicate KeepsSize(convert: Conversion)
  {
    forall i, t, d, v :: |convert(i, t, d, v)| == |v|
  }

  ghost predicate Sized(pvs: seq<Pv>, total: nat, s: Store)
  {
    LaidOut(pvs, total) && |s.memory| == total && |s.prec| == total && |s.flag| == |pvs|
  }

  function Value(pv: Pv, memory: seq<Byte>): (v: seq<Byte>)
    requires pv.offset + pv.totalSize <= |memory|
    ensures |v| == pv.totalSize
  {
    memory[pv.offset..pv.offset + pv.totalSize]
  }

  function Stamp(pv: Pv, memory: seq<Byte>): (v: seq<Byte>)
    requires End(pv) <= |memory|
  {
    memory[pv.offset + pv.totalSize..pv.offset + pv.totalSize + STAMP]
  }

  function Put(memory: seq<Byte>, at: nat, bytes: seq<Byte>): (m: seq<Byte>)
    requires at + |bytes| <= |memory|
    ensures |m| == |memory|
    ensures forall k | 0 <= k < |memory| :: m[k] == if at <= k < at + |bytes| then bytes[k - at] else memory[k]
  {
    memory[..at] + bytes + memory[at + |bytes|..]
  }

  /** The sum of two words in 32 bits. */
  function Sum32(a: nat, b: nat): int
  {
    if a + b < 0x1_0000_0000 then a + b else a + b - 0x1_0000_0000
  }

  /** The receiver's test of a record's bounds. */
  predicate InBounds(pv: Pv, r: Record)
  {
    pv.totalSize > 0 && Sum32(|r.data|, r.offset) <= pv.totalSize
  }

  /** The record passes the test because the sum wraps. */
  predicate Strays(pv: Pv, r: Record)
  {
    InBounds(pv, r) && |r.data| + r.offset >= 0x1_0000_0000
  }

  /** A byte of the record is copied to this place, counted from the start of the buffer. */
  ghost predicate Lands(pv: Pv, r: Record, at: nat)
  {
    pv.offset + r.offset <= at < pv.offset + r.offset + |r.data|
  }

  ghost predicate InValue(pv: Pv, at: nat)
  {
    pv.offset <= at < pv.offset + pv.totalSize
  }

  /** All bytes of a record that passes the test land in the value of its PV exactly when the sum does not
      wrap. */
  lemma StaysExactlyWhen(pv: Pv, r: Record)
    requires InBounds(pv, r)
    ensures (forall at: nat | Lands(pv, r, at) :: InValue(pv, at)) <==> r.offset + |r.data| < 0x1_0000_0000
    ensures r.offset + |r.data| <= pv.totalSize <==> r.offset + |r.data| < 0x1_0000_0000
  {
    if Strays(pv, r) {
      var last := pv.offset + r.offset + |r.data| - 1;
      assert Lands(pv, r, last) && !InValue(pv, last);
    }
  }

  /** Some bytes of a record that strays land in the buffer: it starts before its end. */
  predicate Reaches(pv: Pv, total: nat, r: Record)
  {
    Strays(pv, r) && pv.offset + r.offset < total
  }

  /** Every byte of a record that strays lands behind the buffer exactly when its first does; that is so
      whenever the buffer and the record together have no more than 4 GB. */
  lemma StraysBeyond(pv: Pv, total: nat, r: Record)
    requires Strays(pv, r)
    ensures (forall at: nat | Lands(pv, r, at) :: at >= total) <==> !Reaches(pv, total, r)
    ensures total + |r.data| <= 0x1_0000_0000 ==> !Reaches(pv, total, r)
  {
    assert Lands(pv, r, pv.offset + r.offset);
  }

  /** In a large enough buffer such a record overwrites another PV. */
  lemma SomeRecordReaches()
    ensures var r, pvs := Record([65], 0, 0, 0xffff_ffff, [1], Zeros(8)), [Pv(8, 0), Pv(0xffff_ffff, 16)];
      && WellFormed(Limits(2, 8), r) && LaidOut(pvs, 0x1_0000_0017) && Reaches(pvs[0], 0x1_0000_0017, r)
      && Lands(pvs[0], r, 0xffff_ffff) && InValue(pvs[1], 0xffff_ffff)
  {
    var pvs := [Pv(8, 0), Pv(0xffff_ffff, 16)];
    assert Base(pvs, 0) == 0;
    assert Base(pvs, 1) == 16;
    assert Base(pvs, 2) == 0x1_0000_0017;
  }

  lemma WholeFits(pv: Pv, r: Record)
    requires r.offset == 0 && |r.data| == pv.totalSize > 0
    ensures InBounds(pv, r) && !Strays(pv, r)
  {
  }

  /** There is such a record among those the format carries: it would be stored 4 GB behind its PV. */
  lemma SomeRecordStrays()
    ensures var r := Record([65], 0, 0, 0xffff_ffff, [0], Zeros(8));
      WellFormed(Limits(1, 8), r) && Strays(Pv(8, 0), r)
  {
  }

  /** The buffer after bytes have been copied to a place that may lie behind it, or run past its end. */
  function Overlaid(memory: seq<Byte>, at: nat, bytes: seq<Byte>): (m: seq<Byte>)
    ensures |m| == |memory|
    ensures forall k | 0 <= k < |memory| :: m[k] == if at <= k < at + |bytes| then bytes[k - at] else memory[k]
  {
    if at + |bytes| <= |memory| then Put(memory, at, bytes)
    else if at < |memory| then Put(memory, at, bytes[..|memory| - at])
    else memory
  }

  /** The buffer after a record in bounds has been copied into it. */
  function Copied(pv: Pv, memory: seq<Byte>, r: Record): (m: seq<Byte>)
    requires End(pv) <= |memory| && |r.stamp| == STAMP
    ensures |m| == |memory|
  {
    Put(Overlaid(memory, pv.offset + r.offset, r.data), pv.offset + pv.totalSize, r.stamp)
  }

  /** The buffer after the record's bytes have been stored for PV i. */
  function Written(convert: Conversion, i: nat, pv: Pv, memory: seq<Byte>, r: Record): (m: seq<Byte>)
    requires End(pv) <= |memory| && |r.stamp| == STAMP
    requires forall t, d, v :: |convert(i, t, d, v)| == |v|
    ensures |m| == |memory|
  {
    if InBounds(pv, r) then Copied(pv, memory, r)
    else if r.offset == 0 && r.typeId < NUMBER_OF_TYPES then
      Put(memory, pv.offset, convert(i, r.typeId, r.data, Value(pv, memory)))
    else memory
  }

  /** One record stored for PV i, under the lock. */
  function Update(pvs: seq<Pv>, convert: Conversion, s: Store, i: nat, r: Record): (s': Store)
    requires i < |pvs| && i < |s.flag| && |s.memory| == |s.prec|
    requires End(pvs[i]) <= |s.memory| && |r.stamp| == STAMP
    requires forall t, d, v :: |convert(i, t, d, v)| == |v|
    ensures |s'.memory| == |s'.prec| == |s.memory| && |s'.flag| == |s.flag|
  {
    var memory := Written(convert, i, pvs[i], s.memory, r);
    var strayed := s.strayed || Strays(pvs[i], r);
    if Value(pvs[i], memory) == Value(pvs[i], s.prec) then s.(memory := memory, strayed := strayed)
    else Store(memory, Put(s.prec, pvs[i].offset, Value(pvs[i], memory)), s.flag[i := true], strayed)
  }

  /** The snapshot hands out the memory and the flags and clears the flags. */
  function Cleared(s: Store): Store
  {
    s.(flag := seq(|s.flag|, _ => false))
  }

  /** Outside the region of the PV nothing has changed but what of the record lands there. */
  ghost predicate ChangedElsewhere(pv: Pv, r: Record, was: seq<Byte>, now: seq<Byte>)
  {
    |was| == |now| && forall k | 0 <= k < |was| && !InRegion(pv, k) ::
      now[k] == if Reaches(pv, |was|, r) && Lands(pv, r, k) then r.data[k - pv.offset - r.offset] else was[k]
  }

  lemma WrittenElsewhere(convert: Conversion, i: nat, pv: Pv, memory: seq<Byte>, r: Record)
    requires End(pv) <= |memory| && |r.stamp| == STAMP
    requires forall t, d, v :: |convert(i, t, d, v)| == |v|
    ensures ChangedElsewhere(pv, r, memory, Written(convert, i, pv, memory, r))
  {
    if !InBounds(pv, r) && r.offset == 0 && r.typeId < NUMBER_OF_TYPES {
      assert |convert(i, r.typeId, r.data, Value(pv, memory))| == pv.totalSize;
    }
  }

  lemma WrittenOnlyThere(convert: Conversion, i: nat, pv: Pv, memory: seq<Byte>, r: Record)
    requires End(pv) <= |memory| && |r.stamp| == STAMP && !Reaches(pv, |memory|, r)
    requires forall t, d, v :: |convert(i, t, d, v)| == |v|
    ensures var m := Written(convert, i, pv, memory, r);
      forall k | 0 <= k < |memory| && !InRegion(pv, k) :: m[k] == memory[k]
  {
    WrittenElsewhere(convert, i, pv, memory, r);
  }

  /** Storing a record for one PV leaves every byte outside its region alone. */
  lemma WrittenInside(convert: Conversion, i: nat, pv: Pv, memory: seq<Byte>, r: Record, other: Pv)
    requires End(pv) <= |memory| && |r.stamp| == STAMP && !Reaches(pv, |memory|, r)
    requires forall t, d, v :: |convert(i, t, d, v)| == |v|
    requires End(other) <= |memory| && (End(pv) <= other.offset || End(other) <= pv.offset)
    ensures var m := Written(convert, i, pv, memory, r);
      Value(other, m) == Value(other, memory) && Stamp(other, m) == Stamp(other, memory)
  {
    var m := Written(convert, i, pv, memory, r);
    WrittenOnlyThere(convert, i, pv, memory, r);
    forall k | other.offset <= k < End(other) ensures m[k] == memory[k] {}
  }

  /** An update of one PV, unless its record reaches back into the buffer, leaves the value and the timestamp
      of every other untouched. */
  lemma OthersUntouched(pvs: seq<Pv>, total: nat, convert: Conversion, s: Store, i: nat, r: Record, j: nat)
    requires Sized(pvs, total, s) && KeepsSize(convert) && |r.stamp| == STAMP
    requires i < |pvs| && j < |pvs| && i != j && !Reaches(pvs[i], total, r)
    ensures End(pvs[i]) <= total && End(pvs[j]) <= total
    ensures var s' := Update(pvs, convert, s, i, r);
      && Value(pvs[j], s'.memory) == Value(pvs[j], s.memory)
      && Stamp(pvs[j], s'.memory) == Stamp(pvs[j], s.memory)
      && Value(pvs[j], s'.prec) == Value(pvs[j], s.prec)
      && s'.flag[j] == s.flag[j]
  {
    Apart(pvs, total, i, j);
    WrittenInside(convert, i, pvs[i], s.memory, r, pvs[j]);
  }

  lemma Apart(pvs: seq<Pv>, total: nat, i: nat, j: nat)
    requires LaidOut(pvs, total) && i < |pvs| && j < |pvs| && i != j
    ensures End(pvs[i]) <= total && End(pvs[j]) <= total
    ensures End(pvs[i]) <= pvs[j].offset || End(pvs[j]) <= pvs[i].offset
  {
    RegionsInOrder(pvs, total, i, |pvs|);
    RegionsInOrder(pvs, total, j, |pvs|);
    if i < j { RegionsInOrder(pvs, total, i, j); } else { RegionsInOrder(pvs, total, j, i); }
  }

  lemma PutsLand(memory: seq<Byte>, at: nat, total: nat, offset: nat, data: seq<Byte>, stamp: seq<Byte>)
    requires offset + |data| <= total && at + total + |stamp| <= |memory|
    ensures var m, v := Put(Put(memory, at + offset, data), at + total, stamp), memory[at..at + total];
      && m[at..at + total] == v[..offset] + data + v[offset + |data|..]
      && m[at + total..at + total + |stamp|] == stamp
  {
  }

  lemma CopiedIs(pv: Pv, memory: seq<Byte>, r: Record)
    requires End(pv) <= |memory| && |r.stamp| == STAMP && InBounds(pv, r) && !Strays(pv, r)
    ensures r.offset + |r.data| <= pv.totalSize
    ensures Copied(pv, memory, r)
      == Put(Put(memory, pv.offset + r.offset, r.data), pv.offset + pv.totalSize, r.stamp)
  {
  }

  lemma CopiedLands(pv: Pv, memory: seq<Byte>, m: seq<Byte>, r: Record)
    requires End(pv) <= |memory| && |r.stamp| == STAMP && r.offset + |r.data| <= pv.totalSize
    requires m == Put(Put(memory, pv.offset + r.offset, r.data), pv.offset + pv.totalSize, r.stamp)
    ensures var v := Value(pv, memory);
      Value(pv, m) == v[..r.offset] + r.data + v[r.offset + |r.data|..] && Stamp(pv, m) == r.stamp
  {
    PutsLand(memory, pv.offset, pv.totalSize, r.offset, r.data, r.stamp);
  }

  /** A record that fits stores its bytes and timestamp, and nothing else of its PV. */
  lemma FittingRecordIsStored(convert: Conversion, i: nat, pv: Pv, memory: seq<Byte>, r: Record)
    requires End(pv) <= |memory| && |r.stamp| == STAMP && InBounds(pv, r) && !Strays(pv, r)
    requires forall t, d, v :: |convert(i, t, d, v)| == |v|
    ensures r.offset + |r.data| <= pv.totalSize
    ensures var m, v := Written(convert, i, pv, memory, r), Value(pv, memory);
      && Value(pv, m) == v[..r.offset] + r.data + v[r.offset + |r.data|..]
      && Stamp(pv, m) == r.stamp
  {
    CopiedIs(pv, memory, r);
    CopiedLands(pv, memory, Copied(pv, memory, r), r);
  }

  // ----- what an update leaves of its PV, in every case

  /** The value a record leaves: its bytes, where they fit by their size and offset in 32 bits; what the type
      conversion makes of it, if it does not fit, begins the value and has one of the eleven types; otherwise
      the value that was there. */
  function ValueLeft(convert: Conversion, i: nat, pv: Pv, r: Record, was: seq<Byte>): (v: seq<Byte>)
    requires |was| == pv.totalSize && forall t, d, v :: |convert(i, t, d, v)| == |v|
    ensures |v| == pv.totalSize
  {
    if Accepts(pv, r) then
      seq(|was|, k requires 0 <= k < |was| =>
        if r.offset <= k < r.offset + |r.data| then r.data[k - r.offset] else was[k])
    else if r.offset == 0 && r.typeId < 11 then convert(i, r.typeId, r.data, was)
    else was
  }

  /** The record's bytes end within the value, by the sum of its size and offset in 32 bits. */
  predicate Accepts(pv: Pv, r: Record)
  {
    pv.totalSize > 0 && (r.offset + |r.data|) % 0x1_0000_0000 <= pv.totalSize
  }

  lemma CopiedLeaves(pv: Pv, memory: seq<Byte>, r: Record)
    requires End(pv) <= |memory| && |r.stamp| == STAMP
    ensures var m := Copied(pv, memory, r);
      && (forall k | 0 <= k < pv.totalSize ::
            Value(pv, m)[k]
              == if r.offset <= k < r.offset + |r.data| then r.data[k - r.offset] else Value(pv, memory)[k])
      && Stamp(pv, m) == r.stamp
  {
  }

  lemma PutLeaves(pv: Pv, memory: seq<Byte>, value: seq<Byte>)
    requires End(pv) <= |memory| && |value| == pv.totalSize
    ensures var m := Put(memory, pv.offset, value); Value(pv, m) == value && Stamp(pv, m) == Stamp(pv, memory)
  {
  }

  lemma WrittenLeaves(convert: Conversion, i: nat, pv: Pv, memory: seq<Byte>, r: Record)
    requires End(pv) <= |memory| && |r.stamp| == STAMP && |r.data| < 0x1_0000_0000
    requires forall t, d, v :: |convert(i, t, d, v)| == |v|
    ensures var m := Written(convert, i, pv, memory, r);
      && Value(pv, m) == ValueLeft(convert, i, pv, r, Value(pv, memory))
      && Stamp(pv, m) == if Accepts(pv, r) then r.stamp else Stamp(pv, memory)
  {
    AcceptsExactlyWhen(pv, r);
    if Accepts(pv, r) {
      CopiedLeaves(pv, memory, r);
    } else if r.offset == 0 && r.typeId < 11 {
      PutLeaves(pv, memory, convert(i, r.typeId, r.data, Value(pv, memory)));
    }
  }

  lemma AcceptsExactlyWhen(pv: Pv, r: Record)
    requires |r.data| < 0x1_0000_0000
    ensures Accepts(pv, r) <==> InBounds(pv, r)
  {
    Remainder(r.offset, |r.data|);
  }

  lemma Remainder(a: Word, b: Word)
    ensures (a + b) % 0x1_0000_0000 == Sum32(b, a)
  {
  }

  /** PV i has that value and, if the record was accepted, its timestamp; its shadow copy has the value; and its
      flag is set if it was or the value differs from the shadow copy. */
  ghost predicate LeftBy(pvs: seq<Pv>, convert: Conversion, was: Store, now: Store, i: nat, r: Record)
    requires i < |pvs| && forall t, d, v :: |convert(i, t, d, v)| == |v|
  {
    && End(pvs[i]) <= |was.memory| == |was.prec| == |now.memory| == |now.prec| && i < |was.flag|
    && var v := ValueLeft(convert, i, pvs[i], r, Value(pvs[i], was.memory));
      && Value(pvs[i], now.memory) == v && Value(pvs[i], now.prec) == v
      && Stamp(pvs[i], now.memory) == (if Accepts(pvs[i], r) then r.stamp else Stamp(pvs[i], was.memory))
      && now.flag == was.flag[i := was.flag[i] || v != Value(pvs[i], was.prec)]
  }

  lemma UpdateLeaves(pvs: seq<Pv>, convert: Conversion, s: Store, i: nat, r: Record)
    requires i < |pvs| && i < |s.flag| && |s.memory| == |s.prec| && End(pvs[i]) <= |s.memory|
    requires |r.stamp| == STAMP && |r.data| < 0x1_0000_0000
    requires forall t, d, v :: |convert(i, t, d, v)| == |v|
    ensures LeftBy(pvs, convert, s, Update(pvs, convert, s, i, r), i, r)
  {
    WrittenLeaves(convert, i, pvs[i], s.memory, r);
    PutLeaves(pvs[i], s.prec, Value(pvs[i], Written(convert, i, pvs[i], s.memory, r)));
  }

  // ----- runs of updates and snapshots

  datatype Event = Stored(i: nat, record: Record) | Snapshot

  /** A run: the store, the memory handed out by the last snapshot, and the PVs whose value an
      update has changed since. */
  datatype History = History(now: Store, last: seq<Byte>, touched: set<nat>)

  ghost predicate Possible(pvs: seq<Pv>, e: Event)
  {
    e.Stored? ==> e.i < |pvs| && |e.record.stamp| == STAMP
  }

  ghost predicate Stays(pvs: seq<Pv>, e: Event)
    requires Possible(pvs, e)
  {
    e.Stored? ==> !Strays(pvs[e.i], e.record)
  }

  /** What is kept for PV i: the shadow agrees with the memory on its value bytes, its flag is set
      exactly if an update has changed them since the last snapshot, and without the flag they are
      still what the last snapshot handed out. */
  ghost predicate TrackedPv(pv: Pv, h: History, i: nat)
    requires i < |h.now.flag|
  {
    && End(pv) <= |h.now.memory| == |h.now.prec| == |h.last|
    && Value(pv, h.now.memory) == Value(pv, h.now.prec)
    && (h.now.flag[i] <==> i in h.touched)
    && (!h.now.flag[i] ==> Value(pv, h.now.memory) == Value(pv, h.last))
  }

  ghost predicate Tracked(pvs: seq<Pv>, total: nat, h: History)
  {
    && Sized(pvs, total, h.now) && |h.last| == total
    && (forall i | 0 <= i < |pvs| :: TrackedPv(pvs[i], h, i))
  }

  ghost function Next(pvs: seq<Pv>, total: nat, convert: Conversion, h: History, e: Event): History
    requires Tracked(pvs, total, h) && KeepsSize(convert) && Possible(pvs, e)
  {
    match e
    case Snapshot => History(Cleared(h.now), h.now.memory, {})
    case Stored(i, r) =>
      assert TrackedPv(pvs[i], h, i);
      var s := Update(pvs, convert, h.now, i, r);
      var changed := Value(pvs[i], s.memory) != Value(pvs[i], h.now.memory);
      History(s, h.last, if changed then h.touched + {i} else h.touched)
  }

  /** The bytes that land in the value of PV j are those already there. */
  ghost predicate SparesPv(pvs: seq<Pv>, total: nat, memory: seq<Byte>, i: nat, r: Record, j: nat)
    requires |memory| == total && i < |pvs| && j < |pvs|
  {
    Reaches(pvs[i], total, r) ==>
      forall at | 0 <= at < total && InValue(pvs[j], at) && Lands(pvs[i], r, at) ::
        memory[at] == r.data[at - pvs[i].offset - r.offset]
  }

  /** No record reaches back into the buffer and changes the value of another PV. */
  ghost predicate Spares(pvs: seq<Pv>, total: nat, memory: seq<Byte>, e: Event)
    requires |memory| == total && Possible(pvs, e)
  {
    e.Stored? ==> forall j | 0 <= j < |pvs| && j != e.i :: SparesPv(pvs, total, memory, e.i, e.record, j)
  }

  lemma ValueKeptExactlyWhen(pvs: seq<Pv>, total: nat, convert: Conversion, memory: seq<Byte>, i: nat,
                             r: Record, j: nat)
    requires LaidOut(pvs, total) && |memory| == total && KeepsSize(convert) && |r.stamp| == STAMP
    requires i < |pvs| && j < |pvs| && i != j
    ensures End(pvs[i]) <= total && End(pvs[j]) <= total
    ensures Value(pvs[j], Written(convert, i, pvs[i], memory, r)) == Value(pvs[j], memory)
      <==> SparesPv(pvs, total, memory, i, r, j)
  {
    Apart(pvs, total, i, j);
    WrittenElsewhere(convert, i, pvs[i], memory, r);
    KeptIn(pvs, total, memory, Written(convert, i, pvs[i], memory, r), i, r, j);
  }

  lemma KeptIn(pvs: seq<Pv>, total: nat, was: seq<Byte>, now: seq<Byte>, i: nat, r: Record, j: nat)
    requires |was| == |now| == total && i < |pvs| && j < |pvs| && End(pvs[j]) <= total
    requires End(pvs[i]) <= pvs[j].offset || End(pvs[j]) <= pvs[i].offset
    requires ChangedElsewhere(pvs[i], r, was, now)
    ensures Value(pvs[j], now) == Value(pvs[j], was) <==> SparesPv(pvs, total, was, i, r, j)
  {
    SlicesAgree(now, was, pvs[j].offset, pvs[j].offset + pvs[j].totalSize);
    forall at | 0 <= at < total && InValue(pvs[j], at) ensures !InRegion(pvs[i], at) {}
  }

  lemma SlicesAgree(a: seq<Byte>, b: seq<Byte>, from: nat, to: nat)
    requires from <= to <= |a| == |b|
    ensures a[from..to] == b[from..to] <==> forall at | from <= at < to :: a[at] == b[at]
  {
    forall at | from <= at < to ensures a[at] == a[from..to][at - from] && b[at] == b[from..to][at - from] {}
  }

  lemma UpdateKeepsTrack(pvs: seq<Pv>, total: nat, convert: Conversion, h: History, i: nat, r: Record, j: nat)
    requires Tracked(pvs, total, h) && KeepsSize(convert) && |r.stamp| == STAMP
    requires i < |pvs| && j < |pvs|
    ensures TrackedPv(pvs[j], Next(pvs, total, convert, h, Stored(i, r)), j)
      <==> i == j || SparesPv(pvs, total, h.now.memory, i, r, j)
  {
    assert TrackedPv(pvs[i], h, i) && TrackedPv(pvs[j], h, j);
    var s := Update(pvs, convert, h.now, i, r);
    if i != j {
      ValueKeptExactlyWhen(pvs, total, convert, h.now.memory, i, r, j);
      ShadowOfOthers(pvs, total, convert, h.now, i, r, j);
    } else {
      assert Value(pvs[i], s.prec) == Value(pvs[i], s.memory);
    }
  }

  /** Whatever the record, the shadow copy and the flag of every other PV are left alone. */
  lemma ShadowOfOthers(pvs: seq<Pv>, total: nat, convert: Conversion, s: Store, i: nat, r: Record, j: nat)
    requires Sized(pvs, total, s) && KeepsSize(convert) && |r.stamp| == STAMP
    requires i < |pvs| && j < |pvs| && i != j
    ensures End(pvs[i]) <= total && End(pvs[j]) <= total
    ensures var s' := Update(pvs, convert, s, i, r);
      Value(pvs[j], s'.prec) == Value(pvs[j], s.prec) && s'.flag[j] == s.flag[j]
  {
    Apart(pvs, total, i, j);
  }

  /** At every lock release, after every update and every snapshot, all of that still holds, exactly
      when the record did not reach back into the buffer and change the value of another PV. */
  lemma StepKeepsTrack(pvs: seq<Pv>, total: nat, convert: Conversion, h: History, e: Event)
    requires Tracked(pvs, total, h) && KeepsSize(convert) && Possible(pvs, e)
    ensures Tracked(pvs, total, Next(pvs, total, convert, h, e)) <==> Spares(pvs, total, h.now.memory, e)
  {
    var h' := Next(pvs, total, convert, h, e);
    forall j | 0 <= j < |pvs|
      ensures TrackedPv(pvs[j], h', j)
        <==> e.Snapshot? || e.i == j || SparesPv(pvs, total, h.now.memory, e.i, e.record, j)
    {
      assert TrackedPv(pvs[j], h, j);
      if e.Stored? { UpdateKeepsTrack(pvs, total, convert, h, e.i, e.record, j); }
    }
  }

  /** A record that stays, or lands wholly behind the buffer, spares all others. */
  lemma StayingSpares(pvs: seq<Pv>, total: nat, memory: seq<Byte>, e: Event)
    requires |memory| == total && Possible(pvs, e)
    ensures (e.Stored? ==> !Reaches(pvs[e.i], total, e.record)) ==> Spares(pvs, total, memory, e)
  {
  }

  ghost predicate GoodRun(pvs: seq<Pv>, run: seq<Event>)
  {
    forall k | 0 <= k < |run| :: Possible(pvs, run[k]) && Stays(pvs, run[k])
  }

  ghost function After(pvs: seq<Pv>, total: nat, convert: Conversion, h: History, run: seq<Event>): (h': History)
    requires Tracked(pvs, total, h) && KeepsSize(convert) && GoodRun(pvs, run)
    ensures Tracked(pvs, total, h')
    decreases |run|
  {
    if run == [] then h
    else
      StayingSpares(pvs, total, h.now.memory, run[0]);
      StepKeepsTrack(pvs, total, convert, h, run[0]);
      After(pvs, total, convert, Next(pvs, total, convert, h, run[0]), run[1..])
  }

  /** A reader of the snapshots that looks at nothing but the flagged values: for each PV the value it
      took last. */
  ghost function Mirror(pvs: seq<Pv>, total: nat, convert: Conversion, h: History, mirror: seq<seq<Byte>>,
                        run: seq<Event>)
    : (m: seq<seq<Byte>>)
    requires Tracked(pvs, total, h) && KeepsSize(convert) && GoodRun(pvs, run) && |mirror| == |pvs|
    ensures |m| == |pvs|
    decreases |run|
  {
    if run == [] then mirror
    else
      StayingSpares(pvs, total, h.now.memory, run[0]);
      StepKeepsTrack(pvs, total, convert, h, run[0]);
      var taken := if run[0].Snapshot? then Taken(pvs, h.now, mirror) else mirror;
      Mirror(pvs, total, convert, Next(pvs, total, convert, h, run[0]), taken, run[1..])
  }

  function Taken(pvs: seq<Pv>, s: Store, mirror: seq<seq<Byte>>): (m: seq<seq<Byte>>)
    requires |mirror| == |pvs| == |s.flag| && forall i | 0 <= i < |pvs| :: End(pvs[i]) <= |s.memory|
    ensures |m| == |pvs|
  {
    seq(|pvs|, i requires 0 <= i < |pvs|
      && End(pvs[i]) <= |s.memory| => if s.flag[i] then Value(pvs[i], s.memory) else mirror[i])
  }

  ghost predicate Reflects(pvs: seq<Pv>, memory: seq<Byte>, mirror: seq<seq<Byte>>)
    requires |mirror| == |pvs|
  {
    forall i | 0 <= i < |pvs| :: End(pvs[i]) <= |memory| && mirror[i] == Value(pvs[i], memory)
  }

  /** Over any run of updates and snapshots, the reader holds every value of the last snapshot. */
  lemma {:induction false} MirrorFollows(pvs: seq<Pv>, total: nat, convert: Conversion, h: History,
                                         mirror: seq<seq<Byte>>, run: seq<Event>)
    requires Tracked(pvs, total, h) && KeepsSize(convert) && GoodRun(pvs, run)
    requires |mirror| == |pvs| && Reflects(pvs, h.last, mirror)
    ensures Reflects(pvs, After(pvs, total, convert, h, run).last, Mirror(pvs, total, convert, h, mirror, run))
    decreases |run|
  {
    if run != [] {
      StayingSpares(pvs, total, h.now.memory, run[0]);
      StepKeepsTrack(pvs, total, convert, h, run[0]);
      var taken := if run[0].Snapshot? then Taken(pvs, h.now, mirror) else mirror;
      var h' := Next(pvs, total, convert, h, run[0]);
      forall i | 0 <= i < |pvs| ensures End(pvs[i]) <= |h'.last| && taken[i] == Value(pvs[i], h'.last) {
        assert TrackedPv(pvs[i], h, i);
      }
      MirrorFollows(pvs, total, convert, h', taken, run[1..]);
    }
  }

  /** The receiver as it starts: all buffers zero, no flag set. */
  function Start(pvs: seq<Pv>, total: nat): History
  {
    History(Store(Zeros(total), Zeros(total), seq(|pvs|, _ => false), false), Zeros(total), {})
  }

  function ZeroValues(pvs: seq<Pv>): (m: seq<seq<Byte>>)
    ensures |m| == |pvs|
  {
    seq(|pvs|, i requires 0 <= i < |pvs| => Zeros(pvs[i].totalSize))
  }

  lemma {:induction false} AfterSnapshot(pvs: seq<Pv>, total: nat, convert: Conversion, h: History, run: seq<Event>)
    requires Tracked(pvs, total, h) && KeepsSize(convert) && GoodRun(pvs, run)
    ensures GoodRun(pvs, run + [Snapshot])
    ensures After(pvs, total, convert, h, run + [Snapshot]).last == After(pvs, total, convert, h, run).now.memory
    decreases |run|
  {
    if run == [] {
      assert (run + [Snapshot])[1..] == [];
    } else {
      StayingSpares(pvs, total, h.now.memory, run[0]);
      StepKeepsTrack(pvs, total, convert, h, run[0]);
      AfterSnapshot(pvs, total, convert, Next(pvs, total, convert, h, run[0]), run[1..]);
      assert (run + [Snapshot])[1..] == run[1..] + [Snapshot];
    }
  }

  /** No update is lost: from the start, over any run, a reader that takes only the flagged values out
      of each snapshot holds all values of the memory after it takes the next. */
  lemma {:induction false} NoUpdateLost(pvs: seq<Pv>, total: nat, convert: Conversion, run: seq<Event>)
    requires LaidOut(pvs, total) && KeepsSize(convert) && GoodRun(pvs, run)
    ensures Tracked(pvs, total, Start(pvs, total)) && GoodRun(pvs, run + [Snapshot])
    ensures var h := Start(pvs, total);
      Reflects(pvs, After(pvs, total, convert, h, run).now.memory,
              Mirror(pvs, total, convert, h, ZeroValues(pvs), run + [Snapshot]))
  {
    StartsTracked(pvs, total);
    var h := Start(pvs, total);
    AfterSnapshot(pvs, total, convert, h, run);
    forall i | 0 <= i < |pvs| ensures End(pvs[i]) <= |h.last| && ZeroValues(pvs)[i] == Value(pvs[i], h.last) {
      assert TrackedPv(pvs[i], h, i);
    }
    MirrorFollows(pvs, total, convert, h, ZeroValues(pvs), run + [Snapshot]);
  }

  lemma StartsTracked(pvs: seq<Pv>, total: nat)
    requires LaidOut(pvs, total)
    ensures Tracked(pvs, total, Start(pvs, total))
  {
    forall i | 0 <= i < |pvs| ensures End(pvs[i]) <= total {
      RegionsInOrder(pvs, total, i, |pvs|);
    }
  }
}
