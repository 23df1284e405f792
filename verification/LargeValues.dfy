/** What the receiver makes of records that are not whole values of its own size: the parts of a value that takes
    several records, and values of another size, which are converted. */
module LargeValues {
  import opened Wrappers
  import opened Bytes
  import opened Records
  import opened NameSearch
  import opened ReceiverStore
  import opened Delivery
  import opened Replication
  import opened Slices
  import opened Sending
  import opened EndToEnd

  /** The name leads to PV i of the receiver. */
  ghost predicate LeadsTo(c: Setup, d: Descriptor, i: nat)
    requires |c.names| == |c.pvs|
  {
    i < |c.pvs| && Find(c.cmp, c.names, d.name) == Some(i)
  }

  lemma Inside(c: Setup, s: Store, i: nat)
    requires GoodSetup(c) && Sized(c.pvs, c.total, s) && i < |c.pvs|
    ensures End(c.pvs[i]) <= c.total == |s.memory|
  {
    RegionsInOrder(c.pvs, c.total, i, |c.pvs|);
  }

  /** A value too large for the receiver's PV is converted from the type the sender has it in, and its timestamp
      is not taken; of a type the receiver does not have nothing is taken. */
  lemma LargerIsConverted(c: Setup, s: Store, pvs: seq<Descriptor>, memory: seq<Byte>, v: nat, i: nat)
    requires GoodSetup(c) && Sized(c.pvs, c.total, s) && Sendable(pvs, |memory|) && v < |pvs|
    requires LeadsTo(c, pvs[v], i) && c.pvs[i].totalSize < pvs[v].total
    ensures End(c.pvs[i]) <= c.total
    ensures var s', pv := StoreOne(c, s, Some(i), RecordOf(pvs, memory, Piece(v, 0, pvs[v].total))), c.pvs[i];
      && Stamp(pv, s'.memory) == Stamp(pv, s.memory)
      && Value(pv, s'.memory) == if pvs[v].typeId < 11 then
           c.convert(i, pvs[v].typeId, memory[pvs[v].offset..pvs[v].offset + pvs[v].total], Value(pv, s.memory))
         else Value(pv, s.memory)
  {
    NotAccepted(c, s, i, RecordOf(pvs, memory, Piece(v, 0, pvs[v].total)));
  }

  lemma NotAccepted(c: Setup, s: Store, i: nat, r: Record)
    requires GoodSetup(c) && Sized(c.pvs, c.total, s) && i < |c.pvs| && |r.stamp| == STAMP
    requires r.offset == 0 && c.pvs[i].totalSize < |r.data| < 0x1_0000_0000
    ensures End(c.pvs[i]) <= c.total
    ensures var s', pv := StoreOne(c, s, Some(i), r), c.pvs[i];
      && Stamp(pv, s'.memory) == Stamp(pv, s.memory)
      && Value(pv, s'.memory)
           == if r.typeId < 11 then c.convert(i, r.typeId, r.data, Value(pv, s.memory)) else Value(pv, s.memory)
  {
    Inside(c, s, i);
    assert (r.offset + |r.data|) % 0x1_0000_0000 == |r.data|;
    UpdateLeaves(c.pvs, c.convert, s, i, r);
  }

  // ----- a value in several records

  /** The first `off` bytes of the value are there. */
  ghost predicate HasFirst(c: Setup, s: Store, i: nat, value: seq<Byte>, off: nat)
    requires GoodSetup(c) && Sized(c.pvs, c.total, s)
  {
    && i < |c.pvs| && End(c.pvs[i]) <= c.total && off <= |value| == c.pvs[i].totalSize
    && Value(c.pvs[i], s.memory)[..off] == value[..off]
  }

  lemma FirstGrows(now: seq<Byte>, was: seq<Byte>, value: seq<Byte>, data: seq<Byte>, off: nat)
    requires |now| == |was| == |value| && off + |data| <= |value| && was[..off] == value[..off]
    requires data == value[off..off + |data|]
    requires forall k | 0 <= k < |now| :: now[k] == if off <= k < off + |data| then data[k - off] else was[k]
    ensures now[..off + |data|] == value[..off + |data|]
  {
    forall k | 0 <= k < off + |data| ensures now[k] == value[k] {
      if k < off { assert was[..off][k] == value[..off][k]; }
    }
  }

  /** One record of the value: the bytes it has, and the timestamp. */
  lemma OnePart(c: Setup, s: Store, pvs: seq<Descriptor>, memory: seq<Byte>, v: nat, i: nat, off: nat, size: nat)
    requires GoodSetup(c) && Sized(c.pvs, c.total, s) && Sendable(pvs, |memory|) && v < |pvs| && pvs[v].total > 0
    requires LeadsTo(c, pvs[v], i) && c.pvs[i].totalSize == pvs[v].total && off + size <= pvs[v].total
    requires HasFirst(c, s, i, ValueBytes(pvs[v], memory), off)
    ensures var s' := StoreOne(c, s, Some(i), RecordOf(pvs, memory, Piece(v, off, size)));
      && HasFirst(c, s', i, ValueBytes(pvs[v], memory), off + size)
      && Stamp(c.pvs[i], s'.memory) == StampBytes(pvs[v], memory)
  {
    var r, value := RecordOf(pvs, memory, Piece(v, off, size)), ValueBytes(pvs[v], memory);
    SamePart(memory, pvs[v].offset, pvs[v].total, off, size);
    PartStored(c, s, i, value, off, r);
  }

  lemma PartStored(c: Setup, s: Store, i: nat, value: seq<Byte>, off: nat, r: Record)
    requires GoodSetup(c) && Sized(c.pvs, c.total, s) && HasFirst(c, s, i, value, off)
    requires 0 < |value| < 0x1_0000_0000 && |r.stamp| == STAMP && r.offset == off && off + |r.data| <= |value|
    requires r.data == value[off..off + |r.data|]
    ensures var s' := StoreOne(c, s, Some(i), r);
      HasFirst(c, s', i, value, off + |r.data|) && Stamp(c.pvs[i], s'.memory) == r.stamp
  {
    Inside(c, s, i);
    UpdateLeaves(c.pvs, c.convert, s, i, r);
    assert (r.offset + |r.data|) % 0x1_0000_0000 == off + |r.data|;
    var s' := StoreOne(c, s, Some(i), r);
    FirstGrows(Value(c.pvs[i], s'.memory), Value(c.pvs[i], s.memory), value, r.data, off);
  }

  lemma SamePart(memory: seq<Byte>, at: nat, total: nat, off: nat, size: nat)
    requires at + total <= |memory| && off + size <= total
    ensures memory[at + off..at + off + size] == memory[at..at + total][off..off + size]
  {
    var part, whole := memory[at + off..at + off + size], memory[at..at + total];
    forall k | 0 <= k < size ensures part[k] == whole[off..off + size][k] {}
  }

  /** The receiver knows the PV of the sender's descriptor, and has the first `off` bytes of its value. */
  ghost predicate Ready(c: Setup, s: Store, pvs: seq<Descriptor>, memory: seq<Byte>, v: nat, i: nat, off: nat)
  {
    && GoodSetup(c) && Sized(c.pvs, c.total, s) && Sendable(pvs, |memory|) && v < |pvs| && pvs[v].total > 0
    && LeadsTo(c, pvs[v], i) && c.pvs[i].totalSize == pvs[v].total && HasFirst(c, s, i, ValueBytes(pvs[v], memory), off)
  }

  /** With these records stored, it has the value and the timestamp. */
  ghost predicate Brings(c: Setup, s: Store, pvs: seq<Descriptor>, memory: seq<Byte>, v: nat, i: nat, ps: seq<Piece>)
    requires GoodSetup(c) && Sized(c.pvs, c.total, s) && Sendable(pvs, |memory|) && v < |pvs| && pvs[v].total > 0
  {
    && AllInside(pvs, ps)
    && var rs := RecordsOf(pvs, memory, ps);
      Stamped(rs) && HoldsValue(c, StoreAll(c, s, rs), i, ValueBytes(pvs[v], memory), StampBytes(pvs[v], memory))
  }

  /** A value that takes several records is held as the sender copied it, with its timestamp, once they are
      stored, if the request had room for all of them. */
  lemma {:induction false} PartsMakeTheValue(c: Setup, s: Store, pvs: seq<Descriptor>, memory: seq<Byte>, v: nat,
                                             i: nat, off: nat, count: nat, quota: nat, max: nat)
    requires Ready(c, s, pvs, memory, v, i, off) && off < pvs[v].total
    requires Fragments(v, pvs[v].total, off, count, quota, max).1 >= pvs[v].total
    ensures Brings(c, s, pvs, memory, v, i, Fragments(v, pvs[v].total, off, count, quota, max).0)
    decreases quota - count
  {
    var total := pvs[v].total;
    var size := if total - off < max then total - off else max;
    FirstPart(pvs, memory, v, off, size, count, quota, max);
    var s1 := OneMorePart(c, s, pvs, memory, v, i, off, size);
    if off + size < total { PartsMakeTheValue(c, s1, pvs, memory, v, i, off + size, count + 1, quota, max); }
    PartAhead(c, s, pvs, memory, v, i, off, size, Fragments(v, total, off + size, count + 1, quota, max).0);
  }

  /** One record more: `s1` has its bytes too, and all of the value if there are no others. */
  lemma OneMorePart(c: Setup, s: Store, pvs: seq<Descriptor>, memory: seq<Byte>, v: nat, i: nat, off: nat, size: nat)
    returns (s1: Store)
    requires Ready(c, s, pvs, memory, v, i, off) && off + size <= pvs[v].total
    ensures s1 == StoreOne(c, s, Some(i), RecordOf(pvs, memory, Piece(v, off, size)))
    ensures Ready(c, s1, pvs, memory, v, i, off + size)
    ensures off + size == pvs[v].total ==> Brings(c, s1, pvs, memory, v, i, [])
  {
    OnePart(c, s, pvs, memory, v, i, off, size);
    s1 := StoreOne(c, s, Some(i), RecordOf(pvs, memory, Piece(v, off, size)));
    if off + size == pvs[v].total { AllIsThere(c, s1, i, ValueBytes(pvs[v], memory)); }
  }

  lemma AllIsThere(c: Setup, s: Store, i: nat, value: seq<Byte>)
    requires GoodSetup(c) && Sized(c.pvs, c.total, s) && HasFirst(c, s, i, value, |value|)
    ensures HoldsValue(c, s, i, value, Stamp(c.pvs[i], s.memory))
  {
    var now := Value(c.pvs[i], s.memory);
    assert now == now[..|value|] && value == value[..|value|];
  }

  lemma PartAhead(c: Setup, s: Store, pvs: seq<Descriptor>, memory: seq<Byte>, v: nat, i: nat, off: nat, size: nat,
                  later: seq<Piece>)
    requires Ready(c, s, pvs, memory, v, i, off) && off + size <= pvs[v].total
    requires var s1 := StoreOne(c, s, Some(i), RecordOf(pvs, memory, Piece(v, off, size)));
      Ready(c, s1, pvs, memory, v, i, off + size) && Brings(c, s1, pvs, memory, v, i, later)
    ensures Brings(c, s, pvs, memory, v, i, [Piece(v, off, size)] + later)
  {
    var r, ps := RecordOf(pvs, memory, Piece(v, off, size)), [Piece(v, off, size)] + later;
    assert RecordsOf(pvs, memory, ps) == [r] + RecordsOf(pvs, memory, later);
    StoredFirst(c, s, r, RecordsOf(pvs, memory, later), i);
  }

  lemma FirstPart(pvs: seq<Descriptor>, memory: seq<Byte>, v: nat, off: nat, size: nat, count: nat, quota: nat,
                  max: nat)
    requires Sendable(pvs, |memory|) && v < |pvs| && off + size <= pvs[v].total && off < pvs[v].total
    requires size == if pvs[v].total - off < max then pvs[v].total - off else max
    requires Fragments(v, pvs[v].total, off, count, quota, max).1 >= pvs[v].total
    ensures var f, later := Fragments(v, pvs[v].total, off, count, quota, max),
      Fragments(v, pvs[v].total, off + size, count + 1, quota, max);
      && count + 1 < quota && later.1 == f.1 && f.0 == [Piece(v, off, size)] + later.0
      && (off + size == pvs[v].total ==> later.0 == [])
  {
  }

  lemma StoredFirst(c: Setup, s: Store, r: Record, rs: seq<Record>, i: nat)
    requires GoodSetup(c) && Sized(c.pvs, c.total, s) && Stamped(rs) && |r.stamp| == STAMP
    requires Find(c.cmp, c.names, r.name) == Some(i) && i < |c.pvs|
    ensures Stamped([r] + rs) && StoreAll(c, s, [r] + rs) == StoreAll(c, StoreOne(c, s, Some(i), r), rs)
  {
    assert ([r] + rs)[1..] == rs;
  }
}
