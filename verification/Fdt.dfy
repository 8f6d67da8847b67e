/** The appended-device-tree scanner and the root `qcom,msm-id` reader of
    releasetools/make_recovery_kernel.py, against a serializer for the flattened device tree of
    the Devicetree Specification (sections 5.2, 5.4 and 5.5).  Integers are Python's. */
module Fdt {
  import opened Common

  const FDT_MAGIC: nat := 0xD00DFEED
  const FDT_BEGIN_NODE: nat := 1
  const FDT_END_NODE: nat := 2
  const FDT_PROP: nat := 3
  const FDT_NOP: nat := 4
  const FDT_END: nat := 9

  type u32 = v: int | 0 <= v < 0x1_0000_0000

  /** b"qcom,msm-id" */
  const MSM_ID_PROPERTY: seq<byte> := [113, 99, 111, 109, 44, 109, 115, 109, 45, 105, 100]

  function Align(value: nat): nat {
    (value + 3) / 4 * 4
  }

  /** `struct.unpack_from(">I")` at an offset where four bytes are left. */
  function U32At(blob: seq<byte>, at: nat): u32
    requires at + 4 <= |blob|
  {
    blob[at] as int * 0x100_0000 + blob[at + 1] as int * 0x1_0000 + blob[at + 2] as int * 0x100 + blob[at + 3] as int
  }

  function PackU32(v: u32): (b: seq<byte>)
    ensures |b| == 4
  {
    [v / 0x100 / 0x100 / 0x100, v / 0x100 / 0x100 % 0x100, v / 0x100 % 0x100, v % 0x100]
  }

  lemma UnpackPacked(v: u32, blob: seq<byte>, at: nat)
    requires at + 4 <= |blob|
    requires blob[at..at + 4] == PackU32(v)
    ensures U32At(blob, at) == v
  {
    var b := blob[at..at + 4];
    assert b[0] == blob[at] && b[1] == blob[at + 1] && b[2] == blob[at + 2] && b[3] == blob[at + 3];
  }

  // ----- scanning for headers -----

  predicate MagicAt(blob: seq<byte>, at: nat) {
    at + 4 <= |blob| && blob[at..at + 4] == [0xD0, 0x0D, 0xFE, 0xED]
  }

  datatype Header = Header(total: nat, offStruct: nat, offStrings: nat, stringsSize: nat, structSize: nat)

  function HeaderAt(blob: seq<byte>, at: nat): Header
    requires at + 40 <= |blob|
  {
    Header(U32At(blob, at + 4), U32At(blob, at + 8), U32At(blob, at + 12), U32At(blob, at + 32), U32At(blob, at + 36))
  }

  /** The header checks of the scanner. */
  predicate ValidAt(blob: seq<byte>, at: nat) {
    && MagicAt(blob, at)
    && at + 40 <= |blob|
    && var h := HeaderAt(blob, at);
    && 40 <= h.total && at + h.total <= |blob|
    && 40 <= h.offStruct < h.total
    && 40 <= h.offStrings < h.total
    && h.structSize <= h.total - h.offStruct
    && h.stringsSize <= h.total - h.offStrings
  }

  /** Reference scan: looks at every byte offset and skips over each valid image it meets. */
  function Scan(blob: seq<byte>, from: nat): seq<(nat, nat)>
    decreases |blob| - from
  {
    if from >= |blob| then []
    else if ValidAt(blob, from) then
      var total := HeaderAt(blob, from).total;
      [(from, total)] + Scan(blob, from + total)
    else Scan(blob, from + 1)
  }

  lemma {:induction false} ScanSkips(blob: seq<byte>, from: nat, to: nat)
    requires from <= to
    requires forall p | from <= p < to :: !ValidAt(blob, p)
    ensures Scan(blob, from) == Scan(blob, to)
    decreases |blob| - from
  {
    if from < to && from < |blob| {
      ScanSkips(blob, from + 1, to);
    }
  }

  /** `blob.find(magic, cursor)`: the first occurrence at or after the cursor. */
  method FindMagic(blob: seq<byte>, cursor: nat) returns (position: int)
    ensures position >= 0 ==> cursor <= position && MagicAt(blob, position)
    ensures forall p | cursor <= p && (position < 0 || p < position) :: !MagicAt(blob, p)
  {
    var p := cursor;
    while p + 4 <= |blob|
      invariant forall q | cursor <= q < p :: !MagicAt(blob, q)
    {
      if blob[p..p + 4] == [0xD0, 0x0D, 0xFE, 0xED] {
        return p;
      }
      p := p + 1;
    }
    return -1;
  }

  /** No proper suffix of the magic starts with its first byte, so a rejected magic rules out the
      three offsets the scanner jumps over. */
  lemma MagicDoesNotOverlap(blob: seq<byte>, at: nat, p: nat)
    requires MagicAt(blob, at) && at < p < at + 4
    ensures !MagicAt(blob, p)
  {
    var k := p - at;
    assert blob[p] == blob[at..at + 4][k];
    assert p + 4 <= |blob| ==> blob[p..p + 4][0] != 0xD0;
  }

  lemma ScanTakes(blob: seq<byte>, at: nat)
    requires ValidAt(blob, at)
    ensures Scan(blob, at) == [(at, HeaderAt(blob, at).total)] + Scan(blob, at + HeaderAt(blob, at).total)
    ensures at + 40 <= at + HeaderAt(blob, at).total <= |blob|
  {}

  lemma ScanEnds(blob: seq<byte>, at: nat)
    requires at >= |blob|
    ensures Scan(blob, at) == []
  {}

  /** The scanner: finds each magic, and after a rejected one resumes four bytes further. */
  method FdtOffsets(blob: seq<byte>) returns (result: seq<(nat, nat)>)
    ensures result == Scan(blob, 0)
  {
    hide Scan, HeaderAt, U32At, MagicAt;
    result := [];
    var cursor := 0;
    while true
      invariant result + Scan(blob, cursor) == Scan(blob, 0)
      decreases |blob| + 4 - cursor
    {
      var position := FindMagic(blob, cursor);
      if position < 0 {
        var end := if cursor < |blob| then |blob| else cursor;
        ScanSkips(blob, cursor, end);
        ScanEnds(blob, end);
        return;
      }
      MagicIsInside(blob, position);
      ScanSkips(blob, cursor, position);
      if position + 40 <= |blob| {
        var h := HeaderAt(blob, position);
        if h.total >= 40 && position + h.total <= |blob| && 40 <= h.offStruct < h.total
           && 40 <= h.offStrings < h.total && h.structSize <= h.total - h.offStruct
           && h.stringsSize <= h.total - h.offStrings {
          ScanTakes(blob, position);
          result := result + [(position, h.total)];
          cursor := position + h.total;
          continue;
        }
      }
      forall p | position < p < position + 4 ensures !ValidAt(blob, p) {
        MagicDoesNotOverlap(blob, position, p);
      }
      ScanSkips(blob, position, position + 4);
      cursor := position + 4;
    }
  }

  lemma MagicIsInside(blob: seq<byte>, at: nat)
    requires MagicAt(blob, at)
    ensures at + 4 <= |blob|
  {}

  ghost predicate Inside(p: nat, interval: (nat, nat)) {
    interval.0 <= p < interval.0 + interval.1
  }

  /** Each interval reported is in bounds and covers exactly a valid image; two intervals are
      disjoint and in order. */
  lemma {:induction false} ScanIsSound(blob: seq<byte>, from: nat, j: nat, k: nat)
    requires j <= k < |Scan(blob, from)|
    ensures var r := Scan(blob, from);
      && from <= r[k].0 && r[k].0 + r[k].1 <= |blob|
      && ValidAt(blob, r[k].0) && r[k].1 == HeaderAt(blob, r[k].0).total
      && (j < k ==> r[j].0 + r[j].1 <= r[k].0)
    decreases |blob| - from
  {
    hide Scan, ValidAt, HeaderAt;
    if from >= |blob| {
      ScanEnds(blob, from);
    } else if ValidAt(blob, from) {
      ScanTakes(blob, from);
      if k > 0 {
        ScanIsSound(blob, from + HeaderAt(blob, from).total, if j == 0 then 0 else j - 1, k - 1);
      }
    } else {
      ScanSkips(blob, from, from + 1);
      ScanIsSound(blob, from + 1, j, k);
    }
  }

  /** Every offset where a valid image starts is reported or lies inside a reported interval. */
  lemma {:induction false} ScanIsComplete(blob: seq<byte>, from: nat, p: nat) returns (k: nat)
    requires from <= p && ValidAt(blob, p)
    ensures k < |Scan(blob, from)| && Inside(p, Scan(blob, from)[k])
    decreases |blob| - from
  {
    hide Scan, ValidAt, HeaderAt;
    ScanTakes(blob, p);
    if ValidAt(blob, from) {
      ScanTakes(blob, from);
      var total := HeaderAt(blob, from).total;
      if p < from + total {
        k := 0;
      } else {
        k := ScanIsComplete(blob, from + total, p);
        k := k + 1;
      }
    } else {
      ScanSkips(blob, from, from + 1);
      k := ScanIsComplete(blob, from + 1, p);
    }
  }

  // ----- the root property reader -----

  datatype Error = StructError | UnterminatedNode | InvalidProperty | UnterminatedName | UnknownToken | Missing

  datatype Result<+T> = Ok(value: T) | Err(error: Error)

  /** `dtb.find(b"\0", start, end)`; negative when there is none. */
  function FindNul(dtb: seq<byte>, start: nat, end: nat): (i: int)
    ensures i >= 0 ==> start <= i < end && i < |dtb| && dtb[i] == 0
    ensures forall k | start <= k < end && k < |dtb| && (i < 0 || k < i) :: dtb[k] != 0
    decreases end - start
  {
    if start >= end || start >= |dtb| then -1
    else if dtb[start] == 0 then start
    else FindNul(dtb, start + 1, end)
  }

  /** What one round of the token loop does: leave with a result or go on from a new cursor and depth. */
  datatype Round = Leave(result: Result<seq<byte>>) | GoOn(cursor: nat, depth: int)

  function Token(dtb: seq<byte>, h: Header, cursor: nat, depth: int): (r: Round)
    ensures r.GoOn? ==> r.cursor > cursor
  {
    var end := h.offStruct + h.structSize;
    if cursor + 4 > |dtb| then Leave(Err(StructError))
    else
      var token := U32At(dtb, cursor);
      if token == FDT_BEGIN_NODE then
        var nameEnd := FindNul(dtb, cursor + 4, end);
        if nameEnd < 0 then Leave(Err(UnterminatedNode)) else GoOn(Align(nameEnd + 1), depth + 1)
      else if token == FDT_END_NODE then GoOn(cursor + 4, depth - 1)
      else if token == FDT_PROP then
        if cursor + 12 > |dtb| then Leave(Err(StructError))
        else Property(dtb, h, cursor + 12, U32At(dtb, cursor + 4), U32At(dtb, cursor + 8), depth)
      else if token == FDT_NOP then GoOn(cursor + 4, depth)
      else if token == FDT_END || token == 0 then Leave(Err(Missing))
      else Leave(Err(UnknownToken))
  }

  function Property(dtb: seq<byte>, h: Header, data: nat, length: nat, nameOff: nat, depth: int): (r: Round)
    ensures r.GoOn? ==> r.cursor >= data
  {
    var next := Align(data + length);
    if next > h.offStruct + h.structSize || nameOff >= h.stringsSize then Leave(Err(InvalidProperty))
    else
      var nameEnd := FindNul(dtb, h.offStrings + nameOff, h.offStrings + h.stringsSize);
      if nameEnd < 0 then Leave(Err(UnterminatedName))
      else if depth == 1 && dtb[h.offStrings + nameOff..nameEnd] == MSM_ID_PROPERTY then
        Leave(Ok(SliceUpTo(dtb, data, length)))
      else GoOn(next, depth)
  }

  /** What the token loop returns from a cursor at a given depth. */
  function Walk(dtb: seq<byte>, h: Header, cursor: nat, depth: int): Result<seq<byte>>
    decreases h.offStruct + h.structSize - cursor
  {
    if cursor >= h.offStruct + h.structSize then Err(Missing)
    else
      match Token(dtb, h, cursor, depth)
      case Leave(r) => r
      case GoOn(cursor', depth') => Walk(dtb, h, cursor', depth')
  }

  /** Python slicing stops at the end of the bytes. */
  function SliceUpTo(dtb: seq<byte>, start: nat, length: nat): seq<byte> {
    if start >= |dtb| then [] else if start + length > |dtb| then dtb[start..] else dtb[start..start + length]
  }

  method RootMsmId(dtb: seq<byte>) returns (r: Result<seq<byte>>)
    ensures r == RootId(dtb)
  {
    if |dtb| < 40 {
      return Err(StructError);
    }
    var h := HeaderAt(dtb, 0);
    var cursor, depth := h.offStruct, 0;
    while cursor < h.offStruct + h.structSize
      invariant Walk(dtb, h, cursor, depth) == RootId(dtb)
    {
      var round := Token(dtb, h, cursor, depth);
      if round.Leave? {
        return round.result;
      }
      cursor, depth := round.cursor, round.depth;
    }
    return Err(Missing);
  }

  function RootId(dtb: seq<byte>): Result<seq<byte>> {
    if |dtb| < 40 then Err(StructError)
    else Walk(dtb, HeaderAt(dtb, 0), HeaderAt(dtb, 0).offStruct, 0)
  }
}
