/** The wire format kept by radio-compat/parcel_compat.cpp: what one write does to a parcel's bytes,
    and a reader that recovers what was written. */
module ParcelFormat {
  import opened Common

  /** size_t of the 64-bit ABI. */
  const SIZE_MAX: nat := 0xFFFF_FFFF_FFFF_FFFF

  type u16 = v: int | 0 <= v < 0x1_0000
  type i32 = v: int | -0x8000_0000 <= v < 0x8000_0000

  /** A parcel as its owner sees it. */
  datatype Content = Content(bytes: seq<byte>, position: nat)

  const EMPTY := Content([], 0)

  /** `(length + 3U) & ~3U` in size_t arithmetic. */
  function AlignedLength(length: nat): nat {
    (length + 3) % 0x1_0000_0000_0000_0000 / 4 * 4
  }

  /** The padded length covers the data exactly while the sum does not wrap. */
  lemma AlignmentCoversUnlessItWraps(length: nat)
    requires length <= SIZE_MAX
    ensures length <= AlignedLength(length) <==> length <= SIZE_MAX - 3
    ensures length <= SIZE_MAX - 3 ==> AlignedLength(length) < length + 4 && AlignedLength(length) % 4 == 0
  {}

  function Pad(source: seq<byte>): (p: seq<byte>)
    requires |source| <= SIZE_MAX - 3
    ensures |p| == AlignedLength(|source|) && source <= p
  {
    AlignmentCoversUnlessItWraps(|source|);
    source + seq(AlignedLength(|source|) - |source|, _ => 0)
  }

  /** A write replaces the padded range at the position, extending the parcel when it runs past the end. */
  function Overwrite(c: Content, padded: seq<byte>): (r: Content)
    requires c.position <= |c.bytes|
    ensures r.position == c.position + |padded| <= |r.bytes|
  {
    var end := c.position + |padded|;
    Content(c.bytes[..c.position] + padded + (if end < |c.bytes| then c.bytes[end..] else []), end)
  }

  /** Little-endian bytes. */
  function Le32(v: i32): (b: seq<byte>)
    ensures |b| == 4
  {
    var u := if v < 0 then v + 0x1_0000_0000 else v;
    [u % 0x100, u / 0x100 % 0x100, u / 0x100 / 0x100 % 0x100, u / 0x100 / 0x100 / 0x100]
  }

  function Le16All(units: seq<u16>): (b: seq<byte>)
    ensures |b| == 2 * |units|
  {
    if units == [] then [] else [units[0] % 0x100, units[0] / 0x100] + Le16All(units[1..])
  }

  /** The bytes of a string write after its length word: the units and a terminating zero unit. */
  function Terminated(units: seq<u16>): (b: seq<byte>)
    ensures |b| == 2 * (|units| + 1)
  {
    Le16All(units + [0])
  }

  // ----- sequences of writes -----

  datatype Item = Int32(v: i32) | Text(units: seq<u16>) | NullText

  ghost predicate Writable(item: Item) {
    item.Text? ==> |item.units| < 0x8000_0000
  }

  /** The padded writes an item turns into. */
  function Chunks(item: Item): seq<seq<byte>>
    requires Writable(item)
  {
    match item
    case Int32(v) => [Le32(v)]
    case NullText => [Le32(-1)]
    case Text(units) => [Le32(|units|), Terminated(units)]
  }

  function WriteChunks(c: Content, chunks: seq<seq<byte>>): (r: Content)
    requires c.position <= |c.bytes| && forall k | 0 <= k < |chunks| :: |chunks[k]| <= SIZE_MAX - 3
    ensures r.position <= |r.bytes|
    decreases |chunks|
  {
    if chunks == [] then c else WriteChunks(Overwrite(c, Pad(chunks[0])), chunks[1..])
  }

  lemma ChunksAreShort(item: Item)
    requires Writable(item)
    ensures forall k | 0 <= k < |Chunks(item)| :: |Chunks(item)[k]| <= SIZE_MAX - 3
  {}

  function WriteItems(c: Content, items: seq<Item>): (r: Content)
    requires c.position <= |c.bytes| && forall k | 0 <= k < |items| :: Writable(items[k])
    ensures r.position <= |r.bytes|
    decreases |items|
  {
    if items == [] then c
    else
      ChunksAreShort(items[0]);
      WriteItems(WriteChunks(c, Chunks(items[0])), items[1..])
  }

  // ----- the reader -----

  datatype Kind = Word | String

  function KindOf(item: Item): Kind {
    if item.Int32? then Word else String
  }

  function ReadWord(b: seq<byte>, at: nat): i32
    requires at + 4 <= |b|
  {
    var u := b[at] as int + b[at + 1] as int * 0x100 + b[at + 2] as int * 0x1_0000 + b[at + 3] as int * 0x100_0000;
    if u >= 0x8000_0000 then u - 0x1_0000_0000 else u
  }

  function ReadUnits(b: seq<byte>, at: nat, n: nat): seq<u16>
    requires at + 2 * n <= |b|
    decreases n
  {
    if n == 0 then [] else [b[at] as int + b[at + 1] as int * 0x100] + ReadUnits(b, at + 2, n - 1)
  }

  /** Reads one item of a kind and tells where the next one starts; None when the bytes do not hold one. */
  function ReadItem(b: seq<byte>, at: nat, kind: Kind): Option<(Item, nat)> {
    if at + 4 > |b| then None
    else
      var n := ReadWord(b, at);
      if kind == Word then Some((Int32(n), at + 4))
      else if n == -1 then Some((NullText, at + 4))
      else if n < 0 || at + 4 + AlignedLength(2 * (n + 1)) > |b| then None
      else if at + 4 + 2 * n > |b| then None
      else Some((Text(ReadUnits(b, at + 4, n)), at + 4 + AlignedLength(2 * (n + 1))))
  }

  /** Reads items of the given kinds up to the end of the bytes. */
  function ReadItems(b: seq<byte>, at: nat, kinds: seq<Kind>): Option<seq<Item>>
    decreases |kinds|
  {
    if kinds == [] then (if at == |b| then Some([]) else None)
    else
      match ReadItem(b, at, kinds[0])
      case None => None
      case Some((item, next)) =>
        match ReadItems(b, next, kinds[1..])
        case None => None
        case Some(rest) => Some([item] + rest)
  }

  function Kinds(items: seq<Item>): (ks: seq<Kind>)
    ensures |ks| == |items|
  {
    if items == [] then [] else [KindOf(items[0])] + Kinds(items[1..])
  }

  // ----- round trip -----

  /** The padded bytes of an item. */
  function Wire(item: Item): seq<byte>
    requires Writable(item)
  {
    match item
    case Int32(v) => Le32(v)
    case NullText => Le32(-1)
    case Text(units) => Le32(|units|) + Pad(Terminated(units))
  }

  function WireAll(items: seq<Item>): seq<byte>
    requires forall k | 0 <= k < |items| :: Writable(items[k])
  {
    if items == [] then [] else Wire(items[0]) + WireAll(items[1..])
  }

  /** At the end of a parcel a write appends. */
  lemma AppendAtEnd(c: Content, padded: seq<byte>)
    requires c.position == |c.bytes|
    ensures Overwrite(c, padded) == Content(c.bytes + padded, |c.bytes| + |padded|)
  {}

  lemma WriteTextAppends(c: Content, units: seq<u16>)
    requires c.position == |c.bytes| && Writable(Text(units))
    ensures (ChunksAreShort(Text(units)); WriteChunks(c, Chunks(Text(units))))
         == Content(c.bytes + Wire(Text(units)), |c.bytes + Wire(Text(units))|)
  {
    hide Le32, Terminated, AlignedLength, WriteChunks, Pad;
    ChunksAreShort(Text(units));
    var d := Content(c.bytes + Le32(|units|), |c.bytes| + 4);
    assert Chunks(Text(units)) == [Le32(|units|)] + [Terminated(units)];
    WordChunk(c, |units|, [Terminated(units)]);
    LastChunk(d, Terminated(units));
    assert d.bytes + Pad(Terminated(units)) == c.bytes + Wire(Text(units));
  }

  lemma WriteItemAppends(c: Content, item: Item)
    requires c.position == |c.bytes| && Writable(item)
    ensures (ChunksAreShort(item); WriteChunks(c, Chunks(item)))
         == Content(c.bytes + Wire(item), |c.bytes + Wire(item)|)
  {
    hide Le32, Terminated, AlignedLength, Pad;
    ChunksAreShort(item);
    match item
    case Int32(v) => WordChunk(c, v, []); assert [Le32(v)] + [] == [Le32(v)];
    case NullText => WordChunk(c, -1, []); assert [Le32(-1)] + [] == [Le32(-1)];
    case Text(units) => WriteTextAppends(c, units);
  }

  lemma LastChunk(c: Content, chunk: seq<byte>)
    requires c.position == |c.bytes| && |chunk| <= SIZE_MAX - 3
    ensures WriteChunks(c, [chunk]) == Content(c.bytes + Pad(chunk), |c.bytes + Pad(chunk)|)
  {
    AppendAtEnd(c, Pad(chunk));
    assert [chunk][1..] == [];
  }

  lemma WordChunk(c: Content, v: i32, rest: seq<seq<byte>>)
    requires c.position == |c.bytes| && forall k | 0 <= k < |rest| :: |rest[k]| <= SIZE_MAX - 3
    ensures WriteChunks(c, [Le32(v)] + rest) == WriteChunks(Content(c.bytes + Le32(v), |c.bytes| + 4), rest)
  {
    assert Pad(Le32(v)) == Le32(v);
    AppendAtEnd(c, Le32(v));
    assert ([Le32(v)] + rest)[1..] == rest;
  }

  lemma {:induction false} WriteItemsAppends(c: Content, items: seq<Item>)
    requires c.position == |c.bytes| && forall k | 0 <= k < |items| :: Writable(items[k])
    ensures WriteItems(c, items) == Content(c.bytes + WireAll(items), |c.bytes + WireAll(items)|)
    decreases |items|
  {
    hide WriteChunks, Chunks, Wire;
    if items == [] {
      assert c.bytes + [] == c.bytes;
    } else {
      WriteItemAppends(c, items[0]);
      var d := Content(c.bytes + Wire(items[0]), |c.bytes + Wire(items[0])|);
      WriteItemsAppends(d, items[1..]);
      assert c.bytes + Wire(items[0]) + WireAll(items[1..]) == c.bytes + WireAll(items);
    }
  }

  lemma ReadWordBack(b: seq<byte>, at: nat, v: i32)
    requires at + 4 <= |b| && b[at..at + 4] == Le32(v)
    ensures ReadWord(b, at) == v
  {
    var w := b[at..at + 4];
    assert w[0] == b[at] && w[1] == b[at + 1] && w[2] == b[at + 2] && w[3] == b[at + 3];
  }

  lemma {:induction false} ReadUnitsBack(b: seq<byte>, at: nat, units: seq<u16>)
    requires at + 2 * |units| <= |b| && b[at..at + 2 * |units|] == Le16All(units)
    ensures ReadUnits(b, at, |units|) == units
    decreases |units|
  {
    if units != [] {
      var w := b[at..at + 2 * |units|];
      assert w[0] == b[at] && w[1] == b[at + 1];
      assert b[at + 2..at + 2 + 2 * |units[1..]|] == w[2..] == Le16All(units[1..]);
      ReadUnitsBack(b, at + 2, units[1..]);
    }
  }

  lemma {:induction false} Le16Prefix(units: seq<u16>)
    ensures Le16All(units) <= Terminated(units)
  {
    if units == [] {
    } else {
      assert (units + [0])[1..] == units[1..] + [0];
      Le16Prefix(units[1..]);
    }
  }

  lemma ReadItemBack(b: seq<byte>, at: nat, item: Item)
    requires Writable(item) && at + |Wire(item)| <= |b| && b[at..at + |Wire(item)|] == Wire(item)
    ensures ReadItem(b, at, KindOf(item)) == Some((item, at + |Wire(item)|))
  {
    hide Le32, Terminated, ReadWord, AlignedLength;
    var w := b[at..at + |Wire(item)|];
    assert b[at..at + 4] == w[..4];
    match item
    case Int32(v) => ReadWordBack(b, at, v);
    case NullText => ReadWordBack(b, at, -1);
    case Text(units) =>
      ReadWordBack(b, at, |units|);
      Le16Prefix(units);
      AlignmentCoversUnlessItWraps(2 * (|units| + 1));
      var t := Pad(Terminated(units));
      assert w[4..] == t;
      var n := 2 * |units|;
      assert b[at + 4..at + 4 + n] == w[4..][..n];
      assert t[..2 * |units|] == Terminated(units)[..2 * |units|] == Le16All(units);
      ReadUnitsBack(b, at + 4, units);
  }

  lemma Front(b: seq<byte>, at: nat, w: seq<byte>, rest: seq<byte>)
    requires at <= |b| && b[at..] == w + rest
    ensures at + |w| <= |b| && b[at..at + |w|] == w && b[at + |w|..] == rest
  {
    assert b[at..at + |w|] == b[at..][..|w|];
    assert b[at + |w|..] == b[at..][|w|..];
  }

  lemma ReadItemsCons(b: seq<byte>, at: nat, kind: Kind, kinds: seq<Kind>, item: Item, next: nat, items: seq<Item>)
    requires ReadItem(b, at, kind) == Some((item, next)) && ReadItems(b, next, kinds) == Some(items)
    ensures ReadItems(b, at, [kind] + kinds) == Some([item] + items)
  {
    hide ReadItem;
    assert ([kind] + kinds)[1..] == kinds;
  }

  lemma FirstItem(items: seq<Item>)
    requires items != [] && forall k | 0 <= k < |items| :: Writable(items[k])
    ensures Writable(items[0]) && forall k | 0 <= k < |items[1..]| :: Writable(items[1..][k])
    ensures WireAll(items) == Wire(items[0]) + WireAll(items[1..])
    ensures Kinds(items) == [KindOf(items[0])] + Kinds(items[1..])
  {}

  lemma NoItems(b: seq<byte>, at: nat)
    requires at <= |b| && b[at..] == WireAll([])
    ensures ReadItems(b, at, Kinds([])) == Some([])
  {
    assert |b[at..]| == 0;
  }

  lemma {:induction false} ReadItemsBack(b: seq<byte>, at: nat, items: seq<Item>)
    requires forall k | 0 <= k < |items| :: Writable(items[k])
    requires at <= |b| && b[at..] == WireAll(items)
    ensures ReadItems(b, at, Kinds(items)) == Some(items)
    decreases |items|
  {
    hide Wire, WireAll, Kinds, KindOf, ReadItem, ReadItems, Writable;
    if items == [] {
      NoItems(b, at);
    } else {
      FirstItem(items);
      var rest := items[1..];
      var next := at + |Wire(items[0])|;
      Front(b, at, Wire(items[0]), WireAll(rest));
      ReadItemBack(b, at, items[0]);
      ReadItemsBack(b, next, rest);
      ReadItemsCons(b, at, KindOf(items[0]), Kinds(rest), items[0], next, rest);
      assert items == [items[0]] + rest;
    }
  }

  /** Whatever is written into an empty parcel is read back, knowing only the kinds. */
  lemma WrittenItemsReadBack(items: seq<Item>)
    requires forall k | 0 <= k < |items| :: Writable(items[k])
    ensures ReadItems(WriteItems(EMPTY, items).bytes, 0, Kinds(items)) == Some(items)
    ensures WriteItems(EMPTY, items).position == |WriteItems(EMPTY, items).bytes|
  {
    WriteItemsAppends(EMPTY, items);
    var b := WriteItems(EMPTY, items).bytes;
    assert b[0..] == b == WireAll(items);
    ReadItemsBack(b, 0, items);
  }

  /** Two lists of writes of the same kinds that leave the same bytes are the same list. */
  lemma WireIsUnique(a: seq<Item>, b: seq<Item>)
    requires forall k | 0 <= k < |a| :: Writable(a[k])
    requires forall k | 0 <= k < |b| :: Writable(b[k])
    requires Kinds(a) == Kinds(b) && WriteItems(EMPTY, a).bytes == WriteItems(EMPTY, b).bytes
    ensures a == b
  {
    WrittenItemsReadBack(a);
    WrittenItemsReadBack(b);
  }
}
