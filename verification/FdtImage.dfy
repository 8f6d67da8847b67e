/** Flattened device tree images (Devicetree Specification, sections 5.2, 5.4 and 5.5), and what
    the scanner, the root reader and the recovery-kernel assembly do on them. */
module FdtImage {
  import opened Common
  import opened Fdt

  /** A property value: its length fits one word. */
  type Blob = b: seq<byte> | |b| < 0x1_0000_0000

  /** The inside of a node, in structure-block order: properties, child nodes and padding NOPs. */
  datatype Items =
    | End
    | Nop(rest: Items)
    | Prop(name: seq<byte>, nameOff: u32, value: Blob, rest: Items)
    | Child(name: seq<byte>, inner: Items, rest: Items)

  /** A property name sits NUL-terminated at its offset of the strings block; names may share bytes. */
  ghost predicate NameIn(strings: seq<byte>, off: nat, name: seq<byte>) {
    && 0 !in name
    && off + |name| < |strings|
    && strings[off..off + |name|] == name
    && strings[off + |name|] == 0
  }

  ghost predicate WellFormed(items: Items, strings: seq<byte>) {
    match items
    case End => true
    case Nop(rest) => WellFormed(rest, strings)
    case Prop(name, off, value, rest) =>
      NameIn(strings, off, name) && WellFormed(rest, strings)
    case Child(name, inner, rest) => 0 !in name && WellFormed(inner, strings) && WellFormed(rest, strings)
  }

  /** The first property of that name directly inside a node. */
  function FirstMsmId(items: Items): Option<seq<byte>> {
    match items
    case End => None
    case Nop(rest) => FirstMsmId(rest)
    case Prop(name, _, value, rest) => if name == MSM_ID_PROPERTY then Some(value) else FirstMsmId(rest)
    case Child(_, _, rest) => FirstMsmId(rest)
  }

  // ----- the structure block -----

  /** A structure block is big-endian words and byte strings padded to four bytes. */
  datatype Block = Done | Word(v: u32, rest: Block) | Text(b: seq<byte>, rest: Block)

  /** The inside of a node, its END_NODE, and then `k`. */
  function Tokens(items: Items, k: Block): Block {
    match items
    case End => Word(FDT_END_NODE, k)
    case Nop(rest) => Word(FDT_NOP, Tokens(rest, k))
    case Prop(_, off, value, rest) =>
      Word(FDT_PROP, Word(|value|, Word(off, Text(value, Tokens(rest, k)))))
    case Child(name, inner, rest) =>
      Word(FDT_BEGIN_NODE, Text(name + [0], Tokens(inner, Tokens(rest, k))))
  }

  function StructBlock(rootName: seq<byte>, items: Items): Block {
    Word(FDT_BEGIN_NODE, Text(rootName + [0], Tokens(items, Word(FDT_END, Done))))
  }

  function Bytes(k: Block): seq<byte> {
    match k
    case Done => []
    case Word(v, rest) => PackU32(v) + Bytes(rest)
    case Text(b, rest) => Padded(b) + Bytes(rest)
  }

  function Padded(b: seq<byte>): (p: seq<byte>)
    ensures |p| == Align(|b|) && b <= p
  {
    b + seq(Align(|b|) - |b|, _ => 0)
  }

  // ----- blocks in memory -----

  /** Reading from `at` meets exactly the words and strings of the block, up to `end`. */
  ghost predicate Reads(dtb: seq<byte>, at: nat, k: Block, end: nat)
    decreases k
  {
    end <= |dtb| &&
    match k
    case Done => at == end
    case Word(v, rest) => at + 4 <= end && U32At(dtb, at) == v && Reads(dtb, at + 4, rest, end)
    case Text(b, rest) =>
      at + Align(|b|) <= end && dtb[at..at + |b|] == b && Reads(dtb, at + Align(|b|), rest, end)
  }

  lemma ReadsWord(dtb: seq<byte>, at: nat, v: u32, rest: Block, end: nat)
    requires Reads(dtb, at, Word(v, rest), end)
    ensures at + 4 <= end <= |dtb| && U32At(dtb, at) == v && Reads(dtb, at + 4, rest, end)
  {}

  lemma ReadsText(dtb: seq<byte>, at: nat, b: seq<byte>, rest: Block, end: nat)
    requires Reads(dtb, at, Text(b, rest), end)
    ensures at + Align(|b|) <= end <= |dtb| && dtb[at..at + |b|] == b && Reads(dtb, at + Align(|b|), rest, end)
  {}

  /** Laid out as bytes, a block reads back as itself. */
  lemma {:induction false} BytesReadBack(dtb: seq<byte>, at: nat, k: Block, end: nat)
    requires at <= end <= |dtb| && dtb[at..end] == Bytes(k)
    ensures Reads(dtb, at, k, end)
    decreases k
  {
    hide PackU32, U32At, Padded;
    match k
    case Done =>
    case Word(v, rest) =>
      Split(dtb, at, end, PackU32(v), Bytes(rest));
      UnpackPacked(v, dtb, at);
      BytesReadBack(dtb, at + 4, rest, end);
    case Text(b, rest) =>
      Split(dtb, at, end, Padded(b), Bytes(rest));
      assert dtb[at..at + |b|] == dtb[at..at + Align(|b|)][..|b|] == b;
      BytesReadBack(dtb, at + Align(|b|), rest, end);
  }

  lemma Split(dtb: seq<byte>, at: nat, end: nat, a: seq<byte>, b: seq<byte>)
    requires at <= end <= |dtb| && dtb[at..end] == a + b
    ensures at + |a| <= end && dtb[at..at + |a|] == a && dtb[at + |a|..end] == b
  {
    assert dtb[at..at + |a|] == dtb[at..end][..|a|];
    assert dtb[at + |a|..end] == dtb[at..end][|a|..];
  }

  /** A NUL-terminated name in memory, byte by byte. */
  ghost predicate NameAt(dtb: seq<byte>, at: nat, name: seq<byte>) {
    && at + |name| < |dtb|
    && (forall j | at <= j < at + |name| :: dtb[j] == name[j - at])
    && dtb[at + |name|] == 0
  }

  lemma NulAfter(dtb: seq<byte>, at: nat, name: seq<byte>, end: nat)
    requires 0 !in name && NameAt(dtb, at, name) && at + |name| < end
    ensures FindNul(dtb, at, end) == at + |name| && dtb[at..at + |name|] == name
  {
    assert forall j | at <= j < at + |name| :: dtb[j] == name[j - at] != 0;
  }

  // ----- one round of the token loop -----

  lemma TokenWord(dtb: seq<byte>, h: Header, at: nat, depth: int, v: u32, k: Block)
    requires v in {FDT_END_NODE, FDT_NOP, FDT_END}
    requires Reads(dtb, at, Word(v, k), h.offStruct + h.structSize)
    ensures at < h.offStruct + h.structSize && Reads(dtb, at + 4, k, h.offStruct + h.structSize)
    ensures Token(dtb, h, at, depth)
         == if v == FDT_END then Leave(Err(Missing)) else GoOn(at + 4, if v == FDT_NOP then depth else depth - 1)
  {
    hide Reads, U32At;
    ReadsWord(dtb, at, v, k, h.offStruct + h.structSize);
  }

  lemma TextIsName(dtb: seq<byte>, at: nat, name: seq<byte>)
    requires at + |name| + 1 <= |dtb| && dtb[at..at + |name| + 1] == name + [0]
    ensures NameAt(dtb, at, name)
  {
    var w := dtb[at..at + |name| + 1];
    assert forall j | at <= j <= at + |name| :: dtb[j] == w[j - at];
  }

  lemma AlignShift(at: nat, n: nat)
    requires at % 4 == 0
    ensures Align(at + n) == at + Align(n) && Align(n) >= n
  {}

  lemma TokenBegin(dtb: seq<byte>, h: Header, at: nat, depth: int, name: seq<byte>, k: Block)
    requires 0 !in name && at % 4 == 0
    requires Reads(dtb, at, Word(FDT_BEGIN_NODE, Text(name + [0], k)), h.offStruct + h.structSize)
    ensures at < h.offStruct + h.structSize
    ensures Token(dtb, h, at, depth) == GoOn(at + 4 + Align(|name| + 1), depth + 1)
    ensures Reads(dtb, at + 4 + Align(|name| + 1), k, h.offStruct + h.structSize)
  {
    hide Reads, U32At, FindNul, Property, NameAt, Align;
    AlignShift(at + 4, |name| + 1);
    ReadsWord(dtb, at, FDT_BEGIN_NODE, Text(name + [0], k), h.offStruct + h.structSize);
    ReadsText(dtb, at + 4, name + [0], k, h.offStruct + h.structSize);
    TextIsName(dtb, at + 4, name);
    NulAfter(dtb, at + 4, name, h.offStruct + h.structSize);
  }

  lemma TokenProp(dtb: seq<byte>, h: Header, at: nat, depth: int, strings: seq<byte>,
                  name: seq<byte>, off: u32, value: Blob, k: Block)
    requires StringsAt(dtb, h, strings) && NameIn(strings, off, name)
    requires at % 4 == 0
    requires Reads(dtb, at, Word(FDT_PROP, Word(|value|, Word(off, Text(value, k)))), h.offStruct + h.structSize)
    ensures at < h.offStruct + h.structSize
    ensures Reads(dtb, at + 12 + Align(|value|), k, h.offStruct + h.structSize)
    ensures Token(dtb, h, at, depth)
         == if depth == 1 && name == MSM_ID_PROPERTY then Leave(Ok(value)) else GoOn(at + 12 + Align(|value|), depth)
  {
    hide Reads, U32At, FindNul, Property, NameIn, StringsAt;
    PropFields(dtb, at, |value|, off, value, k, h.offStruct + h.structSize);
    NameFound(dtb, h, strings, off, name);
    PropertyOutcome(dtb, h, at + 12, off, depth, name, value);
  }

  lemma PropFields(dtb: seq<byte>, at: nat, length: u32, off: u32, value: Blob, k: Block, end: nat)
    requires Reads(dtb, at, Word(FDT_PROP, Word(length, Word(off, Text(value, k)))), end)
    ensures at + 12 + Align(|value|) <= end <= |dtb|
    ensures U32At(dtb, at) == FDT_PROP && U32At(dtb, at + 4) == length && U32At(dtb, at + 8) == off
    ensures dtb[at + 12..at + 12 + |value|] == value && Reads(dtb, at + 12 + Align(|value|), k, end)
  {
    hide Reads, U32At;
    ReadsWord(dtb, at, FDT_PROP, Word(length, Word(off, Text(value, k))), end);
    ReadsWord(dtb, at + 4, length, Word(off, Text(value, k)), end);
    ReadsWord(dtb, at + 8, off, Text(value, k), end);
    ReadsText(dtb, at + 12, value, k, end);
  }

  /** The strings block of an image. */
  ghost predicate StringsAt(dtb: seq<byte>, h: Header, strings: seq<byte>) {
    && h.stringsSize == |strings|
    && h.offStrings + |strings| <= |dtb|
    && dtb[h.offStrings..h.offStrings + |strings|] == strings
  }

  lemma NameInStrings(dtb: seq<byte>, h: Header, strings: seq<byte>, off: nat, name: seq<byte>)
    requires StringsAt(dtb, h, strings) && NameIn(strings, off, name)
    ensures NameAt(dtb, h.offStrings + off, name)
  {
    var s := h.offStrings;
    var block, window := dtb[s..s + |strings|], strings[off..off + |name|];
    assert forall j | s <= j < s + |strings| :: dtb[j] == block[j - s];
    assert forall j | off <= j < off + |name| :: strings[j] == window[j - off];
  }

  lemma NameBounds(dtb: seq<byte>, h: Header, strings: seq<byte>, off: nat, name: seq<byte>)
    requires StringsAt(dtb, h, strings) && NameIn(strings, off, name)
    ensures 0 !in name && h.offStrings + off + |name| < h.offStrings + h.stringsSize <= |dtb|
  {}

  lemma NameFound(dtb: seq<byte>, h: Header, strings: seq<byte>, off: nat, name: seq<byte>)
    requires StringsAt(dtb, h, strings) && NameIn(strings, off, name)
    ensures FindNul(dtb, h.offStrings + off, h.offStrings + h.stringsSize) == h.offStrings + off + |name|
    ensures h.offStrings + off + |name| <= |dtb| && dtb[h.offStrings + off..h.offStrings + off + |name|] == name
  {
    hide FindNul, StringsAt, NameIn, NameAt;
    NameBounds(dtb, h, strings, off, name);
    NameInStrings(dtb, h, strings, off, name);
    NulAfter(dtb, h.offStrings + off, name, h.offStrings + h.stringsSize);
  }

  lemma PropertyOutcome(dtb: seq<byte>, h: Header, data: nat, off: nat, depth: int, name: seq<byte>, value: Blob)
    requires data % 4 == 0 && data + Align(|value|) <= h.offStruct + h.structSize && off < h.stringsSize
    requires FindNul(dtb, h.offStrings + off, h.offStrings + h.stringsSize) == h.offStrings + off + |name|
    requires h.offStrings + off + |name| <= |dtb| && dtb[h.offStrings + off..h.offStrings + off + |name|] == name
    requires data + |value| <= |dtb| && dtb[data..data + |value|] == value
    ensures Property(dtb, h, data, |value|, off, depth)
         == if depth == 1 && name == MSM_ID_PROPERTY then Leave(Ok(value)) else GoOn(data + Align(|value|), depth)
  {
    hide Align, FindNul;
    AlignShift(data, |value|);
    assert SliceUpTo(dtb, data, |value|) == value;
  }

  // ----- the walk over a tree -----

  /** Where the inside of a node that starts at `at` ends. */
  function After(items: Items, at: nat): nat {
    match items
    case End => at + 4
    case Nop(rest) => After(rest, at + 4)
    case Prop(_, _, value, rest) => After(rest, at + 12 + Align(|value|))
    case Child(name, inner, rest) => After(rest, After(inner, at + 4 + Align(|name| + 1)))
  }

  lemma NextAligned(at: nat, n: nat)
    requires at % 4 == 0
    ensures (at + 4) % 4 == 0 && (at + 4 + Align(n)) % 4 == 0 && (at + 12 + Align(n)) % 4 == 0
  {
    assert at + 4 + Align(n) == 4 * (at / 4 + 1 + (n + 3) / 4);
    assert at + 12 + Align(n) == 4 * (at / 4 + 3 + (n + 3) / 4);
  }

  lemma {:induction false} AfterAligned(items: Items, at: nat)
    requires at % 4 == 0
    ensures After(items, at) % 4 == 0
  {
    hide Align;
    match items
    case End => NextAligned(at, 0);
    case Nop(rest) =>
      NextAligned(at, 0);
      AfterAligned(rest, at + 4);
    case Prop(_, _, value, rest) =>
      NextAligned(at, |value|);
      AfterAligned(rest, at + 12 + Align(|value|));
    case Child(name, inner, rest) =>
      NextAligned(at, |name| + 1);
      AfterAligned(inner, at + 4 + Align(|name| + 1));
      AfterAligned(rest, After(inner, at + 4 + Align(|name| + 1)));
  }

  /** Behind the inside of a node, the rest of the block follows. */
  lemma {:induction false} ReadsAfter(dtb: seq<byte>, at: nat, items: Items, k: Block, end: nat)
    requires Reads(dtb, at, Tokens(items, k), end)
    ensures Reads(dtb, After(items, at), k, end)
    decreases items
  {
    hide Reads;
    match items
    case End =>
      ReadsWord(dtb, at, FDT_END_NODE, k, end);
    case Nop(rest) =>
      ReadsWord(dtb, at, FDT_NOP, Tokens(rest, k), end);
      ReadsAfter(dtb, at + 4, rest, k, end);
    case Prop(_, off, value, rest) =>
      PropFields(dtb, at, |value|, off, value, Tokens(rest, k), end);
      ReadsAfter(dtb, at + 12 + Align(|value|), rest, k, end);
    case Child(name, inner, rest) =>
      ReadsWord(dtb, at, FDT_BEGIN_NODE, Text(name + [0], Tokens(inner, Tokens(rest, k))), end);
      ReadsText(dtb, at + 4, name + [0], Tokens(inner, Tokens(rest, k)), end);
      ReadsAfter(dtb, at + 4 + Align(|name| + 1), inner, Tokens(rest, k), end);
      ReadsAfter(dtb, After(inner, at + 4 + Align(|name| + 1)), rest, k, end);
  }

  /** Below the root, walking the inside of a node comes out one level up with nothing returned,
      whatever properties it holds; at the root it returns the first `qcom,msm-id` value, if any. */
  lemma {:induction false} WalkItems(dtb: seq<byte>, h: Header, at: nat, depth: nat, items: Items, k: Block,
                                     strings: seq<byte>)
    requires StringsAt(dtb, h, strings) && WellFormed(items, strings)
    requires at % 4 == 0 && depth >= 1
    requires Reads(dtb, at, Tokens(items, k), h.offStruct + h.structSize)
    ensures Walk(dtb, h, at, depth)
         == if depth == 1 && FirstMsmId(items).Some? then Ok(FirstMsmId(items).value)
            else Walk(dtb, h, After(items, at), depth - 1)
    decreases items
  {
    hide Token, NameIn, Reads, StringsAt;
    match items
    case End =>
      TokenWord(dtb, h, at, depth, FDT_END_NODE, k);
    case Nop(rest) =>
      TokenWord(dtb, h, at, depth, FDT_NOP, Tokens(rest, k));
      WalkItems(dtb, h, at + 4, depth, rest, k, strings);
    case Prop(name, off, value, rest) =>
      var next := at + 12 + Align(|value|);
      assert Reads(dtb, next, Tokens(rest, k), h.offStruct + h.structSize)
          && Walk(dtb, h, at, depth)
          == if depth == 1 && name == MSM_ID_PROPERTY then Ok(value) else Walk(dtb, h, next, depth) by {
        TokenProp(dtb, h, at, depth, strings, name, off, value, Tokens(rest, k));
      }
      WalkItems(dtb, h, next, depth, rest, k, strings);
    case Child(name, inner, rest) =>
      var inside := at + 4 + Align(|name| + 1);
      assert Reads(dtb, inside, Tokens(inner, Tokens(rest, k)), h.offStruct + h.structSize)
          && Walk(dtb, h, at, depth) == Walk(dtb, h, inside, depth + 1) by {
        TokenBegin(dtb, h, at, depth, name, Tokens(inner, Tokens(rest, k)));
      }
      WalkItems(dtb, h, inside, depth + 1, inner, Tokens(rest, k), strings);
      AfterAligned(inner, inside);
      ReadsAfter(dtb, inside, inner, Tokens(rest, k), h.offStruct + h.structSize);
      WalkItems(dtb, h, After(inner, inside), depth, rest, k, strings);
  }

  // ----- whole images -----

  /** A device tree: its root node and a strings block that holds its property names. */
  datatype Tree = Tree(rootName: seq<byte>, items: Items, strings: seq<byte>)

  /** `dtb` is an image of the tree: a valid header, the tree's structure block 4-aligned, and its
      strings block.  Where the blocks lie and what fills the gaps is free. */
  ghost predicate IsImage(dtb: seq<byte>, t: Tree) {
    && 0 !in t.rootName && WellFormed(t.items, t.strings)
    && ValidAt(dtb, 0)
    && var h := HeaderAt(dtb, 0);
    && h.total == |dtb|
    && h.offStruct % 4 == 0
    && dtb[h.offStruct..h.offStruct + h.structSize] == Bytes(StructBlock(t.rootName, t.items))
    && StringsAt(dtb, h, t.strings)
  }

  /** On an image of any device tree the reader returns exactly the root's first `qcom,msm-id`
      value, whatever properties descendants have, and reports it missing exactly when the root has none. */
  lemma RootIdOfImage(dtb: seq<byte>, t: Tree)
    requires IsImage(dtb, t)
    ensures RootId(dtb) == match FirstMsmId(t.items) case Some(v) => Ok(v) case None => Err(Missing)
  {
    var h := HeaderAt(dtb, 0);
    BytesReadBack(dtb, h.offStruct, StructBlock(t.rootName, t.items), h.offStruct + h.structSize);
    RootWalk(dtb, h, t);
  }

  lemma RootWalk(dtb: seq<byte>, h: Header, t: Tree)
    requires 0 !in t.rootName && WellFormed(t.items, t.strings) && StringsAt(dtb, h, t.strings)
    requires h.offStruct % 4 == 0
    requires Reads(dtb, h.offStruct, StructBlock(t.rootName, t.items), h.offStruct + h.structSize)
    ensures Walk(dtb, h, h.offStruct, 0) == match FirstMsmId(t.items) case Some(v) => Ok(v) case None => Err(Missing)
  {
    hide Token, NameIn, Reads, StringsAt;
    var last := Word(FDT_END, Done);
    var inside := h.offStruct + 4 + Align(|t.rootName| + 1);
    TokenBegin(dtb, h, h.offStruct, 0, t.rootName, Tokens(t.items, last));
    WalkItems(dtb, h, inside, 1, t.items, last, t.strings);
    ReadsAfter(dtb, inside, t.items, last, h.offStruct + h.structSize);
    TokenWord(dtb, h, After(t.items, inside), 0, FDT_END, Done);
  }
}
