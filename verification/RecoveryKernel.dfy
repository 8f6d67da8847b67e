/** The whole recovery-kernel step of releasetools/make_recovery_kernel.py: scan the kernel image,
    read each appended tree's id, and put the reference trees in their place. */
module RecoveryKernel {
  import opened Common
  import opened Fdt
  import opened FdtImage

  /** Outcomes of the script: no appended tree, an unreadable tree, an id without a reference file. */
  datatype Outcome = Written(bytes: seq<byte>) | NoTrees | Unreadable(error: Error) | NoReference(ident: seq<byte>)

  /** The reference directory maps an id (the file name is its hexadecimal form) to file contents. */
  type Directory = map<seq<byte>, seq<byte>>

  function Slice(image: seq<byte>, interval: (nat, nat)): seq<byte>
    requires interval.0 + interval.1 <= |image|
  {
    image[interval.0..interval.0 + interval.1]
  }

  /** The replacement bytes for a list of intervals, or the first failure. */
  function Replace(image: seq<byte>, offsets: seq<(nat, nat)>, dir: Directory): Outcome
    requires forall k | 0 <= k < |offsets| :: offsets[k].0 + offsets[k].1 <= |image|
  {
    if offsets == [] then Written([])
    else
      match RootId(Slice(image, offsets[0]))
      case Err(e) => Unreadable(e)
      case Ok(ident) =>
        if ident !in dir then NoReference(ident)
        else
          match Replace(image, offsets[1..], dir)
          case Written(rest) => Written(dir[ident] + rest)
          case failure => failure
  }

  lemma OffsetsInBounds(image: seq<byte>)
    ensures forall k | 0 <= k < |Scan(image, 0)| :: Scan(image, 0)[k].0 + Scan(image, 0)[k].1 <= |image|
  {
    forall k | 0 <= k < |Scan(image, 0)| ensures Scan(image, 0)[k].0 + Scan(image, 0)[k].1 <= |image| {
      ScanIsSound(image, 0, k, k);
    }
  }

  function Assemble(image: seq<byte>, dir: Directory): Outcome {
    OffsetsInBounds(image);
    var offsets := Scan(image, 0);
    if offsets == [] then NoTrees
    else
      match Replace(image, offsets, dir)
      case Written(rest) => Written(image[..offsets[0].0] + rest)
      case failure => failure
  }

  method MakeRecoveryKernel(image: seq<byte>, dir: Directory) returns (r: Outcome)
    ensures r == Assemble(image, dir)
  {
    hide RootId, Scan, HeaderAt, ValidAt;
    OffsetsInBounds(image);
    var offsets := FdtOffsets(image);
    if offsets == [] {
      return NoTrees;
    }
    var replacements := [];
    var i := 0;
    while i < |offsets|
      invariant 0 <= i <= |offsets|
      invariant Replace(image, offsets, dir)
             == match Replace(image, offsets[i..], dir)
                case Written(rest) => Written(replacements + rest)
                case failure => failure
    {
      var ident := RootMsmId(Slice(image, offsets[i]));
      assert offsets[i..][1..] == offsets[i + 1..];
      if ident.Err? {
        return Unreadable(ident.error);
      }
      if ident.value !in dir {
        return NoReference(ident.value);
      }
      replacements := replacements + dir[ident.value];
      i := i + 1;
    }
    return Written(image[..offsets[0].0] + replacements);
  }

  // ----- a kernel with appended trees -----

  function Concat(parts: seq<seq<byte>>): seq<byte> {
    if parts == [] then [] else parts[0] + Concat(parts[1..])
  }

  /** Where the parts lie when the first starts at `at`. */
  function Intervals(parts: seq<seq<byte>>, at: nat): seq<(nat, nat)> {
    if parts == [] then [] else [(at, |parts[0]|)] + Intervals(parts[1..], at + |parts[0]|)
  }

  ghost predicate Standalone(dtb: seq<byte>) {
    ValidAt(dtb, 0) && HeaderAt(dtb, 0).total == |dtb|
  }

  /** A valid image keeps its header wherever it is placed. */
  lemma HeaderMoves(image: seq<byte>, at: nat, dtb: seq<byte>, rest: seq<byte>)
    requires at <= |image| && image[at..] == dtb + rest && Standalone(dtb)
    ensures ValidAt(image, at) && HeaderAt(image, at).total == |dtb|
    ensures at + |dtb| <= |image| && image[at + |dtb|..] == rest && Slice(image, (at, |dtb|)) == dtb
  {
    var tail := image[at..];
    assert forall k | 0 <= k < |dtb| :: image[at + k] == tail[k] == dtb[k];
    assert image[at..at + 4] == dtb[0..4];
    assert image[at + |dtb|..] == tail[|dtb|..];
    assert image[at..at + |dtb|] == tail[..|dtb|];
    HeaderBytes(image, at, dtb);
  }

  lemma HeaderBytes(image: seq<byte>, at: nat, dtb: seq<byte>)
    requires |dtb| >= 40 && at + |dtb| <= |image|
    requires forall k | 0 <= k < |dtb| :: image[at + k] == dtb[k]
    ensures HeaderAt(image, at) == HeaderAt(dtb, 0)
  {
    assert U32At(image, at + 4) == U32At(dtb, 4) && U32At(image, at + 8) == U32At(dtb, 8);
    assert U32At(image, at + 12) == U32At(dtb, 12) && U32At(image, at + 32) == U32At(dtb, 32);
    assert U32At(image, at + 36) == U32At(dtb, 36);
  }

  lemma {:induction false} ScanOfAppended(image: seq<byte>, at: nat, dtbs: seq<seq<byte>>)
    requires at <= |image| && image[at..] == Concat(dtbs)
    requires forall k | 0 <= k < |dtbs| :: Standalone(dtbs[k])
    ensures Scan(image, at) == Intervals(dtbs, at)
    decreases |dtbs|
  {
    hide ValidAt, HeaderAt;
    if dtbs == [] {
      assert |image[at..]| == 0;
    } else {
      HeaderMoves(image, at, dtbs[0], Concat(dtbs[1..]));
      assert |dtbs[0]| > 0 by { StandaloneIsLong(dtbs[0]); }
      ScanOfAppended(image, at + |dtbs[0]|, dtbs[1..]);
    }
  }

  lemma StandaloneIsLong(dtb: seq<byte>)
    requires Standalone(dtb)
    ensures |dtb| >= 40
  {}

  /** The reference files of the trees' ids, in order. */
  function References(trees: seq<Tree>, dir: Directory): seq<byte>
    requires forall k | 0 <= k < |trees| :: FirstMsmId(trees[k].items).Some? && FirstMsmId(trees[k].items).value in dir
  {
    if trees == [] then [] else dir[FirstMsmId(trees[0].items).value] + References(trees[1..], dir)
  }

  lemma {:induction false} ReplaceAppended(image: seq<byte>, at: nat, dtbs: seq<seq<byte>>, trees: seq<Tree>,
                                           dir: Directory)
    requires at <= |image| && image[at..] == Concat(dtbs) && |dtbs| == |trees|
    requires forall k | 0 <= k < |dtbs| :: IsImage(dtbs[k], trees[k])
    requires forall k | 0 <= k < |trees| :: FirstMsmId(trees[k].items).Some? && FirstMsmId(trees[k].items).value in dir
    ensures forall k | 0 <= k < |Intervals(dtbs, at)| :: Intervals(dtbs, at)[k].0 + Intervals(dtbs, at)[k].1 <= |image|
    ensures Replace(image, Intervals(dtbs, at), dir) == Written(References(trees, dir))
    decreases |dtbs|
  {
    hide IsImage, RootId, HeaderAt, ValidAt;
    if dtbs != [] {
      ImageIsStandalone(dtbs[0], trees[0]);
      HeaderMoves(image, at, dtbs[0], Concat(dtbs[1..]));
      ReplaceAppended(image, at + |dtbs[0]|, dtbs[1..], trees[1..], dir);
      RootIdOfImage(dtbs[0], trees[0]);
      assert Intervals(dtbs, at)[1..] == Intervals(dtbs[1..], at + |dtbs[0]|);
    }
  }

  lemma ImageIsStandalone(dtb: seq<byte>, t: Tree)
    requires IsImage(dtb, t)
    ensures Standalone(dtb)
  {}

  /** End to end: for a kernel in which no offset passes the scanner's header checks, followed by
      images of any device trees whose root ids all have a reference, the script writes the kernel
      unchanged followed by exactly the references, in order. */
  lemma KernelIsPreservedAndTreesReplaced(kernel: seq<byte>, dtbs: seq<seq<byte>>, trees: seq<Tree>, dir: Directory)
    requires |dtbs| == |trees| > 0
    requires forall k | 0 <= k < |dtbs| :: IsImage(dtbs[k], trees[k])
    requires forall p | 0 <= p < |kernel| :: !ValidAt(kernel + Concat(dtbs), p)
    requires forall k | 0 <= k < |trees| :: FirstMsmId(trees[k].items).Some? && FirstMsmId(trees[k].items).value in dir
    ensures Assemble(kernel + Concat(dtbs), dir) == Written(kernel + References(trees, dir))
  {
    hide IsImage, ValidAt, HeaderAt, RootId;
    var image := kernel + Concat(dtbs);
    assert image[|kernel|..] == Concat(dtbs);
    ScanSkips(image, 0, |kernel|);
    forall k | 0 <= k < |dtbs| ensures Standalone(dtbs[k]) {
      ImageIsStandalone(dtbs[k], trees[k]);
    }
    ScanOfAppended(image, |kernel|, dtbs);
    ReplaceAppended(image, |kernel|, dtbs, trees, dir);
    assert image[..|kernel|] == kernel;
    OffsetsInBounds(image);
  }

  // ----- images exist -----

  /** A serializer: header, memory reservations, structure block, strings block. */
  function Serialize(t: Tree, reservations: seq<byte>): (dtb: seq<byte>)
    requires 40 + |reservations| + |Bytes(StructBlock(t.rootName, t.items))| + |t.strings| < 0x1_0000_0000
  {
    var block := Bytes(StructBlock(t.rootName, t.items));
    HeaderBytesOf(40 + |reservations| + |block| + |t.strings|, 40 + |reservations|,
                  40 + |reservations| + |block|, |t.strings|, |block|)
    + reservations + block + t.strings
  }

  /** The ten header words (section 5.2): version 17, compatible with 16, boot CPU 0. */
  function HeaderBytesOf(total: u32, offStruct: u32, offStrings: u32, stringsSize: u32, structSize: u32): (b: seq<byte>)
    ensures |b| == 40
  {
    PackU32(FDT_MAGIC) + PackU32(total) + PackU32(offStruct) + PackU32(offStrings) + PackU32(40)
    + PackU32(17) + PackU32(16) + PackU32(0) + PackU32(stringsSize) + PackU32(structSize)
  }

  lemma HeaderReadsBack(total: u32, offStruct: u32, offStrings: u32, stringsSize: u32, structSize: u32, rest: seq<byte>)
    ensures var dtb := HeaderBytesOf(total, offStruct, offStrings, stringsSize, structSize) + rest;
      MagicAt(dtb, 0) && HeaderAt(dtb, 0) == Header(total, offStruct, offStrings, stringsSize, structSize)
  {
    var dtb := HeaderBytesOf(total, offStruct, offStrings, stringsSize, structSize) + rest;
    hide PackU32, U32At;
    assert dtb[0..4] == PackU32(FDT_MAGIC);
    assert dtb[4..8] == PackU32(total);
    assert dtb[8..12] == PackU32(offStruct);
    assert dtb[12..16] == PackU32(offStrings);
    assert dtb[32..36] == PackU32(stringsSize);
    assert dtb[36..40] == PackU32(structSize);
    UnpackPacked(total, dtb, 4);
    UnpackPacked(offStruct, dtb, 8);
    UnpackPacked(offStrings, dtb, 12);
    UnpackPacked(stringsSize, dtb, 32);
    UnpackPacked(structSize, dtb, 36);
    PackedMagic();
  }

  lemma PackedMagic()
    ensures PackU32(FDT_MAGIC) == [0xD0, 0x0D, 0xFE, 0xED]
  {}

  /** Every well-formed tree with a non-empty strings block serializes to an image, so the
      statements above speak of something. */
  lemma SerializedIsImage(t: Tree, reservations: seq<byte>)
    requires 0 !in t.rootName && WellFormed(t.items, t.strings) && |t.strings| > 0 && |reservations| % 4 == 0
    requires 40 + |reservations| + |Bytes(StructBlock(t.rootName, t.items))| + |t.strings| < 0x1_0000_0000
    ensures IsImage(Serialize(t, reservations), t)
  {
    hide Bytes, StructBlock, WellFormed, HeaderAt, MagicAt, HeaderBytesOf;
    var block := Bytes(StructBlock(t.rootName, t.items));
    var dtb := Serialize(t, reservations);
    var header := HeaderBytesOf(40 + |reservations| + |block| + |t.strings|, 40 + |reservations|,
                                40 + |reservations| + |block|, |t.strings|, |block|);
    assert dtb == header + (reservations + block + t.strings);
    HeaderReadsBack(40 + |reservations| + |block| + |t.strings|, 40 + |reservations|,
                    40 + |reservations| + |block|, |t.strings|, |block|, reservations + block + t.strings);
    BlockIsNotEmpty(t.rootName, t.items);
    assert dtb[40 + |reservations|..40 + |reservations| + |block|] == block;
    assert dtb[40 + |reservations| + |block|..] == t.strings;
  }

  lemma BlockIsNotEmpty(rootName: seq<byte>, items: Items)
    ensures |Bytes(StructBlock(rootName, items))| >= 4
  {}
}
