/** The UTF-8 to UTF-16 converter behind the legacy `strdup8to16` symbol
    (radio-compat/ril_compat.c), against the encodings of RFC 3629 section 3 and
    RFC 2781 section 2.1.

    A C string is the sequence of its bytes up to and including the terminating NUL, so the
    index checks below are the proof that nothing past the NUL is read.  The masks of the C code
    are written arithmetically: `(b & 0xe0) == 0xc0` is `b / 32 == 6`, `cp << 6 | low` is
    `cp * 64 + low`. */
module Utf {
  import opened Common

  ghost predicate CString(s: seq<byte>) {
    |s| > 0 && s[|s| - 1] == 0 && forall i | 0 <= i < |s| - 1 :: s[i] != 0
  }

  // ----- decoding one code point -----

  const REPLACEMENT: nat := 0xfffd

  datatype Decoded = Decoded(codepoint: nat, next: nat)

  /** Bits carried by a lead byte and the number of continuation bytes it announces. */
  datatype Lead = Ascii | Invalid | Multi(bits: nat, continuations: nat)

  function ClassifyLead(b: byte): Lead {
    if b < 0x80 then Ascii
    else if b / 32 == 6 then Multi(b % 32, 1)
    else if b / 16 == 14 then Multi(b % 16, 2)
    else if b / 8 == 30 then Multi(b % 8, 3)
    else Invalid
  }

  /** Folds `k` continuation bytes into `acc`; None when one of them is not a continuation byte. */
  function Continuations(s: seq<byte>, i: nat, acc: nat, k: nat): Option<nat>
    requires CString(s) && i < |s|
    decreases k
  {
    if k == 0 then Some(acc)
    else if s[i] == 0 || s[i] / 64 != 2 then None
    else Continuations(s, i + 1, acc * 64 + s[i] % 64, k - 1)
  }

  /** What the decoder returns at index `i`: a malformed sequence yields U+FFFD and consumes one byte. */
  function Decode(s: seq<byte>, i: nat): (d: Decoded)
    requires CString(s) && i < |s| - 1
    ensures i < d.next <= |s| - 1 && d.next <= i + 4
  {
    match ClassifyLead(s[i])
    case Ascii => Decoded(s[i], i + 1)
    case Invalid => Decoded(REPLACEMENT, i + 1)
    case Multi(bits, k) =>
      match Continuations(s, i + 1, bits, k)
      case None => Decoded(REPLACEMENT, i + 1)
      case Some(cp) =>
        ContinuationsInBounds(s, i + 1, bits, k);
        Decoded(cp, i + 1 + k)
  }

  lemma {:induction false} ContinuationsInBounds(s: seq<byte>, i: nat, acc: nat, k: nat)
    requires CString(s) && i < |s| && Continuations(s, i, acc, k).Some?
    ensures i + k <= |s| - 1
    decreases k
  {
    if k > 0 {
      ContinuationsInBounds(s, i + 1, acc * 64 + s[i] % 64, k - 1);
    }
  }

  /** The decoder, with its scanning loop. */
  method DecodeUtf8(s: seq<byte>, input: nat) returns (codepoint: nat, next: nat)
    requires CString(s) && input < |s| - 1
    ensures Decoded(codepoint, next) == Decode(s, input)
  {
    var first := s[input];
    if first < 0x80 {
      return first, input + 1;
    }
    var continuationCount;
    if first / 32 == 6 {
      codepoint, continuationCount := first % 32, 1;
    } else if first / 16 == 14 {
      codepoint, continuationCount := first % 16, 2;
    } else if first / 8 == 30 {
      codepoint, continuationCount := first % 8, 3;
    } else {
      return REPLACEMENT, input + 1;
    }
    ghost var bits := codepoint;
    for i := 0 to continuationCount
      invariant input + 1 + i < |s|
      invariant Continuations(s, input + 1, bits, continuationCount)
             == Continuations(s, input + 1 + i, codepoint, continuationCount - i)
    {
      var b := s[input + i + 1];
      if b == 0 || b / 64 != 2 {
        return REPLACEMENT, input + 1;
      }
      codepoint := codepoint * 64 + b % 64;
    }
    next := input + continuationCount + 1;
  }

  // ----- the two passes -----

  /** The code points met from index `i` on, before sanitizing. */
  function CodePoints(s: seq<byte>, i: nat): (cps: seq<nat>)
    requires CString(s) && i <= |s| - 1
    decreases |s| - i
  {
    if s[i] == 0 then []
    else
      var d := Decode(s, i);
      [d.codepoint] + CodePoints(s, d.next)
  }

  /** Units the first pass counts. */
  function Counted(cps: seq<nat>): nat {
    if cps == [] then 0 else (if cps[0] > 0xffff then 2 else 1) + Counted(cps[1..])
  }

  predicate Scalar(v: int) {
    0 <= v < 0xd800 || 0xe000 <= v <= 0x10ffff
  }

  /** Surrogates and values past U+10FFFF become U+FFFD in the second pass. */
  function Sanitize(cp: nat): nat {
    if Scalar(cp) then cp else REPLACEMENT
  }

  function SanitizeAll(cps: seq<nat>): (r: seq<nat>)
    ensures |r| == |cps| && forall i | 0 <= i < |r| :: r[i] == Sanitize(cps[i])
  {
    seq(|cps|, i requires 0 <= i < |cps| => Sanitize(cps[i]))
  }

  /** UTF-16 of a code point (RFC 2781 section 2.1). */
  function Utf16(v: nat): seq<nat> {
    if v > 0xffff then [0xd800 + (v - 0x10000) / 0x400, 0xdc00 + (v - 0x10000) % 0x400] else [v]
  }

  function Utf16All(vs: seq<nat>): seq<nat> {
    if vs == [] then [] else Utf16(vs[0]) + Utf16All(vs[1..])
  }

  /** Units the second pass writes for the whole string. */
  function Written(s: seq<byte>): seq<nat>
    requires CString(s)
  {
    Utf16All(SanitizeAll(CodePoints(s, 0)))
  }

  lemma {:induction false} Utf16AllAppend(vs: seq<nat>, v: nat)
    ensures Utf16All(vs + [v]) == Utf16All(vs) + Utf16(v)
  {
    if vs == [] {
      assert vs + [v] == [v];
      assert Utf16All([v]) == Utf16(v) + Utf16All([]);
    } else {
      assert (vs + [v])[1..] == vs[1..] + [v];
      Utf16AllAppend(vs[1..], v);
    }
  }

  lemma {:induction false} CountedAppend(cps: seq<nat>, cp: nat)
    ensures Counted(cps + [cp]) == Counted(cps) + if cp > 0xffff then 2 else 1
  {
    if cps == [] {
      assert cps + [cp] == [cp];
    } else {
      assert (cps + [cp])[1..] == cps[1..] + [cp];
      CountedAppend(cps[1..], cp);
    }
  }

  lemma SanitizeAppend(cps: seq<nat>, cp: nat)
    ensures SanitizeAll(cps + [cp]) == SanitizeAll(cps) + [Sanitize(cp)]
  {}

  /** The second pass never writes more units than the first pass counted, and it writes exactly
      as many when and only when no decoded value lies past U+10FFFF. */
  lemma {:induction false} WrittenAgainstCounted(cps: seq<nat>)
    ensures |Utf16All(SanitizeAll(cps))| <= Counted(cps)
    ensures |Utf16All(SanitizeAll(cps))| == Counted(cps) <==> forall i | 0 <= i < |cps| :: cps[i] <= 0x10ffff
  {
    if cps != [] {
      WrittenAgainstCounted(cps[1..]);
      assert SanitizeAll(cps)[1..] == SanitizeAll(cps[1..]);
      assert forall i | 0 < i < |cps| :: cps[i] == cps[1..][i - 1];
      assert forall i | 0 <= i < |cps[1..]| :: cps[1..][i] == cps[i + 1];
    }
  }

  /** The length returned is the counted one: four bytes past U+10FFFF give a two-unit length
      for one written unit. */
  lemma LengthOvercounts()
    ensures CString([0xf4, 0x90, 0x80, 0x80, 0])
    ensures CodePoints([0xf4, 0x90, 0x80, 0x80, 0], 0) == [0x110000]
    ensures Counted(CodePoints([0xf4, 0x90, 0x80, 0x80, 0], 0)) == 2
    ensures Written([0xf4, 0x90, 0x80, 0x80, 0]) == [0xfffd]
  {
    var s: seq<byte> := [0xf4, 0x90, 0x80, 0x80, 0];
    assert Continuations(s, 4, 0x110000, 0) == Some(0x110000);
    assert Continuations(s, 3, 0x4400, 1) == Some(0x110000);
    assert Continuations(s, 2, 0x110, 2) == Some(0x110000);
    assert Continuations(s, 1, 4, 3) == Some(0x110000);
    assert Decode(s, 0) == Decoded(0x110000, 4);
    assert CodePoints(s, 4) == [];
    assert CodePoints(s, 0) == [0x110000];
    assert Counted([0x110000][1..]) == 0;
    assert SanitizeAll([0x110000]) == [0xfffd];
    assert Utf16All([0xfffd][1..]) == [];
  }

  /** `strdup8to16`.  The output is a fresh array of the counted length plus one, holding the
      written units followed by zeros; null stands for a NULL source or a failed allocation. */
  method StrDup8To16(source: Option<seq<byte>>, allocates: bool) returns (output: array?<nat>, outLength: nat)
    requires source.Some? ==> CString(source.value)
    ensures output == null <==> source.None? || !allocates
    ensures output != null ==>
      var units := Written(source.value);
      && fresh(output)
      && outLength == Counted(CodePoints(source.value, 0))
      && output.Length == outLength + 1
      && |units| <= outLength
      && output[..|units|] == units
      && forall k | |units| <= k < output.Length :: output[k] == 0
  {
    output, outLength := null, 0;
    if source.None? {
      return;
    }
    var s := source.value;
    ghost var all := CodePoints(s, 0);
    ghost var seen: seq<nat> := [];
    var input := 0;
    while s[input] != 0
      invariant input <= |s| - 1
      invariant all == seen + CodePoints(s, input)
      invariant outLength == Counted(seen)
      decreases |s| - input
    {
      TakeOne(s, input, seen);
      var codepoint;
      codepoint, input := DecodeUtf8(s, input);
      CountedAppend(seen, codepoint);
      seen := seen + [codepoint];
      outLength := outLength + if codepoint > 0xffff then 2 else 1;
    }
    assert all == seen;
    if !allocates {
      return;
    }
    output := new nat[outLength + 1](_ => 0);
    WrittenAgainstCounted(all);
    WriteUnits(s, output);
  }

  lemma TakeOne(s: seq<byte>, input: nat, seen: seq<nat>)
    requires CString(s) && input < |s| && s[input] != 0
    ensures seen + CodePoints(s, input)
         == (seen + [Decode(s, input).codepoint]) + CodePoints(s, Decode(s, input).next)
  {}

  /** The second pass: fills a zeroed array that holds at least the counted units. */
  method WriteUnits(s: seq<byte>, output: array<nat>)
    requires CString(s) && output.Length > Counted(CodePoints(s, 0))
    requires forall k | 0 <= k < output.Length :: output[k] == 0
    modifies output
    ensures |Written(s)| < output.Length && output[..|Written(s)|] == Written(s)
    ensures forall k | |Written(s)| <= k < output.Length :: output[k] == 0
  {
    hide Decode, CodePoints, Counted, Sanitize, SanitizeAll, Utf16, Utf16All;
    NothingYet();
    ghost var all := CodePoints(s, 0);
    ghost var seen: seq<nat> := [];
    ghost var units: seq<nat> := [];
    var input, index := 0, 0;
    while s[input] != 0
      invariant input <= |s| - 1
      invariant all == seen + CodePoints(s, input)
      invariant units == Utf16All(SanitizeAll(seen))
      invariant index == |units| < output.Length
      invariant forall k | 0 <= k < index :: output[k] == units[k]
      invariant forall k | index <= k < output.Length :: output[k] == 0
      decreases |s| - input
    {
      TakeOne(s, input, seen);
      var codepoint;
      codepoint, input := DecodeUtf8(s, input);
      OneMoreFits(seen, codepoint, CodePoints(s, input));
      seen := seen + [codepoint];
      units := units + Utf16(Sanitize(codepoint));
      assert |units| < output.Length;
      index := WriteUnit(output, index, codepoint);
    }
    NoneLeft(s, input);
    assert all == seen;
  }

  lemma NothingYet()
    ensures Utf16All(SanitizeAll([])) == []
  {}

  lemma NoneLeft(s: seq<byte>, input: nat)
    requires CString(s) && input <= |s| - 1 && s[input] == 0
    ensures CodePoints(s, input) == []
  {}

  method WriteUnit(output: array<nat>, index: nat, cp: nat) returns (next: nat)
    requires index + |Utf16(Sanitize(cp))| <= output.Length
    modifies output
    ensures next == index + |Utf16(Sanitize(cp))|
    ensures forall k | 0 <= k < output.Length ::
      output[k] == if index <= k < next then Utf16(Sanitize(cp))[k - index] else old(output[k])
  {
    var codepoint := cp;
    if codepoint > 0x10ffff || 0xd800 <= codepoint <= 0xdfff {
      codepoint := 0xfffd;
    }
    if codepoint > 0xffff {
      codepoint := codepoint - 0x10000;
      output[index] := 0xd800 + codepoint / 0x400;
      output[index + 1] := 0xdc00 + codepoint % 0x400;
      next := index + 2;
    } else {
      output[index] := codepoint;
      next := index + 1;
    }
  }

  lemma OneMoreFits(done: seq<nat>, cp: nat, rest: seq<nat>)
    ensures var units := Utf16All(SanitizeAll(done)) + Utf16(Sanitize(cp));
      && units == Utf16All(SanitizeAll(done + [cp]))
      && |units| <= Counted((done + [cp]) + rest) == Counted(done + ([cp] + rest))
  {
    SanitizeAppend(done, cp);
    Utf16AllAppend(SanitizeAll(done), Sanitize(cp));
    UnitsFit(done + [cp], rest);
    assert (done + [cp]) + rest == done + ([cp] + rest);
  }

  /** What has been written after a prefix of the code points fits what was counted for all of them. */
  lemma {:induction false} UnitsFit(done: seq<nat>, rest: seq<nat>)
    ensures |Utf16All(SanitizeAll(done))| <= Counted(done + rest)
    decreases |rest|
  {
    if rest == [] {
      assert done + rest == done;
      WrittenAgainstCounted(done);
    } else {
      assert done + rest == (done + [rest[0]]) + rest[1..];
      UnitsFit(done + [rest[0]], rest[1..]);
      SanitizeAppend(done, rest[0]);
      Utf16AllAppend(SanitizeAll(done), Sanitize(rest[0]));
    }
  }

  // ----- no unpaired surrogate -----

  /** Reference reader of UTF-16; None on an unpaired surrogate. */
  function DecodeUtf16(units: seq<nat>): Option<seq<nat>> {
    if units == [] then Some([])
    else if Scalar(units[0]) && units[0] <= 0xffff then
      match DecodeUtf16(units[1..])
      case None => None
      case Some(rest) => Some([units[0]] + rest)
    else if |units| >= 2 && 0xd800 <= units[0] <= 0xdbff && 0xdc00 <= units[1] <= 0xdfff then
      match DecodeUtf16(units[2..])
      case None => None
      case Some(rest) => Some([0x10000 + (units[0] - 0xd800) * 0x400 + (units[1] - 0xdc00)] + rest)
    else None
  }

  lemma {:induction false} Utf16RoundTrip(vs: seq<nat>)
    requires forall i | 0 <= i < |vs| :: Scalar(vs[i])
    ensures DecodeUtf16(Utf16All(vs)) == Some(vs)
  {
    if vs != [] {
      Utf16RoundTrip(vs[1..]);
      var units := Utf16All(vs);
      assert vs == [vs[0]] + vs[1..];
      if vs[0] > 0xffff {
        assert units[2..] == Utf16All(vs[1..]);
        var w := vs[0] - 0x10000;
        assert units[0] == 0xd800 + w / 0x400 && units[1] == 0xdc00 + w % 0x400;
        assert 0 <= w / 0x400 <= 0x3ff;
      } else {
        assert units[1..] == Utf16All(vs[1..]);
      }
    }
  }

  /** Whatever the bytes, the output is well-formed UTF-16: reading it back gives the sanitized
      code points, so no surrogate is unpaired. */
  lemma OutputHasNoUnpairedSurrogate(s: seq<byte>)
    requires CString(s)
    ensures DecodeUtf16(Written(s)) == Some(SanitizeAll(CodePoints(s, 0)))
  {
    Utf16RoundTrip(SanitizeAll(CodePoints(s, 0)));
  }

  // ----- well-formed input -----

  /** UTF-8 of a scalar value (RFC 3629 section 3). */
  function Utf8(v: nat): seq<byte>
    requires v <= 0x10ffff
  {
    if v <= 0x7f then [v]
    else if v <= 0x7ff then [0xc0 + v / 64, 0x80 + v % 64]
    else if v <= 0xffff then [0xe0 + v / 4096, 0x80 + v / 64 % 64, 0x80 + v % 64]
    else [0xf0 + v / 262144, 0x80 + v / 4096 % 64, 0x80 + v / 64 % 64, 0x80 + v % 64]
  }

  ghost predicate Text(vs: seq<nat>) {
    forall i | 0 <= i < |vs| :: vs[i] != 0 && Scalar(vs[i])
  }

  function Utf8All(vs: seq<nat>): seq<byte>
    requires Text(vs)
  {
    if vs == [] then [] else Utf8(vs[0]) + Utf8All(vs[1..])
  }

  lemma {:induction false} Utf8AllIsCString(vs: seq<nat>)
    requires Text(vs)
    ensures CString(Utf8All(vs) + [0])
  {
    if vs != [] {
      Utf8AllIsCString(vs[1..]);
      var rest := Utf8All(vs[1..]);
      assert forall i | 0 <= i < |rest| :: rest[i] == (rest + [0])[i];
    }
  }

  /** How the six-bit groups of a value nest. */
  lemma SixBitGroups(v: nat)
    requires v <= 0x10ffff
    ensures v / 64 * 64 + v % 64 == v
    ensures v / 4096 * 64 + v / 64 % 64 == v / 64
    ensures v / 262144 * 64 + v / 4096 % 64 == v / 4096
  {}

  lemma LeadOfEncoding(v: nat)
    requires 0x80 <= v <= 0x10ffff
    ensures ClassifyLead(Utf8(v)[0])
         == if v <= 0x7ff then Multi(v / 64, 1) else if v <= 0xffff then Multi(v / 4096, 2) else Multi(v / 262144, 3)
  {}

  /** Reading `n` more groups of `v` completes it. */
  lemma ContinuationsComplete(s: seq<byte>, i: nat, v: nat, n: nat)
    requires CString(s) && v <= 0x10ffff && i + n < |s| && n <= 3
    requires n >= 1 ==> s[i + n - 1] == 0x80 + v % 64
    requires n >= 2 ==> s[i + n - 2] == 0x80 + v / 64 % 64
    requires n == 3 ==> s[i] == 0x80 + v / 4096 % 64
    ensures Continuations(s, i,
                          if n == 0 then v else if n == 1 then v / 64 else if n == 2 then v / 4096 else v / 262144, n)
         == Some(v)
    decreases n
  {
    SixBitGroups(v);
    if n >= 1 {
      ContinuationsComplete(s, i + 1, v, n - 1);
    }
  }

  lemma DecodeUtf8Encoded(s: seq<byte>, i: nat, v: nat)
    requires CString(s) && v != 0 && v <= 0x10ffff
    requires i + |Utf8(v)| < |s|
    requires forall k | 0 <= k < |Utf8(v)| :: s[i + k] == Utf8(v)[k]
    ensures Decode(s, i) == Decoded(v, i + |Utf8(v)|)
  {
    var e := Utf8(v);
    assert s[i] == s[i + 0] == e[0];
    if v > 0x7f {
      assert forall k | 1 <= k < |e| :: s[i + k] == e[k];
      assert s[i + |e| - 1] == s[i + (|e| - 1)] == e[|e| - 1];
      assert |e| >= 3 ==> s[i + |e| - 2] == s[i + (|e| - 2)] == e[|e| - 2];
      assert |e| == 4 ==> s[i + 1] == e[1];
      LeadOfEncoding(v);
      ContinuationsComplete(s, i + 1, v, |Utf8(v)| - 1);
    }
  }

  lemma {:induction false} CodePointsOfEncoding(s: seq<byte>, i: nat, vs: seq<nat>)
    requires CString(s) && Text(vs) && i <= |s| - 1
    requires s[i..] == Utf8All(vs) + [0]
    ensures CodePoints(s, i) == vs
    decreases |vs|
  {
    hide Utf8, Decode;
    if vs == [] {
      assert s[i] == s[i..][0] == 0;
    } else {
      EncodingStep(s, i, vs[0], Utf8All(vs[1..]));
      CodePointsOfEncoding(s, i + |Utf8(vs[0])|, vs[1..]);
    }
  }

  lemma EncodingStep(s: seq<byte>, i: nat, v: nat, rest: seq<byte>)
    requires CString(s) && v != 0 && v <= 0x10ffff && i <= |s|
    requires s[i..] == Utf8(v) + rest + [0]
    ensures i + |Utf8(v)| < |s| && Decode(s, i) == Decoded(v, i + |Utf8(v)|)
    ensures s[i] != 0
    ensures s[i + |Utf8(v)|..] == rest + [0]
  {
    var e := Utf8(v);
    Suffix(s, i, e, rest + [0]);
    assert e + rest + [0] == e + (rest + [0]);
    DecodeUtf8Encoded(s, i, v);
    assert s[i] == s[i + 0] == e[0];
  }

  lemma Suffix(s: seq<byte>, i: nat, e: seq<byte>, rest: seq<byte>)
    requires i <= |s| && s[i..] == e + rest
    ensures |s| == i + |e| + |rest|
    ensures forall k | 0 <= k < |e| :: s[i + k] == e[k]
    ensures s[i + |e|..] == rest
  {
    assert forall k | 0 <= k < |e| :: s[i + k] == s[i..][k];
    assert s[i + |e|..] == s[i..][|e|..];
  }

  /** On the UTF-8 encoding of any non-zero scalar values the converter returns exactly their
      UTF-16 encoding, and the length it reports is the number of units. */
  lemma ConvertsWellFormedText(vs: seq<nat>)
    requires Text(vs)
    ensures CString(Utf8All(vs) + [0])
    ensures Written(Utf8All(vs) + [0]) == Utf16All(vs)
    ensures Counted(CodePoints(Utf8All(vs) + [0], 0)) == |Utf16All(vs)|
  {
    Utf8AllIsCString(vs);
    var s := Utf8All(vs) + [0];
    assert s[0..] == s;
    CodePointsOfEncoding(s, 0, vs);
    assert SanitizeAll(vs) == vs;
    WrittenAgainstCounted(vs);
  }
}
