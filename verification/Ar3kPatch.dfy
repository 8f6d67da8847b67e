/** The RAM patch download of bluetooth/libbt-vendor/src/hw_ar3k.c: a text patch is cut into HCI
    commands of at most 244 bytes. */
module Ar3kPatch {
  import opened Common
  import opened Ar3kPs

  const MAX_PATCH_CMD := 244

  const WRITE_PATCH: byte := 8
  const ENABLE_PATCH: byte := 11
  const SET_PATCH_RAM: byte := 0x0D

  // ----- commands -----

  /** `load_hci_ps_hdr`: opcode 0xFC0B in little endian, parameter length, then the patch header. */
  function Header(op: byte, len: nat, index: nat): (h: seq<byte>)
    ensures |h| == 7
  {
    [0x0B, 0xFC, (len + 4) % 0x100, op, index % 0x100, (index / 0x100) % 0x100, len % 0x100]
  }

  /** The commands that carry `data` in segments, the first numbered `index`. */
  function Segments(data: seq<byte>, index: nat): seq<seq<byte>>
    decreases |data|
  {
    if data == [] then []
    else
      var n := if |data| > MAX_PATCH_CMD then MAX_PATCH_CMD else |data|;
      [Header(WRITE_PATCH, n, index) + data[..n]] + Segments(data[n..], index + 1)
  }

  function Payloads(commands: seq<seq<byte>>): seq<byte>
    requires forall k | 0 <= k < |commands| :: |commands[k]| >= 7
  {
    if commands == [] then [] else commands[0][7..] + Payloads(commands[1..])
  }

  function SegmentCount(n: nat): nat {
    (n + 243) / 244
  }

  lemma {:induction false} SegmentsHaveHeaders(data: seq<byte>, index: nat)
    ensures |Segments(data, index)| == SegmentCount(|data|)
    ensures forall k | 0 <= k < |Segments(data, index)| :: |Segments(data, index)[k]| >= 7
    decreases |data|
  {
    if data != [] {
      var n := if |data| > MAX_PATCH_CMD then MAX_PATCH_CMD else |data|;
      SegmentsHaveHeaders(data[n..], index + 1);
    }
  }

  /** The payloads joined are the patch. */
  lemma {:induction false} PayloadsAreTheData(data: seq<byte>, index: nat)
    ensures (SegmentsHaveHeaders(data, index); Payloads(Segments(data, index)) == data)
    decreases |data|
  {
    SegmentsHaveHeaders(data, index);
    if data != [] {
      var n := if |data| > MAX_PATCH_CMD then MAX_PATCH_CMD else |data|;
      PayloadsAreTheData(data[n..], index + 1);
      var commands := Segments(data, index);
      assert commands[1..] == Segments(data[n..], index + 1);
      assert commands[0][7..] == data[..n];
    }
  }

  /** Where the part of command `k` ends. */
  function PartEnd(n: nat, k: nat): nat {
    if 244 * k + 244 <= n then 244 * k + 244 else n
  }

  lemma PartsShift(n: nat, k: nat)
    requires 0 < k < SegmentCount(n)
    ensures n > 244 && k - 1 < SegmentCount(n - 244) && PartEnd(n, k) == PartEnd(n - 244, k - 1) + 244
    ensures 244 * k < PartEnd(n, k) <= n && 244 * k == 244 * (k - 1) + 244
  {}

  /** Which part of the patch one command carries. */
  lemma {:induction false} SegmentAt(data: seq<byte>, index: nat, k: nat)
    requires k < SegmentCount(|data|)
    ensures |Segments(data, index)| == SegmentCount(|data|)
    ensures var from, to := 244 * k, PartEnd(|data|, k);
      from < to <= |data| && Segments(data, index)[k] == Header(WRITE_PATCH, to - from, index + k) + data[from..to]
    decreases |data|
  {
    hide Header, SegmentCount;
    SegmentsHaveHeaders(data, index);
    CountIsPositive(|data|);
    if k > 0 {
      PartsShift(|data|, k);
      hide PartEnd;
      var rest := data[244..];
      SegmentAt(rest, index + 1, k - 1);
      var to := PartEnd(|rest|, k - 1);
      assert rest[244 * (k - 1)..to] == data[244 * k..to + 244];
    }
  }

  lemma CountIsPositive(n: nat)
    ensures SegmentCount(n) > 0 <==> n > 0
  {}

  function HeaderLength(command: seq<byte>): nat
    requires |command| >= 7
  {
    command[6]
  }

  function HeaderIndex(command: seq<byte>): nat
    requires |command| >= 7
  {
    command[4] as int + 0x100 * command[5] as int
  }

  /** Headers tell the length of every payload, and its number exactly while that fits 16 bits. */
  lemma HeadersTell(data: seq<byte>, k: nat)
    requires k < SegmentCount(|data|)
    ensures |Segments(data, 0)| == SegmentCount(|data|) && |Segments(data, 0)[k]| >= 7
    ensures var command := Segments(data, 0)[k];
      && HeaderLength(command) == |command| - 7 && command[2] == |command| - 3 && command[3] == WRITE_PATCH
      && (HeaderIndex(command) == k <==> k < 0x1_0000)
  {
    hide Segments, SegmentCount;
    SegmentAt(data, 0, k);
    var command := Segments(data, 0)[k];
    var n := |command| - 7;
    assert command[2] == Header(WRITE_PATCH, n, k)[2] && command[3] == WRITE_PATCH;
    assert command[6] == Header(WRITE_PATCH, n, k)[6];
    assert command[4] == k % 0x100 && command[5] == (k / 0x100) % 0x100;
    TwoBytes(k);
  }

  lemma TwoBytes(k: nat)
    ensures k % 0x100 + 0x100 * ((k / 0x100) % 0x100) == k <==> k < 0x1_0000
  {
    assert k == k % 0x100 + 0x100 * (k / 0x100);
    if k < 0x1_0000 {
      assert k / 0x100 < 0x100;
    }
  }

  // ----- the text -----

  /** Two characters at a time, as fgets and strtoul give them; nothing when the text ends too soon. */
  function Decoded(rest: string, n: nat): Option<(seq<byte>, string)>
    decreases n
  {
    if n == 0 then Some(([], rest))
    else if rest == "" then None
    else
      var k := Taken(rest, 2);
      match Decoded(rest[k..], n - 1)
      case None => None
      case Some((data, after)) => Some(([StrToL(CString(rest[..k])) % 256] + data, after))
  }

  function Int32(v: int): (r: int)
    ensures -0x8000_0000 <= r < 0x8000_0000
  {
    var w := v % 0x1_0000_0000;
    if w < 0x8000_0000 then w else w - 0x1_0000_0000
  }

  predicate IsXDigit(c: char) {
    Digit(c) < 16
  }

  /** The command that sets the load address; nothing when the address text is too short, so that C
      would read characters it never wrote. */
  function RamCommand(line: string): Option<seq<byte>> {
    if |line| < 10 then None
    else Some(Header(SET_PATCH_RAM, 4, 0) + [StrToL(line[9..10]) % 256, StrToL(line[7..9]) % 256,
                                             StrToL(line[5..7]) % 256, StrToL(line[3..5]) % 256])
  }

  /** The four bytes of an address, lowest first. */
  function LittleEndian(a: nat): seq<byte> {
    [a % 0x100, a / 0x100 % 0x100, a / 0x100 / 0x100 % 0x100, a / 0x100 / 0x100 / 0x100 % 0x100]
  }

  predicate IsXDigits(s: string) {
    forall k | 0 <= k < |s| :: IsXDigit(s[k])
  }

  /** The address is copied with room for seven characters only, so the last of its eight digits is
      lost: the bytes sent are the little-endian address written in the line if and only if its last two
      digits are zero. */
  lemma AddressLosesItsLastDigit(line: string)
    requires |line| >= 11 && IsXDigits(line[3..11])
    ensures RamCommand(line).Some? && |RamCommand(line).value| == 11
    ensures RamCommand(line).value[7..] == LittleEndian(StrToL(line[3..11])) <==> line[9] == '0' == line[10]
  {
    hide StrToL, Digit, LittleEndian, RamCommand;
    SentAddress(line);
    WrittenAddress(line);
    assert forall k | 3 <= k < 11 :: line[k] == line[3..11][k - 3];
    DigitsRead(line[9..11]);
    ZeroDigits(line[9], line[10]);
    assert RamCommand(line).value[7..][0] == Digit(line[9]);
  }

  lemma SentAddress(line: string)
    requires |line| >= 11 && IsXDigits(line[3..11])
    ensures RamCommand(line).Some? && |RamCommand(line).value| == 11
    ensures RamCommand(line).value[7..]
         == [Digit(line[9]), StrToL(line[7..9]), StrToL(line[5..7]), StrToL(line[3..5])]
  {
    hide StrToL, Digit;
    assert forall k | 3 <= k < 11 :: line[k] == line[3..11][k - 3];
    DigitsRead(line[9..10]);
    DigitsRead(line[7..9]);
    DigitsRead(line[5..7]);
    DigitsRead(line[3..5]);
    SmallDigits(line[9..11]);
    SmallDigits(line[7..9]);
    SmallDigits(line[5..7]);
    SmallDigits(line[3..5]);
  }

  lemma WrittenAddress(line: string)
    requires |line| >= 11 && IsXDigits(line[3..11])
    ensures LittleEndian(StrToL(line[3..11]))
         == [StrToL(line[9..11]), StrToL(line[7..9]), StrToL(line[5..7]), StrToL(line[3..5])]
  {
    hide StrToL, LittleEndian;
    assert forall k | 3 <= k < 11 :: line[k] == line[3..11][k - 3];
    var a, b, c, d := line[3..5], line[5..7], line[7..9], line[9..11];
    assert line[3..11] == a + (b + (c + d));
    EightDigits(a, b, c, d);
    ByteOrder(StrToL(a), StrToL(b), StrToL(c), StrToL(d));
  }

  lemma ByteOrder(a: int, b: int, c: int, d: int)
    requires 0 <= a < 0x100 && 0 <= b < 0x100 && 0 <= c < 0x100 && 0 <= d < 0x100
    ensures LittleEndian(0x100_0000 * a + 0x1_0000 * b + 0x100 * c + d) == [d, c, b, a]
  {
    LowByte(0x1_0000 * a + 0x100 * b + c, d);
    LowByte(0x100 * a + b, c);
    LowByte(a, b);
    LowByte(0, a);
  }

  lemma LowByte(high: int, low: int)
    requires 0 <= high && 0 <= low < 0x100
    ensures (0x100 * high + low) % 0x100 == low && (0x100 * high + low) / 0x100 == high
  {}

  lemma AddPair(pair: string, rest: string, v: nat)
    requires |pair| == 2 && IsXDigits(pair)
    ensures Accumulate(pair + rest, v) == Accumulate(rest, 0x100 * v + 16 * Digit(pair[0]) + Digit(pair[1]))
  {
    var s := pair + rest;
    assert s[0] == pair[0] && s[1..][0] == pair[1] && s[1..][1..] == rest;
    assert Digit(pair[0]) < 16 && Digit(pair[1]) < 16;
    assert Accumulate(s, v) == Accumulate(s[1..], 16 * v + Digit(pair[0]));
    assert Accumulate(s[1..], 16 * v + Digit(pair[0]))
        == Accumulate(rest, 16 * (16 * v + Digit(pair[0])) + Digit(pair[1]));
  }

  lemma EightDigits(a: string, b: string, c: string, d: string)
    requires |a| == |b| == |c| == |d| == 2 && IsXDigits(a) && IsXDigits(b) && IsXDigits(c) && IsXDigits(d)
    ensures StrToL(a + (b + (c + d))) == 0x100_0000 * StrToL(a) + 0x1_0000 * StrToL(b) + 0x100 * StrToL(c) + StrToL(d)
    ensures 0 <= StrToL(a) < 0x100 && 0 <= StrToL(b) < 0x100 && 0 <= StrToL(c) < 0x100 && 0 <= StrToL(d) < 0x100
  {
    hide StrToL, Digit, Accumulate;
    DigitsRead(a);
    DigitsRead(b);
    DigitsRead(c);
    DigitsRead(d);
    SmallDigits(a);
    SmallDigits(b);
    SmallDigits(c);
    SmallDigits(d);
    var va, vb, vc, vd := StrToL(a), StrToL(b), StrToL(c), StrToL(d);
    AddPair(a, b + (c + d), 0);
    AddPair(b, c + d, va);
    AddPair(c, d, 0x100 * va + vb);
    AddPair(d, "", 0x1_0000 * va + 0x100 * vb + vc);
    assert d + "" == d;
    NoDigits(0x100_0000 * va + 0x1_0000 * vb + 0x100 * vc + vd);
    PlainNumber(a + (b + (c + d)));
  }

  lemma SmallDigits(s: string)
    requires |s| == 2 && IsXDigits(s)
    ensures IsXDigit(s[0]) && IsXDigit(s[1]) && Digit(s[0]) < 16 && Digit(s[1]) < 16
  {}

  lemma NoDigits(v: nat)
    ensures Accumulate("", v) == v
  {}

  /** A number that starts with two digits has neither blanks, nor a sign, nor a prefix. */
  lemma PlainNumber(s: string)
    requires |s| >= 2 && IsXDigit(s[0]) && IsXDigit(s[1]) && Accumulate(s, 0) < 0x8000_0000_0000_0000
    ensures StrToL(s) == Accumulate(s, 0)
  {
    assert SkipBlank(s) == s;
  }

  lemma ZeroDigits(a: char, b: char)
    requires IsXDigit(a) && IsXDigit(b)
    ensures Digit(a) == 16 * Digit(a) + Digit(b) <==> a == '0' == b
  {}

  lemma DigitsRead(s: string)
    requires 1 <= |s| <= 2 && forall k | 0 <= k < |s| :: IsXDigit(s[k])
    ensures StrToL(s) == if |s| == 1 then Digit(s[0]) else 16 * Digit(s[0]) + Digit(s[1])
  {
    assert Digit(s[0]) < 16 && SkipBlank(s) == s;
    assert Accumulate(s, 0) == Accumulate(s[1..], Digit(s[0]));
    if |s| == 2 {
      assert Digit(s[1]) < 16 && s[1..][0] == s[1] && s[1..][1..] == "";
      assert Accumulate(s[1..], Digit(s[0])) == Accumulate("", 16 * Digit(s[0]) + Digit(s[1]));
    } else {
      assert s[1..] == "";
    }
  }

  // ----- the download -----

  /** What the controller answers to its k-th command. */
  type Replies = nat -> bool

  datatype Outcome = Done(count: nat) | Failed | Undefined

  /** The line that gives the byte count, after address lines and blank lines. */
  datatype Found = Found(count: int, rest: string) | NotFound(outcome: Outcome)

  function FindCount(rest: string, last: Option<string>, replies: Replies, sent: seq<seq<byte>>): (Found,
                     seq<seq<byte>>)
    decreases |rest|
  {
    if rest == "" then
      ((match last case None => NotFound(Undefined) case Some(line) => Found(Int32(StrToL(line)), "")), sent)
    else
      var n := Taken(rest, MAX_PATCH_CMD - 1);
      var line, after := CString(rest[..n]), rest[n..];
      if |line| <= 1 then FindCount(after, Some(line), replies, sent)
      else if "DA:" <= line then
        match RamCommand(line)
        case None => (NotFound(Undefined), sent)
        case Some(command) =>
          if replies(|sent|) then FindCount(after, Some(line), replies, sent + [command])
          else (NotFound(Failed), sent + [command])
      else if IsXDigit(line[0]) then (Found(Int32(StrToL(line)), after), sent)
      else (NotFound(Failed), sent)
  }

  /** `ps_patch_download`: the outcome, and the commands the controller has got. */
  function Download(stream: string, replies: Replies, sent: seq<seq<byte>>): (Outcome, seq<seq<byte>>) {
    var (found, sent1) := FindCount(stream, None, replies, sent);
    match found
    case NotFound(outcome) => (outcome, sent1)
    case Found(count, rest) => SendPatch(count, rest, 0, replies, sent1)
  }

  /** Segment by segment: decode, send, and stop at the first refusal or at the end of the text. */
  function SendPatch(count: int, rest: string, index: nat, replies: Replies, sent: seq<seq<byte>>): (Outcome,
                     seq<seq<byte>>)
    decreases if count > 0 then count else 0
  {
    if count <= 0 then
      (if replies(|sent|) then Done(index) else Failed, sent + [Header(ENABLE_PATCH, 0, 0)])
    else
      var n := if count > MAX_PATCH_CMD then MAX_PATCH_CMD else count;
      match Decoded(rest, n)
      case None => (Failed, sent)
      case Some((data, after)) =>
        var sent1 := sent + [Header(WRITE_PATCH, n, index) + data];
        if replies(|sent|) then SendPatch(count - MAX_PATCH_CMD, after, index + 1, replies, sent1) else (Failed, sent1)
  }

  lemma {:induction false} DecodedLength(rest: string, n: nat)
    ensures Decoded(rest, n).Some? ==> |Decoded(rest, n).value.0| == n
    decreases n
  {
    if n > 0 && rest != "" {
      DecodedLength(rest[Taken(rest, 2)..], n - 1);
    }
  }

  /** What was decoded before, put in front. */
  function Prefixed(data: seq<byte>, more: Option<(seq<byte>, string)>): Option<(seq<byte>, string)> {
    if more == None then None else Some((data + more.value.0, more.value.1))
  }

  lemma PrefixedMore(data: seq<byte>, more: seq<byte>, rest: Option<(seq<byte>, string)>)
    ensures Prefixed(data, Prefixed(more, rest)) == Prefixed(data + more, rest)
    ensures Prefixed([], rest) == rest
  {
    if rest.Some? {
      assert data + (more + rest.value.0) == data + more + rest.value.0;
      assert [] + rest.value.0 == rest.value.0;
    }
  }

  lemma DecodedFirst(rest: string, n: nat)
    requires rest != "" && n > 0
    ensures Decoded(rest, n) == Prefixed([ByteIn(rest)], Decoded(rest[Taken(rest, 2)..], n - 1))
  {}

  /** The byte of the next two characters. */
  function ByteIn(rest: string): byte
    requires rest != ""
  {
    StrToL(CString(rest[..Taken(rest, 2)])) % 256
  }

  /** Decoding in two goes. */
  lemma {:induction false} DecodedSplits(rest: string, a: nat, b: nat)
    ensures Decoded(rest, a + b) ==
      if Decoded(rest, a) == None then None
      else Prefixed(Decoded(rest, a).value.0, Decoded(Decoded(rest, a).value.1, b))
    decreases a
  {
    if a == 0 {
      PrefixedMore([], [], Decoded(rest, b));
    } else if rest != "" {
      hide Decoded, Taken, ByteIn, Prefixed;
      var after := rest[Taken(rest, 2)..];
      DecodedFirst(rest, a + b);
      DecodedFirst(rest, a);
      DecodedSplits(after, a - 1, b);
      PrefixedNone([ByteIn(rest)], Decoded(after, a - 1));
      if Decoded(after, a - 1).Some? {
        var first := Decoded(after, a - 1).value;
        PrefixedMore([ByteIn(rest)], first.0, Decoded(first.1, b));
      }
    }
  }

  lemma PrefixedNone(data: seq<byte>, more: Option<(seq<byte>, string)>)
    ensures Prefixed(data, None) == None
    ensures more.Some? ==> Prefixed(data, more) == Some((data + more.value.0, more.value.1))
  {}

  /** Every one of the next `n` commands is accepted. */
  ghost predicate AllAccepted(replies: Replies, from: nat, n: nat) {
    forall k: nat | from <= k < from + n :: replies(k)
  }

  /** What a patch of `n` bytes, decoded to `text`, should come to. */
  ghost predicate Carried(result: (Outcome, seq<seq<byte>>), text: Option<(seq<byte>, string)>, n: nat, index: nat,
                          replies: Replies, sent: seq<seq<byte>>) {
    && (result.0.Done? <==> (text.Some? && AllAccepted(replies, |sent|, SegmentCount(n) + 1)))
    && (result.0.Done? ==>
          (result.0.count == index + SegmentCount(n)
           && result.1 == sent + Segments(text.value.0, index) + [Header(ENABLE_PATCH, 0, 0)]))
  }

  lemma CarriedFirst(result: (Outcome, seq<seq<byte>>), data: seq<byte>, more: Option<(seq<byte>, string)>, n: nat,
                     index: nat,
                     replies: Replies, sent: seq<seq<byte>>)
    requires 0 < |data| <= MAX_PATCH_CMD && (n > 0 ==> |data| == MAX_PATCH_CMD) && (more.Some? ==> |more.value.0| == n)
    requires replies(|sent|)
    requires Carried(result, more, n, index + 1, replies, sent + [Header(WRITE_PATCH, |data|, index) + data])
    ensures Carried(result, Prefixed(data, more), |data| + n, index, replies, sent)
  {
    hide Header, Segments;
    AcceptedFirst(replies, |sent|, SegmentCount(n) + 1);
    assert SegmentCount(|data| + n) == SegmentCount(n) + 1;
    if more.Some? {
      SegmentsFirst(data, more.value.0, index);
      var command := [Header(WRITE_PATCH, |data|, index) + data];
      var tail := Segments(more.value.0, index + 1);
      assert sent + command + tail == sent + (command + tail);
    }
  }

  /** The patch goes through exactly when the text holds `count` bytes and every command, the enabling
      one included, is accepted; then the controller has got the segments of the decoded text. */
  lemma {:induction false} PatchSent(count: int, rest: string, index: nat, replies: Replies, sent: seq<seq<byte>>)
    ensures var n := if count > 0 then count else 0;
      Carried(SendPatch(count, rest, index, replies, sent), Decoded(rest, n), n, index, replies, sent)
    decreases if count > 0 then count else 0
  {
    hide Header, Decoded, Carried;
    if count <= 0 {
      NothingToCarry(SendPatch(count, rest, index, replies, sent), rest, index, replies, sent);
    } else {
      var n := if count > MAX_PATCH_CMD then MAX_PATCH_CMD else count;
      var more := count - n;
      DecodedSplits(rest, n, more);
      DecodedLength(rest, n);
      var result := SendPatch(count, rest, index, replies, sent);
      if Decoded(rest, n).Some? {
        var (data, after) := Decoded(rest, n).value;
        if replies(|sent|) {
          PatchSent(count - MAX_PATCH_CMD, after, index + 1, replies, sent + [Header(WRITE_PATCH, n, index) + data]);
          DecodedLength(after, more);
          CarriedFirst(result, data, Decoded(after, more), more, index, replies, sent);
        } else {
          NotCarried(result, Decoded(rest, count), count, index, replies, sent);
        }
      } else {
        NotCarried(result, Decoded(rest, count), count, index, replies, sent);
      }
    }
  }

  lemma NothingToCarry(result: (Outcome, seq<seq<byte>>), rest: string, index: nat, replies: Replies,
                       sent: seq<seq<byte>>)
    requires result == (if replies(|sent|) then Done(index) else Failed, sent + [Header(ENABLE_PATCH, 0, 0)])
    ensures Carried(result, Decoded(rest, 0), 0, index, replies, sent)
  {
    assert sent + [] == sent && SegmentCount(0) == 0;
    AcceptedFirst(replies, |sent|, 0);
    assert Segments([], index) == [];
  }

  lemma NotCarried(result: (Outcome, seq<seq<byte>>), text: Option<(seq<byte>, string)>, n: nat, index: nat,
                   replies: Replies, sent: seq<seq<byte>>)
    requires result.0 == Failed && (text == None || !replies(|sent|))
    ensures Carried(result, text, n, index, replies, sent)
  {
    AcceptedFirst(replies, |sent|, SegmentCount(n));
  }

  lemma AcceptedFirst(replies: Replies, from: nat, n: nat)
    ensures AllAccepted(replies, from, n + 1) <==> replies(from) && AllAccepted(replies, from + 1, n)
  {}

  lemma SegmentsFirst(data: seq<byte>, rest: seq<byte>, index: nat)
    requires 0 < |data| <= MAX_PATCH_CMD && (rest != [] ==> |data| == MAX_PATCH_CMD)
    ensures Segments(data + rest, index) == [Header(WRITE_PATCH, |data|, index) + data] + Segments(rest, index + 1)
  {
    assert (data + rest)[..|data|] == data && (data + rest)[|data|..] == rest;
  }

  /** Before the byte count only address commands are sent. */
  lemma {:induction false} FindCountSends(rest: string, last: Option<string>, replies: Replies, sent: seq<seq<byte>>)
    ensures var (found, sent1) := FindCount(rest, last, replies, sent);
      && (found.NotFound? ==> !found.outcome.Done?)
      && sent <= sent1 && forall k | |sent| <= k < |sent1| :: |sent1[k]| == 11 && sent1[k][3] == SET_PATCH_RAM
    decreases |rest|
  {
    hide Taken, CString, StrToL;
    if rest != "" {
      var n := Taken(rest, MAX_PATCH_CMD - 1);
      var line, after := CString(rest[..n]), rest[n..];
      if |line| <= 1 {
        FindCountSends(after, Some(line), replies, sent);
      } else if "DA:" <= line && RamCommand(line).Some? {
        FindCountSends(after, Some(line), replies, sent + [RamCommand(line).value]);
      }
    }
  }

  /** A successful download: after the address commands come `ceil(n / 244)` segments of the decoded
      text, then the enabling command. */
  lemma DownloadSends(stream: string, replies: Replies)
    requires Download(stream, replies, []).0.Done?
    ensures var (outcome, sent) := Download(stream, replies, []);
      var (found, addresses) := FindCount(stream, None, replies, []);
      && found.Found?
      && var n := if found.count > 0 then found.count else 0;
      && Decoded(found.rest, n).Some? && outcome.count == SegmentCount(n)
      && sent == addresses + Segments(Decoded(found.rest, n).value.0, 0) + [Header(ENABLE_PATCH, 0, 0)]
  {
    hide SendPatch, FindCount, Decoded, Segments;
    FindCountSends(stream, None, replies, []);
    var (found, addresses) := FindCount(stream, None, replies, []);
    PatchSent(found.count, found.rest, 0, replies, addresses);
  }

  // ----- ps_patch_download itself -----

  /** The HCI transport: commands are answered in order, and it keeps what was sent. */
  class Controller {
    const replies: Replies
    var sent: seq<seq<byte>>

    constructor (replies: Replies)
      ensures this.replies == replies && sent == []
    {
      this.replies := replies;
      sent := [];
    }

    method Send(command: seq<byte>) returns (ok: bool)
      modifies this
      ensures sent == old(sent) + [command] && ok == replies(|old(sent)|)
    {
      ok := replies(|sent|);
      sent := sent + [command];
    }

    /** The first loop: address lines up to the byte count. */
    method ReadCount(stream: string) returns (found: Found)
      modifies this
      ensures (found, sent) == FindCount(stream, None, replies, old(sent))
    {
      hide Taken, CString, StrToL, Header;
      var rest, last := stream, None;
      while rest != ""
        invariant FindCount(stream, None, replies, old(sent)) == FindCount(rest, last, replies, sent)
        decreases |rest|
      {
        var n := Taken(rest, MAX_PATCH_CMD - 1);
        var line := CString(rest[..n]);
        rest := rest[n..];
        if |line| > 1 {
          if "DA:" <= line {
            var command := RamCommand(line);
            if command == None {
              return NotFound(Undefined);
            }
            var ok := Send(command.value);
            if !ok {
              return NotFound(Failed);
            }
          } else if IsXDigit(line[0]) {
            return Found(Int32(StrToL(line)), rest);
          } else {
            return NotFound(Failed);
          }
        }
        last := Some(line);
      }
      found := if last == None then NotFound(Undefined) else Found(Int32(StrToL(last.value)), "");
    }

    /** The bytes of one segment. */
    method ReadSegment(rest: string, n: nat) returns (data: seq<byte>, after: string, ok: bool)
      ensures Decoded(rest, n) == if ok then Some((data, after)) else None
    {
      hide Taken, CString, StrToL;
      data, after, ok := [], rest, true;
      PrefixedMore([], [], Decoded(rest, n));
      for i := 0 to n
        invariant |data| == i
        invariant Decoded(rest, n) == Prefixed(data, Decoded(after, n - i))
      {
        if after == "" {
          return data, after, false;
        }
        var k := Taken(after, 2);
        var b: byte := StrToL(CString(after[..k])) % 256;
        DecodedFirst(after, n - i);
        PrefixedMore(data, [b], Decoded(after[k..], n - i - 1));
        data, after := data + [b], after[k..];
      }
      assert data + [] == data;
    }

    /** `ps_patch_download`. */
    method PsPatchDownload(stream: string) returns (outcome: Outcome)
      modifies this
      ensures (outcome, sent) == Download(stream, replies, old(sent))
    {
      hide Decoded, Header, FindCount;
      var found := ReadCount(stream);
      if found.NotFound? {
        return found.outcome;
      }
      var byteCount, rest, patchCount := found.count, found.rest, 0;
      ghost var addresses := sent;
      while byteCount > 0
        invariant SendPatch(found.count, found.rest, 0, replies, addresses)
               == SendPatch(byteCount, rest, patchCount, replies, sent)
      {
        var n := if byteCount > MAX_PATCH_CMD then MAX_PATCH_CMD else byteCount;
        var data, after, ok := ReadSegment(rest, n);
        if !ok {
          return Failed;
        }
        var accepted := Send(Header(WRITE_PATCH, n, patchCount) + data);
        if !accepted {
          return Failed;
        }
        rest, patchCount, byteCount := after, patchCount + 1, byteCount - MAX_PATCH_CMD;
      }
      var enabled := Send(Header(ENABLE_PATCH, 0, 0));
      outcome := if enabled then Done(patchCount) else Failed;
    }
  }
}
