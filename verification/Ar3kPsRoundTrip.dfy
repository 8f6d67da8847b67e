/** Reading back a printed persistent-storage file: the inverse of a printer, for arbitrary comment
    lines, and exactly when it is one. */
module Ar3kPsRoundTrip {
  import opened Common
  import opened Ar3kPs

  // ----- the printer -----

  function DigitChar(d: nat): (c: char)
    requires d < 16
    ensures Digit(c) == d
  {
    if d < 10 then ('0' as int + d) as char else ('A' as int + d - 10) as char
  }

  function Pow16(w: nat): nat {
    if w == 0 then 1 else 16 * Pow16(w - 1)
  }

  function Hex(v: nat, w: nat): (s: string)
    ensures |s| == w && forall k | 0 <= k < w :: Digit(s[k]) < 16
  {
    if w == 0 then "" else Hex(v / 16, w - 1) + [DigitChar(v % 16)]
  }

  /** Bytes of one data line, separated by spaces. */
  function DataText(bytes: seq<byte>): string {
    if |bytes| <= 1 then (if bytes == [] then "" else Hex(bytes[0], 2))
    else Hex(bytes[0], 2) + " " + DataText(bytes[1..])
  }

  function DataLines(bytes: seq<byte>): seq<string> {
    if |bytes| <= ENTRY_PER_LINE then [DataText(bytes)]
    else [DataText(bytes[..ENTRY_PER_LINE])] + DataLines(bytes[ENTRY_PER_LINE..])
  }

  predicate Printable(e: Entry) {
    e.len == |e.data| && 0 < |e.data| <= PS_MAX_LEN
  }

  function EntryLines(e: Entry): seq<string> {
    ["#", "[S]" + Hex(e.id, 8), "[S]" + Hex(|e.data|, 4)] + DataLines(e.data)
  }

  function Printed(entries: seq<Entry>): seq<string> {
    if entries == [] then [] else EntryLines(entries[0]) + Printed(entries[1..])
  }

  function Join(lines: seq<string>): string {
    if lines == [] then "" else lines[0] + "\n" + Join(lines[1..])
  }

  /** The lines that are not comments. */
  function Significant(lines: seq<string>): seq<string> {
    if lines == [] then []
    else (if IsComment(SkipSpace(lines[0] + "\n")) then [] else [lines[0]]) + Significant(lines[1..])
  }

  /** A line that one fgets call reads whole. */
  predicate Fits(line: string) {
    |line| < LINE_MAX && '\n' !in line && '\0' !in line
  }

  predicate Even(e: Entry) {
    |e.data| % 2 == 0
  }

  // ----- lines of a stream -----

  function Fold(lines: seq<string>, st: State): Turn
    decreases |lines|
  {
    if lines == [] then Go(st)
    else
      match Line(st, lines[0] + "\n")
      case Halt(outcome) => Halt(outcome)
      case Go(next) => Fold(lines[1..], next)
  }

  /** A turn followed by more lines. */
  function Then(turn: Turn, lines: seq<string>): Turn {
    if turn.Halt? then turn else Fold(lines, turn.state)
  }

  function Outcomes(turn: Turn): Outcome {
    match turn
    case Go(st) => Parsed(st.done)
    case Halt(outcome) => outcome
  }

  lemma {:induction false} TakesTheLine(line: string, rest: string, max: nat)
    requires |line| < max && '\n' !in line
    ensures Taken(line + "\n" + rest, max) == |line| + 1
  {
    var s := line + "\n" + rest;
    if line != "" {
      assert s[1..] == line[1..] + "\n" + rest;
      TakesTheLine(line[1..], rest, max - 1);
    }
  }

  lemma {:induction false} CStringOf(s: string)
    requires '\0' !in s
    ensures CString(s) == s
  {
    if s != "" {
      CStringOf(s[1..]);
    }
  }

  lemma {:induction false} ParsesByLines(lines: seq<string>, st: State)
    requires forall k | 0 <= k < |lines| :: Fits(lines[k])
    ensures Parse(Join(lines), st) == Outcomes(Fold(lines, st))
    decreases |lines|
  {
    hide Line, CString, Taken;
    if lines != [] {
      var line, rest := lines[0], Join(lines[1..]);
      assert Fits(line);
      TakesTheLine(line, rest, LINE_MAX);
      var text := line + "\n";
      CStringOf(text);
      assert Join(lines) == text + rest && (text + rest)[..|text|] == text && (text + rest)[|text|..] == rest;
      match Line(st, text)
      case Halt(_) =>
      case Go(next) => ParsesByLines(lines[1..], next);
    }
  }

  lemma {:induction false} CommentsAreSkipped(lines: seq<string>, st: State)
    ensures Fold(lines, st) == Fold(Significant(lines), st)
    decreases |lines|
  {
    hide IdLine, LenLine, DataLine, SkipSpace;
    if lines != [] {
      var sig := Significant(lines);
      if IsComment(SkipSpace(lines[0] + "\n")) {
        assert sig == Significant(lines[1..]);
        CommentsAreSkipped(lines[1..], st);
      } else {
        assert sig[0] == lines[0] && sig[1..] == Significant(lines[1..]);
        match Line(st, lines[0] + "\n")
        case Halt(_) =>
        case Go(next) => CommentsAreSkipped(lines[1..], next);
      }
    }
  }

  lemma {:induction false} FoldAppend(a: seq<string>, b: seq<string>, st: State)
    ensures Fold(a + b, st) == Then(Fold(a, st), b)
    decreases |a|
  {
    hide Line;
    if a == [] {
      assert a + b == b;
    } else {
      assert (a + b)[1..] == a[1..] + b;
      match Line(st, a[0] + "\n")
      case Halt(_) =>
      case Go(next) => FoldAppend(a[1..], b, next);
    }
  }

  // ----- numbers -----

  lemma {:induction false} AccumulateHex(v: nat, w: nat, rest: string)
    requires v < Pow16(w)
    ensures Accumulate(Hex(v, w) + rest, 0) == Accumulate(rest, v)
    decreases w
  {
    if w == 0 {
      assert Hex(v, w) + rest == rest;
    } else {
      var last := [DigitChar(v % 16)];
      assert Hex(v, w) + rest == Hex(v / 16, w - 1) + (last + rest);
      AccumulateHex(v / 16, w - 1, last + rest);
      assert (last + rest)[1..] == rest;
      assert 16 * (v / 16) + v % 16 == v;
    }
  }

  /** A printed number followed by the end of the text or of the line. */
  lemma ReadsHex(v: nat, w: nat, rest: string)
    requires v < Pow16(w) && w >= 2 && v < 0x1_0000_0000 && (rest == "" || rest == "\n")
    ensures StrToL(Hex(v, w) + rest) == v
  {
    var s := Hex(v, w) + rest;
    assert Digit(s[0]) < 16 && Digit(s[1]) < 16;
    assert SkipBlank(s) == s;
    AccumulateHex(v, w, rest);
    assert Accumulate(rest, v) == v;
  }

  lemma Pow16s()
    ensures Pow16(2) == 0x100 && Pow16(4) == 0x1_0000 && Pow16(8) == 0x1_0000_0000
  {
    assert Pow16(1) == 16 && Pow16(3) == 0x1000 && Pow16(5) == 0x10_0000;
    assert Pow16(6) == 0x100_0000 && Pow16(7) == 0x1000_0000;
  }

  // ----- data lines -----

  lemma {:induction false} DataTextAt(bytes: seq<byte>, k: nat)
    requires k < |bytes|
    ensures |DataText(bytes)| == 3 * |bytes| - 1
    ensures DataText(bytes)[3 * k..3 * k + 2] == Hex(bytes[k], 2)
    decreases |bytes|
  {
    hide Hex;
    var s := DataText(bytes);
    if |bytes| > 1 {
      DataTextAt(bytes[1..], if k == 0 then 0 else k - 1);
      assert s == Hex(bytes[0], 2) + " " + DataText(bytes[1..]);
      if k > 0 {
        assert s[3 * k..3 * k + 2] == DataText(bytes[1..])[3 * (k - 1)..3 * (k - 1) + 2];
      }
    }
  }

  lemma ByteReadAt(bytes: seq<byte>, k: nat)
    requires k < |bytes|
    ensures |DataText(bytes)| == 3 * |bytes| - 1
    ensures ByteAt(DataText(bytes) + "\n", 3 * k) == bytes[k]
  {
    hide DataText, Hex, StrToL;
    DataTextAt(bytes, k);
    var s := DataText(bytes) + "\n";
    assert s[3 * k..3 * k + 2] == DataText(bytes)[3 * k..3 * k + 2];
    Pow16s();
    ReadsHex(bytes[k], 2, "");
    assert Hex(bytes[k], 2) + "" == Hex(bytes[k], 2);
  }

  /** A line of an even number of bytes gives exactly those bytes; an odd number overruns an entry that
      has room for no more. */
  lemma {:induction false} PairsRead(bytes: seq<byte>, k: nat, data: seq<byte>, room: int)
    requires k <= |bytes| && k % 2 == 0 && bytes != []
    requires |bytes| % 2 == 0 ==> |data| + |bytes| <= room + k
    requires |bytes| % 2 == 1 ==> |data| + |bytes| == room + k
    ensures ReadPairs(DataText(bytes) + "\n", 3 * k, data, |bytes| - k, room)
         == if |bytes| % 2 == 0 then Some(data + bytes[k..]) else None
    decreases |bytes| - k
  {
    hide DataText, ByteAt;
    ByteReadAt(bytes, 0);
    if k < |bytes| {
      ByteReadAt(bytes, k);
      if k + 1 < |bytes| {
        ByteReadAt(bytes, k + 1);
        var two := [bytes[k], bytes[k + 1]];
        PairsRead(bytes, k + 2, data + two, room);
        assert bytes[k..] == two + bytes[k + 2..];
        assert data + two + bytes[k + 2..] == data + bytes[k..];
      }
    } else {
      assert data + bytes[k..] == data;
    }
  }

  lemma DataTextStarts(bytes: seq<byte>)
    requires bytes != []
    ensures var s := DataText(bytes) + "\n";
      SkipSpace(s) == s && !IsComment(s) && !Begins(s, '#') && !Begins(s, '[')
  {
    var s := DataText(bytes) + "\n";
    assert s[0] == Hex(bytes[0], 2)[0];
    assert Digit(s[0]) < 16;
  }

  /** One data line. */
  lemma DataLineRead(st: State, bytes: seq<byte>, more: nat)
    requires st.section == Data && bytes != [] && st.left == |bytes| + more && |bytes| <= ENTRY_PER_LINE
    requires more > 0 ==> |bytes| == ENTRY_PER_LINE
    requires st.room == |st.entry.data| + st.left && (st.lines > 0 ==> st.format == Format(true, true))
    ensures Line(st, DataText(bytes) + "\n")
         == FinishLine(st, Format(true, true), if |bytes| % 2 == 0 then Some(st.entry.data + bytes) else None, more)
  {
    hide DataText, SkipSpace, ReadPairs, FinishLine;
    DataTextStarts(bytes);
    PairsRead(bytes, 0, st.entry.data, st.room);
    assert bytes[0..] == bytes;
  }

  /** What finishing an entry does. */
  function Finished(st: State, data: seq<byte>): Turn {
    FinishLine(st, Format(true, true), Some(data), 0)
  }

  lemma FoldFirst(line: string, rest: seq<string>, st: State)
    ensures Fold([line] + rest, st) == Then(Line(st, line + "\n"), rest)
    ensures Fold([], st) == Go(st)
  {
    assert ([line] + rest)[1..] == rest;
  }

  lemma LastDataLine(st: State, bytes: seq<byte>)
    requires st.section == Data && bytes != [] && st.left == |bytes| <= ENTRY_PER_LINE
    requires st.room == |st.entry.data| + st.left && (st.lines > 0 ==> st.format == Format(true, true))
    ensures Fold(DataLines(bytes), st)
         == if |bytes| % 2 == 0 then Finished(st, st.entry.data + bytes) else Halt(Overrun)
  {
    hide Line, DataText, Fold;
    DataLineRead(st, bytes, 0);
    assert DataLines(bytes) == [DataText(bytes)] + [];
    FoldFirst(DataText(bytes), [], st);
    var turn := Line(st, DataText(bytes) + "\n");
    if turn.Go? {
      FoldFirst("", [], turn.state);
    }
  }

  /** All data lines of an entry. */
  lemma {:induction false} DataLinesRead(st: State, bytes: seq<byte>)
    requires st.section == Data && bytes != [] && st.left == |bytes|
    requires st.room == |st.entry.data| + st.left && (st.lines > 0 ==> st.format == Format(true, true))
    ensures Fold(DataLines(bytes), st)
         == if |bytes| % 2 == 0 then Finished(st, st.entry.data + bytes) else Halt(Overrun)
    decreases |bytes|
  {
    hide Line, DataText, Fold;
    if |bytes| <= ENTRY_PER_LINE {
      LastDataLine(st, bytes);
    } else {
      var head, tail := bytes[..ENTRY_PER_LINE], bytes[ENTRY_PER_LINE..];
      DataLineRead(st, head, |tail|);
      FoldFirst(DataText(head), DataLines(tail), st);
      var entry := st.entry.(data := st.entry.data + head);
      var next := st.(format := Format(true, true), left := |tail|, entry := entry, lines := st.lines + 1);
      DataLinesRead(next, tail);
      assert st.entry.data + head + tail == st.entry.data + bytes;
    }
  }

  // ----- entries -----

  /** A value line: the preamble [S] asks for one hexadecimal value. */
  lemma ValueLine(v: nat, w: nat)
    requires v < Pow16(w) && w >= 2 && v < 0x1_0000_0000
    ensures var s := "[S]" + Hex(v, w) + "\n";
      && SkipSpace(s) == s && !IsComment(s) && !Begins(s, '#')
      && InputFormat(s) == Some(Format(true, false)) && ReadValue(s, Format(true, false)) == v
  {
    hide StrToL, Hex;
    var s := "[S]" + Hex(v, w) + "\n";
    assert s[0] == '[' && s[1] == 'S' && s[2] == ']';
    assert s[1..][0] == 'S' && s[1..][1..][0] == ']';
    assert IndexOf(s, ']') == 2;
    assert s[1..2] == ['S'] && ['S'][1..] == "";
    assert PsType(['S'], false, '\0', '\0') == ('S', '\0') by {
      assert PsType("", false, 'S', '\0') == ('S', '\0');
    }
    assert s[3..] == Hex(v, w) + "\n";
    ReadsHex(v, w, "\n");
  }

  /** The first three lines of an entry. */
  lemma HeaderRead(st: State, e: Entry)
    requires st.section == Undef && Printable(e)
    ensures var n := |e.data|;
      Fold(["#", "[S]" + Hex(e.id, 8), "[S]" + Hex(n, 4)], st)
      == Go(State(Data, 0, Format(true, false), n, Entry(e.id, n, []), n, st.done))
  {
    hide Hex, InputFormat, ReadValue;
    Pow16s();
    var l0, l1, l2 := "#", "[S]" + Hex(e.id, 8), "[S]" + Hex(|e.data|, 4);
    var lines := [l0, l1, l2];
    ValueLine(e.id, 8);
    ValueLine(|e.data|, 4);
    var s1 := st.(section := Id);
    var s2 := s1.(format := Format(true, false), entry := Entry(e.id, 0, []), section := Len);
    assert SkipSpace("#\n") == "#\n";
    assert Line(st, l0 + "\n") == Go(s1);
    assert Line(s1, l1 + "\n") == Go(s2);
    assert Line(s2, l2 + "\n")
        == Go(State(Data, 0, Format(true, false), |e.data|, Entry(e.id, |e.data|, []), |e.data|, st.done));
    hide Line;
    assert lines[1..] == [l1, l2] && [l1, l2][1..] == [l2] && [l2][1..] == [];
    assert Fold([], s2) == Go(s2);
    assert Fold([l2], s2) == Line(s2, l2 + "\n");
    assert Fold([l1, l2], s1) == Fold([l2], s2);
  }

  lemma EntryRead(st: State, e: Entry)
    requires st.section == Undef && Printable(e)
    ensures var t := Fold(EntryLines(e), st);
      if !Even(e) then t == Halt(Overrun)
      else if |st.done| + 1 == MAX_TAGS then t == Halt(IllegalSequence)
      else t.Go? && t.state.section == Undef && t.state.done == st.done + [e]
  {
    hide Hex, DataLines, Line;
    HeaderRead(st, e);
    FoldAppend(["#", "[S]" + Hex(e.id, 8), "[S]" + Hex(|e.data|, 4)], DataLines(e.data), st);
    var mid := State(Data, 0, Format(true, false), |e.data|, Entry(e.id, |e.data|, []), |e.data|, st.done);
    DataLinesRead(mid, e.data);
    assert [] + e.data == e.data;
  }

  /** What the reader makes of printed entries after `st`. */
  function Expected(done: seq<Entry>, entries: seq<Entry>): Outcome
    decreases |entries|
  {
    if entries == [] then Parsed(done)
    else if !Even(entries[0]) then Overrun
    else if |done| + 1 == MAX_TAGS then IllegalSequence
    else Expected(done + [entries[0]], entries[1..])
  }

  lemma {:induction false} EntriesRead(st: State, entries: seq<Entry>)
    requires st.section == Undef && |st.done| < MAX_TAGS && forall k | 0 <= k < |entries| :: Printable(entries[k])
    ensures Outcomes(Fold(Printed(entries), st)) == Expected(st.done, entries)
    decreases |entries|
  {
    hide EntryLines, Line, Even;
    if entries != [] {
      assert Printable(entries[0]);
      EntryRead(st, entries[0]);
      FoldAppend(EntryLines(entries[0]), Printed(entries[1..]), st);
      match Fold(EntryLines(entries[0]), st)
      case Halt(_) =>
      case Go(next) => EntriesRead(next, entries[1..]);
    }
  }

  lemma {:induction false} ExpectedExactly(done: seq<Entry>, entries: seq<Entry>)
    requires |done| < MAX_TAGS
    ensures Expected(done, entries) == Parsed(done + entries)
       <==> |done| + |entries| < MAX_TAGS && forall k | 0 <= k < |entries| :: Even(entries[k])
    ensures !Expected(done, entries).Parsed? || Expected(done, entries) == Parsed(done + entries)
    decreases |entries|
  {
    if entries == [] {
      assert done + entries == done;
    } else {
      if Even(entries[0]) && |done| + 1 < MAX_TAGS {
        ExpectedExactly(done + [entries[0]], entries[1..]);
        assert done + [entries[0]] + entries[1..] == done + entries;
      }
      assert (forall k | 0 <= k < |entries| :: Even(entries[k])) <==>
        (Even(entries[0]) && forall k | 0 <= k < |entries[1..]| :: Even(entries[1..][k])) by {
        if Even(entries[0]) && forall k | 0 <= k < |entries[1..]| :: Even(entries[1..][k]) {
          forall k | 0 <= k < |entries| ensures Even(entries[k]) {
            assert k > 0 ==> entries[k] == entries[1..][k - 1];
          }
        }
      }
    }
  }

  /** Whatever comments stand between the lines, the reader returns exactly the printed entries if and
      only if there are fewer than 50 of them and every length is even; otherwise it returns no list. */
  lemma ReadsBackExactlyEvenEntries(entries: seq<Entry>, lines: seq<string>)
    requires forall k | 0 <= k < |entries| :: Printable(entries[k])
    requires Significant(lines) == Printed(entries) && forall k | 0 <= k < |lines| :: Fits(lines[k])
    ensures Parse(Join(lines), START) == Parsed(entries)
       <==> |entries| < MAX_TAGS && forall k | 0 <= k < |entries| :: Even(entries[k])
    ensures Parse(Join(lines), START).Parsed? ==> Parse(Join(lines), START) == Parsed(entries)
  {
    hide Parse, Join, Fold, Printed, Significant, Printable, Fits, Expected, Even;
    ParsesByLines(lines, START);
    CommentsAreSkipped(lines, START);
    EntriesRead(START, entries);
    ExpectedExactly([], entries);
    assert [] + entries == entries;
  }

  /** Such files exist: the printed lines themselves are significant and fit. */
  lemma {:induction false} PrintedLinesFit(entries: seq<Entry>)
    requires forall k | 0 <= k < |entries| :: Printable(entries[k])
    ensures Significant(Printed(entries)) == Printed(entries)
    ensures forall k | 0 <= k < |Printed(entries)| :: Fits(Printed(entries)[k])
  {
    if entries != [] {
      hide EntryLines;
      assert Printable(entries[0]);
      EntryLinesFit(entries[0]);
      PrintedLinesFit(entries[1..]);
      SignificantAppend(EntryLines(entries[0]), Printed(entries[1..]));
    }
  }

  lemma {:induction false} SignificantAppend(a: seq<string>, b: seq<string>)
    ensures Significant(a + b) == Significant(a) + Significant(b)
  {
    hide SkipSpace;
    if a == [] {
      assert a + b == b;
    } else {
      assert (a + b)[1..] == a[1..] + b;
      SignificantAppend(a[1..], b);
    }
  }

  /** A line of the printer. */
  ghost predicate Plain(line: string) {
    Fits(line) && !IsComment(SkipSpace(line + "\n"))
  }

  lemma {:induction false} AllSignificant(lines: seq<string>)
    requires forall k | 0 <= k < |lines| :: Plain(lines[k])
    ensures Significant(lines) == lines
  {
    hide SkipSpace;
    if lines != [] {
      assert Plain(lines[0]);
      AllSignificant(lines[1..]);
    }
  }

  lemma ValueLinePlain(v: nat, w: nat)
    requires v < Pow16(w) && 2 <= w <= 8 && v < 0x1_0000_0000
    ensures Plain("[S]" + Hex(v, w))
  {
    hide Hex;
    ValueLine(v, w);
    HexHasNoControls(v, w);
  }

  lemma EntryLinesFit(e: Entry)
    requires Printable(e)
    ensures Significant(EntryLines(e)) == EntryLines(e) && forall k | 0 <= k < |EntryLines(e)| :: Fits(EntryLines(e)[k])
  {
    Pow16s();
    ValueLinePlain(e.id, 8);
    ValueLinePlain(|e.data|, 4);
    DataLinesPlain(e.data);
    assert SkipSpace("#" + "\n") == "#\n";
    assert Plain("#");
    hide Hex, DataLines, Plain, SkipSpace;
    var lines := EntryLines(e);
    forall k | 0 <= k < |lines| ensures Plain(lines[k]) {
      assert k >= 3 ==> lines[k] == DataLines(e.data)[k - 3];
    }
    AllSignificant(lines);
    AllFit(lines);
  }

  lemma AllFit(lines: seq<string>)
    requires forall k | 0 <= k < |lines| :: Plain(lines[k])
    ensures forall k | 0 <= k < |lines| :: Fits(lines[k])
  {
    hide SkipSpace;
  }

  lemma HexHasNoControls(v: nat, w: nat)
    ensures forall c | c in Hex(v, w) :: Digit(c) < 16
  {}

  lemma {:induction false} DataTextPlain(bytes: seq<byte>)
    ensures |DataText(bytes)| <= 3 * |bytes| && '\n' !in DataText(bytes) && '\0' !in DataText(bytes)
  {
    hide Hex;
    if bytes != [] {
      HexHasNoControls(bytes[0], 2);
      DataTextPlain(bytes[1..]);
    }
  }

  lemma {:induction false} DataLinesPlain(bytes: seq<byte>)
    requires bytes != []
    ensures forall k | 0 <= k < |DataLines(bytes)| :: Plain(DataLines(bytes)[k])
    decreases |bytes|
  {
    hide DataText, SkipSpace;
    var head := if |bytes| <= ENTRY_PER_LINE then bytes else bytes[..ENTRY_PER_LINE];
    DataTextPlain(head);
    DataTextStarts(head);
    if |bytes| > ENTRY_PER_LINE {
      DataLinesPlain(bytes[ENTRY_PER_LINE..]);
    }
  }
}
