/** The persistent-storage file reader of bluetooth/libbt-vendor/src/hw_ar3k.c. */
module Ar3kPs {
  import opened Common

  const MAX_TAGS := 50
  const PS_MAX_LEN := 500
  const ENTRY_PER_LINE := 16
  const MAX_PREAMBLE_LEN := 4
  const UNDEFINED := 0xFFFF

  /** The most one call of fgets reads: LINE_SIZE_MAX - 1 characters. */
  const LINE_MAX := 999

  type u32 = x: int | 0 <= x < 0x1_0000_0000

  // ----- C library -----

  /** A string as C sees it: up to the first NUL. */
  function CString(s: string): string {
    if s == "" || s[0] == '\0' then "" else [s[0]] + CString(s[1..])
  }

  /** Characters one call of fgets takes from a non-empty stream. */
  function Taken(s: string, max: nat): (n: nat)
    requires s != "" && max > 0
    ensures 0 < n <= |s| && n <= max
  {
    if max == 1 || s[0] == '\n' || |s| == 1 then 1 else 1 + Taken(s[1..], max - 1)
  }

  /** The place of a character, or the length when absent. */
  function IndexOf(s: string, c: char): (k: nat)
    ensures k <= |s| && (k < |s| ==> s[k] == c) && forall j | 0 <= j < k :: s[j] != c
  {
    if s == "" || s[0] == c then 0 else 1 + IndexOf(s[1..], c)
  }

  predicate IsSpace(c: char) {
    c == ' ' || '\t' <= c <= '\r'
  }

  predicate IsAlpha(c: char) {
    'a' <= c <= 'z' || 'A' <= c <= 'Z'
  }

  function ToUpper(c: char): char {
    if 'a' <= c <= 'z' then (c as int - 32) as char else c
  }

  /** The value of a hexadecimal digit, 16 for other characters. */
  function Digit(c: char): (d: nat)
    ensures d <= 16
  {
    if '0' <= c <= '9' then c as int - '0' as int
    else if 'a' <= c <= 'f' then c as int - 'a' as int + 10
    else if 'A' <= c <= 'F' then c as int - 'A' as int + 10
    else 16
  }

  /** Digits read so far, and the rest of them. */
  function Accumulate(s: string, value: nat): nat
    decreases |s|
  {
    if s == "" || Digit(s[0]) == 16 then value else Accumulate(s[1..], 16 * value + Digit(s[0]))
  }

  function Magnitude(s: string): nat {
    Accumulate(if |s| >= 2 && s[0] == '0' && (s[1] == 'x' || s[1] == 'X') then s[2..] else s, 0)
  }

  function SkipBlank(s: string): string {
    if s != "" && IsSpace(s[0]) then SkipBlank(s[1..]) else s
  }

  /** `strtol(s, NULL, 16)` with a 64-bit long. */
  function StrToL(s: string): (v: int)
    ensures -0x8000_0000_0000_0000 <= v < 0x8000_0000_0000_0000
  {
    var t := SkipBlank(s);
    var v: int := if t != "" && t[0] == '-' then 0 - Magnitude(t[1..])
      else if t != "" && t[0] == '+' then Magnitude(t[1..])
      else Magnitude(t);
    if v < -0x8000_0000_0000_0000 then -0x8000_0000_0000_0000
    else if v >= 0x8000_0000_0000_0000 then 0x7FFF_FFFF_FFFF_FFFF
    else v
  }

  // ----- lines -----

  datatype Format = Format(hex: bool, isArray: bool)

  function SkipSpace(s: string): string {
    if s != "" && s[0] == ' ' then SkipSpace(s[1..]) else s
  }

  predicate IsComment(s: string) {
    |s| >= 2 && s[0] == '/' && s[1] == '/'
  }

  predicate Begins(s: string, c: char) {
    s != "" && s[0] == c
  }

  /** Letters of a preamble between its brackets: the last before the first colon and the last after. */
  function PsType(s: string, delim: bool, main: char, sub: char): (char, char) {
    if s == "" then (main, sub)
    else if s[0] == ':' then PsType(s[1..], true, main, sub)
    else if !IsAlpha(s[0]) then PsType(s[1..], delim, main, sub)
    else if delim then PsType(s[1..], delim, main, ToUpper(s[0]))
    else PsType(s[1..], delim, ToUpper(s[0]), sub)
  }

  /** `get_input_format`: no preamble means a hexadecimal array. */
  function InputFormat(s: string): Option<Format> {
    if !Begins(s, '[') then Some(Format(true, true))
    else
      var end := IndexOf(s, ']');
      if end == |s| || end > MAX_PREAMBLE_LEN then None
      else
        var (main, sub) := PsType(s[1..end], false, '\0', '\0');
        Some(Format(main != 'D' && main != 'B', main != 'S' && sub != 'S'))
  }

  /** `update_char_count`: where the text after a preamble begins. */
  function AfterPreamble(s: string): (n: nat)
    ensures n <= |s|
  {
    if Begins(s, '[') && IndexOf(s, ']') < |s| then IndexOf(s, ']') + 1 else 0
  }

  /** `read_data_in_section`: only a single hexadecimal value can be read. */
  function ReadValue(s: string, format: Format): (v: u32) {
    if format.hex && !format.isArray && !(Begins(s, '[') && IndexOf(s, ']') == |s|) then
      StrToL(s[AfterPreamble(s)..]) % 0x1_0000_0000
    else UNDEFINED
  }

  /** Conversion to int16_t. */
  function Int16(v: u32): (r: int)
    ensures -0x8000 <= r < 0x8000
  {
    var w := v % 0x1_0000;
    if w < 0x8000 then w else w - 0x1_0000
  }

  /** The byte of the at most two characters at `at`, as strlcpy and strtol give it. */
  function ByteAt(s: string, at: nat): byte
    requires at <= |s|
  {
    StrToL(s[at..if at + 2 <= |s| then at + 2 else |s|]) % 256
  }

  /** The pairwise reading of data bytes while `count` is positive.  Nothing when C would read past the
      end of the line or write past the `room` bytes of the entry. */
  function ReadPairs(s: string, at: nat, data: seq<byte>, count: int, room: int): Option<seq<byte>>
    decreases if count > 0 then count else 0
  {
    if count <= 0 then Some(data)
    else if at + 3 > |s| || |data| + 2 > room then None
    else ReadPairs(s, at + 6, data + [ByteAt(s, at), ByteAt(s, at + 3)], count - 2, room)
  }

  // ----- the line machine -----

  datatype Section = Undef | Id | Len | Data

  /** `ps_cfg_entry`. */
  datatype Entry = Entry(id: u32, len: u32, data: seq<byte>)

  /** The locals of `ath_parse_ps`: section and line count, format, bytes still expected, the entry being
      filled with the bytes allocated for it, and the finished entries. */
  datatype State = State(section: Section, lines: nat, format: Format, left: int, entry: Entry, room: int,
                         done: seq<Entry>)

  /** The last outcome stands for a buffer overrun: C promises nothing from there on. */
  datatype Outcome = Parsed(entries: seq<Entry>) | IllegalSequence | Overrun

  datatype Turn = Go(state: State) | Halt(outcome: Outcome)

  const START: State := State(Undef, 0, Format(true, true), 0, Entry(0, 0, []), 0, [])

  /** After the bytes of a line: the entry is finished when none are left to come. */
  function FinishLine(st: State, format: Format, data: Option<seq<byte>>, left: int): Turn {
    if data == None then Halt(Overrun)
    else
      var entry := st.entry.(data := data.value);
      if left != 0 then Go(st.(format := format, left := left, entry := entry, lines := st.lines + 1))
      else if |st.done| + 1 == MAX_TAGS then Halt(IllegalSequence)
      else Go(State(Undef, 0, format, 0, entry, st.room, st.done + [entry]))
  }

  function DataLine(st: State, s: string): Turn {
    match if st.lines == 0 then InputFormat(s) else Some(st.format)
    case None => Halt(IllegalSequence)
    case Some(format) =>
      if !(format.hex && format.isArray) then FinishLine(st, format, Some(st.entry.data), st.left)
      else
        var count := if st.left > ENTRY_PER_LINE then ENTRY_PER_LINE else st.left;
        FinishLine(st, format, ReadPairs(s, AfterPreamble(s), st.entry.data, count, st.room),
                   if st.left > ENTRY_PER_LINE then st.left - ENTRY_PER_LINE else 0)
  }

  function IdLine(st: State, s: string): Turn {
    match InputFormat(s)
    case None => Halt(IllegalSequence)
    case Some(format) => Go(st.(format := format, entry := Entry(ReadValue(s, format), 0, []), section := Len))
  }

  function LenLine(st: State, s: string): Turn {
    match InputFormat(s)
    case None => Halt(IllegalSequence)
    case Some(format) =>
      var count := Int16(ReadValue(s, format));
      if count > PS_MAX_LEN then Halt(IllegalSequence)
      else Go(st.(format := format, left := count, room := count, lines := 0, section := Data,
                  entry := Entry(st.entry.id, count % 0x1_0000_0000, [])))
  }

  function Line(st: State, text: string): Turn {
    var s := SkipSpace(text);
    if IsComment(s) then Go(st)
    else if Begins(s, '#') then (if st.section == Undef then Go(st.(section := Id)) else Halt(IllegalSequence))
    else
      match st.section
      case Undef => Go(st)
      case Id => IdLine(st, s)
      case Len => LenLine(st, s)
      case Data => DataLine(st, s)
  }

  function Parse(rest: string, st: State): Outcome
    decreases |rest|
  {
    if rest == "" then Parsed(st.done)
    else
      var n := Taken(rest, LINE_MAX);
      match Line(st, CString(rest[..n]))
      case Halt(outcome) => outcome
      case Go(next) => Parse(rest[n..], next)
  }

  // ----- ath_parse_ps itself -----

  /** One `fgets` call: the line's end in the stream. */
  method Fgets(stream: string, pos: nat) returns (end: nat)
    requires pos < |stream|
    ensures end == pos + Taken(stream[pos..], LINE_MAX)
    ensures pos < end <= |stream|
  {
    end := pos + 1;
    assert stream[pos..][0] == stream[pos];
    while stream[end - 1] != '\n' && end - pos < LINE_MAX && end < |stream|
      invariant pos < end <= |stream| && end - pos <= LINE_MAX
      decreases |stream| - end
      invariant Taken(stream[pos..], LINE_MAX) == end - 1 - pos + Taken(stream[end - 1..], LINE_MAX - (end - 1 - pos))
    {
      assert stream[end - 1..][1..] == stream[end..];
      end := end + 1;
    }
  }

  /** `ath_parse_ps`: the list of entries is filled in place; the count of finished entries, -EILSEQ,
      or nothing when C promises nothing. */
  method AthParsePs(stream: string, psList: array<Entry>) returns (r: Option<int>)
    requires psList.Length == MAX_TAGS
    modifies psList
    ensures match Parse(stream, START)
      case Parsed(entries) => r == Some(|entries|) && |entries| <= psList.Length && psList[..|entries|] == entries
      case IllegalSequence => r == EILSEQ
      case Overrun => r == None
  {
    hide Line, InputFormat, ReadValue, Int16, SkipSpace, CString, ReadPairs, Taken;
    var tagCount, left, room, lines := 0, 0, 0, 0;
    var section, format, tag := Undef, Format(true, true), Entry(0, 0, []);
    var pos := 0;
    assert psList[..0] == [] && stream[0..] == stream;
    while pos < |stream|
      invariant pos <= |stream| && 0 <= tagCount < MAX_TAGS
      invariant Parse(stream, START)
             == Parse(stream[pos..], State(section, lines, format, left, tag, room, psList[..tagCount]))
    {
      var end := Fgets(stream, pos);
      assert stream[pos..][..end - pos] == stream[pos..end] && stream[pos..][end - pos..] == stream[end..];
      ghost var st := State(section, lines, format, left, tag, room, psList[..tagCount]);
      var text := CString(stream[pos..end]);
      pos := end;
      var s := SkipSpace(text);
      PlainLine(st, text);
      if IsComment(s) {
        continue;
      }
      if Begins(s, '#') {
        if section != Undef {
          return EILSEQ;
        }
        section := Id;
        continue;
      }
      match section
      case Undef =>
      case Id =>
        var f := InputFormat(s);
        if f == None {
          return EILSEQ;
        }
        format := f.value;
        tag := Entry(ReadValue(s, format), 0, []);
        section := Len;
      case Len =>
        var f := InputFormat(s);
        if f == None {
          return EILSEQ;
        }
        format := f.value;
        left := Int16(ReadValue(s, format));
        if left > PS_MAX_LEN {
          return EILSEQ;
        }
        tag, room, section, lines := Entry(tag.id, left % 0x1_0000_0000, []), left, Data, 0;
      case Data =>
        if lines == 0 {
          var f := InputFormat(s);
          if f == None {
            return EILSEQ;
          }
          format := f.value;
        }
        var count := if left > ENTRY_PER_LINE then ENTRY_PER_LINE else left;
        if format.hex && format.isArray {
          var data, ok := FillPairs(s, AfterPreamble(s), tag.data, count, room);
          if !ok {
            return None;
          }
          tag := tag.(data := data);
          left := if left > ENTRY_PER_LINE then left - ENTRY_PER_LINE else 0;
        }
        lines := lines + 1;
        if left == 0 {
          psList[tagCount] := tag;
          tagCount, section, lines := tagCount + 1, Undef, 0;
          assert psList[..tagCount] == st.done + [tag];
          if tagCount == MAX_TAGS {
            return EILSEQ;
          }
        }
    }
    assert stream[pos..] == "";
    r := Some(tagCount);
  }

  const EILSEQ: Option<int> := Some(-84)

  /** The `while (read_count > 0)` loop around `update_tag_data`. */
  method FillPairs(s: string, start: nat, tag: seq<byte>, count: int, room: int) returns (data: seq<byte>, ok: bool)
    ensures ReadPairs(s, start, tag, count, room) == if ok then Some(data) else None
  {
    data, ok := tag, true;
    var at: nat, left := start, count;
    while left > 0
      invariant ReadPairs(s, start, tag, count, room) == ReadPairs(s, at, data, left, room)
    {
      if at + 3 > |s| || |data| + 2 > room {
        return data, false;
      }
      data := data + [ByteAt(s, at), ByteAt(s, at + 3)];
      at, left := at + 6, left - 2;
    }
  }

  /** A line outside data, branch by branch. */
  lemma PlainLine(st: State, text: string)
    ensures var s := SkipSpace(text);
      && (IsComment(s) ==> Line(st, text) == Go(st))
      && (!IsComment(s) && Begins(s, '#') && st.section == Undef ==> Line(st, text) == Go(st.(section := Id)))
      && (!IsComment(s) && Begins(s, '#') && st.section != Undef ==> Line(st, text) == Halt(IllegalSequence))
      && (!IsComment(s) && !Begins(s, '#') && st.section == Undef ==> Line(st, text) == Go(st))
      && (!IsComment(s) && !Begins(s, '#') && st.section == Data ==> Line(st, text) == DataLine(st, s))
      && (!IsComment(s) && !Begins(s, '#') && st.section == Id ==> Line(st, text) == IdLine(st, s))
      && (!IsComment(s) && !Begins(s, '#') && st.section == Len ==> Line(st, text) == LenLine(st, s))
  {
    hide InputFormat, DataLine, ReadValue, Int16, SkipSpace;
  }
}
