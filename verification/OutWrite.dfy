/** The two in-place buffer transforms of out_write (audio/qcom/hal/audio_hw.c): the stereo downmix
    and the split of haptic channels off the audio channels. */
module OutWrite {
  import opened Common

  type i16 = x: int | -0x8000 <= x < 0x8000

  // ----- downmix -----

  /** `(L + R) >> 1`, widened before the addition: the floor of the mean, which always fits again. */
  function Mean(l: i16, r: i16): (m: i16)
    ensures 2 * m <= l as int + r as int < 2 * m + 2
  {
    (l as int + r as int) / 2
  }

  /** The downmix of frame `k`. */
  function MeanAt(s: seq<i16>, k: nat): i16
    requires 2 * k + 1 < |s|
  {
    Mean(s[2 * k], s[2 * k + 1])
  }

  /** Source and destination are the same buffer; the destination never catches up with a sample that
      is still to be read. */
  method Downmix(buffer: array<i16>, frames: nat)
    requires 2 * frames <= buffer.Length
    modifies buffer
    ensures forall k | 0 <= k < frames :: buffer[k] == MeanAt(old(buffer[..]), k)
    ensures forall k | frames <= k < buffer.Length :: buffer[k] == old(buffer[..])[k]
  {
    hide Mean;
    ghost var was := buffer[..];
    var src, dst := 0, 0;
    for i := 0 to frames
      invariant src == 2 * i && dst == i
      invariant forall k | 0 <= k < i :: buffer[k] == MeanAt(was, k)
      invariant forall k | i <= k < buffer.Length :: buffer[k] == was[k]
    {
      buffer[dst] := Mean(buffer[src], buffer[src + 1]);
      src, dst := src + 2, dst + 1;
    }
  }

  // ----- haptic split -----

  /** The size of `n` frames. */
  function Bytes(n: nat, size: nat): nat {
    if n == 0 then 0 else Bytes(n - 1, size) + size
  }

  lemma {:induction false} BytesIsProduct(n: nat, size: nat)
    ensures Bytes(n, size) == n * size
  {
    if n > 0 {
      BytesIsProduct(n - 1, size);
      assert n * size == (n - 1) * size + size;
    }
  }

  lemma {:induction false} MoreBytes(m: nat, n: nat, size: nat)
    requires m <= n
    ensures Bytes(m, size) <= Bytes(n, size)
    decreases n
  {
    if m < n {
      MoreBytes(m, n - 1, size);
    }
  }

  /** The first `a` bytes of each of `n` frames of `a + h` bytes. */
  function AudioOf(s: seq<byte>, a: nat, h: nat, n: nat): (r: seq<byte>)
    requires Bytes(n, a + h) <= |s|
    ensures |r| == Bytes(n, a)
  {
    if n == 0 then []
    else AudioOf(s, a, h, n - 1) + s[Bytes(n - 1, a + h)..Bytes(n - 1, a + h) + a]
  }

  /** The other `h` bytes of each frame. */
  function HapticOf(s: seq<byte>, a: nat, h: nat, n: nat): (r: seq<byte>)
    requires Bytes(n, a + h) <= |s|
    ensures |r| == Bytes(n, h)
  {
    if n == 0 then []
    else HapticOf(s, a, h, n - 1) + s[Bytes(n - 1, a + h) + a..Bytes(n, a + h)]
  }

  function Interleave(audio: seq<byte>, haptic: seq<byte>, a: nat, h: nat, n: nat): seq<byte>
    requires Bytes(n, a) <= |audio| && Bytes(n, h) <= |haptic|
  {
    if n == 0 then []
    else
      Interleave(audio, haptic, a, h, n - 1)
      + audio[Bytes(n - 1, a)..Bytes(n, a)] + haptic[Bytes(n - 1, h)..Bytes(n, h)]
  }

  lemma {:induction false} InterleaveAgrees(x: seq<byte>, x2: seq<byte>, y: seq<byte>, y2: seq<byte>, a: nat, h: nat,
                                            n: nat)
    requires Bytes(n, a) <= |x| && Bytes(n, h) <= |y| && x <= x2 && y <= y2
    ensures Interleave(x, y, a, h, n) == Interleave(x2, y2, a, h, n)
  {
    if n > 0 {
      InterleaveAgrees(x, x2, y, y2, a, h, n - 1);
      SameSlice(x, x2, Bytes(n - 1, a), Bytes(n, a));
      SameSlice(y, y2, Bytes(n - 1, h), Bytes(n, h));
    }
  }

  lemma SameSlice(x: seq<byte>, x2: seq<byte>, from: nat, to: nat)
    requires x <= x2 && from <= to <= |x|
    ensures x[from..to] == x2[from..to]
  {}

  /** Nothing is lost: interleaving the two parts again gives the original frames. */
  lemma {:induction false} InterleaveOfParts(s: seq<byte>, a: nat, h: nat, n: nat)
    requires Bytes(n, a + h) <= |s|
    ensures Interleave(AudioOf(s, a, h, n), HapticOf(s, a, h, n), a, h, n) == s[..Bytes(n, a + h)]
  {
    hide Bytes, AudioOf, HapticOf, Interleave;
    NoFrames(s, a, h);
    if n > 0 {
      MoreBytes(n - 1, n, a + h);
      NextFrame(s, a, h, n - 1);
      var audio1, haptic1 := AudioOf(s, a, h, n - 1), HapticOf(s, a, h, n - 1);
      var at := Bytes(n - 1, a + h);
      var left, right := s[at..at + a], s[at + a..at + (a + h)];
      InterleaveOfParts(s, a, h, n - 1);
      InterleaveAgrees(audio1, audio1 + left, haptic1, haptic1 + right, a, h, n - 1);
      InterleaveNext(audio1, left, haptic1, right, a, h, n - 1);
      JoinSlices(s, at, a, h);
    }
  }

  lemma NoFrames(s: seq<byte>, a: nat, h: nat)
    ensures Bytes(0, a) == Bytes(0, h) == Bytes(0, a + h) == 0
    ensures AudioOf(s, a, h, 0) == HapticOf(s, a, h, 0) == []
    ensures Interleave(AudioOf(s, a, h, 0), HapticOf(s, a, h, 0), a, h, 0) == []
  {}

  lemma NextFrame(s: seq<byte>, a: nat, h: nat, i: nat)
    requires Bytes(i + 1, a + h) <= |s|
    ensures Bytes(i + 1, a + h) == Bytes(i, a + h) + (a + h)
    ensures Bytes(i + 1, a) == Bytes(i, a) + a && Bytes(i + 1, h) == Bytes(i, h) + h
    ensures AudioOf(s, a, h, i + 1) == AudioOf(s, a, h, i) + s[Bytes(i, a + h)..Bytes(i, a + h) + a]
    ensures HapticOf(s, a, h, i + 1) == HapticOf(s, a, h, i) + s[Bytes(i, a + h) + a..Bytes(i, a + h) + (a + h)]
  {}

  lemma InterleaveUnfolds(audio: seq<byte>, haptic: seq<byte>, a: nat, h: nat, i: nat)
    requires Bytes(i + 1, a) <= |audio| && Bytes(i + 1, h) <= |haptic|
    ensures Bytes(i + 1, a) == Bytes(i, a) + a && Bytes(i + 1, h) == Bytes(i, h) + h
    ensures Interleave(audio, haptic, a, h, i + 1)
         == Interleave(audio, haptic, a, h, i)
            + audio[Bytes(i, a)..Bytes(i, a) + a] + haptic[Bytes(i, h)..Bytes(i, h) + h]
  {}

  lemma BytesUnfolds(i: nat, size: nat)
    ensures Bytes(i + 1, size) == Bytes(i, size) + size
  {}

  lemma InterleaveNext(audio: seq<byte>, left: seq<byte>, haptic: seq<byte>, right: seq<byte>, a: nat, h: nat, i: nat)
    requires |audio| == Bytes(i, a) && |haptic| == Bytes(i, h) && |left| == a && |right| == h
    ensures Bytes(i + 1, a) == |audio| + a && Bytes(i + 1, h) == |haptic| + h
    ensures Interleave(audio + left, haptic + right, a, h, i + 1)
         == Interleave(audio + left, haptic + right, a, h, i) + left + right
  {
    hide Interleave, Bytes;
    BytesUnfolds(i, a);
    BytesUnfolds(i, h);
    InterleaveUnfolds(audio + left, haptic + right, a, h, i);
    LastSlice(audio, left);
    LastSlice(haptic, right);
  }

  lemma LastSlice(x: seq<byte>, last: seq<byte>)
    ensures (x + last)[|x|..|x| + |last|] == last
  {}

  lemma JoinSlices(s: seq<byte>, at: nat, a: nat, h: nat)
    requires at + a + h <= |s|
    ensures s[..at] + s[at..at + a] + s[at + a..at + (a + h)] == s[..at + (a + h)]
  {}

  /** `haptic_buffer` is kept while it is large enough. */
  method HapticBuffer(current: array?<byte>, total: nat) returns (buffer: array<byte>)
    ensures buffer.Length >= total
    ensures if current != null && current.Length >= total then buffer == current
            else fresh(buffer) && buffer.Length == total
  {
    if current == null || current.Length < total {
      buffer := new byte[total](_ => 0);
    } else {
      buffer := current;
    }
  }

  /** The buffers once the first `i` frames are split. */
  ghost predicate SplitUpTo(buffer: seq<byte>, haptic: seq<byte>, was: seq<byte>, rest: seq<byte>, a: nat, h: nat,
                            i: nat) {
    && Bytes(i, a + h) <= |was| == |buffer| && Bytes(i, a) <= |was| && Bytes(i, h) <= |rest| == |haptic|
    && buffer[..Bytes(i, a)] == AudioOf(was, a, h, i) && buffer[Bytes(i, a)..] == was[Bytes(i, a)..]
    && haptic[..Bytes(i, h)] == HapticOf(was, a, h, i) && haptic[Bytes(i, h)..] == rest[Bytes(i, h)..]
  }

  lemma SplitStart(buffer: seq<byte>, haptic: seq<byte>, a: nat, h: nat)
    ensures Bytes(0, a) == Bytes(0, h) == Bytes(0, a + h) == 0 && SplitUpTo(buffer, haptic, buffer, haptic, a, h, 0)
  {}

  /** `count` elements of `source` copied over those of `target`. */
  function Copied(target: seq<byte>, to: nat, source: seq<byte>, from: nat, count: nat): (r: seq<byte>)
    requires to + count <= |target| && from + count <= |source|
    ensures |r| == |target|
  {
    target[..to] + source[from..from + count] + target[to + count..]
  }

  lemma SplitNext(b: seq<byte>, b2: seq<byte>, t: seq<byte>, t2: seq<byte>, was: seq<byte>, rest: seq<byte>, a: nat,
                  h: nat, i: nat)
    requires SplitUpTo(b, t, was, rest, a, h, i)
    requires Bytes(i + 1, a + h) <= |was| && Bytes(i + 1, h) <= |rest|
    requires Bytes(i, a) <= Bytes(i, a + h) && Bytes(i, a + h) + a + h <= |was| && Bytes(i, h) + h <= |rest|
    requires b2 == Copied(b, Bytes(i, a), b, Bytes(i, a + h), a)
    requires t2 == Copied(t, Bytes(i, h), b2, Bytes(i, a + h) + a, h)
    ensures SplitUpTo(b2, t2, was, rest, a, h, i + 1)
  {
    hide Bytes, AudioOf, HapticOf;
    NextFrame(was, a, h, i);
    assert |b| == |was| && |t| == |rest|;
    var src, aud, hap := Bytes(i, a + h), Bytes(i, a), Bytes(i, h);
    Moved(b, b2, was, aud, src, a);
    SameTail(b2, was, aud + a, src + a);
    SameStretch(b2, was, src + a, h);
    Filled(t, t2, rest, hap, was[src + a..src + a + h]);
  }

  /** The split.  `buffer` is compacted in place while `haptic` is filled; the bytes past the audio part
      keep their old values. */
  method Split(buffer: array<byte>, haptic: array<byte>, a: nat, h: nat, n: nat)
    requires buffer != haptic && Bytes(n, a + h) <= buffer.Length && Bytes(n, h) <= haptic.Length
    modifies buffer, haptic
    ensures Bytes(n, a) <= buffer.Length
    ensures buffer[..][..Bytes(n, a)] == AudioOf(old(buffer[..]), a, h, n)
    ensures buffer[..][Bytes(n, a)..] == old(buffer[..])[Bytes(n, a)..]
    ensures haptic[..][..Bytes(n, h)] == HapticOf(old(buffer[..]), a, h, n)
    ensures haptic[..][Bytes(n, h)..] == old(haptic[..])[Bytes(n, h)..]
  {
    hide Bytes, SplitUpTo, AudioOf, HapticOf, Copied;
    ghost var was, rest := buffer[..], haptic[..];
    var src, aud, hap := 0, 0, 0;
    SplitStart(was, rest, a, h);
    for i := 0 to n
      invariant src == Bytes(i, a + h) && aud == Bytes(i, a) && hap == Bytes(i, h)
      invariant src <= buffer.Length && aud <= src && hap <= haptic.Length
      invariant SplitUpTo(buffer[..], haptic[..], was, rest, a, h, i)
    {
      MoreBytes(i + 1, n, a + h);
      MoreBytes(i + 1, n, h);
      NextFrame(was, a, h, i);
      ghost var before, filled := buffer[..], haptic[..];
      CopyWithin(buffer, aud, src, a);
      aud, src := aud + a, src + a;
      CopyAcross(buffer, src, haptic, hap, h);
      hap, src := hap + h, src + h;
      SplitNext(before, buffer[..], filled, haptic[..], was, rest, a, h, i);
    }
    SplitDone(buffer[..], haptic[..], was, rest, a, h, n);
  }

  lemma SplitDone(b: seq<byte>, t: seq<byte>, was: seq<byte>, rest: seq<byte>, a: nat, h: nat, n: nat)
    requires SplitUpTo(b, t, was, rest, a, h, n)
    ensures Bytes(n, a + h) <= |was| == |b| && Bytes(n, a) <= |b| && Bytes(n, h) <= |rest| == |t|
    ensures b[..Bytes(n, a)] == AudioOf(was, a, h, n) && b[Bytes(n, a)..] == was[Bytes(n, a)..]
    ensures t[..Bytes(n, h)] == HapticOf(was, a, h, n) && t[Bytes(n, h)..] == rest[Bytes(n, h)..]
  {}

  lemma Moved(b: seq<byte>, b2: seq<byte>, was: seq<byte>, to: nat, from: nat, count: nat)
    requires |b| == |was| && to <= from && from + count <= |b| && b[to..] == was[to..]
    requires b2 == b[..to] + b[from..from + count] + b[to + count..]
    ensures b2[..to + count] == b[..to] + was[from..from + count] && b2[to + count..] == was[to + count..]
  {
    SameTail(b, was, to, from);
    SameTail(b, was, to, to + count);
    SameStretch(b, was, from, count);
  }

  lemma SameStretch(b: seq<byte>, was: seq<byte>, from: nat, count: nat)
    requires |b| == |was| && from + count <= |b| && b[from..] == was[from..]
    ensures b[from..from + count] == was[from..from + count]
  {
    assert b[from..from + count] == b[from..][..count];
  }

  lemma SameTail(b: seq<byte>, was: seq<byte>, to: nat, from: nat)
    requires |b| == |was| && to <= from <= |b| && b[to..] == was[to..]
    ensures b[from..] == was[from..]
  {
    assert b[from..] == b[to..][from - to..];
  }

  lemma Filled(t: seq<byte>, t2: seq<byte>, rest: seq<byte>, to: nat, last: seq<byte>)
    requires |t| == |rest| && to + |last| <= |t| && t[to..] == rest[to..]
    requires t2 == t[..to] + last + t[to + |last|..]
    ensures t2[..to + |last|] == t[..to] + last && t2[to + |last|..] == rest[to + |last|..]
  {
    SameTail(t, rest, to, to + |last|);
  }

  lemma CopiedByElement(was: seq<byte>, now: seq<byte>, to: nat, from: nat, count: nat)
    requires to <= from && from + count <= |was| == |now|
    requires forall k | 0 <= k < |was| && (k < to || to + count <= k) :: now[k] == was[k]
    requires forall k | to <= k < to + count :: now[k] == was[from + (k - to)]
    ensures now == Copied(was, to, was, from, count)
  {}

  /** The inner loop over audio bytes. */
  method CopyWithin(buffer: array<byte>, to: nat, from: nat, count: nat)
    requires to <= from && from + count <= buffer.Length
    modifies buffer
    ensures buffer[..] == Copied(old(buffer[..]), to, old(buffer[..]), from, count)
  {
    hide Copied;
    ghost var was := buffer[..];
    for j := 0 to count
      invariant forall k | 0 <= k < buffer.Length && (k < to || to + j <= k) :: buffer[k] == was[k]
      invariant forall k | to <= k < to + j :: buffer[k] == was[from + (k - to)]
    {
      buffer[to + j] := buffer[from + j];
    }
    CopiedByElement(was, buffer[..], to, from, count);
  }

  /** The inner loop over haptic bytes. */
  method CopyAcross(source: array<byte>, from: nat, target: array<byte>, to: nat, count: nat)
    requires source != target && from + count <= source.Length && to + count <= target.Length
    modifies target
    ensures target[..] == Copied(old(target[..]), to, source[..], from, count)
  {
    ghost var was := target[..];
    for j := 0 to count
      invariant forall k | 0 <= k < target.Length ::
        target[k] == if to <= k < to + j then source[from + k - to] else was[k]
    {
      target[to + j] := source[from + j];
    }
  }
}
