/** The HCI event reader of bluetooth/libbt-vendor/src/hci_uart.c over a descriptor that may return
    any number of bytes per read. */
module HciEvent {
  import opened Common

  /** A byte source: `stream` is what will ever arrive, `taken` how much has been read, and
      `grants` how much each coming read call is willing to deliver (a non-positive grant, an
      exhausted list or an exhausted stream is an error or end of file). */
  class Descriptor {
    const stream: seq<byte>
    var taken: nat
    var grants: seq<int>

    /** The next read call fails although bytes are left. */
    predicate Refuses()
      reads this
    {
      grants == [] || grants[0] <= 0
    }

    constructor (stream: seq<byte>, grants: seq<int>)
      ensures this.stream == stream && taken == 0 && this.grants == grants
    {
      this.stream, this.taken, this.grants := stream, 0, grants;
    }

    /** `read(fd, buf + at, n)`: delivers between 1 and `n` bytes, or reports failure. */
    method Read(buf: array<byte>, at: nat, n: nat) returns (r: int)
      requires taken <= |stream| && 0 < n && at + n <= buf.Length
      modifies this`taken, this`grants, buf
      ensures old(taken) <= taken <= |stream|
      ensures r <= n
      ensures r > 0 ==> taken == old(taken) + r
      ensures r <= 0 ==> taken == old(taken) && grants == old(grants) && (Refuses() || taken == |stream|)
      ensures forall k | 0 <= k < buf.Length ::
        buf[k] == if at <= k < at + r then stream[old(taken) + (k - at)] else old(buf[k])
      ensures r > 0 ==> |grants| < |old(grants)|
    {
      if Refuses() || taken == |stream| {
        return -1;
      }
      r := if grants[0] < n then grants[0] else n;
      r := if |stream| - taken < r then |stream| - taken else r;
      forall k | 0 <= k < r {
        buf[at + k] := stream[taken + k];
      }
      taken, grants := taken + r, grants[1..];
    }
  }

  // ----- the event a stream carries -----

  /** Index of the first 0x04 at or after `i`; the stream's length when there is none. */
  function PacketStart(s: seq<byte>, i: nat): (k: nat)
    requires i <= |s|
    ensures i <= k <= |s| && (k < |s| ==> s[k] == 0x04)
    ensures forall j | i <= j < k :: s[j] != 0x04
    decreases |s| - i
  {
    if i == |s| || s[i] == 0x04 then i else PacketStart(s, i + 1)
  }

  /** Parameter bytes kept for a caller's buffer of `size` bytes. */
  function Kept(plen: byte, size: int): nat {
    if size < 3 then 0 else if plen < size - 3 then plen else size - 3
  }

  /** The event a stream carries for a buffer of that size: the packet type byte, event code and
      parameter length, whatever the size, and the parameter bytes that fit; None when the stream is
      too short. */
  function Event(s: seq<byte>, size: int): (e: Option<seq<byte>>) {
    var k := PacketStart(s, 0);
    if k + 3 > |s| then None
    else
      var n := 3 + Kept(s[k + 2], size);
      if k + n > |s| then None else Some(s[k..k + n])
  }

  /** The two filling loops of the reader: from `from` bytes in the buffer to `limit` bytes,
      however the reads are cut; -1 when a read fails first. */
  method ReadUpTo(fd: Descriptor, buf: array<byte>, from: nat, limit: nat, ghost start: nat) returns (count: int)
    requires from <= limit <= buf.Length && fd.taken == start + from <= |fd.stream|
    requires forall k | 0 <= k < from :: buf[k] == fd.stream[start + k]
    modifies fd`taken, fd`grants, buf
    ensures count == limit || count == -1
    ensures count == limit ==> fd.taken == start + limit <= |fd.stream|
    ensures count == limit ==> forall k | 0 <= k < limit :: buf[k] == fd.stream[start + k]
    ensures count == -1 ==> fd.Refuses() || |fd.stream| < start + limit
    ensures forall k | 0 <= k < buf.Length && (k < from || limit <= k) :: buf[k] == old(buf[k])
  {
    count := from;
    while count < limit
      invariant from <= count <= limit && fd.taken == start + count <= |fd.stream|
      invariant forall k | 0 <= k < count :: buf[k] == fd.stream[start + k]
      invariant forall k | 0 <= k < buf.Length && (k < from || limit <= k) :: buf[k] == old(buf[k])
    {
      var r := fd.Read(buf, count, limit - count);
      if r <= 0 {
        return -1;
      }
      count := count + r;
    }
  }

  /** The first loop: byte by byte to the packet type, 1 when it is in the buffer and -1 on failure. */
  method ReadPacketType(fd: Descriptor, buf: array<byte>) returns (count: int)
    requires fd.taken == 0 && 0 < buf.Length
    modifies fd`taken, fd`grants, buf
    ensures count == 1 || count == -1
    ensures count == 1 ==> fd.taken == PacketStart(fd.stream, 0) + 1 <= |fd.stream| && buf[0] == 0x04
    ensures count == -1 ==> fd.Refuses() || PacketStart(fd.stream, 0) == |fd.stream|
    ensures forall k | 1 <= k < buf.Length :: buf[k] == old(buf[k])
  {
    ghost var s := fd.stream;
    while true
      invariant fd.taken <= |s| && PacketStart(s, 0) == PacketStart(s, fd.taken)
      invariant forall k | 1 <= k < buf.Length :: buf[k] == old(buf[k])
      decreases |fd.grants|
    {
      var r := fd.Read(buf, 0, 1);
      if r <= 0 {
        return -1;
      }
      if buf[0] == 0x04 {
        return 1;
      }
    }
  }

  /** The reader.  Success returns exactly the event of the stream, however the reads were cut,
      and leaves the descriptor just past it; failure means that a read call failed or that the
      stream ends before its event does.  Three bytes are written even for a size of one or two. */
  method ReadHciEvent(fd: Descriptor, buf: array<byte>, size: int) returns (count: int)
    requires fd.taken == 0
    requires size <= 0 || (3 <= buf.Length && size <= buf.Length)
    modifies fd`taken, fd`grants, buf
    ensures count == -1 || count >= 3
    ensures size <= 0 ==> count == -1
    ensures count >= 3 ==>
      && (count <= size || count == 3)
      && Event(fd.stream, size) == Some(buf[..count])
      && fd.taken == PacketStart(fd.stream, 0) + count
    ensures count == -1 && size > 0 ==> fd.Refuses() || Event(fd.stream, size).None?
    ensures forall k | 0 <= k < buf.Length && k >= size && (k >= 3 || size <= 0) :: buf[k] == old(buf[k])
  {
    if size <= 0 {
      return -1;
    }
    hide PacketStart;
    ghost var s := fd.stream;
    ghost var start := PacketStart(s, 0);
    count := ReadPacketType(fd, buf);
    if count < 0 {
      return;
    }
    count := ReadUpTo(fd, buf, count, 3, start);
    if count < 0 {
      return;
    }
    var remain := if buf[2] < size - 3 then buf[2] else size - 3;
    if remain > 0 {
      assert remain == Kept(s[start + 2], size);
      count := ReadUpTo(fd, buf, count, 3 + remain, start);
      if count < 0 {
        return;
      }
    }
    assert buf[..count] == s[start..start + count];
  }

  lemma {:induction false} PacketStartExtends(s: seq<byte>, more: seq<byte>, i: nat)
    requires i <= |s| && PacketStart(s, i) < |s|
    ensures PacketStart(s + more, i) == PacketStart(s, i)
    decreases |s| - i
  {
    if s[i] != 0x04 {
      PacketStartExtends(s, more, i + 1);
    }
  }

  /** An event is settled by the bytes it ends with: whatever arrives behind it changes nothing. */
  lemma EventIgnoresWhatFollows(s: seq<byte>, more: seq<byte>, size: int)
    requires Event(s, size).Some?
    ensures Event(s + more, size) == Event(s, size)
  {
    var k := PacketStart(s, 0);
    PacketStartExtends(s, more, 0);
    assert (s + more)[k + 2] == s[k + 2];
    var n := 3 + Kept(s[k + 2], size);
    assert (s + more)[k..k + n] == s[k..k + n];
  }

  /** What an event looks like: it begins with the first 0x04 of the stream, its third byte is the
      announced length, and it holds that many parameters cut to the caller's buffer. */
  lemma EventShape(junk: seq<byte>, code: byte, params: seq<byte>, rest: seq<byte>, size: int)
    requires 0x04 !in junk && |params| < 256
    ensures Event(junk + [0x04, code, |params|] + params + rest, size)
         == Some([0x04, code, |params|] + params[..Kept(|params|, size)])
  {
    var s := junk + [0x04, code, |params|] + params + rest;
    SkipsJunk(s, 0, |junk|);
    var n := 3 + Kept(|params|, size);
    assert s[|junk|..|junk| + n] == [0x04, code, |params|] + params[..Kept(|params|, size)];
  }

  lemma {:induction false} SkipsJunk(s: seq<byte>, i: nat, k: nat)
    requires i <= k < |s| && s[k] == 0x04 && 0x04 !in s[i..k]
    ensures PacketStart(s, i) == k
    decreases k - i
  {
    if i < k {
      assert s[i] == s[i..k][0];
      assert s[i + 1..k] == s[i..k][1..];
      SkipsJunk(s, i + 1, k);
    }
  }
}
