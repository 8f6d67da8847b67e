/** The parcel store of radio-compat/parcel_compat.cpp: a linked list of parcels keyed by owner,
    each with a growing byte buffer, refining a map from owner to content.  Calls are sequential;
    `allocates` parameters say whether the memory requests of a call succeed. */
module ParcelStore {
  import opened Common
  import opened ParcelFormat

  // ----- the abstract map of a list of entries -----

  /** What the store keeps of an owner: its content, and how much its buffer holds. */
  datatype Parcel = Parcel(content: Content, room: nat)

  const NEW := Parcel(EMPTY, 0)

  /** The position lies within the bytes, and those within the buffer. */
  predicate InRoom(p: Parcel) {
    p.content.position <= |p.content.bytes| <= p.room <= SIZE_MAX
  }

  type Entries = seq<(int, Parcel)>

  ghost predicate UniqueOwners(es: Entries) {
    forall j, k | 0 <= j < k < |es| :: es[j].0 != es[k].0
  }

  function MapOf(es: Entries): map<int, Parcel> {
    if es == [] then map[]
    else
      var last := es[|es| - 1];
      MapOf(es[..|es| - 1])[last.0 := last.1]
  }

  lemma {:induction false} MapOfAt(es: Entries, owner: int)
    requires UniqueOwners(es)
    ensures owner in MapOf(es) <==> exists k | 0 <= k < |es| :: es[k].0 == owner
    ensures forall k | 0 <= k < |es| && es[k].0 == owner :: MapOf(es)[owner] == es[k].1
  {
    if es != [] {
      var init, n := es[..|es| - 1], |es| - 1;
      MapOfAt(init, owner);
      assert forall k | 0 <= k < n :: es[k] == init[k];
      assert es[n].0 == owner ==> exists k | 0 <= k < |es| :: es[k].0 == owner;
    }
  }

  lemma {:induction false} MapOfUpdate(es: Entries, i: nat, c: Parcel)
    requires UniqueOwners(es) && i < |es|
    ensures UniqueOwners(es[i := (es[i].0, c)])
    ensures MapOf(es[i := (es[i].0, c)]) == MapOf(es)[es[i].0 := c]
  {
    var r, n := es[i := (es[i].0, c)], |es| - 1;
    if i == n {
      assert r[..n] == es[..n];
    } else {
      assert r[..n] == es[..n][i := (es[i].0, c)];
      MapOfUpdate(es[..n], i, c);
      assert es[n].0 != es[i].0;
    }
  }

  function Without<T>(s: seq<T>, i: nat): (r: seq<T>)
    requires i < |s|
    ensures |r| == |s| - 1
    ensures forall k | 0 <= k < |r| :: r[k] == s[if k < i then k else k + 1]
  {
    s[..i] + s[i + 1..]
  }

  lemma MapOfMore(es: Entries, e: (int, Parcel))
    ensures MapOf(es + [e]) == MapOf(es)[e.0 := e.1]
  {
    assert (es + [e])[..|es|] == es;
  }

  lemma NotIn(es: Entries, owner: int)
    requires UniqueOwners(es) && forall k | 0 <= k < |es| :: es[k].0 != owner
    ensures owner !in MapOf(es)
  {
    MapOfAt(es, owner);
  }

  lemma UniqueWithout(es: Entries, i: nat)
    requires UniqueOwners(es) && i < |es|
    ensures UniqueOwners(Without(es, i))
  {}

  lemma RemoveLast(init: Entries, last: (int, Parcel))
    requires UniqueOwners(init + [last])
    ensures MapOf(init) == MapOf(init + [last]) - {last.0}
  {
    var es := init + [last];
    assert forall k | 0 <= k < |init| :: es[k] == init[k] && es[k].0 != es[|init|].0;
    hide MapOf;
    NotIn(init, last.0);
    MapOfMore(init, last);
  }

  lemma RemoveEarlier(init: Entries, last: (int, Parcel), rest: Entries, owner: int)
    requires MapOf(rest) == MapOf(init) - {owner} && last.0 != owner
    ensures MapOf(rest + [last]) == MapOf(init + [last]) - {owner}
  {
    hide MapOf;
    MapOfMore(rest, last);
    MapOfMore(init, last);
  }

  lemma {:induction false} MapOfRemove(es: Entries, i: nat)
    requires UniqueOwners(es) && i < |es|
    ensures UniqueOwners(Without(es, i))
    ensures MapOf(Without(es, i)) == MapOf(es) - {es[i].0}
  {
    UniqueWithout(es, i);
    var init, last := es[..|es| - 1], es[|es| - 1];
    assert es == init + [last];
    if i == |init| {
      assert Without(es, i) == init;
      RemoveLast(init, last);
    } else {
      assert Without(es, i) == Without(init, i) + [last] && init[i] == es[i];
      assert es[i].0 != es[|init|].0;
      hide MapOf, Without;
      MapOfRemove(init, i);
      RemoveEarlier(init, last, Without(init, i), es[i].0);
    }
  }

  // ----- what one write does -----

  /** The doubling loop: from `capacity` until `end` is covered. */
  function Doubled(capacity: nat, end: nat): (r: nat)
    requires 0 < capacity <= SIZE_MAX && end <= SIZE_MAX
    ensures end <= r <= SIZE_MAX && capacity <= r
    decreases end - capacity
  {
    if capacity >= end then capacity
    else if capacity > SIZE_MAX / 2 then end
    else Doubled(capacity * 2, end)
  }

  /** The capacity after making room up to `end`. */
  function Grown(room: nat, end: nat): (r: nat)
    requires room <= SIZE_MAX && end <= SIZE_MAX
    ensures end <= r <= SIZE_MAX && room <= r
  {
    if end <= room then room else Doubled(if room == 0 then 64 else room, end)
  }

  /** Where the C code is defined: a length whose alignment sum wraps has to be rejected by the first
      test. */
  predicate Defined(c: Content, length: nat) {
    length <= SIZE_MAX && (length <= SIZE_MAX - 3 || length > SIZE_MAX - c.position)
  }

  /** A write goes through exactly when its padded end fits a size_t and the buffer, or the buffer can
      be reallocated. */
  predicate Fits(p: Parcel, source: seq<byte>, grows: bool) {
    && |source| <= SIZE_MAX - 3
    && var end := p.content.position + |Pad(source)|;
       end <= SIZE_MAX && (end <= p.room || grows)
  }

  function WriteTo(p: Parcel, source: seq<byte>, grows: bool): (bool, Parcel)
    requires p.content.position <= |p.content.bytes| && p.room <= SIZE_MAX
  {
    if !Fits(p, source, grows) then (false, p)
    else (true, Parcel(Overwrite(p.content, Pad(source)), Grown(p.room, p.content.position + |Pad(source)|)))
  }

  /** Less than twice what was needed, or the first 64 bytes. */
  lemma {:induction false} DoubledIsTight(capacity: nat, end: nat)
    requires 0 < capacity <= SIZE_MAX && end <= SIZE_MAX
    ensures Doubled(capacity, end) < 2 * end || Doubled(capacity, end) == capacity
    decreases end - capacity
  {
    if capacity < end && capacity <= SIZE_MAX / 2 {
      DoubledIsTight(capacity * 2, end);
    }
  }

  // ----- one parcel -----

  class LegacyParcel {
    const owner: int
    var data: array<byte>   // the buffer; its length is the capacity (empty while it is NULL)
    var size: nat
    var position: nat
    var next: LegacyParcel?
    ghost var content: Content   // the bytes written so far and the position

    ghost predicate Ok()
      reads this, data
    {
      position <= size <= data.Length <= SIZE_MAX && content == ParcelFormat.Content(data[..size], position)
    }

    constructor (owner: int, next: LegacyParcel?)
      ensures this.owner == owner && this.next == next && Ok() && content == EMPTY && fresh(data) && data.Length == 0
    {
      this.owner, this.next, size, position := owner, next, 0, 0;
      data := new byte[0];
      content := EMPTY;
    }

    method SetPosition(position: nat) returns (result: int)
      requires Ok()
      modifies this`position, this`content
      ensures Ok()
      ensures result == if position <= |old(content).bytes| then 0 else -22
      ensures content == if result == 0 then old(content).(position := position) else old(content)
    {
      if position > size {
        return -22;
      }
      this.position := position;
      content := content.(position := position);
      return 0;
    }

    /** The doubling loop. */
    static method Grow(start: nat, end: nat) returns (capacity: nat)
      requires start < end <= SIZE_MAX
      ensures capacity == Grown(start, end)
      ensures capacity < 2 * end || capacity == 64
    {
      capacity := if start == 0 then 64 else start;
      DoubledIsTight(capacity, end);
      ghost var first := capacity;
      while capacity < end
        invariant 0 < capacity <= SIZE_MAX && Doubled(first, end) == Doubled(capacity, end)
        decreases end - capacity
      {
        if capacity > SIZE_MAX / 2 {
          capacity := end;
          break;
        }
        capacity := capacity * 2;
      }
    }

    /** The growth part of a write: room up to `end`, the bytes kept. */
    method Reserve(end: nat, allocates: bool) returns (ok: bool)
      requires Ok() && end <= SIZE_MAX
      modifies this`data
      ensures Ok() && (data == old(data) || fresh(data))
      ensures ok <==> end <= old(data).Length || allocates
      ensures data.Length == if ok then Grown(old(data).Length, end) else old(data).Length
    {
      if end > data.Length {
        var capacity := Grow(data.Length, end);
        if !allocates {
          return false;
        }
        var moved := new byte[capacity];
        forall k | 0 <= k < data.Length {
          moved[k] := data[k];
        }
        assert moved[..size] == data[..size];
        data := moved;
      }
      return true;
    }

    /** `memcpy` of the source and `memset` of the padding behind it. */
    method CopyPadded(source: seq<byte>)
      requires |source| <= SIZE_MAX - 3 && position + |Pad(source)| <= data.Length
      modifies data
      ensures forall k | 0 <= k < data.Length ::
        data[k] == if position <= k < position + |Pad(source)| then Pad(source)[k - position] else old(data[k])
    {
      hide AlignedLength;
      var length, alignedLength := |source|, AlignedLength(|source|);
      forall k | 0 <= k < length {
        data[position + k] := source[k];
      }
      forall k | length <= k < alignedLength {
        data[position + k] := 0;
      }
    }

    /** The copying part of a write. */
    method Store(source: seq<byte>)
      requires Ok() && |source| <= SIZE_MAX - 3 && position + |Pad(source)| <= data.Length
      modifies this`size, this`position, this`content, data
      ensures Ok() && content == Overwrite(old(content), Pad(source))
    {
      hide AlignedLength, Pad;
      ghost var before := content;
      CopyPadded(source);
      content := Overwrite(content, Pad(source));
      position := position + AlignedLength(|source|);
      if position > size {
        size := position;
      }
      assert forall k | 0 <= k < |before.bytes| :: before.bytes[k] == old(data[k]);
      assert forall k | 0 <= k < size :: data[k] == content.bytes[k];
    }

    /** The parcel as the store's map shows it. */
    ghost function State(): Parcel
      reads this
    {
      Parcel(content, data.Length)
    }

    /** `reserve_and_write`: 0 and the padded write exactly when it fits, otherwise -12 and no change. */
    method ReserveAndWrite(source: seq<byte>, allocates: bool) returns (result: int)
      requires Ok() && Defined(content, |source|)
      modifies this`data, this`size, this`position, this`content, data
      ensures Ok() && (data == old(data) || fresh(data))
      ensures old(content).position <= |old(content).bytes| && old(data).Length <= SIZE_MAX
      ensures (result == 0, State()) == WriteTo(old(State()), source, allocates) && (result == 0 || result == -12)
    {
      hide AlignedLength, Grown, Overwrite;
      var length, alignedLength := |source|, AlignedLength(|source|);
      if length > SIZE_MAX - position {
        return -12;
      }
      assert |source| <= AlignedLength(|source|) by { AlignmentCoversUnlessItWraps(|source|); }
      if alignedLength > SIZE_MAX - position {
        return -12;
      }
      var ok := Reserve(position + alignedLength, allocates);
      if !ok {
        return -12;
      }
      Store(source);
      return 0;
    }
  }

  // ----- the store -----

  /** Ghost view of the list, kept from its end to its head so that a new parcel is appended: the
      parcels, their owners and contents, and whose buffer each array is. */
  datatype View = View(spine: seq<LegacyParcel>, entries: Entries, holder: map<array<byte>, int>, repr: set<object>) {
    function Next(i: int): LegacyParcel? {
      if 0 < i <= |spine| then spine[i - 1] else null
    }
  }

  class Store {
    var head: LegacyParcel?
    ghost var view: View

    /** The parcel at place `i` is linked, mirrored and owns its buffer. */
    ghost predicate Placed(i: nat)
      reads this, view.repr
      requires i < |view.spine| == |view.entries|
    {
      var p := view.spine[i];
      && p in view.repr && p.data in view.repr
      && p.next == view.Next(i)
      && p.Ok() && view.entries[i] == (p.owner, p.State())
      && p.data in view.holder && view.holder[p.data] == p.owner
    }

    ghost predicate Valid()
      reads this, view.repr
    {
      && this !in view.repr
      && head == view.Next(|view.spine|)
      && |view.spine| == |view.entries| && UniqueOwners(view.entries)
      && forall i | 0 <= i < |view.spine| :: Placed(i)
    }

    /** What the store means: each owner's bytes, position and room. */
    ghost function Parcels(): map<int, Parcel>
      reads this
    {
      MapOf(view.entries)
    }

    constructor ()
      ensures Valid() && view.repr == {} && Parcels() == map[]
    {
      head, view := null, View([], [], map[], {});
    }

    /** `find_parcel_locked`. */
    method Find(owner: int) returns (p: LegacyParcel?, ghost i: int)
      requires Valid()
      ensures p == null ==> owner !in Parcels()
      ensures p != null ==> 0 <= i < |view.spine| && p == view.spine[i] && p.owner == owner
      ensures p != null ==> owner in Parcels() && Parcels()[owner] == p.State()
    {
      p, i := head, |view.spine| - 1;
      while p != null
        invariant -1 <= i < |view.spine| && p == view.Next(i + 1)
        invariant forall k | i < k < |view.spine| :: view.entries[k].0 != owner
        decreases i
      {
        assert Placed(i);
        if p.owner == owner {
          MapOfAt(view.entries, owner);
          assert view.entries[i].0 == owner;
          return;
        }
        p, i := p.next, i - 1;
      }
      MapOfAt(view.entries, owner);
    }

    /** `find_or_create_parcel`: a new owner starts with an empty parcel; null when it cannot be created. */
    method FindOrCreate(owner: int, allocates: bool) returns (p: LegacyParcel?, ghost i: int)
      requires Valid()
      modifies this
      ensures Valid() && fresh(view.repr - old(view.repr))
      ensures p == null <==> owner !in old(Parcels()) && !allocates
      ensures p == null ==> Parcels() == old(Parcels())
      ensures p != null ==> 0 <= i < |view.spine| && p == view.spine[i] && p.owner == owner
      ensures p != null ==> Parcels() == Known(old(Parcels()), owner)
    {
      hide MapOf;
      p, i := Find(owner);
      if p == null && allocates {
        MapOfAt(view.entries, owner);
        p := new LegacyParcel(owner, head);
        i := |view.spine|;
        MapOfMore(view.entries, (owner, NEW));
        ghost var was := view;
        head := p;
        view := View(was.spine + [p], was.entries + [(owner, NEW)],
                     was.holder[p.data := owner], was.repr + {p, p.data});
        forall k | 0 <= k < |view.spine| ensures Placed(k) {
          if k < i {
            assert old(Placed(k));
          }
        }
      }
    }

    /** `parcel_destructor`: removes the owner's parcel and no other. */
    method Destroy(owner: int)
      requires Valid()
      modifies this, view.repr
      ensures Valid() && view.repr <= old(view.repr)
      ensures Parcels() == old(Parcels()) - {owner}
    {
      MapOfAt(view.entries, owner);
      var previous: LegacyParcel? := null;
      var current := head;
      ghost var i := |view.spine| - 1;
      while current != null && current.owner != owner
        invariant -1 <= i < |view.spine| && current == view.Next(i + 1)
        invariant previous == if i + 1 < |view.spine| then view.spine[i + 1] else null
        invariant forall k | i < k < |view.spine| :: view.entries[k].0 != owner
        decreases i
      {
        assert Placed(i);
        previous, current, i := current, current.next, i - 1;
      }
      if current != null {
        assert Placed(i) && (i + 1 < |view.spine| ==> Placed(i + 1));
        Unlink(previous, current, i);
      }
    }

    /** Takes the parcel at place `i` out of the list. */
    method Unlink(previous: LegacyParcel?, current: LegacyParcel, ghost i: nat)
      requires Valid() && i < |view.spine| && current == view.spine[i]
      requires previous == if i + 1 < |view.spine| then view.spine[i + 1] else null
      modifies this, previous
      ensures Valid() && view.repr == old(view.repr)
      ensures Parcels() == old(Parcels()) - {old(view.entries[i].0)}
    {
      hide MapOf, UniqueOwners, Without;
      ghost var was := view;
      Apart();
      assert Placed(i);
      ghost var behind := current.next;
      if previous == null {
        head := current.next;
      } else {
        previous.next := current.next;
      }
      MapOfRemove(was.entries, i);
      view := was.(spine := Without(was.spine, i), entries := Without(was.entries, i));
      forall k | 0 <= k < |view.spine| ensures Placed(k) {
        ghost var j := if k < i then k else k + 1;
        assert old(Placed(j)) && view.spine[k] == was.spine[j];
        assert k != i ==> view.spine[k] != previous;
        assert view.Next(k) == if k == i then behind else was.Next(j);
      }
    }

    /** Makes the view follow the changed content, and possibly the new buffer, of the parcel at place `i`. */
    ghost method Adopt(i: nat)
      requires this !in view.repr && head == view.Next(|view.spine|)
      requires i < |view.spine| == |view.entries| && UniqueOwners(view.entries)
      requires forall k | 0 <= k < |view.spine| && k != i :: Placed(k) && view.spine[k].data != view.spine[i].data
      requires var p := view.spine[i];
        p in view.repr && p.next == view.Next(i) && p.Ok() && view.entries[i].0 == p.owner
      modifies this`view
      ensures view.spine == old(view.spine) && Valid() && view.repr == old(view.repr) + {view.spine[i].data}
      ensures Parcels() == old(Parcels())[view.spine[i].owner := view.spine[i].State()]
    {
      hide MapOf, UniqueOwners;
      ghost var was, p := view, view.spine[i];
      MapOfUpdate(was.entries, i, p.State());
      view := View(was.spine, was.entries[i := (p.owner, p.State())],
                   was.holder[p.data := p.owner], was.repr + {p.data});
      forall k | 0 <= k < |view.spine| ensures Placed(k) {
        if k != i {
          assert old(Placed(k));
        }
      }
    }

    /** Moves the position of the parcel at place `i`. */
    method MoveTo(p: LegacyParcel, ghost i: nat, position: nat) returns (result: int)
      requires Valid() && i < |view.spine| && view.spine[i] == p
      modifies this, view.repr
      ensures Valid() && view.repr == old(view.repr)
      ensures result == if position <= |old(p.content).bytes| then 0 else -22
      ensures Parcels() == old(Parcels())[p.owner := Parcel(
        if result == 0 then old(p.content).(position := position) else old(p.content), old(p.data.Length))]
    {
      hide MapOf, UniqueOwners;
      Apart();
      assert Placed(i);
      Unmoved(i);
      result := p.SetPosition(position);
      if result != 0 {
        return;
      }
      forall k | 0 <= k < |view.spine| && k != i ensures Placed(k) {
        assert old(Placed(k));
      }
      Adopt(i);
    }

    /** A parcel of the store is the one its map gives the owner. */
    lemma Unmoved(i: nat)
      requires Valid() && i < |view.spine|
      ensures view.spine[i].owner in Parcels() && Parcels()[view.spine[i].owner] == view.spine[i].State()
      ensures Parcels()[view.spine[i].owner := view.spine[i].State()] == Parcels()
      ensures view.spine[i].content.position <= |view.spine[i].content.bytes| && view.spine[i].data.Length <= SIZE_MAX
    {
      assert Placed(i) && view.entries[i].0 == view.spine[i].owner;
      MapOfAt(view.entries, view.spine[i].owner);
    }

    /** Every owner's position lies within its bytes, and those within its room. */
    lemma InBounds(owner: int)
      requires Valid() && owner in Parcels()
      ensures InRoom(Parcels()[owner])
    {
      MapOfAt(view.entries, owner);
      var i :| 0 <= i < |view.entries| && view.entries[i].0 == owner;
      assert Placed(i);
    }

    /** Writes into the parcel at place `i`. */
    method WriteInto(p: LegacyParcel, ghost i: nat, source: seq<byte>, allocates: bool) returns (result: int)
      requires Valid() && i < |view.spine| && view.spine[i] == p && Defined(p.content, |source|)
      modifies this, view.repr
      ensures Valid() && fresh(view.repr - old(view.repr)) && (result == 0 || result == -12)
      ensures old(p.content).position <= |old(p.content).bytes| && old(p.data).Length <= SIZE_MAX
      ensures (result == 0, Parcels()) ==
        (WriteTo(old(p.State()), source, allocates).0,
         old(Parcels())[p.owner := WriteTo(old(p.State()), source, allocates).1])
    {
      hide MapOf, WriteTo, Defined;
      Apart();
      assert Placed(i);
      result := p.ReserveAndWrite(source, allocates);
      forall k | 0 <= k < |view.spine| && k != i ensures Placed(k) && view.spine[k].data != p.data {
        assert old(Placed(k));
      }
      Adopt(i);
    }

    /** `parcel_set_data_position`: only within the bytes written so far. */
    method SetDataPosition(owner: int, position: nat, allocates: bool) returns (result: int)
      requires Valid()
      modifies this, view.repr
      ensures Valid() && fresh(view.repr - old(view.repr))
      ensures result == 0 || result == -22
      ensures owner !in old(Parcels()) && !allocates ==> result == -22 && Parcels() == old(Parcels())
      ensures owner in old(Parcels()) || allocates ==>
        var p := Known(old(Parcels()), owner)[owner];
        && (result == 0 <==> position <= |p.content.bytes|)
        && Parcels()
           == Known(old(Parcels()), owner)[owner :=
                if result == 0 then p.(content := p.content.(position := position)) else p]
    {
      hide MapOf;
      var p;
      ghost var i;
      p, i := FindOrCreate(owner, allocates);
      if p == null {
        return -22;
      }
      Unmoved(i);
      result := MoveTo(p, i, position);
    }

    /** The owner has a parcel or can get one. */
    ghost predicate Owned(owner: int, createAllocates: bool)
      reads this
    {
      owner in Parcels() || createAllocates
    }

    /** The owner's parcel, or the empty one he gets. */
    ghost function ParcelOf(owner: int): (p: Parcel)
      requires Valid()
      reads this, view.repr
      ensures InRoom(p)
    {
      if owner in Parcels() then InBounds(owner); Parcels()[owner] else NEW
    }

    /** `parcel_write`: which writes go through, and the one parcel each write changes. */
    method Write(owner: int, source: seq<byte>, createAllocates: bool, growAllocates: bool) returns (result: int)
      requires Valid() && (Owned(owner, createAllocates) ==> Defined(ParcelOf(owner).content, |source|))
      modifies this, view.repr
      ensures Valid() && fresh(view.repr - old(view.repr))
      ensures (result, Parcels()) ==
        if old(Owned(owner, createAllocates)) then
          (var w := WriteTo(old(ParcelOf(owner)), source, growAllocates);
           (if w.0 then 0 else -12, old(Parcels())[owner := w.1]))
        else (-12, old(Parcels()))
    {
      hide MapOf, WriteTo, Defined;
      ghost var before := ParcelOf(owner);
      var p;
      ghost var i;
      p, i := FindOrCreate(owner, createAllocates);
      if p == null {
        return -12;
      }
      Unmoved(i);
      assert p.State() == before;
      result := WriteInto(p, i, source, growAllocates);
      SameUpdate(old(Parcels()), owner, NEW, WriteTo(before, source, growAllocates).1);
    }

    /** `parcel_write_int32`: the four little-endian bytes. */
    method WriteInt32(owner: int, value: i32, createAllocates: bool, growAllocates: bool) returns (result: int)
      requires Valid()
      modifies this, view.repr
      ensures Valid() && fresh(view.repr - old(view.repr))
      ensures (result, Parcels()) ==
        if old(Owned(owner, createAllocates)) then
          (var w := WriteTo(old(ParcelOf(owner)), Le32(value), growAllocates);
           (if w.0 then 0 else -12, old(Parcels())[owner := w.1]))
        else (-12, old(Parcels()))
    {
      hide MapOf, WriteTo, Le32;
      result := Write(owner, Le32(value), createAllocates, growAllocates);
    }

    /** `parcel_write_string16`: the length word, then the units with a terminating zero unit. */
    method WriteString16(owner: int, value: Option<seq<u16>>, length: nat, createAllocates: bool,
                         wordAllocates: bool, copyAllocates: bool, textAllocates: bool) returns (result: int)
      requires Valid() && (value.Some? ==> length == |value.value|)
      modifies this, view.repr
      ensures Valid() && fresh(view.repr - old(view.repr))
      ensures (result, Parcels()) ==
        if length > 0x7FFF_FFFF then (-22, old(Parcels()))
        else if old(Owned(owner, createAllocates)) then
          (var w := StringTo(old(ParcelOf(owner)), value, wordAllocates, copyAllocates, textAllocates);
           (if w.0 then 0 else -12, old(Parcels())[owner := w.1]))
        else (-12, old(Parcels()))
    {
      hide MapOf, WriteTo, Le32, Terminated;
      if length > 0x7FFF_FFFF || length == SIZE_MAX {
        return -22;
      }
      if value.None? {
        result := WriteInt32(owner, -1, createAllocates, wordAllocates);
        return;
      }
      ghost var before := ParcelOf(owner);
      result := WriteInt32(owner, length, createAllocates, wordAllocates);
      if result != 0 {
        return;
      }
      ghost var between := WriteTo(before, Le32(length), wordAllocates).1;
      if !copyAllocates {
        return -12;
      }
      assert ParcelOf(owner) == between;
      result := Write(owner, Terminated(value.value), true, textAllocates);
      SameUpdate(old(Parcels()), owner, between, WriteTo(between, Terminated(value.value), textAllocates).1);
    }

    /** A client's sequence of writes, all allocations granted: the owner's parcel takes the items until one
        fails.  While their wire form fits a size_t, a new owner's items all go through and are read back
        from its bytes knowing only their kinds. */
    method WriteItems(owner: int, items: seq<Item>) returns (result: int)
      requires Valid() && forall k | 0 <= k < |items| :: Writable(items[k])
      modifies this, view.repr
      ensures Valid() && fresh(view.repr - old(view.repr))
      ensures items == [] ==> result == 0 && Parcels() == old(Parcels())
      ensures items != [] ==>
        var w := ItemsTo(old(ParcelOf(owner)), items);
        result == (if w.0 then 0 else -12) && Parcels() == old(Parcels())[owner := w.1]
      ensures owner !in old(Parcels()) && items != [] && |WireAll(items)| <= SIZE_MAX ==>
        && result == 0 && owner in Parcels()
        && ReadItems(Parcels()[owner].content.bytes, 0, Kinds(items)) == Some(items)
    {
      hide MapOf, WriteTo, StringTo, Le32, ReadItems, WireAll;
      ghost var before := ParcelOf(owner);
      if owner !in Parcels() && |WireAll(items)| <= SIZE_MAX {
        StoredItemsReadBack(items);
      }
      assert items[0..] == items;
      for i := 0 to |items|
        invariant Valid() && fresh(view.repr - old(view.repr))
        invariant ItemsTo(ParcelOf(owner), items[i..]) == ItemsTo(before, items)
        invariant Parcels() == if i == 0 then old(Parcels()) else old(Parcels())[owner := ParcelOf(owner)]
      {
        ghost var p := ParcelOf(owner);
        assert items[i..][0] == items[i] && items[i..][1..] == items[i + 1..];
        result := WriteItem(owner, items[i]);
        SameUpdate(old(Parcels()), owner, p, ItemTo(p, items[i]).1);
        if result != 0 {
          return;
        }
      }
      result := 0;
      assert items[|items|..] == [];
    }

    method WriteItem(owner: int, item: Item) returns (result: int)
      requires Valid() && Writable(item)
      modifies this, view.repr
      ensures Valid() && fresh(view.repr - old(view.repr))
      ensures var w := ItemTo(old(ParcelOf(owner)), item);
        result == (if w.0 then 0 else -12) && Parcels() == old(Parcels())[owner := w.1]
    {
      hide MapOf, WriteTo, StringTo, Le32;
      match item {
        case Int32(v) => result := WriteInt32(owner, v, true, true);
        case NullText => result := WriteString16(owner, None, 0, true, true, true, true);
        case Text(units) => result := WriteString16(owner, Some(units), |units|, true, true, true, true);
      }
    }

    /** Different places hold different parcels with different buffers. */
    lemma Apart()
      requires Valid()
      ensures forall j, k | 0 <= j < k < |view.spine| ::
        view.spine[j] != view.spine[k] && view.spine[j].data != view.spine[k].data
    {
      forall j, k | 0 <= j < k < |view.spine|
        ensures view.spine[j] != view.spine[k] && view.spine[j].data != view.spine[k].data
      {
        assert Placed(j) && Placed(k) && view.entries[j].0 != view.entries[k].0;
      }
    }
  }

  /** The parcels once the owner has one. */
  function Known(m: map<int, Parcel>, owner: int): (r: map<int, Parcel>)
    ensures owner in r
  {
    if owner in m then m else m[owner := NEW]
  }

  lemma SameUpdate(m: map<int, Parcel>, owner: int, first: Parcel, second: Parcel)
    ensures m[owner := first][owner := second] == m[owner := second]
  {}

  // ----- items through the store -----

  lemma WriteToBounds(p: Parcel, source: seq<byte>, grows: bool)
    requires InRoom(p)
    ensures var q := WriteTo(p, source, grows).1; q.content.position <= |q.content.bytes| <= q.room <= SIZE_MAX
  {}

  /** A string write: the length word, the temporary copy, and the text. */
  function StringTo(p: Parcel, value: Option<seq<u16>>, word: bool, copy: bool, text: bool): (bool, Parcel)
    requires InRoom(p)
    requires value.Some? ==> |value.value| <= 0x7FFF_FFFF
  {
    if value.None? then WriteTo(p, Le32(-1), word)
    else
      WriteToBounds(p, Le32(|value.value|), word);
      var (ok, q) := WriteTo(p, Le32(|value.value|), word);
      if ok && copy then WriteTo(q, Terminated(value.value), text) else (false, q)
  }

  /** A string write that goes through writes exactly the chunks of its item, wherever the position is;
      one that fails has written nothing or the length word, and tells which. */
  lemma StringWritesItsChunks(p: Parcel, value: Option<seq<u16>>, word: bool, copy: bool, text: bool)
    requires InRoom(p)
    requires value.Some? ==> |value.value| <= 0x7FFF_FFFF
    ensures var item := if value.None? then NullText else Text(value.value);
      var first: i32 := if value.None? then -1 else |value.value|;
      var (ok, q) := StringTo(p, value, word, copy, text);
      && Writable(item) && (ok ==> (ChunksAreShort(item); q.content == WriteChunks(p.content, Chunks(item))))
      && (!ok ==> q.content == if Fits(p, Le32(first), word) then Overwrite(p.content, Le32(first)) else p.content)
  {
    hide Overwrite, Le32, Terminated, Grown, Fits, WriteChunks;
    var item := if value.None? then NullText else Text(value.value);
    var first: i32 := if value.None? then -1 else |value.value|;
    ChunksAreShort(item);
    WordNeedsNoPadding(first);
    WriteToBounds(p, Le32(first), word);
    if value.None? {
      UnfoldChunks(p.content, [Le32(first)]);
      assert [Le32(first)][1..] == [];
      NoChunks(Overwrite(p.content, Le32(first)));
    } else {
      TwoChunks(p.content, first, Terminated(value.value));
    }
  }

  lemma NoChunks(c: Content)
    requires c.position <= |c.bytes|
    ensures WriteChunks(c, []) == c
  {}

  lemma UnfoldChunks(c: Content, chunks: seq<seq<byte>>)
    requires c.position <= |c.bytes| && chunks != [] && forall k | 0 <= k < |chunks| :: |chunks[k]| <= SIZE_MAX - 3
    ensures WriteChunks(c, chunks) == WriteChunks(Overwrite(c, Pad(chunks[0])), chunks[1..])
  {}

  lemma TwoChunks(c: Content, v: i32, text: seq<byte>)
    requires c.position <= |c.bytes| && |text| <= SIZE_MAX - 3
    ensures WriteChunks(c, [Le32(v), text]) == Overwrite(Overwrite(c, Le32(v)), Pad(text))
  {
    hide Overwrite, Pad, Le32, WriteChunks, AlignedLength;
    WordNeedsNoPadding(v);
    UnfoldChunks(c, [Le32(v), text]);
    var d := Overwrite(c, Le32(v));
    assert [Le32(v), text][1..] == [text];
    UnfoldChunks(d, [text]);
    NoChunks(Overwrite(d, Pad(text)));
    assert [text][1..] == [];
  }

  /** An item written through the store with every allocation granted. */
  lemma ItemToBounds(p: Parcel, item: Item)
    requires InRoom(p) && Writable(item)
    ensures item.Int32? ==> InRoom(WriteTo(p, Le32(item.v), true).1)
    ensures item.NullText? ==> InRoom(StringTo(p, None, true, true, true).1)
    ensures item.Text? ==> InRoom(StringTo(p, Some(item.units), true, true, true).1)
  {
    hide WriteTo, Le32, Terminated;
    match item
    case Int32(v) => WriteToBounds(p, Le32(v), true);
    case NullText => WriteToBounds(p, Le32(-1), true);
    case Text(units) =>
      WriteToBounds(p, Le32(|units|), true);
      WriteToBounds(WriteTo(p, Le32(|units|), true).1, Terminated(units), true);
  }

  function ItemTo(p: Parcel, item: Item): (r: (bool, Parcel))
    requires InRoom(p) && Writable(item)
    ensures InRoom(r.1)
  {
    ItemToBounds(p, item);
    match item
    case Int32(v) => WriteTo(p, Le32(v), true)
    case NullText => StringTo(p, None, true, true, true)
    case Text(units) => StringTo(p, Some(units), true, true, true)
  }

  lemma GrantedWrite(p: Parcel, source: seq<byte>)
    requires p.content.position == |p.content.bytes| <= p.room <= SIZE_MAX && |source| <= SIZE_MAX - 3
    requires |p.content.bytes| + |Pad(source)| <= SIZE_MAX
    ensures var (ok, q) := WriteTo(p, source, true);
      && ok && q.content == Content(p.content.bytes + Pad(source), |p.content.bytes + Pad(source)|)
      && |q.content.bytes| <= q.room <= SIZE_MAX
  {
    hide Pad;
    AppendAtEnd(p.content, Pad(source));
  }

  lemma WordNeedsNoPadding(v: i32)
    ensures Pad(Le32(v)) == Le32(v)
  {}

  /** Granted its allocations, an item at the end goes through while its wire form fits a size_t. */
  lemma GrantedItem(p: Parcel, item: Item)
    requires p.content.position == |p.content.bytes| <= p.room <= SIZE_MAX && Writable(item)
    requires |p.content.bytes| + |Wire(item)| <= SIZE_MAX
    ensures var (ok, q) := ItemTo(p, item);
      && ok && q.content == Content(p.content.bytes + Wire(item), |p.content.bytes + Wire(item)|)
      && |q.content.bytes| <= q.room <= SIZE_MAX
  {
    hide Le32, Terminated, WriteTo, Pad;
    match item
    case Int32(v) =>
      WordNeedsNoPadding(v);
      GrantedWrite(p, Le32(v));
    case NullText =>
      WordNeedsNoPadding(-1);
      GrantedWrite(p, Le32(-1));
    case Text(units) =>
      WordNeedsNoPadding(|units|);
      GrantedWrite(p, Le32(|units|));
      var q := WriteTo(p, Le32(|units|), true).1;
      GrantedWrite(q, Terminated(units));
      assert p.content.bytes + Le32(|units|) + Pad(Terminated(units)) == p.content.bytes + Wire(item);
  }

  /** Items written one after the other until one fails. */
  function ItemsTo(p: Parcel, items: seq<Item>): (bool, Parcel)
    requires InRoom(p)
    requires forall k | 0 <= k < |items| :: Writable(items[k])
    decreases |items|
  {
    if items == [] then (true, p)
    else
      var (ok, q) := ItemTo(p, items[0]);
      if ok then ItemsTo(q, items[1..]) else (false, q)
  }

  lemma {:induction false} GrantedItems(p: Parcel, items: seq<Item>)
    requires p.content.position == |p.content.bytes| <= p.room <= SIZE_MAX
    requires forall k | 0 <= k < |items| :: Writable(items[k])
    requires |p.content.bytes| + |WireAll(items)| <= SIZE_MAX
    ensures ItemsTo(p, items).0 && ItemsTo(p, items).1.content.bytes == p.content.bytes + WireAll(items)
    decreases |items|
  {
    hide ItemTo, Wire;
    if items == [] {
      assert p.content.bytes + [] == p.content.bytes;
    } else {
      GrantedItem(p, items[0]);
      GrantedItems(ItemTo(p, items[0]).1, items[1..]);
      assert p.content.bytes + Wire(items[0]) + WireAll(items[1..]) == p.content.bytes + WireAll(items);
    }
  }

  /** From the store's calls to the reader: with allocations granted, any items whose wire form fits a
      size_t all go through, and are read back from the owner's bytes knowing only their kinds. */
  lemma StoredItemsReadBack(items: seq<Item>)
    requires (forall k | 0 <= k < |items| :: Writable(items[k])) && |WireAll(items)| <= SIZE_MAX
    ensures ItemsTo(NEW, items).0 && ReadItems(ItemsTo(NEW, items).1.content.bytes, 0, Kinds(items)) == Some(items)
  {
    hide ReadItems, ItemsTo;
    GrantedItems(NEW, items);
    WriteItemsAppends(EMPTY, items);
    WrittenItemsReadBack(items);
    assert NEW.content.bytes + WireAll(items) == EMPTY.bytes + WireAll(items);
  }
}
