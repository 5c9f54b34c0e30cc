/** The placement record of one model in the world (`ModelSpawn`) and its flat,
    versionless binary layout:

      flags:u32, adtId:u16, ID:u32, iPos:3 x f32, iRot:3 x f32, iScale:f32,
      [bound low:3 x f32, bound high:3 x f32  -- iff flags has MOD_HAS_BOUND],
      nameLen:u32, nameLen name bytes (no terminator)

    all little-endian. `Encode` and `ReadSpawn` state the layout on byte
    sequences; `WriteToFile` and `ReadFromFile` are the stream procedures, which
    add up the item counts that successive `fwrite`/`fread` calls report, and are
    proved to agree with them. */
module Spawn {
  import opened Bytes
  import opened Geometry
  import opened Streams

  /** Flag bits of a placement. */
  const MOD_M2: u32 := 1
  const MOD_HAS_BOUND: u32 := 4

  /** Longest name a reader accepts; longer means a damaged file. */
  const MAX_NAME_LENGTH: nat := 500

  datatype ModelSpawn = ModelSpawn(
    flags: u32,
    adtId: u16,
    id: u32,
    pos: Vector3<Float>,
    rot: Vector3<Float>,
    scale: Float,
    bound: AABox<Float>,
    name: seq<byte>)

  /** `flags & MOD_M2`: a doodad model, which carries no area information. */
  predicate IsM2(flags: u32)
  {
    (flags / MOD_M2) % 2 == 1
  }

  /** `flags & MOD_HAS_BOUND`: the record stores its bounding box. */
  predicate HasBound(flags: u32)
  {
    (flags / MOD_HAS_BOUND) % 2 == 1
  }

  /** Bytes of the record before the name: 42, or 66 with the bound block. */
  function HeaderSize(hasBound: bool): (n: nat)
  {
    if hasBound then 66 else 42
  }

  /** Items the header reads or writes: 11, or 17 with the bound block. */
  function HeaderItems(hasBound: bool): (n: nat)
  {
    if hasBound then 17 else 11
  }

  /** `uint32 nameLen = spawn.name.length()`: the length truncated to 32 bits. */
  function NameLength(sp: ModelSpawn): (n: u32)
    ensures |sp.name| < TWO_32 ==> n == |sp.name|
  {
    |sp.name| % TWO_32
  }

  function VectorBytes(v: Vector3<Float>): (b: seq<byte>)
    ensures |b| == 12
  {
    v.x + v.y + v.z
  }

  function VectorOf(b: seq<byte>): (v: Vector3<Float>)
    requires |b| == 12
  {
    Vector3(b[..4], b[4..8], b[8..])
  }

  function BoxBytes(box: AABox<Float>): (b: seq<byte>)
    ensures |b| == 24
  {
    VectorBytes(box.low) + VectorBytes(box.high)
  }

  function BoxOf(b: seq<byte>): (box: AABox<Float>)
    requires |b| == 24
  {
    AABox(VectorOf(b[..12]), VectorOf(b[12..]))
  }

  lemma VectorRoundTrip(v: Vector3<Float>)
    ensures VectorOf(VectorBytes(v)) == v
  {
    var b := VectorBytes(v);
    assert b[..4] == v.x && b[4..8] == v.y && b[8..] == v.z;
  }

  lemma VectorBytesOf(b: seq<byte>)
    requires |b| == 12
    ensures VectorBytes(VectorOf(b)) == b
  {
    assert b == b[..4] + b[4..8] + b[8..];
  }

  lemma BoxRoundTrip(box: AABox<Float>)
    ensures BoxOf(BoxBytes(box)) == box
  {
    var b := BoxBytes(box);
    assert b[..12] == VectorBytes(box.low) && b[12..] == VectorBytes(box.high);
    VectorRoundTrip(box.low);
    VectorRoundTrip(box.high);
  }

  lemma BoxBytesOf(b: seq<byte>)
    requires |b| == 24
    ensures BoxBytes(BoxOf(b)) == b
  {
    VectorBytesOf(b[..12]);
    VectorBytesOf(b[12..]);
    assert b == b[..12] + b[12..];
  }

  /** Everything `writeToFile` emits before the name bytes. */
  function HeaderBytes(sp: ModelSpawn): (b: seq<byte>)
    ensures |b| == HeaderSize(HasBound(sp.flags))
  {
    FixedBytes(sp)
      + (if HasBound(sp.flags) then BoxBytes(sp.bound) else [])
      + U32Bytes(NameLength(sp))
  }

  /** The whole record as `writeToFile` lays it out. Its size is 42 bytes plus
      the name, or 66 plus the name when the flags announce a bound. */
  function Encode(sp: ModelSpawn): (b: seq<byte>)
    ensures |b| == HeaderSize(HasBound(sp.flags)) + NameLength(sp)
    ensures |sp.name| < TWO_32 ==> |b| == HeaderSize(HasBound(sp.flags)) + |sp.name|
    ensures b[..HeaderSize(HasBound(sp.flags))] == HeaderBytes(sp)
  {
    HeaderBytes(sp) + sp.name[..NameLength(sp)]
  }

  datatype ReadError = ShortHeader | NameTooLong | ShortName

  /** The outcome of reading one record from the remaining bytes of a file, with
      the number of bytes it consumed: a record, the end of the file (the flags
      read yielded no item), or a damaged record. */
  datatype ReadResult =
    | Decoded(spawn: ModelSpawn, used: nat)
    | EndOfStream(used: nat)
    | Corrupt(error: ReadError, used: nat)

  /** The bytes `s` hold a whole record header: the flags, and then the rest of
      the header the flags call for. */
  predicate HeaderPresent(s: seq<byte>)
  {
    4 <= |s| && HeaderSize(HasBound(U32Of(s[..4]))) <= |s|
  }

  /** The size of the header that starts `s`, judged by its flags. */
  function HeaderSizeOf(s: seq<byte>): (n: nat)
    requires 4 <= |s|
    ensures n == 42 || n == 66
  {
    HeaderSize(HasBound(U32Of(s[..4])))
  }

  /** The declared name length, the last field of a header. */
  function NameLengthOf(s: seq<byte>): (n: u32)
    requires HeaderPresent(s)
  {
    U32Of(s[HeaderSizeOf(s) - 4..HeaderSizeOf(s)])
  }

  /** `into` with every header field replaced by the one stored in `s`; the bound
      is replaced only when the flags say it is stored, and the name is kept. */
  function HeaderOf(s: seq<byte>, into: ModelSpawn): (sp: ModelSpawn)
    requires HeaderPresent(s)
    ensures sp.name == into.name
    ensures HasBound(sp.flags) <==> HeaderSizeOf(s) == 66
    ensures !HasBound(sp.flags) ==> sp.bound == into.bound
  {
    var flags := U32Of(s[..4]);
    into.(flags := flags, adtId := U16Of(s[4..6]), id := U32Of(s[6..10]),
          pos := VectorOf(s[10..22]), rot := VectorOf(s[22..34]), scale := s[34..38],
          bound := if HasBound(flags) then BoxOf(s[38..62]) else into.bound)
  }

  /** What `readFromFile` makes of the bytes `s` when it reads into `into`. A
      record without a bound block leaves the bound of `into` in place. */
  function ReadSpawn(s: seq<byte>, into: ModelSpawn): (r: ReadResult)
    ensures r.used <= |s|
    ensures r.EndOfStream? <==> |s| < 4
    ensures r.Decoded? ==>
      |r.spawn.name| <= MAX_NAME_LENGTH
      && r.used == HeaderSize(HasBound(r.spawn.flags)) + |r.spawn.name|
      && (!HasBound(r.spawn.flags) ==> r.spawn.bound == into.bound)
    ensures r.Corrupt? && r.error == NameTooLong ==> r.used == HeaderSizeOf(s)
  {
    if |s| < 4 then EndOfStream(|s|)
    else if !HeaderPresent(s) then Corrupt(ShortHeader, |s|)
    else
      var hsize, nameLen := HeaderSizeOf(s), NameLengthOf(s);
      if nameLen > MAX_NAME_LENGTH then Corrupt(NameTooLong, hsize)
      else if |s| < hsize + nameLen then Corrupt(ShortName, |s|)
      else Decoded(HeaderOf(s, into).(name := s[hsize..hsize + nameLen]), hsize + nameLen)
  }

  /** The record a reader gets back from `sp`: all of it when the bound is
      stored, otherwise everything but the bound, which stays that of `into`. */
  function Restored(sp: ModelSpawn, into: ModelSpawn): (r: ModelSpawn)
    ensures HasBound(sp.flags) ==> r == sp
    ensures r.(bound := sp.bound) == sp
    ensures !HasBound(sp.flags) ==> r.bound == into.bound
  {
    if HasBound(sp.flags) then sp else sp.(bound := into.bound)
  }

  /** `check += fread(...)`: one header read, advancing the running item count.
      While every earlier read was complete (`off` bytes so far), the count is
      `want` and the file sits `off` bytes on; once one fell short, the count is
      below `want` and the file is at its end. */
  method AccumulateRead(rf: InputFile, size: nat, count: nat, check: nat,
                        ghost s: seq<byte>, ghost p0: nat, ghost off: nat, ghost want: nat)
    returns (check': nat, got: seq<byte>)
    requires rf.Valid() && 0 < size && p0 <= |rf.data| && s == rf.data[p0..]
    requires off <= |s| ==> check == want && rf.pos == p0 + off
    requires off > |s| ==> check < want && rf.pos == |rf.data|
    modifies rf
    ensures rf.Valid() && |got| <= size * count
    ensures off + size * count <= |s| ==>
      check' == want + count && rf.pos == p0 + off + size * count
      && got == s[off..off + size * count]
    ensures off + size * count > |s| ==> check' < want + count && rf.pos == |rf.data|
  {
    var n;
    n, got := rf.Read(size, count);
    check' := check + n;
  }

  /** The first two header reads of `readFromFile` after the flags: adtId and
      ID. */
  method ReadIdFields(rf: InputFile, spawn: ModelSpawn, check: nat,
                      ghost s: seq<byte>, ghost p0: nat)
    returns (check': nat, spawn': ModelSpawn)
    requires rf.Valid() && p0 <= |rf.data| && s == rf.data[p0..]
    requires 4 <= |s| && rf.pos == p0 + 4 && check == 1
    modifies rf
    ensures rf.Valid() && spawn' == spawn.(adtId := spawn'.adtId, id := spawn'.id)
    ensures 10 <= |s| ==>
      check' == 3 && rf.pos == p0 + 10
      && spawn'.adtId == U16Of(s[4..6]) && spawn'.id == U32Of(s[6..10])
    ensures 10 > |s| ==> check' < 3 && rf.pos == |rf.data|
  {
    var got: seq<byte>;
    check', got := AccumulateRead(rf, 2, 1, check, s, p0, 4, 1);
    spawn' := spawn.(adtId := U16Of(Overlay(got, U16Bytes(spawn.adtId))));
    check', got := AccumulateRead(rf, 4, 1, check', s, p0, 6, 2);
    spawn' := spawn'.(id := U32Of(Overlay(got, U32Bytes(spawn'.id))));
  }

  /** The fixed header reads of `readFromFile` after the flags: adtId, ID,
      iPos, iRot and iScale. */
  method ReadFixedFields(rf: InputFile, spawn: ModelSpawn, check: nat,
                         ghost s: seq<byte>, ghost p0: nat)
    returns (check': nat, spawn': ModelSpawn)
    requires rf.Valid() && p0 <= |rf.data| && s == rf.data[p0..]
    requires 4 <= |s| && rf.pos == p0 + 4 && check == 1
    modifies rf
    ensures rf.Valid() && spawn'.flags == spawn.flags && spawn'.bound == spawn.bound
    ensures spawn'.name == spawn.name
    ensures 38 <= |s| ==>
      check' == 10 && rf.pos == p0 + 38
      && spawn' == spawn.(adtId := U16Of(s[4..6]), id := U32Of(s[6..10]),
                          pos := VectorOf(s[10..22]), rot := VectorOf(s[22..34]), scale := s[34..38])
    ensures 38 > |s| ==> check' < 10 && rf.pos == |rf.data|
  {
    var got: seq<byte>;
    ghost var full := 38 <= |s|;
    check', spawn' := ReadIdFields(rf, spawn, check, s, p0);
    check', got := AccumulateRead(rf, 4, 3, check', s, p0, 10, 3);
    spawn' := spawn'.(pos := VectorOf(Overlay(got, VectorBytes(spawn'.pos))));
    assert full ==> spawn'.pos == VectorOf(s[10..22]);
    check', got := AccumulateRead(rf, 4, 3, check', s, p0, 22, 6);
    spawn' := spawn'.(rot := VectorOf(Overlay(got, VectorBytes(spawn'.rot))));
    assert full ==> spawn'.rot == VectorOf(s[22..34]);
    check', got := AccumulateRead(rf, 4, 1, check', s, p0, 34, 9);
    spawn' := spawn'.(scale := Overlay(got, spawn'.scale));
  }

  /** The two bound reads of `readFromFile`, into `bLow` and `bHigh`, which start
      as zero vectors. They follow the fixed fields, 38 bytes into the record. */
  method ReadBound(rf: InputFile, check: nat, ghost s: seq<byte>, ghost p0: nat)
    returns (check': nat, bound: AABox<Float>)
    requires rf.Valid() && p0 <= |rf.data| && s == rf.data[p0..]
    requires 38 <= |s| ==> check == 10 && rf.pos == p0 + 38
    requires 38 > |s| ==> check < 10 && rf.pos == |rf.data|
    modifies rf
    ensures rf.Valid()
    ensures 62 <= |s| ==> check' == 16 && rf.pos == p0 + 62 && bound == BoxOf(s[38..62])
    ensures 62 > |s| ==> check' < 16 && rf.pos == |rf.data|
  {
    var zero := seq(12, _ => 0);
    var low, high;
    check', low := AccumulateRead(rf, 4, 3, check, s, p0, 38, 10);
    check', high := AccumulateRead(rf, 4, 3, check', s, p0, 50, 13);
    bound := AABox(VectorOf(Overlay(low, zero)), VectorOf(Overlay(high, zero)));
    if 62 <= |s| {
      assert s[38..62][..12] == s[38..50] && s[38..62][12..] == s[50..62];
    }
  }

  /** The header reads of `readFromFile` after the flags: the fixed fields, the
      bound block when the flags ask for it, and nameLen. */
  method ReadHeaderRest(rf: InputFile, spawn: ModelSpawn, check: nat,
                        ghost s: seq<byte>, ghost p0: nat, ghost into: ModelSpawn)
    returns (check': nat, spawn': ModelSpawn, nameLen: u32, hasBound: bool)
    requires rf.Valid() && p0 <= |rf.data| && s == rf.data[p0..]
    requires 4 <= |s| && rf.pos == p0 + 4 && check == 1
    requires spawn == into.(flags := U32Of(s[..4]))
    modifies rf
    ensures rf.Valid() && spawn'.name == spawn.name
    ensures hasBound == (HeaderSizeOf(s) == 66)
    ensures HeaderPresent(s) ==>
      check' == HeaderItems(hasBound) && rf.pos == p0 + HeaderSizeOf(s)
      && spawn' == HeaderOf(s, into) && nameLen == NameLengthOf(s)
    ensures !HeaderPresent(s) ==> check' != HeaderItems(hasBound) && rf.pos == |rf.data|
  {
    check', spawn' := ReadFixedFields(rf, spawn, check, s, p0);
    hasBound := HasBound(spawn'.flags);
    ghost var off: nat, want: nat := 38, 10;
    var got: seq<byte>;
    if hasBound {
      var bound;
      check', bound := ReadBound(rf, check', s, p0);
      spawn' := spawn'.(bound := bound);
      off, want := 62, 16;
    }
    check', got := AccumulateRead(rf, 4, 1, check', s, p0, off, want);
    // nameLen is only looked at once all its bytes have been read
    nameLen := U32Of(Overlay(got, [0, 0, 0, 0]));
  }

  /** `ModelSpawn::readFromFile`: reads one record into `spawn`, field by field.
      The new position and the result are those `ReadSpawn` gives for the bytes
      that were left; on success the record is the one `ReadSpawn` decodes. On
      failure the fields read so far have been overwritten and nothing is
      promised about them. */
  method ReadFromFile(rf: InputFile, spawn: ModelSpawn) returns (ok: bool, spawn': ModelSpawn)
    requires rf.Valid()
    modifies rf
    ensures rf.Valid()
    ensures rf.pos == old(rf.pos) + ReadSpawn(old(rf.Remaining()), spawn).used
    ensures ok == ReadSpawn(old(rf.Remaining()), spawn).Decoded?
    ensures ok ==> spawn' == ReadSpawn(old(rf.Remaining()), spawn).spawn
    ensures !ok ==> spawn'.name == spawn.name
  {
    ghost var p0 := rf.pos;
    ghost var s := rf.Remaining();
    var check: nat := 0;
    var got: seq<byte>;
    check, got := AccumulateRead(rf, 4, 1, check, s, p0, 0, 0);
    spawn' := spawn.(flags := U32Of(Overlay(got, U32Bytes(spawn.flags))));
    if check == 0 {
      // end of file
      return false, spawn';
    }
    var nameLen, hasBound;
    check, spawn', nameLen, hasBound := ReadHeaderRest(rf, spawn', check, s, p0, spawn);
    if check != HeaderItems(hasBound) {
      return false, spawn';
    }
    if nameLen > MAX_NAME_LENGTH {
      return false, spawn';
    }
    var name;
    check, name := AccumulateRead(rf, 1, nameLen, 0, s, p0, HeaderSizeOf(s), 0);
    if check != nameLen {
      return false, spawn';
    }
    spawn' := spawn'.(name := name);
    ok := true;
  }

  /** A prefix of `a + b` cut at `room` is the cut of `a` followed by the cut of
      `b` at what room `a` left. */
  lemma PrefixAppend(a: seq<byte>, b: seq<byte>, room: nat)
    ensures a[..Min(|a|, room)] + b[..Min(|b|, room - Min(|a|, room))]
         == (a + b)[..Min(|a + b|, room)]
  {
    if room <= |a| {
      assert (a + b)[..room] == a[..room];
    } else {
      assert (a + b)[..Min(|a + b|, room)] == a + b[..Min(|b|, room - |a|)];
    }
  }

  /** `check += fwrite(...)`: one header write, advancing the running item
      count. The file holds the prefix of `sofar` that fit; the count is `want`
      exactly while all of `sofar` fit. */
  method AccumulateWrite(wf: OutputFile, size: nat, count: nat, src: seq<byte>, check: nat,
                         ghost w0: seq<byte>, ghost room0: nat, ghost sofar: seq<byte>, ghost want: nat)
    returns (check': nat)
    requires wf.Valid() && 0 < size && |src| == size * count
    requires wf.written == w0 + sofar[..Min(|sofar|, room0)]
    requires wf.Room() + Min(|sofar|, room0) == room0
    requires |sofar| <= room0 ==> check == want
    requires |sofar| > room0 ==> check < want
    modifies wf
    ensures wf.Valid()
    ensures wf.written == w0 + (sofar + src)[..Min(|sofar + src|, room0)]
    ensures wf.Room() + Min(|sofar + src|, room0) == room0
    ensures |sofar + src| <= room0 ==> check' == want + count
    ensures |sofar + src| > room0 ==> check' < want + count
  {
    var n := wf.Write(size, count, src);
    check' := check + n;
    PrefixAppend(sofar, src, room0);
  }

  /** The bytes of the fixed header fields, flags to iScale. */
  function FixedBytes(sp: ModelSpawn): (b: seq<byte>)
    ensures |b| == 38
  {
    U32Bytes(sp.flags) + U16Bytes(sp.adtId) + U32Bytes(sp.id)
      + VectorBytes(sp.pos) + VectorBytes(sp.rot) + sp.scale
  }

  /** The bytes of the identifying fields: flags, adtId and ID. */
  function IdBytes(sp: ModelSpawn): (b: seq<byte>)
    ensures |b| == 10
  {
    U32Bytes(sp.flags) + U16Bytes(sp.adtId) + U32Bytes(sp.id)
  }

  /** The first three writes of `writeToFile`: flags, adtId and ID. */
  method WriteIdFields(wf: OutputFile, sp: ModelSpawn, ghost w0: seq<byte>, ghost room0: nat)
    returns (check: nat)
    requires wf.Valid() && wf.written == w0 && wf.Room() == room0
    modifies wf
    ensures wf.Valid()
    ensures wf.written == w0 + IdBytes(sp)[..Min(10, room0)]
    ensures wf.Room() + Min(10, room0) == room0
    ensures 10 <= room0 ==> check == 3
    ensures 10 > room0 ==> check < 3
  {
    ghost var sofar: seq<byte> := [];
    check := AccumulateWrite(wf, 4, 1, U32Bytes(sp.flags), 0, w0, room0, sofar, 0);
    sofar := sofar + U32Bytes(sp.flags);
    check := AccumulateWrite(wf, 2, 1, U16Bytes(sp.adtId), check, w0, room0, sofar, 1);
    sofar := sofar + U16Bytes(sp.adtId);
    check := AccumulateWrite(wf, 4, 1, U32Bytes(sp.id), check, w0, room0, sofar, 2);
  }

  /** The fixed header writes of `writeToFile`: flags, adtId, ID, iPos, iRot and
      iScale. */
  method WriteFixedFields(wf: OutputFile, sp: ModelSpawn, ghost w0: seq<byte>, ghost room0: nat)
    returns (check: nat)
    requires wf.Valid() && wf.written == w0 && wf.Room() == room0
    modifies wf
    ensures wf.Valid()
    ensures wf.written == w0 + FixedBytes(sp)[..Min(38, room0)]
    ensures wf.Room() + Min(38, room0) == room0
    ensures 38 <= room0 ==> check == 10
    ensures 38 > room0 ==> check < 10
  {
    check := WriteIdFields(wf, sp, w0, room0);
    ghost var sofar := IdBytes(sp);
    check := AccumulateWrite(wf, 4, 3, VectorBytes(sp.pos), check, w0, room0, sofar, 3);
    sofar := sofar + VectorBytes(sp.pos);
    check := AccumulateWrite(wf, 4, 3, VectorBytes(sp.rot), check, w0, room0, sofar, 6);
    sofar := sofar + VectorBytes(sp.rot);
    check := AccumulateWrite(wf, 4, 1, sp.scale, check, w0, room0, sofar, 9);
    sofar := sofar + sp.scale;
    assert sofar == FixedBytes(sp);
  }

  /** `ModelSpawn::writeToFile`: appends the record's bytes as far as the medium
      takes them, and reports success exactly when the whole record, header and
      all `nameLen` name bytes, was written. */
  method WriteToFile(wf: OutputFile, sp: ModelSpawn) returns (ok: bool)
    requires wf.Valid()
    modifies wf
    ensures wf.Valid()
    ensures ok == (|Encode(sp)| <= old(wf.Room()))
    ensures wf.written == old(wf.written) + Encode(sp)[..Min(|Encode(sp)|, old(wf.Room()))]
  {
    ghost var w0, room0 := wf.written, wf.Room();
    var check := WriteFixedFields(wf, sp, w0, room0);
    ghost var sofar := FixedBytes(sp);
    ghost var want := 10;
    var hasBound := HasBound(sp.flags);
    if hasBound {
      check := AccumulateWrite(wf, 4, 3, VectorBytes(sp.bound.low), check, w0, room0, sofar, 10);
      sofar := sofar + VectorBytes(sp.bound.low);
      check := AccumulateWrite(wf, 4, 3, VectorBytes(sp.bound.high), check, w0, room0, sofar, 13);
      sofar := sofar + VectorBytes(sp.bound.high);
      want := 16;
    }
    assert sofar == FixedBytes(sp) + (if hasBound then BoxBytes(sp.bound) else []);
    var nameLen := NameLength(sp);
    check := AccumulateWrite(wf, 4, 1, U32Bytes(nameLen), check, w0, room0, sofar, want);
    sofar := sofar + U32Bytes(nameLen);
    assert sofar == HeaderBytes(sp);
    if check != HeaderItems(hasBound) {
      assert Encode(sp)[..room0] == sofar[..room0];
      return false;
    }
    check := AccumulateWrite(wf, 1, nameLen, sp.name[..nameLen], 0, w0, room0, sofar, 0);
    ok := check == nameLen;
  }

  // ---------------------------------------------------------------------------
  // Properties of the layout

  /** A slice within the left part of a concatenation is a slice of that part. */
  lemma SliceLeft(x: seq<byte>, y: seq<byte>, i: nat, j: nat)
    requires i <= j <= |x|
    ensures (x + y)[i..j] == x[i..j]
  {
    assert forall k :: 0 <= k < j - i ==> (x + y)[i..j][k] == x[i..j][k];
  }

  /** The right part of a concatenation is what follows the left part. */
  lemma SliceRight(x: seq<byte>, y: seq<byte>)
    ensures (x + y)[|x|..] == y
  {
    assert forall k :: 0 <= k < |y| ==> (x + y)[|x|..][k] == y[k];
  }

  /** A slice of a prefix is the same slice of the whole. */
  lemma SliceOfPrefix(t: seq<byte>, n: nat, i: nat, j: nat)
    requires i <= j <= n <= |t|
    ensures t[..n][i..j] == t[i..j]
  {
    assert forall k :: 0 <= k < j - i ==> t[..n][i..j][k] == t[i..j][k];
  }

  /** Each fixed field sits at its own offset in bytes that start with
      `FixedBytes`. */
  lemma FixedBytesFields(sp: ModelSpawn, t: seq<byte>)
    requires 38 <= |t| && t[..38] == FixedBytes(sp)
    ensures t[..4] == U32Bytes(sp.flags)
    ensures t[4..6] == U16Bytes(sp.adtId)
    ensures t[6..10] == U32Bytes(sp.id)
    ensures t[10..22] == VectorBytes(sp.pos)
    ensures t[22..34] == VectorBytes(sp.rot)
    ensures t[34..38] == sp.scale
  {
    // the prefixes of the fixed fields, associated as in `FixedBytes`
    var p1 := U32Bytes(sp.flags);
    var p2 := p1 + U16Bytes(sp.adtId);
    var p3 := p2 + U32Bytes(sp.id);
    var p4 := p3 + VectorBytes(sp.pos);
    var p5 := p4 + VectorBytes(sp.rot);
    var fb := p5 + sp.scale;
    assert fb == FixedBytes(sp);
    SliceOfPrefix(t, 38, 0, 4);
    SliceOfPrefix(t, 38, 4, 6);
    SliceOfPrefix(t, 38, 6, 10);
    SliceOfPrefix(t, 38, 10, 22);
    SliceOfPrefix(t, 38, 22, 34);
    SliceOfPrefix(t, 38, 34, 38);
    SliceRight(p5, sp.scale);
    SliceLeft(p5, sp.scale, 22, 34);
    SliceRight(p4, VectorBytes(sp.rot));
    SliceLeft(p5, sp.scale, 10, 22);
    SliceLeft(p4, VectorBytes(sp.rot), 10, 22);
    SliceRight(p3, VectorBytes(sp.pos));
    SliceLeft(p5, sp.scale, 6, 10);
    SliceLeft(p4, VectorBytes(sp.rot), 6, 10);
    SliceLeft(p3, VectorBytes(sp.pos), 6, 10);
    SliceRight(p2, U32Bytes(sp.id));
    SliceLeft(p5, sp.scale, 4, 6);
    SliceLeft(p4, VectorBytes(sp.rot), 4, 6);
    SliceLeft(p3, VectorBytes(sp.pos), 4, 6);
    SliceLeft(p2, U32Bytes(sp.id), 4, 6);
    SliceRight(p1, U16Bytes(sp.adtId));
    SliceLeft(p5, sp.scale, 0, 4);
    SliceLeft(p4, VectorBytes(sp.rot), 0, 4);
    SliceLeft(p3, VectorBytes(sp.pos), 0, 4);
    SliceLeft(p2, U32Bytes(sp.id), 0, 4);
    SliceLeft(p1, U16Bytes(sp.adtId), 0, 4);
  }

  /** A correct header at the front of `s` reads back as the fields it was made
      from, with the size and name length it announces. */
  lemma HeaderReadsBack(sp: ModelSpawn, s: seq<byte>, into: ModelSpawn)
    requires HeaderSize(HasBound(sp.flags)) <= |s|
    requires s[..HeaderSize(HasBound(sp.flags))] == HeaderBytes(sp)
    ensures HeaderPresent(s) && HeaderSizeOf(s) == HeaderSize(HasBound(sp.flags))
    ensures NameLengthOf(s) == NameLength(sp)
    ensures HeaderOf(s, into) == Restored(sp, into).(name := into.name)
  {
    var h := HeaderSize(HasBound(sp.flags));
    var hb := HeaderBytes(sp);
    var fb := FixedBytes(sp);
    assert hb[..38] == fb;
    assert forall i, j :: 0 <= i <= j <= h ==> s[i..j] == hb[i..j];
    FixedBytesFields(sp, s);
    U32RoundTrip(sp.flags);
    U16RoundTrip(sp.adtId);
    U32RoundTrip(sp.id);
    VectorRoundTrip(sp.pos);
    VectorRoundTrip(sp.rot);
    if HasBound(sp.flags) {
      assert s[38..62] == BoxBytes(sp.bound) by { assert hb[38..62] == BoxBytes(sp.bound); }
      BoxRoundTrip(sp.bound);
    }
    assert s[h - 4..h] == U32Bytes(NameLength(sp)) by { assert hb[h - 4..h] == U32Bytes(NameLength(sp)); }
    U32RoundTrip(NameLength(sp));
  }

  /** A header present in `s` is, byte for byte, the header of the fields it
      holds (given a name of the declared length). */
  lemma HeaderWritesBack(s: seq<byte>, into: ModelSpawn, name: seq<byte>)
    requires HeaderPresent(s) && |name| == NameLengthOf(s)
    ensures HeaderBytes(HeaderOf(s, into).(name := name)) == s[..HeaderSizeOf(s)]
  {
    var h := HeaderSizeOf(s);
    var sp := HeaderOf(s, into).(name := name);
    U32BytesOf(s[..4]);
    U16BytesOf(s[4..6]);
    U32BytesOf(s[6..10]);
    VectorBytesOf(s[10..22]);
    VectorBytesOf(s[22..34]);
    U32BytesOf(s[h - 4..h]);
    assert FixedBytes(sp) == s[..38] by {
      assert s[..38] == s[..4] + s[4..6] + s[6..10] + s[10..22] + s[22..34] + s[34..38];
    }
    if HasBound(sp.flags) {
      BoxBytesOf(s[38..62]);
      assert s[..h] == s[..38] + s[38..62] + s[h - 4..h];
    } else {
      assert s[..h] == s[..38] + s[h - 4..h];
    }
  }

  /** Round trip: a record whose name fits the reader's limit reads back as the
      record that was written, all of its bytes consumed, whatever follows it.
      The bound comes back exactly when the flags say it was stored. */
  lemma {:induction false} WriteThenRead(sp: ModelSpawn, rest: seq<byte>, into: ModelSpawn)
    requires |sp.name| <= MAX_NAME_LENGTH
    ensures ReadSpawn(Encode(sp) + rest, into) == Decoded(Restored(sp, into), |Encode(sp)|)
  {
    var s := Encode(sp) + rest;
    var h := HeaderSize(HasBound(sp.flags));
    assert s[..h] == HeaderBytes(sp);
    HeaderReadsBack(sp, s, into);
    assert s[h..h + |sp.name|] == sp.name;
  }

  /** The converse: whatever `ReadSpawn` decodes is the encoding of the record
      it returns; the bytes consumed are exactly that record. */
  lemma {:induction false} ReadThenWrite(s: seq<byte>, into: ModelSpawn)
    requires ReadSpawn(s, into).Decoded?
    ensures Encode(ReadSpawn(s, into).spawn) == s[..ReadSpawn(s, into).used]
  {
    var h, n := HeaderSizeOf(s), NameLengthOf(s);
    var name := s[h..h + n];
    HeaderWritesBack(s, into, name);
    assert s[..h + n] == s[..h] + name;
  }

  /** A record cut short anywhere never decodes, whatever the length of its
      name: before the flags are whole it is the end of the file, before the
      header is whole it is a short header, and after that it is a short name,
      or a name too long when the declared length is over the limit. */
  lemma {:induction false} TruncatedRecord(sp: ModelSpawn, k: nat, into: ModelSpawn)
    requires k < |Encode(sp)|
    ensures !ReadSpawn(Encode(sp)[..k], into).Decoded?
    ensures k < 4 ==> ReadSpawn(Encode(sp)[..k], into) == EndOfStream(k)
    ensures 4 <= k < HeaderSize(HasBound(sp.flags)) ==>
      ReadSpawn(Encode(sp)[..k], into) == Corrupt(ShortHeader, k)
    ensures HeaderSize(HasBound(sp.flags)) <= k && NameLength(sp) <= MAX_NAME_LENGTH ==>
      ReadSpawn(Encode(sp)[..k], into) == Corrupt(ShortName, k)
    ensures HeaderSize(HasBound(sp.flags)) <= k && MAX_NAME_LENGTH < NameLength(sp) ==>
      ReadSpawn(Encode(sp)[..k], into) == Corrupt(NameTooLong, HeaderSize(HasBound(sp.flags)))
  {
    var s := Encode(sp)[..k];
    var h := HeaderSize(HasBound(sp.flags));
    if 4 <= k {
      assert s[..4] == U32Bytes(sp.flags) by {
        assert Encode(sp)[..4] == HeaderBytes(sp)[..4] == FixedBytes(sp)[..4];
      }
      U32RoundTrip(sp.flags);
    }
    if h <= k {
      assert s[..h] == HeaderBytes(sp);
      HeaderReadsBack(sp, s, into);
    }
  }

  /** The writer does not enforce the reader's limit: a record whose name is
      longer than 500 bytes is written whole but reads back as damaged, without
      a single name byte being read. */
  lemma {:induction false} LongNameDoesNotReadBack(sp: ModelSpawn, rest: seq<byte>, into: ModelSpawn)
    requires MAX_NAME_LENGTH < |sp.name| < TWO_32
    ensures |Encode(sp)| == HeaderSize(HasBound(sp.flags)) + |sp.name|
    ensures ReadSpawn(Encode(sp) + rest, into) == Corrupt(NameTooLong, HeaderSize(HasBound(sp.flags)))
  {
    var s := Encode(sp) + rest;
    var h := HeaderSize(HasBound(sp.flags));
    assert s[..h] == HeaderBytes(sp);
    HeaderReadsBack(sp, s, into);
  }

  /** `nameLen` wraps around: a name of 2^32 bytes or more is written with its
      length taken modulo 2^32, and only that many name bytes follow. When the
      wrapped length is within the reader's limit, the record is written whole
      and reads back without error, but with its name cut to the wrapped
      length. */
  lemma {:induction false} WrappedNameReadsBackCut(sp: ModelSpawn, rest: seq<byte>, into: ModelSpawn)
    requires TWO_32 <= |sp.name| && NameLength(sp) <= MAX_NAME_LENGTH
    ensures |Encode(sp)| == HeaderSize(HasBound(sp.flags)) + NameLength(sp)
    ensures ReadSpawn(Encode(sp) + rest, into)
      == Decoded(Restored(sp.(name := sp.name[..NameLength(sp)]), into), |Encode(sp)|)
    ensures ReadSpawn(Encode(sp) + rest, into).spawn.name != sp.name
  {
    var cut := sp.(name := sp.name[..NameLength(sp)]);
    assert NameLength(cut) == NameLength(sp);
    assert Encode(cut) == Encode(sp);
    WriteThenRead(cut, rest, into);
  }

  /** The other side of the wrap-around: when the wrapped length of a name of
      2^32 bytes or more is over the reader's limit, the record reads back as
      damaged right after its header. */
  lemma {:induction false} WrappedNameTooLong(sp: ModelSpawn, rest: seq<byte>, into: ModelSpawn)
    requires TWO_32 <= |sp.name| && MAX_NAME_LENGTH < NameLength(sp)
    ensures ReadSpawn(Encode(sp) + rest, into) == Corrupt(NameTooLong, HeaderSize(HasBound(sp.flags)))
  {
    var s := Encode(sp) + rest;
    assert s[..HeaderSize(HasBound(sp.flags))] == HeaderBytes(sp);
    HeaderReadsBack(sp, s, into);
  }

  /** Writing a record to an empty file with room for it, then reading that
      file from the start, succeeds both times and gives back the record (its
      bound only when stored) with the whole file consumed. */
  method WriteThenReadFile(sp: ModelSpawn, into: ModelSpawn)
    returns (wrote: bool, read: bool, back: ModelSpawn, rest: nat)
    requires |sp.name| <= MAX_NAME_LENGTH
    ensures wrote && read && back == Restored(sp, into) && rest == 0
  {
    var wf := new OutputFile(|Encode(sp)|);
    wrote := WriteToFile(wf, sp);
    assert wf.written == Encode(sp);
    var rf := new InputFile(wf.written);
    read, back := ReadFromFile(rf, into);
    WriteThenRead(sp, [], into);
    assert rf.data[..] + [] == rf.data;
    rest := |rf.data| - rf.pos;
  }
}
