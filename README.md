# Model instances of the VMAP collision data

This project models the core of `ModelInstance.cpp` from the CMaNGOS (TBC) game
server's VMAP component in Dafny. That core has two parts:

- **The placement record (`ModelSpawn`) and its binary codec.** A placement says
  which model sits where in the world: flags, tile id (`adtId`), unique id,
  position, rotation, scale, an optional bounding box and the model's file name.
  It is stored as a flat, versionless record:
  `flags:u32, adtId:u16, ID:u32, iPos:3×f32, iRot:3×f32, iScale:f32,
  [6×f32 bound iff flags & MOD_HAS_BOUND], nameLen:u32, name bytes`.
  `readFromFile` and `writeToFile` move one record through a C `FILE*`. They add
  up the item counts that successive `fread`/`fwrite` calls report. The reader
  also takes an empty first read as the end of the file, rejects names longer
  than 500 bytes, and rejects a short name.
- **The four `ModelInstance` queries.** These are the ray test, the area point
  test, the ground-location test and the liquid-level test. Each one delegates
  the geometry to the mesh, but they gate and write differently:
  - The area point test and the ground-location test skip the mesh when it is
    not loaded, when the model is an M2, or when the point is outside the
    bound. They write their results only under a "strictly higher ground wins"
    rule.
  - The ray test skips the mesh only when it is not loaded or when the ray
    misses the bound. It overwrites the distance on any mesh hit, with no
    comparison.
  - The liquid-level test has no gate. It asks the sub-group recorded by an
    earlier location query, and writes the liquid height on any liquid hit.

Modules:

- `Bytes` (`bytes.dfy`): bytes, `u16`, `u32` and their little-endian encodings.
- `Streams` (`streams.dfy`): `InputFile.Read` is `fread` and `OutputFile.Write`
  is `fwrite`, over an in-memory file. A transfer moves up to `size × count`
  bytes and reports whole items. A short read comes from a truncated file. A
  short write comes from a medium with limited capacity. C leaves the value of a
  partly read item indeterminate. The model chooses a byte copy instead:
  `fread` overwrites a prefix of its destination (`Overlay`). This only matters
  on short reads, and no contract promises anything about those.
- `Geometry` (`geometry.dfy`): the G3D vector, box, matrix and ray shapes. The
  vector arithmetic is written out over `real`. The stored 4-byte floats and
  the library's floating-point routines are oracles, held as function-valued
  fields of `FloatGeometry`.
- `Spawn` (`spawn.dfy`): the record as a datatype. `Encode` and `ReadSpawn`
  state the layout on byte sequences. `WriteToFile` and `ReadFromFile` are the
  imperative stream procedures, and each is proved to agree with its byte-level
  specification. Lemmas prove the round trip in both directions, the
  truncation cases and the long-name asymmetry.
- `Instance` (`instance.dfy`): class `ModelInstance`. Its fields are constants
  set by the constructor. Its queries return their by-reference results as in/out
  values. A ghost out-parameter `meshQueried` marks the branch in which the
  mesh is asked. The evidence that the mesh plays no part in the other branches
  is each query's contract for those branches, whose results do not depend on
  the mesh. The mesh (`WorldModel`) and its sub-groups (`GroupModel`) are
  oracles.

The C++ `readFromFile` and `writeToFile` are single functions. The model splits
their straight-line bodies into helper methods (`ReadIdFields`,
`ReadFixedFields`, `ReadBound`, `ReadHeaderRest`, `WriteIdFields`,
`WriteFixedFields`) so that each proof obligation stays small.
The calls, their order and their checks are the source's.

On a failed read the code does not leave the record unmodified. It overwrites
`spawn`'s fields in place as it reads them, so a read that fails part way leaves
a mix of new and old fields. The model follows the code: the fields are
overwritten, partially on a short read, and the contract only promises that the
name is untouched on failure.

## Model

| member | source | states |
|---|---|---|
| `Spawn.ReadSpawn` | src/game/vmap/ModelInstance.cpp:153-197 | The reader's verdict on the remaining bytes. Fewer than 4 bytes is the end of the file. A header shorter than its flags announce is a short header. A declared name length over 500 is rejected after exactly the header bytes. Too few name bytes is a short name. On success it consumes 42 + nameLen bytes (66 + nameLen with a bound), the name is at most 500 bytes, and a record without a bound keeps the destination's bound. |
| `Spawn.HeaderOf` | src/game/vmap/ModelInstance.cpp:156-176 | The header fields are read in order. The bound is replaced exactly when the flags' bit says it is stored (a 66-byte header). The name is left alone. |
| `Spawn.Encode` | src/game/vmap/ModelInstance.cpp:202-217 | The writer's byte layout. Its length is 42 or 66 header bytes plus `nameLen`, and the bound block is present exactly when the flags' bit is set. |
| `Spawn.HeaderBytes` | src/game/vmap/ModelInstance.cpp:202-215 | Everything before the name: 42 bytes, or 66 with the bound. |
| `Spawn.NameLength` | src/game/vmap/ModelInstance.cpp:214 | `uint32 nameLen = name.length()` truncates to 32 bits, i.e. the length modulo 2^32. It equals the length for names shorter than 2^32 bytes. For longer names only `nameLen` name bytes are written. Such a record reads back with a cut name when the wrapped length is at most 500 (`Spawn.WrappedNameReadsBackCut`), and fails as "name too long" otherwise (`Spawn.WrappedNameTooLong`). |
| `Spawn.Restored` | src/game/vmap/ModelInstance.cpp:169-176 | The record a reader recovers: all of it when the bound is stored, otherwise everything except the bound, which stays the destination's. |
| `Spawn.AccumulateRead` | src/game/vmap/ModelInstance.cpp:164-177 | `check += fread(...)`. While every earlier read was complete, the count grows by the full item count and the bytes are the next slice of the file. Once a read falls short, the count stays below the expected total and the file is at its end. |
| `Spawn.ReadIdFields` | src/game/vmap/ModelInstance.cpp:164-165 | When 10 bytes are present, adtId and ID are read from offsets 4 and 6 and the count reaches 3. Otherwise the count stays below 3 and the file is at its end. No other field changes. |
| `Spawn.ReadFixedFields` | src/game/vmap/ModelInstance.cpp:164-168 | When 38 header bytes are present, adtId, ID, iPos, iRot and iScale are read from their offsets and the count reaches 10. Otherwise the count stays below 10. |
| `Spawn.ReadBound` | src/game/vmap/ModelInstance.cpp:170-176 | The two bound reads, into zero-initialised `bLow` and `bHigh`. When 62 bytes are present, the count reaches 16 and the bound is the one stored at offset 38. Otherwise the count stays below 16 and the file is at its end. |
| `Spawn.ReadHeaderRest` | src/game/vmap/ModelInstance.cpp:164-177 | When the whole header is present, the count equals 11 or 17 (matching the flag), the fields are the ones stored, and nameLen is the declared length. Otherwise the count differs from 11 or 17. |
| `Spawn.ReadFromFile` | src/game/vmap/ModelInstance.cpp:153-197 | The result and the new file position are exactly those `ReadSpawn` gives: false at the end of the file, for a short header, for a name over 500 bytes (no name byte read) and for a short name. On success the record is the one decoded. On failure the name is unchanged. |
| `Spawn.AccumulateWrite` | src/game/vmap/ModelInstance.cpp:202-215 | `check += fwrite(...)`. The file holds the prefix of the header that fit, and the count reaches the expected total exactly when all of it fit. |
| `Spawn.WriteIdFields` | src/game/vmap/ModelInstance.cpp:202-204 | Appends flags, adtId and ID as far as they fit. The count is 3 exactly when all 10 bytes were written. |
| `Spawn.FixedBytes` | src/game/vmap/ModelInstance.cpp:202-207 | The fixed fields, flags to iScale, take 38 bytes. |
| `Spawn.WriteFixedFields` | src/game/vmap/ModelInstance.cpp:202-207 | Appends the fixed fields as far as they fit. The count is 10 exactly when all 38 bytes were written. |
| `Spawn.WriteToFile` | src/game/vmap/ModelInstance.cpp:199-219 | Appends the record's bytes as far as the medium takes them. It returns true exactly when the header count matched and all `nameLen` name bytes were written, which is when the whole record fit. |
| `Spawn.WriteThenRead` | src/game/vmap/ModelInstance.cpp:153-218 | Round trip: for a name of at most 500 bytes, reading what was written reproduces flags, adtId, ID, iPos, iRot, iScale and name. It reproduces the bound exactly when the flag is set, and consumes exactly the record, whatever follows it. |
| `Spawn.ReadThenWrite` | src/game/vmap/ModelInstance.cpp:153-218 | Converse: the bytes a successful read consumes are exactly the encoding of the record it returns. |
| `Spawn.TruncatedRecord` | src/game/vmap/ModelInstance.cpp:156-195 | Any record cut short fails to read, whatever the length of its name. Under 4 bytes it is the end of the file, and under a whole header it is a short header. Otherwise it is a short name, or "name too long" when the declared length is over 500. |
| `Spawn.LongNameDoesNotReadBack` | src/game/vmap/ModelInstance.cpp:183-218 | The writer does not enforce the 500-byte limit. A name of 501 bytes up to 2^32 - 1 bytes is written whole, but reading it back fails with "name too long" after the header. |
| `Spawn.WrappedNameReadsBackCut` | src/game/vmap/ModelInstance.cpp:183-218 | The writer reports success for a name of 2^32 bytes or more whose wrapped length is at most 500. The record is written whole and reads back without error, but its name is cut to the first `nameLen` bytes. |
| `Spawn.WrappedNameTooLong` | src/game/vmap/ModelInstance.cpp:183-218 | For a name of 2^32 bytes or more whose wrapped length is over 500, the record reads back as "name too long", right after its header. |
| `Spawn.HeaderReadsBack` | src/game/vmap/ModelInstance.cpp:164-177 | A written header read back gives its fields, its size and its declared name length. |
| `Spawn.HeaderWritesBack` | src/game/vmap/ModelInstance.cpp:202-215 | A header read from a file is, byte for byte, the header of the fields it holds. |
| `Spawn.WriteThenReadFile` | src/game/vmap/ModelInstance.cpp:153-219 | Through real stream calls: writing to a file with room and reading it back both succeed, every byte is consumed and the record comes back. |
| `Streams.InputFile.Read` | src/game/vmap/ModelInstance.cpp:156-189 | `fread`: consumes up to `size × count` bytes and reports whole items. The count is full exactly when all bytes came, and a short read leaves the file at its end. |
| `Streams.OutputFile.Write` | src/game/vmap/ModelInstance.cpp:202-217 | `fwrite`: appends as much as there is room for and reports whole items. The count is full exactly when everything fit. |
| `Instance.ModelInstance.constructor` | src/game/vmap/ModelInstance.cpp:29-33 | `iInvRot` is the inverse Euler-ZYX matrix of the angles taken in the order (y, x, z), converted to radians. `iInvScale × iScale = 1`. |
| `Instance.ModelInstance.IntersectRay` | src/game/vmap/ModelInstance.cpp:35-63 | No mesh or an infinite bound time gives no hit, leaves `pMaxDist` unchanged and never asks the mesh. Otherwise the mesh is asked with the object-space ray and `pMaxDist × iInvScale`, and its hit result is returned. `pMaxDist` is overwritten only on a hit, with the mesh distance × `iScale`, which maps back to the mesh's distance. |
| `Instance.ModelInstance.IntersectPoint` | src/game/vmap/ModelInstance.cpp:65-97 | No mesh, the M2 flag, or a point outside the bound leaves `info` untouched and never asks the mesh. Otherwise, on a mesh hit, `ground_Z` and `adtId` are replaced exactly when the candidate world Z is strictly greater. |
| `Instance.ModelInstance.GetLocationInfo` | src/game/vmap/ModelInstance.cpp:99-136 | Same gating, returning false with `info` untouched. It returns true exactly when the mesh hits and the candidate Z is strictly greater than `ground_Z`. Only then are `rootId`, `hitModel`, `ground_Z` and `hitInstance = this` written, and the recorded height rises. |
| `Instance.ModelInstance.GetLiquidLevel` | src/game/vmap/ModelInstance.cpp:138-151 | Requires `info.hitModel` to be set (it is dereferenced unchecked). It returns true exactly when that group's liquid query succeeds, and only then writes `liqHeight`, as the world Z of the object-space (x, y, level) point. |
| `Instance.RaiseGround` | src/game/vmap/ModelInstance.cpp:91-95 | The update rule: the recorded height becomes the larger of the two. The tile id follows only a strictly higher candidate. A candidate that is not higher changes nothing. |
| `Instance.TopmostWins` | src/game/vmap/ModelInstance.cpp:91-95 | Applied over any sequence of overlapping instances, the rule keeps the highest surface, which is at least every candidate. Nothing changes if no candidate is higher than the start. Otherwise the first candidate of greatest height wins, with its tile id. |

## Left out

- Floating point: the G3D routines `Matrix3::fromEulerAnglesZYX(...).inverse()`, `Ray::intersectionTime`, `AABox::contains` and `G3D::pi()`, and the value a stored float denotes, are oracles. Vector and matrix arithmetic is over exact reals, with no rounding. The claims that the inverse rotation equals the transpose, and that a ray hit only ever tightens the distance, depend on G3D and `WorldModel`, which are not part of this model, so neither is stated.
- Instance.ModelInstance.constructor: requires a non-zero scale, because reals have no infinity. The source lets a zero scale through to an infinite `iInvScale`.
- The mesh collaborators (`WorldModel::IntersectRay`, `IntersectPoint`, `GetLocationInfo`, `GroupModel::GetLiquidLevel`) are oracles. `WorldModel.h` is not part of this model. The mesh's point test receives the area result and hands it back with its own fields filled in. The strictly-higher comparison is made against what the mesh handed back, as in the source.
- The layout of `AreaInfo` and `LocationInfo` and the flag values (`MOD_M2 = 1`, `MOD_HAS_BOUND = 4`) come from headers that are not part of this model. `AreaInfo` carries `ground_Z`, `adtId` and an opaque remainder.
- The mesh reference is fixed at construction. Loading and unloading meshes (`setUnloaded`) lives in a header that is not part of this model.
- Choosing which instances to query, and folding their results, belongs to `MapTree`, which is not part of this model. `TopmostWins` states only what the per-instance rule guarantees to such a fold.
- `FILE*` behaviour beyond whole-item transfers is not modelled: `ferror`, errno, buffering and other partial-write causes. Short writes come only from a fixed capacity. Byte order is fixed to little-endian, and floats are opaque 4-byte words.
- Logging: `DEBUG_LOG` (only under `VMAP_DEBUG`) and `ERROR_LOG` are diagnostics and are left out.
- `AABox(bLow, bHigh)` is taken to store its corners as given. The G3D constructor is not part of this model.
- The 500-byte stack buffer `nameBuff` is represented by the bytes read. The uninitialised local `nameLen` starts as zero bytes; it is only used after a complete read.
- Spawn.ReadFromFile: on failure it promises only that the name is unchanged. The other fields are overwritten as far as the read got (this is modelled), but no contract states their values.
