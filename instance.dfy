/** A placed model (`ModelInstance`): a placement record together with its
    inverse rotation and inverse scale, fixed at construction, and a nullable
    reference to the loaded mesh (`WorldModel`). Its four queries move
    world-space questions into object space, ask the mesh, and move the answer
    back. What is modelled is each query's decision policy: when it returns
    early, when the mesh is asked and with what, and which out-parameters it
    writes and when. The mesh's and the group's own tests are oracles. */
module Instance {
  import opened Bytes
  import opened Geometry
  import opened Spawn

  datatype Option<T> = None | Some(value: T)

  /** What the mesh's ray test answers: hit or not, and the object-space
      distance it leaves in its in/out distance argument. */
  datatype RayHit = RayHit(hit: bool, distance: real)

  /** The caller-held area result. `meshFields` stands for the fields that only
      the mesh fills in (root id, group id, flags, result flag); this core reads
      and writes `groundZ` and `adtId` alone. */
  datatype AreaInfo = AreaInfo(groundZ: real, adtId: int, meshFields: seq<int>)

  /** The mesh's downward point test: hit or not, the distance along the probe,
      and the area result after the mesh has filled in its own fields. */
  datatype PointHit = PointHit(hit: bool, zDist: real, info: AreaInfo)

  /** A mesh sub-group's liquid test: whether it has a liquid surface at the
      point, and that surface's object-space height. */
  datatype LiquidLevel = LiquidLevel(hit: bool, level: real)

  /** A mesh sub-group (`GroupModel`), known here only by its liquid query. */
  datatype GroupModel = GroupModel(getLiquidLevel: Vec -> LiquidLevel)

  /** What the mesh's location test reports about the sub-group it hit. */
  datatype GroupLocationInfo = GroupLocationInfo(rootId: int, hitModel: Option<GroupModel>)

  datatype LocationHit = LocationHit(hit: bool, zDist: real, group: GroupLocationInfo)

  /** The caller-held ground-location result; `hitInstance` is a non-owning
      back-reference to the instance that produced it. */
  datatype LocationInfo = LocationInfo(
    rootId: int,
    hitModel: Option<GroupModel>,
    groundZ: real,
    hitInstance: ModelInstance?)

  /** The loaded mesh (`WorldModel`), known here only by its three queries. */
  datatype WorldModel = WorldModel(
    intersectRay: (Ray, real, bool, bool) -> RayHit,
    intersectPoint: (Vec, Vec, AreaInfo) -> PointHit,
    getLocationInfo: (Vec, Vec) -> LocationHit)

  /** `pi * degrees / 180`. */
  function Radians(g: FloatGeometry, degrees: real): (radians: real)
  {
    g.pi * degrees / 180.0
  }

  /** The area-result update rule: a candidate surface replaces the recorded one
      only when it lies strictly higher, and then brings its tile id with it. */
  function RaiseGround(info: AreaInfo, z: real, adtId: int): (r: AreaInfo)
    ensures r.groundZ >= info.groundZ && r.groundZ >= z
    ensures r.groundZ == info.groundZ || r.groundZ == z
    ensures info.groundZ < z ==> r.groundZ == z && r.adtId == adtId
    ensures z <= info.groundZ ==> r == info
    ensures r.meshFields == info.meshFields
  {
    if info.groundZ < z then info.(groundZ := z, adtId := adtId) else info
  }

  /** A candidate ground surface from one instance: its height and tile id. */
  datatype Candidate = Candidate(z: real, adtId: int)

  /** The rule applied to the candidates of several overlapping instances in
      turn, as the caller that owns the area result does. */
  ghost function RaiseGroundAll(info: AreaInfo, cs: seq<Candidate>): (r: AreaInfo)
    decreases |cs|
  {
    if cs == [] then info else RaiseGroundAll(RaiseGround(info, cs[0].z, cs[0].adtId), cs[1..])
  }

  /** Over any number of candidates the rule keeps the topmost surface: the
      final height is at least the first and every candidate's; if no candidate
      is higher than what was recorded, nothing changes, and otherwise the result
      is the first candidate of greatest height, tile id included. */
  lemma {:induction false} TopmostWins(info: AreaInfo, cs: seq<Candidate>)
    ensures RaiseGroundAll(info, cs).groundZ >= info.groundZ
    ensures forall i :: 0 <= i < |cs| ==> RaiseGroundAll(info, cs).groundZ >= cs[i].z
    ensures RaiseGroundAll(info, cs).meshFields == info.meshFields
    ensures (forall i :: 0 <= i < |cs| ==> cs[i].z <= info.groundZ) ==> RaiseGroundAll(info, cs) == info
    ensures (exists i :: 0 <= i < |cs| && cs[i].z > info.groundZ) ==>
      exists i :: 0 <= i < |cs| && (forall j :: 0 <= j < i ==> cs[j].z < cs[i].z)
        && RaiseGroundAll(info, cs).groundZ == cs[i].z
        && RaiseGroundAll(info, cs).adtId == cs[i].adtId
    decreases |cs|
  {
    if cs != [] {
      var c, tail := cs[0], cs[1..];
      var mid := RaiseGround(info, c.z, c.adtId);
      var r := RaiseGroundAll(info, cs);
      assert r == RaiseGroundAll(mid, tail);
      TopmostWins(mid, tail);
      assert forall i :: 1 <= i < |cs| ==> cs[i] == tail[i - 1];
      if i0 :| 0 <= i0 < |tail| && tail[i0].z > mid.groundZ {
        // a later candidate is higher still: the winner comes from the tail
        var k :| 0 <= k < |tail| && (forall j :: 0 <= j < k ==> tail[j].z < tail[k].z)
          && r.groundZ == tail[k].z && r.adtId == tail[k].adtId;
        assert c.z <= mid.groundZ < tail[i0].z <= r.groundZ;
        assert forall j :: 0 <= j < k + 1 ==> cs[j].z < cs[k + 1].z;
      } else if info.groundZ < c.z {
        // the first candidate is the winner
        assert r == mid;
        assert r.groundZ == cs[0].z && r.adtId == cs[0].adtId;
      }
    }
  }

  class ModelInstance {
    /** The placement this instance was built from. */
    const spawn: ModelSpawn
    /** How the record's floats and the library's float geometry behave. */
    const geometry: FloatGeometry
    /** `iModel`: the loaded mesh, or none while it is not loaded. */
    const model: Option<WorldModel>
    /** `iInvRot`: inverse of the rotation built from the Euler angles. */
    const invRot: Matrix3
    /** `iInvScale`: `1 / iScale`. */
    const invScale: real

    /** `iPos` in world space. */
    function Position(): (v: Vec)
    {
      ValueOf(geometry, spawn.pos)
    }

    /** `iScale`. */
    function ScaleFactor(): (s: real)
    {
      geometry.value(spawn.scale)
    }

    /** `iBound`: the world-space bounding box. */
    function Bound(): (box: AABox<real>)
    {
      BoxValueOf(geometry, spawn.bound)
    }

    /** The transform fields agree with the record they were computed from. */
    ghost predicate Valid()
    {
      ScaleFactor() != 0.0 && invScale * ScaleFactor() == 1.0
      && invRot == geometry.inverseEulerZYX(
           Radians(geometry, geometry.value(spawn.rot.y)),
           Radians(geometry, geometry.value(spawn.rot.x)),
           Radians(geometry, geometry.value(spawn.rot.z)))
    }

    /** `ModelInstance(spawn, model)`: the inverse rotation is built from the
        angles in the order (y, x, z) of the stored rotation, in radians. A zero
        scale, which the source lets through to an infinite inverse, is excluded. */
    constructor (sp: ModelSpawn, g: FloatGeometry, m: Option<WorldModel>)
      requires g.value(sp.scale) != 0.0
      ensures spawn == sp && geometry == g && model == m
      ensures Valid()
    {
      spawn := sp;
      geometry := g;
      model := m;
      invRot := g.inverseEulerZYX(Radians(g, g.value(sp.rot.y)), Radians(g, g.value(sp.rot.x)),
                                  Radians(g, g.value(sp.rot.z)));
      invScale := 1.0 / g.value(sp.scale);
    }

    /** `iInvRot * (p - iPos) * iInvScale`: a world point in object space. */
    function ObjectPoint(p: Vec): (q: Vec)
    {
      Scale(MulVec(invRot, Sub(p, Position())), invScale)
    }

    /** A world ray in object space: the origin as a point, the direction
        rotated only. */
    function ObjectRay(ray: Ray): (r: Ray)
    {
      Ray(ObjectPoint(ray.origin), MulVec(invRot, ray.direction))
    }

    /** The downward probe `(0, 0, -1)` in object space. */
    function ObjectDown(): (d: Vec)
    {
      MulVec(invRot, Vector3(0.0, 0.0, -1.0))
    }

    /** `((v * iInvRot) * iScale + iPos).z`: the world height of an object-space
        point. */
    function WorldZ(v: Vec): (z: real)
    {
      Add(Scale(VecMul(v, invRot), ScaleFactor()), Position()).z
    }

    /** World height of the ground the probe from `pModel` met after `zDist`. */
    function GroundZ(pModel: Vec, zDist: real): (z: real)
    {
      WorldZ(Add(pModel, Scale(ObjectDown(), zDist)))
    }

    /** The area and location queries skip unloaded meshes, M2 models, and
        points outside the bound. */
    predicate AreaQueried(p: Vec)
    {
      model.Some? && !IsM2(spawn.flags) && geometry.contains(Bound(), p)
    }

    /** The ray query skips unloaded meshes and rays that miss the bound. */
    predicate RayQueried(ray: Ray)
    {
      model.Some? && geometry.intersectionTime(ray, Bound()) != Infinite
    }

    /** `intersectRay`: no mesh, or a ray that misses the bound, is no hit and
        leaves `maxDist` as it was, and the mesh is not asked. Otherwise the mesh
        is asked with the ray and the distance in object space; its answer is
        the result, and only on a hit is `maxDist` overwritten, with the mesh's
        distance back in world units.

        The ghost `meshQueried` is set by the method itself in the branch that
        asks the mesh, so it only marks that branch. That the mesh plays no part
        otherwise is what the clause on `!RayQueried(ray)` states: the results
        there do not depend on the mesh at all. The same holds for the flag of
        the two queries below. */
    method IntersectRay(ray: Ray, maxDist: real, stopAtFirstHit: bool, ignoreM2Model: bool)
      returns (hit: bool, maxDist': real, ghost meshQueried: bool)
      requires Valid()
      ensures meshQueried <==> RayQueried(ray)
      ensures !RayQueried(ray) ==> !hit && maxDist' == maxDist
      ensures RayQueried(ray) ==>
        var r := model.value.intersectRay(ObjectRay(ray), maxDist * invScale, stopAtFirstHit, ignoreM2Model);
        hit == r.hit && maxDist' == (if r.hit then r.distance * ScaleFactor() else maxDist)
        && (hit ==> maxDist' * invScale == r.distance)
    {
      meshQueried := false;
      if model.None? {
        return false, maxDist, meshQueried;
      }
      var time := geometry.intersectionTime(ray, Bound());
      if time == Infinite {
        return false, maxDist, meshQueried;
      }
      var modRay := ObjectRay(ray);
      var distance := maxDist * invScale;
      meshQueried := true;
      var r := model.value.intersectRay(modRay, distance, stopAtFirstHit, ignoreM2Model);
      hit := r.hit;
      distance := r.distance;
      maxDist' := maxDist;
      if hit {
        distance := distance * ScaleFactor();
        maxDist' := distance;
        calc {
          maxDist' * invScale;
          r.distance * (invScale * ScaleFactor());
          r.distance;
        }
      }
    }

    /** `intersectPoint`: no mesh, an M2 model, or a point outside the bound
        leaves `info` untouched and the mesh is not asked. Otherwise the mesh is
        asked with the point and the downward probe in object space; on a hit
        the ground it found replaces the recorded one only if strictly higher,
        together with this instance's tile id. */
    method IntersectPoint(p: Vec, info: AreaInfo) returns (info': AreaInfo, ghost meshQueried: bool)
      ensures meshQueried <==> AreaQueried(p)
      ensures !AreaQueried(p) ==> info' == info
      ensures AreaQueried(p) ==>
        var h := model.value.intersectPoint(ObjectPoint(p), ObjectDown(), info);
        info' == (if h.hit then RaiseGround(h.info, GroundZ(ObjectPoint(p), h.zDist), spawn.adtId) else h.info)
    {
      info', meshQueried := info, false;
      if model.None? {
        return;
      }
      if IsM2(spawn.flags) {
        return;
      }
      if !geometry.contains(Bound(), p) {
        return;
      }
      var pModel := ObjectPoint(p);
      var zDirModel := ObjectDown();
      meshQueried := true;
      var h := model.value.intersectPoint(pModel, zDirModel, info);
      info' := h.info;
      if h.hit {
        var modelGround := Add(pModel, Scale(zDirModel, h.zDist));
        var worldZ := WorldZ(modelGround);
        if info'.groundZ < worldZ {
          info' := info'.(groundZ := worldZ, adtId := spawn.adtId);
        }
      }
    }

    /** `GetLocationInfo`: the same gating as `intersectPoint`, with `info`
        untouched and false. Otherwise it reports success exactly when the mesh
        hits and the ground found is strictly higher than the recorded one; only
        then is `info` rewritten, with the sub-group, the new height and this
        instance, and the recorded height has then risen. */
    method GetLocationInfo(p: Vec, info: LocationInfo)
      returns (found: bool, info': LocationInfo, ghost meshQueried: bool)
      ensures meshQueried <==> AreaQueried(p)
      ensures !AreaQueried(p) ==> !found
      ensures !found ==> info' == info
      ensures AreaQueried(p) ==>
        var h := model.value.getLocationInfo(ObjectPoint(p), ObjectDown());
        var z := GroundZ(ObjectPoint(p), h.zDist);
        found == (h.hit && info.groundZ < z)
        && (found ==> info' == LocationInfo(h.group.rootId, h.group.hitModel, z, this))
      ensures found ==> info'.groundZ > info.groundZ && info'.hitInstance == this
    {
      found, info', meshQueried := false, info, false;
      if model.None? {
        return;
      }
      if IsM2(spawn.flags) {
        return;
      }
      if !geometry.contains(Bound(), p) {
        return;
      }
      var pModel := ObjectPoint(p);
      var zDirModel := ObjectDown();
      meshQueried := true;
      var h := model.value.getLocationInfo(pModel, zDirModel);
      if h.hit {
        var modelGround := Add(pModel, Scale(zDirModel, h.zDist));
        var worldZ := WorldZ(modelGround);
        if info.groundZ < worldZ {
          info' := info.(rootId := h.group.rootId, hitModel := h.group.hitModel,
                         groundZ := worldZ, hitInstance := this);
          return true, info', meshQueried;
        }
      }
    }

    /** `GetLiquidLevel`: asks the sub-group recorded in `info` (which must be
        set: it is used without a check) for its liquid surface under the
        point's object-space position. It succeeds exactly when the sub-group
        has one, and only then writes `liqHeight`, with that surface's world
        height. Neither the mesh reference nor the bound is consulted. */
    method GetLiquidLevel(p: Vec, info: LocationInfo, liqHeight: real) returns (ok: bool, liqHeight': real)
      requires info.hitModel.Some?
      ensures
        var pModel := ObjectPoint(p);
        var l := info.hitModel.value.getLiquidLevel(pModel);
        ok == l.hit && liqHeight' == (if ok then WorldZ(Vector3(pModel.x, pModel.y, l.level)) else liqHeight)
    {
      var pModel := ObjectPoint(p);
      var l := info.hitModel.value.getLiquidLevel(pModel);
      if l.hit {
        return true, WorldZ(Vector3(pModel.x, pModel.y, l.level));
      }
      return false, liqHeight;
    }
  }
}
