/** The voxel world (include/world.h, src/world.cpp) and the renderer's instance buffers that
    mirror it (src/renderer.cpp). `World` and `Renderer` hold pointers to each other, so both
    classes live in this one module. */
module VoxelWorld {
  import opened Options
  import opened Bytes
  import opened Glm
  import opened InstanceLayout

  /** Cells per axis of the world; the octree is built with the same edge length. */
  const CHUNK_SIZE: int := 128

  /** The block type that marks a cell as holding no voxel. */
  const EMPTY_BLOCK: int32 := -1

  datatype Cell = Cell(x: int, y: int, z: int)

  /** A voxel: its position as floats, its block type and its order index, the record of the
      instance buffer it was written to. */
  datatype Cube = Cube(position: Vec3, blockType: int32, order: int32)

  /** The octree's default value, `Cube{glm::vec3(0, 0, 0), -1}` (order value-initialised). */
  const EMPTY_CUBE: Cube := Cube(ZERO3, EMPTY_BLOCK, 0)

  /** A value-initialised `Cube`, what `std::vector<Cube> rv(n)` is filled with. */
  const BLANK_CUBE: Cube := Cube(ZERO3, 0, 0)

  predicate InRange(c: Cell) {
    0 <= c.x < CHUNK_SIZE && 0 <= c.y < CHUNK_SIZE && 0 <= c.z < CHUNK_SIZE
  }

  predicate IsVoxel(cube: Cube) {
    cube.blockType != EMPTY_BLOCK
  }

  /** `glm::vec3 pos(x, y, z)`: the cell's coordinates converted to floats. */
  function CellPosition(c: Cell): Vec3
    requires InRange(c)
  {
    Vec3(IntToFloat32(c.x), IntToFloat32(c.y), IntToFloat32(c.z))
  }

  /** The float position of a cell determines the cell: no two cells share a position. */
  lemma CellPositionInjective(a: Cell, b: Cell)
    requires InRange(a) && InRange(b) && CellPosition(a) == CellPosition(b)
    ensures a == b
  {
    IntToFloat32RoundTrip(a.x);
    IntToFloat32RoundTrip(b.x);
    IntToFloat32RoundTrip(a.y);
    IntToFloat32RoundTrip(b.y);
    IntToFloat32RoundTrip(a.z);
    IntToFloat32RoundTrip(b.z);
  }

  /** Cell `c` comes before cell (x, y, z) in the x-major, then y, then z order of the loops of
      `getCubes`. */
  predicate VisitedBefore(c: Cell, x: int, y: int, z: int) {
    c.x < x || (c.x == x && (c.y < y || (c.y == y && c.z < z)))
  }

  /** One instanced draw call: vertices per instance and number of instances. */
  datatype DrawCall = DrawCall(vertexCount: int, instanceCount: int)

  /** Each cube added is remembered, by order index, with its cell; each stored cell holds the
      cube most recently added there. */
  ghost predicate CubesInv(count: int, added: seq<Cube>, addedAt: seq<Cell>, cubes: map<Cell, Cube>) {
    && count == |added| == |addedAt|
    && (forall k :: 0 <= k < |added| ==>
          added[k].order as int == k && InRange(addedAt[k]) && addedAt[k] in cubes
          && added[k].position == CellPosition(addedAt[k]))
    && (forall c :: c in cubes ==>
          InRange(c) && 0 <= cubes[c].order as int < count
          && added[cubes[c].order] == cubes[c] && addedAt[cubes[c].order] == c)
  }

  /** App positions and slots are in one-to-one correspondence with 0 .. |appCubes| - 1. */
  ghost predicate AppsInv(appSlots: seq<Vec3>, appCubes: map<Vec3, int>) {
    && |appSlots| == |appCubes|
    && (forall k :: 0 <= k < |appSlots| ==> appSlots[k] in appCubes && appCubes[appSlots[k]] == k)
    && (forall p :: p in appCubes ==> 0 <= appCubes[p] < |appSlots| && appSlots[appCubes[p]] == p)
  }

  /** Every record of a voxel buffer from `from` on that the buffer holds shows the cube added
      with that order index. */
  ghost predicate VoxelsShown(buf: seq<byte>, from: nat, added: seq<Cube>) {
    forall k :: from <= k < |added| && HasInstance(buf, k) ==>
      InstanceAt(buf, k) == Instance(added[k].position, added[k].blockType)
  }

  /** Every app slot from `from` on that the buffer holds shows its position and its number. */
  ghost predicate AppsShown(buf: seq<byte>, from: nat, appSlots: seq<Vec3>) {
    forall k :: from <= k < |appSlots| && HasInstance(buf, k) && k <= INT32_MAX ==>
      InstanceAt(buf, k) == Instance(appSlots[k], k as int32)
  }

  /** Storing a new cube, with the next order index, at an in-range cell keeps the store
      consistent, whether or not the cell held a cube before. */
  lemma AddKeepsCubesInv(added: seq<Cube>, addedAt: seq<Cell>, cubes: map<Cell, Cube>, c: Cell, blockType: int32)
    requires CubesInv(|added|, added, addedAt, cubes) && InRange(c) && |added| <= INT32_MAX
    ensures var cube := Cube(CellPosition(c), blockType, |added| as int32);
      CubesInv(|added| + 1, added + [cube], addedAt + [c], cubes[c := cube])
  {
    var cube := Cube(CellPosition(c), blockType, |added| as int32);
    var added', addedAt', cubes' := added + [cube], addedAt + [c], cubes[c := cube];
    forall k | 0 <= k < |added'|
      ensures added'[k].order as int == k && InRange(addedAt'[k]) && addedAt'[k] in cubes'
              && added'[k].position == CellPosition(addedAt'[k])
    {
      if k < |added| {
        assert added'[k] == added[k] && addedAt'[k] == addedAt[k];
      }
    }
  }

  /** Writing the next cube to its record keeps every record from `from` on showing its cube. */
  lemma AddKeepsVoxelsShown(before: seq<byte>, from: nat, added: seq<Cube>, cube: Cube)
    requires VoxelsShown(before, from, added)
    ensures VoxelsShown(WriteInstance(before, |added|, cube.position, cube.blockType), from, added + [cube])
  {
    var after := WriteInstance(before, |added|, cube.position, cube.blockType);
    var added' := added + [cube];
    forall k | from <= k < |added'| && HasInstance(after, k)
      ensures InstanceAt(after, k) == Instance(added'[k].position, added'[k].blockType)
    {
      if k == |added| {
        WriteThenRead(before, k, cube.position, cube.blockType);
      } else {
        WriteKeepsOthers(before, |added|, cube.position, cube.blockType, k);
      }
    }
  }

  /** Writing slot `|slots|` with `pos`, as `addAppCube` does both for a new position and for one
      already registered, keeps every slot from `from` on showing its position. */
  lemma AddKeepsAppsShown(before: seq<byte>, from: nat, slots: seq<Vec3>, slots': seq<Vec3>, pos: Vec3)
    requires AppsShown(before, from, slots) && |slots| <= INT32_MAX
    requires slots' == slots || slots' == slots + [pos]
    ensures AppsShown(WriteInstance(before, |slots|, pos, |slots| as int32), from, slots')
  {
    var index := |slots|;
    var after := WriteInstance(before, index, pos, index as int32);
    forall k | from <= k < |slots'| && HasInstance(after, k) && k <= INT32_MAX
      ensures InstanceAt(after, k) == Instance(slots'[k], k as int32)
    {
      if k == index {
        WriteThenRead(before, k, pos, index as int32);
      } else {
        WriteKeepsOthers(before, index, pos, index as int32, k);
      }
    }
  }

  class World {
    var renderer: Renderer?
    var cubeCount: int32
    /** App surface positions and their dense slot indices. */
    var appCubes: map<Vec3, int>
    /** The octree, as the cells ever written; every other cell holds `EMPTY_CUBE`. */
    var cubes: map<Cell, Cube>

    /** Every cube added by `addCube`, by order index, and its cell, whether or not a renderer
        was attached at the time. */
    ghost var added: seq<Cube>
    ghost var addedAt: seq<Cell>
    /** The inverse of `appCubes`: the position of each app slot. */
    ghost var appSlots: seq<Vec3>
    /** How many cubes and app slots existed when the current renderer was attached: the
        renderer only ever saw the ones after these. */
    ghost var voxelsMirroredFrom: nat
    ghost var appsMirroredFrom: nat

    function CubeAt(c: Cell): Cube
      reads this
    {
      if c in cubes then cubes[c] else EMPTY_CUBE
    }

    ghost function VoxelBuffer(): set<object>
      reads this
    {
      if renderer == null then {} else {renderer.instance}
    }

    ghost function AppBuffer(): set<object>
      reads this
    {
      if renderer == null then {} else {renderer.appInstance}
    }

    ghost predicate Valid()
      reads this, VoxelBuffer(), AppBuffer()
    {
      && CubesInv(cubeCount as int, added, addedAt, cubes)
      && AppsInv(appSlots, appCubes)
      && voxelsMirroredFrom <= |added| && appsMirroredFrom <= |appSlots|
      && (renderer != null ==>
            && renderer.Valid()
            && VoxelsShown(renderer.instance[..], voxelsMirroredFrom, added)
            && AppsShown(renderer.appInstance[..], appsMirroredFrom, appSlots))
    }

    /** Order index `k` still belongs to a voxel: the cube added with it has not been
        overwritten and is not the empty block type. */
    ghost predicate Live(k: int)
      reads this
    {
      0 <= k < |added| && k < |addedAt| && addedAt[k] in cubes
      && cubes[addedAt[k]].order as int == k && IsVoxel(added[k])
    }

    /** A new world: every cell empty, no cube counted, no app, no renderer. */
    constructor()
      ensures Valid()
      ensures renderer == null && cubeCount == 0 && appCubes == map[] && added == []
      ensures forall c :: InRange(c) ==> CubeAt(c) == EMPTY_CUBE && GetVoxel(c) == None
    {
      renderer := null;
      cubeCount := 0;
      appCubes := map[];
      cubes := map[];
      added, addedAt, appSlots := [], [], [];
      voxelsMirroredFrom, appsMirroredFrom := 0, 0;
    }

    method AttachRenderer(r: Renderer?)
      requires Valid()
      requires r != null ==> r.Valid()
      modifies this
      ensures Valid()
      ensures renderer == r
      ensures voxelsMirroredFrom == |added| && appsMirroredFrom == |appSlots|
      ensures cubeCount == old(cubeCount) && cubes == old(cubes) && appCubes == old(appCubes)
      ensures added == old(added) && addedAt == old(addedAt) && appSlots == old(appSlots)
    {
      renderer := r;
      voxelsMirroredFrom := |added|;
      appsMirroredFrom := |appSlots|;
    }

    /** `getVoxel`: the cube at an in-range cell, or nothing when it holds the empty type. */
    function GetVoxel(c: Cell): (r: Option<Cube>)
      reads this
      requires InRange(c)
      ensures r == None <==> CubeAt(c).blockType == EMPTY_BLOCK
      ensures r != None ==> r.value == CubeAt(c)
    {
      var cube := CubeAt(c);
      if cube.blockType != EMPTY_BLOCK then Some(cube) else None
    }

    /** A voxel found at a cell sits at that cell's position and is the last cube added there. */
    lemma VoxelIsLatestAddition(c: Cell)
      requires Valid() && InRange(c) && GetVoxel(c) != None
      ensures GetVoxel(c).value.position == CellPosition(c)
      ensures var k := GetVoxel(c).value.order as int; 0 <= k < |added| && Live(k) && addedAt[k] == c
    {
      var k := cubes[c].order as int;
      assert added[k] == cubes[c];
    }

    /** `size()`: the number of `addCube` calls, occupied cells or not. */
    function Size(): (n: int)
      reads this, VoxelBuffer(), AppBuffer()
      requires Valid()
      ensures n == |added|
    {
      cubeCount as int
    }

    /** `addCube`: the cube gets the current count as its order index, is stored at its
        cell, and is written to that record of the attached renderer's voxel buffer. */
    method AddCube(x: int, y: int, z: int, blockType: int32)
      requires Valid() && InRange(Cell(x, y, z)) && cubeCount as int < INT32_MAX
      modifies this, VoxelBuffer()
      ensures Valid()
      ensures renderer == old(renderer)
      ensures var cube := Cube(CellPosition(Cell(x, y, z)), blockType, old(cubeCount));
        && cubeCount as int == old(cubeCount) as int + 1
        && cubes == old(cubes)[Cell(x, y, z) := cube]
        && added == old(added) + [cube]
        && (renderer != null ==>
              renderer.instance[..] == WriteInstance(old(renderer.instance[..]), old(cubeCount) as int,
                                                     cube.position, blockType))
      ensures GetVoxel(Cell(x, y, z)) ==
        if blockType == EMPTY_BLOCK then None
        else Some(Cube(CellPosition(Cell(x, y, z)), blockType, old(cubeCount)))
      ensures forall c :: c != Cell(x, y, z) ==> CubeAt(c) == old(CubeAt(c))
      ensures appCubes == old(appCubes) && appSlots == old(appSlots)
      ensures voxelsMirroredFrom == old(voxelsMirroredFrom) && appsMirroredFrom == old(appsMirroredFrom)
    {
      var orderIndex := cubeCount;
      var cell := Cell(x, y, z);
      var cube := Cube(CellPosition(cell), blockType, orderIndex);
      AddKeepsCubesInv(added, addedAt, cubes, cell, blockType);
      ghost var apps: seq<byte> := [];
      if renderer != null {
        apps := renderer.appInstance[..];
        AddKeepsVoxelsShown(renderer.instance[..], voxelsMirroredFrom, added, cube);
      }
      cubeCount := cubeCount + 1;
      cubes := cubes[cell := cube];
      added := added + [cube];
      addedAt := addedAt + [cell];
      forall c | c != cell
        ensures CubeAt(c) == old(CubeAt(c))
      {
      }
      if renderer != null {
        renderer.AddCube(orderIndex, cube);
        assert renderer.appInstance[..] == apps;
      }
    }

    /** `addAppCube`: a new position gets the next dense slot (the map's size); a position that
        is already registered keeps its slot, since `insert` does not overwrite. Either way the
        renderer is told to write slot `size` with the given position. */
    method AddAppCube(pos: Vec3)
      requires Valid() && |appCubes| < INT32_MAX
      modifies this, AppBuffer()
      ensures Valid()
      ensures renderer == old(renderer)
      ensures appCubes == if pos in old(appCubes) then old(appCubes)
                          else old(appCubes)[pos := |old(appCubes)|]
      ensures pos in appCubes && 0 <= appCubes[pos] < |appCubes|
      ensures renderer != null ==>
                renderer.appInstance[..] == WriteInstance(old(renderer.appInstance[..]), |old(appCubes)|,
                                                          pos, |old(appCubes)| as int32)
      ensures cubeCount == old(cubeCount) && cubes == old(cubes)
      ensures added == old(added) && voxelsMirroredFrom == old(voxelsMirroredFrom)
      ensures appsMirroredFrom == old(appsMirroredFrom)
    {
      var index := |appCubes| as int32;
      ghost var slots := appSlots;
      if pos !in appCubes {
        appCubes := appCubes[pos := index as int];
        appSlots := appSlots + [pos];
      }
      if renderer != null {
        AddKeepsAppsShown(renderer.appInstance[..], appsMirroredFrom, slots, appSlots, pos);
        renderer.AddAppCube(index, pos);
      }
    }

    /** What slot `k` of `getCubes`'s result holds once the loops reach cell (x, y, z): the cube
        with order index `k` if it is live and its cell has been visited, else a blank cube. */
    ghost function Expected(k: int, x: int, y: int, z: int): Cube
      reads this
    {
      if Live(k) && VisitedBefore(addedAt[k], x, y, z) then added[k] else BLANK_CUBE
    }

    /** Visiting cell (x, y, z) changes the expected contents in one slot at most: the order
        index of the voxel stored there, which then holds that voxel. */
    lemma ExpectedStep(k: int, x: int, y: int, z: int)
      requires Valid() && InRange(Cell(x, y, z))
      ensures var cube := CubeAt(Cell(x, y, z));
        Expected(k, x, y, z + 1) ==
          if cube.blockType != EMPTY_BLOCK && k == cube.order as int then cube else Expected(k, x, y, z)
    {
      var c := Cell(x, y, z);
      var cube := CubeAt(c);
      if Live(k) && addedAt[k] == c {
        assert cubes[c] == added[k];
      }
      if cube.blockType != EMPTY_BLOCK && k == cube.order as int {
        assert c in cubes && addedAt[k] == c;
      }
    }

    /** The end of a z-row is the start of the next row, and the end of a y-plane the start of
        the next plane: no in-range cell lies in between. */
    lemma ExpectedRowEnd(k: int, x: int, y: int)
      requires Valid()
      ensures Expected(k, x, y, CHUNK_SIZE) == Expected(k, x, y + 1, 0)
      ensures Expected(k, x, CHUNK_SIZE, 0) == Expected(k, x + 1, 0, 0)
    {
      if Live(k) {
        assert InRange(addedAt[k]);
      }
    }

    /** Before the first cell nothing has been visited; after the last, every live cube has. */
    lemma ExpectedBounds(k: int)
      requires Valid()
      ensures Expected(k, 0, 0, 0) == BLANK_CUBE
      ensures Expected(k, CHUNK_SIZE, 0, 0) == if Live(k) then added[k] else BLANK_CUBE
    {
      if Live(k) {
        assert InRange(addedAt[k]);
      }
    }

    /** `getCubes`: every voxel at the position given by its order index, every other slot a
        blank cube. `octreeSize` is the octree's `size()`, which sizes the result; every live
        order index must fall inside it, since the source writes `rv[cube.order]` unchecked. */
    method GetCubes(octreeSize: nat) returns (rv: seq<Cube>)
      requires Valid()
      requires forall c :: c in cubes && IsVoxel(cubes[c]) ==> cubes[c].order as int < octreeSize
      ensures |rv| == octreeSize
      ensures forall k :: 0 <= k < octreeSize ==> rv[k] == if Live(k) then added[k] else BLANK_CUBE
      ensures forall c :: c in cubes && IsVoxel(cubes[c]) ==> rv[cubes[c].order] == cubes[c]
    {
      var a := new Cube[octreeSize](_ => BLANK_CUBE);
      forall k | 0 <= k < a.Length
        ensures a[k] == Expected(k, 0, 0, 0)
      {
        ExpectedBounds(k);
      }
      var x := 0;
      while x < CHUNK_SIZE
        invariant 0 <= x <= CHUNK_SIZE
        invariant forall k :: 0 <= k < a.Length ==> a[k] == Expected(k, x, 0, 0)
      {
        var y := 0;
        while y < CHUNK_SIZE
          invariant 0 <= y <= CHUNK_SIZE
          invariant forall k :: 0 <= k < a.Length ==> a[k] == Expected(k, x, y, 0)
        {
          var z := 0;
          while z < CHUNK_SIZE
            invariant 0 <= z <= CHUNK_SIZE
            invariant forall k :: 0 <= k < a.Length ==> a[k] == Expected(k, x, y, z)
          {
            var cube := CubeAt(Cell(x, y, z));
            if cube.blockType != EMPTY_BLOCK {
              a[cube.order] := cube;
            }
            forall k | 0 <= k < a.Length
              ensures a[k] == Expected(k, x, y, z + 1)
            {
              ExpectedStep(k, x, y, z);
            }
            z := z + 1;
          }
          forall k | 0 <= k < a.Length
            ensures a[k] == Expected(k, x, y + 1, 0)
          {
            ExpectedRowEnd(k, x, y);
          }
          y := y + 1;
        }
        forall k | 0 <= k < a.Length
          ensures a[k] == Expected(k, x + 1, 0, 0)
        {
          ExpectedRowEnd(k, x, y);
        }
        x := x + 1;
      }
      rv := a[..];
      forall k | 0 <= k < octreeSize
        ensures rv[k] == if Live(k) then added[k] else BLANK_CUBE
      {
        ExpectedBounds(k);
      }
      forall c | c in cubes && IsVoxel(cubes[c])
        ensures rv[cubes[c].order] == cubes[c]
      {
        assert Live(cubes[c].order as int);
      }
    }

    /** `getAppCubes`: the inverse of `appCubes`, each position at its slot. */
    method GetAppCubes() returns (keys: seq<Vec3>)
      requires Valid()
      ensures |keys| == |appCubes| && keys == appSlots
      ensures forall p :: p in appCubes ==> keys[appCubes[p]] == p
      ensures forall k :: 0 <= k < |keys| ==> keys[k] in appCubes && appCubes[keys[k]] == k
    {
      var rv := new Vec3[|appCubes|](_ => ZERO3);
      var remaining := appCubes.Keys;
      while remaining != {}
        invariant remaining <= appCubes.Keys
        invariant forall k :: 0 <= k < rv.Length && appSlots[k] !in remaining ==> rv[k] == appSlots[k]
        decreases remaining
      {
        var p :| p in remaining;
        rv[appCubes[p]] := p;
        remaining := remaining - {p};
      }
      keys := rv[..];
    }
  }

  /** A C++ `float` or `double` component, as a real; used only by the ray-cast setup. */
  datatype RealVec = RealVec(x: real, y: real, z: real)

  /** What `rayCast` computes before it stops: the starting cell and the step per axis. */
  datatype RaySetup = RaySetup(start: Cell, stepX: int, stepY: int, stepZ: int)

  /** The C++ conversion `(int)f`: truncation toward zero. */
  function TruncateToInt(r: real): (t: int)
    ensures r >= 0.0 ==> t as real <= r < t as real + 1.0
    ensures r < 0.0 ==> t as real - 1.0 < r <= t as real
  {
    if r >= 0.0 then r.Floor else -((-r).Floor)
  }

  /** `front > 0 ? 1 : -1`: a zero component steps backwards. */
  function StepSign(front: real): (s: int)
    ensures s == 1 || s == -1
    ensures s == 1 <==> front > 0.0
  {
    if front > 0.0 then 1 else -1
  }

  /** `rayCast` up to where it stops: the voxel-space camera position truncated to a cell and
      the per-axis steps from the sign of the facing direction. */
  function RayCastSetup(voxelSpace: RealVec, front: RealVec): (r: RaySetup)
    ensures r.start == Cell(TruncateToInt(voxelSpace.x), TruncateToInt(voxelSpace.y), TruncateToInt(voxelSpace.z))
    ensures r.stepX == StepSign(front.x) && r.stepY == StepSign(front.y) && r.stepZ == StepSign(front.z)
  {
    RaySetup(Cell(TruncateToInt(voxelSpace.x), TruncateToInt(voxelSpace.y), TruncateToInt(voxelSpace.z)),
             StepSign(front.x), StepSign(front.y), StepSign(front.z))
  }

  /** glDrawArraysInstanced draws 36 vertices (a cube) per voxel and 6 (a quad) per app. */
  const CUBE_VERTICES := 36
  const APP_VERTICES := 6

  /** `"app" + to_string(index)` for a one-digit index. */
  function AppTextureName(index: int): string
    requires 0 <= index < 10
  {
    "app" + ["0123456789"[index]]
  }

  /** App0 to app2 each have a texture, created on unit `31 - index`, and a sampler that reads
      that same unit. */
  lemma AppTexturesRegistered(index: int)
    requires 0 <= index < 3
    ensures AppTextureName(index) in TEXTURE_UNITS && TEXTURE_UNITS[AppTextureName(index)] == AppTextureUnit(index)
    ensures AppTextureName(index) in SAMPLER_UNITS && SAMPLER_UNITS[AppTextureName(index)] == AppTextureUnit(index)
  {
    if index == 0 {
      assert AppTextureName(index) == "app0";
    } else if index == 1 {
      assert AppTextureName(index) == "app1";
    } else {
      assert AppTextureName(index) == "app2";
    }
  }

  /** The texture units of the constructor's textures, and the units its shader samplers read. */
  const TEXTURE_UNITS: map<string, int> :=
    map["container" := 0, "face" := 1, "app0" := 31, "app1" := 30, "app2" := 29]
  const SAMPLER_UNITS: map<string, int> :=
    map["texture1" := 0, "texture2" := 1, "app0" := 31, "app1" := 30, "app2" := 29]

  class Renderer {
    const world: World
    /** The voxel and app instance buffers (GL buffers INSTANCE and APP_INSTANCE). */
    const instance: array<byte>
    const appInstance: array<byte>
    const textureUnits: map<string, int>
    const samplerUnits: map<string, int>
    var frameBuffers: seq<nat>

    predicate Valid() {
      && instance.Length == 16 * VOXEL_CAPACITY
      && appInstance.Length == 16 * APP_CAPACITY
      && instance != appInstance
      && textureUnits == TEXTURE_UNITS && samplerUnits == SAMPLER_UNITS
    }

    /** The constructor, as far as `fillBuffers` and the texture and sampler setup go. The
        buffers are allocated without data, so nothing is promised about their bytes. */
    constructor(world: World)
      ensures Valid() && this.world == world && frameBuffers == []
      ensures fresh(instance) && fresh(appInstance)
    {
      this.world := world;
      instance := new byte[16 * VOXEL_CAPACITY];
      appInstance := new byte[16 * APP_CAPACITY];
      textureUnits := TEXTURE_UNITS;
      samplerUnits := SAMPLER_UNITS;
      frameBuffers := [];
    }

    /** `addCube`: record `index` of the voxel buffer gets the cube's position and block type.
        The tag offset computes `index+1` as an `int`, so `index` stays below `INT32_MAX`. */
    method AddCube(index: int32, cube: Cube)
      requires index as int < INT32_MAX
      modifies instance
      ensures instance[..] == WriteInstance(old(instance[..]), index as int, cube.position, cube.blockType)
    {
      BufferSubData(instance, PositionOffset(index as int), Vec3Bytes(cube.position));
      BufferSubData(instance, TagOffset(index as int), Int32Bytes(cube.blockType));
    }

    /** `addAppCube`: record `index` of the app buffer gets the position and, as its tag, the
        index itself. */
    method AddAppCube(index: int32, pos: Vec3)
      requires index as int < INT32_MAX
      modifies appInstance
      ensures appInstance[..] == WriteInstance(old(appInstance[..]), index as int, pos, index)
    {
      BufferSubData(appInstance, PositionOffset(index as int), Vec3Bytes(pos));
      BufferSubData(appInstance, TagOffset(index as int), Int32Bytes(index));
    }

    /** `registerApp`: app `index` is shown through texture unit `31 - index`, the unit its
        texture was created on and the one its shader sampler reads; the framebuffer made for
        it is appended. Only app0 to app2 exist. */
    method RegisterApp(index: int, framebufferId: nat) returns (textureUnit: int, texId: int)
      requires Valid() && 0 <= index < 3
      modifies this`frameBuffers
      ensures textureUnit == AppTextureUnit(index) && texId == GL_TEXTURE0 + textureUnit
      ensures AppTextureName(index) in textureUnits && textureUnits[AppTextureName(index)] == textureUnit
      ensures AppTextureName(index) in samplerUnits && samplerUnits[AppTextureName(index)] == textureUnit
      ensures frameBuffers == old(frameBuffers) + [framebufferId]
    {
      textureUnit := 31 - index;
      texId := GL_TEXTURE0 + textureUnit;
      AppTexturesRegistered(index);
      frameBuffers := frameBuffers + [framebufferId];
    }

    /** The two draw calls of `render`: as many voxel instances as `addCube` calls, as many app
        instances as registered positions. Every instance drawn that was added since the renderer
        was attached shows what was written for it, stale cubes of overwritten cells included. */
    method Render() returns (voxels: DrawCall, apps: DrawCall)
      requires world.Valid()
      ensures voxels == DrawCall(CUBE_VERTICES, |world.added|)
      ensures apps == DrawCall(APP_VERTICES, |world.appCubes|)
      ensures world.renderer == this ==>
                forall k :: world.voxelsMirroredFrom <= k < voxels.instanceCount && k < VOXEL_CAPACITY ==>
                  InstanceAt(instance[..], k) == Instance(world.added[k].position, world.added[k].blockType)
      ensures world.renderer == this ==>
                forall k :: world.appsMirroredFrom <= k < apps.instanceCount && k < APP_CAPACITY ==>
                  InstanceAt(appInstance[..], k) == Instance(world.appSlots[k], k as int32)
    {
      var appCubes := world.GetAppCubes();
      voxels := DrawCall(CUBE_VERTICES, world.Size());
      apps := DrawCall(APP_VERTICES, |appCubes|);
    }
  }

  /** `glBufferSubData` on a buffer object: copies `data` in at `offset`, or raises
      GL_INVALID_VALUE and writes nothing when the range does not fit. */
  method BufferSubData(buf: array<byte>, offset: int, data: seq<byte>)
    modifies buf
    ensures buf[..] == SubData(old(buf[..]), offset, data)
  {
    if 0 <= offset && offset + |data| <= buf.Length {
      var i := 0;
      while i < |data|
        invariant 0 <= i <= |data|
        invariant forall k :: 0 <= k < buf.Length ==>
                    buf[k] == if offset <= k < offset + i then data[k - offset] else old(buf[k])
      {
        buf[offset + i] := data[i];
        i := i + 1;
      }
      assert buf[..] == SubData(old(buf[..]), offset, data);
    }
  }
}
