/** The byte layout of the two instance buffers of the renderer (src/renderer.cpp): each
    record is a `glm::vec3` position followed by one `int`, the block type for voxels and the
    app number for app surfaces. The writers compute their offsets with one formula, the
    vertex-attribute setup that the shader reads through with another; this module states
    both and proves they agree. */
module InstanceLayout {
  import opened Bytes
  import opened Glm

  const SIZEOF_FLOAT := 4
  const SIZEOF_INT := 4
  const SIZEOF_VEC3 := 3 * SIZEOF_FLOAT

  /** One record, `sizeof(glm::vec3) + sizeof(int)` bytes. */
  const RECORD_SIZE := SIZEOF_VEC3 + SIZEOF_INT

  /** Records reserved by `fillBuffers` for voxels and for app surfaces. */
  const VOXEL_CAPACITY := 200000
  const APP_CAPACITY := 20

  /** The attribute pointers of `setupVertexAttributePointers`: stride, and the offsets of the
      position (attribute 2) and of the integer tag (attribute 3) inside a record. */
  const ATTRIB_STRIDE := 3 * SIZEOF_FLOAT + 1 * SIZEOF_INT
  const POSITION_ATTRIB_OFFSET := 0
  const TAG_ATTRIB_OFFSET := 3 * SIZEOF_FLOAT

  /** Byte offset of the position of record `index`, as `addCube` and `addAppCube` compute it. */
  function PositionOffset(index: int): int {
    (SIZEOF_VEC3 + SIZEOF_INT) * index
  }

  /** Byte offset of the tag of record `index`, as the second `glBufferSubData` computes it. */
  function TagOffset(index: int): int {
    SIZEOF_VEC3 * (index + 1) + SIZEOF_INT * index
  }

  /** What the shader sees as instance `i`. */
  datatype Instance = Instance(position: Vec3, tag: int32)

  /** The buffer is long enough to hold record `i`. */
  predicate HasInstance(buf: seq<byte>, i: int) {
    0 <= i && 16 * i + 16 <= |buf|
  }

  /** Instance `i` of a buffer, read the way the GPU reads it through the attribute pointers. */
  function InstanceAt(buf: seq<byte>, i: nat): Instance
    requires HasInstance(buf, i)
  {
    var base := 16 * i;  // ATTRIB_STRIDE * i, see OffsetsMatchLayout
    Instance(BytesVec3(buf[base + POSITION_ATTRIB_OFFSET .. base + POSITION_ATTRIB_OFFSET + SIZEOF_VEC3]),
             BytesInt32(buf[base + TAG_ATTRIB_OFFSET .. base + TAG_ATTRIB_OFFSET + SIZEOF_INT]))
  }

  /** The two `glBufferSubData` calls of `addCube`/`addAppCube`: the position at
      `PositionOffset(index)`, then the tag at `TagOffset(index)`. */
  function WriteInstance(buf: seq<byte>, index: int, position: Vec3, tag: int32): (r: seq<byte>)
    ensures |r| == |buf|
  {
    SubData(SubData(buf, PositionOffset(index), Vec3Bytes(position)), TagOffset(index), Int32Bytes(tag))
  }

  /** The writers' offsets are the readers' layout: the tag lies right after the position,
      and both sit where the attribute pointers of record `index` look for them. */
  lemma OffsetsMatchLayout(index: int)
    ensures PositionOffset(index) == ATTRIB_STRIDE * index + POSITION_ATTRIB_OFFSET
    ensures TagOffset(index) == ATTRIB_STRIDE * index + TAG_ATTRIB_OFFSET
    ensures TagOffset(index) == PositionOffset(index) + SIZEOF_VEC3
    ensures RECORD_SIZE == ATTRIB_STRIDE == 16
  {
  }

  /** Byte `k` belongs to record `i`. */
  predicate InRecord(k: int, i: int) {
    16 * i <= k < 16 * i + 16  // RECORD_SIZE * i <= k < RECORD_SIZE * (i + 1)
  }

  /** After the write, the GPU reads back exactly the position and tag that were written. */
  lemma WriteThenRead(buf: seq<byte>, index: nat, position: Vec3, tag: int32)
    requires HasInstance(buf, index)
    ensures InstanceAt(WriteInstance(buf, index, position, tag), index) == Instance(position, tag)
  {
    OffsetsMatchLayout(index);
    var p := PositionOffset(index);
    var once := SubData(buf, p, Vec3Bytes(position));
    var twice := SubData(once, TagOffset(index), Int32Bytes(tag));
    assert once[p .. p + 12] == Vec3Bytes(position);
    assert twice[p .. p + 12] == once[p .. p + 12] by {
      assert forall k :: p <= k < p + 12 ==> twice[k] == once[k];
    }
    assert twice[p + 12 .. p + 16] == Int32Bytes(tag);
    Vec3RoundTrip(position);
    Int32RoundTrip(tag);
  }

  /** A write to record `index` changes no byte outside that record. */
  lemma WriteFrame(buf: seq<byte>, index: int, position: Vec3, tag: int32, k: int)
    requires 0 <= k < |buf| && !InRecord(k, index)
    ensures WriteInstance(buf, index, position, tag)[k] == buf[k]
  {
  }

  /** Two buffers that agree on the bytes of record `j` show the same instance `j`. */
  lemma SameRecord(a: seq<byte>, b: seq<byte>, j: nat)
    requires HasInstance(a, j) && |b| == |a|
    requires forall k :: 16 * j <= k < 16 * j + 16 ==> a[k] == b[k]
    ensures InstanceAt(a, j) == InstanceAt(b, j)
  {
    var base := 16 * j;
    assert a[base .. base + 12] == b[base .. base + 12];
    assert a[base + 12 .. base + 16] == b[base + 12 .. base + 16];
  }

  /** A write to record `index` leaves what the GPU reads as any other instance unchanged. */
  lemma WriteKeepsOthers(buf: seq<byte>, index: int, position: Vec3, tag: int32, j: nat)
    requires HasInstance(buf, j) && j != index
    ensures InstanceAt(WriteInstance(buf, index, position, tag), j) == InstanceAt(buf, j)
  {
    var r := WriteInstance(buf, index, position, tag);
    forall k | 16 * j <= k < 16 * j + 16
      ensures buf[k] == r[k]
    {
      assert !InRecord(k, index);
      WriteFrame(buf, index, position, tag, k);
    }
    SameRecord(buf, r, j);
  }

  /** A record outside the buffer is not written at all (both `glBufferSubData` calls raise
      GL_INVALID_VALUE). */
  lemma WriteOutsideIsNoOp(buf: seq<byte>, index: int, position: Vec3, tag: int32)
    requires |buf| % RECORD_SIZE == 0 && !HasInstance(buf, index)
    ensures WriteInstance(buf, index, position, tag) == buf
  {
    var n := |buf| / 16;
    assert |buf| == 16 * n;
    if index >= 0 {
      assert 16 * (index + 1) > 16 * n;
      assert index >= n;
      assert PositionOffset(index) + 12 > |buf|;
      assert TagOffset(index) + 4 > |buf|;
    }
  }

  /** The texture unit that `registerApp` activates for app `index`: units are handed out
      downwards from GL_TEXTURE31. */
  function AppTextureUnit(index: int): (unit: int)
    ensures index == 0 ==> unit == 31
    ensures index == 1 ==> unit == 30
    ensures index == 2 ==> unit == 29
  {
    31 - index
  }

  const GL_TEXTURE0 := 0x84C0

  /** The `GLenum` passed to `glActiveTexture`. */
  function AppTextureEnum(index: int): (texId: int)
    ensures 0 <= index <= 31 ==> GL_TEXTURE0 <= texId <= GL_TEXTURE0 + 31
  {
    GL_TEXTURE0 + AppTextureUnit(index)
  }
}
