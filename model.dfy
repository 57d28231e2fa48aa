/** The asset loader of src/model.cpp, without the importer, the image decoder and the GL upload:
    the scene an import produces is an argument, texture names are handed out by a counter, and
    what remains is how meshes, indices, vertices and the texture cache are assembled. */
module AssetModel {
  import opened Options
  import opened Glm

  datatype Vertex = Vertex(position: Vec3, normal: Vec3, texCoords: Vec2)

  /** A texture of a mesh: its GL name, its uniform type name and the path it was loaded from. */
  datatype MeshTexture = MeshTexture(id: nat, kind: string, path: string)

  datatype Mesh = Mesh(vertices: seq<Vertex>, indices: seq<nat>, textures: seq<MeshTexture>)

  /** What the importer yields (`aiFace`, `aiMesh`, `aiMaterial`, `aiNode`, `aiScene`); a mesh
      without a first texture-coordinate channel has `texCoords0 == None`. */
  datatype AiFace = AiFace(indices: seq<nat>)
  datatype AiMesh = AiMesh(vertices: seq<Vec3>, normals: seq<Vec3>, texCoords0: Option<seq<Vec2>>,
                           faces: seq<AiFace>, materialIndex: nat)
  datatype AiMaterial = AiMaterial(diffuse: seq<string>, specular: seq<string>)
  datatype AiNode = AiNode(meshes: seq<nat>, children: seq<AiNode>)
  datatype AiScene = AiScene(meshes: seq<AiMesh>, materials: seq<AiMaterial>, root: Option<AiNode>,
                             incomplete: bool)

  /** The arrays a mesh's loops index are as long as its vertex count, and its material exists. */
  predicate MeshWellFormed(m: AiMesh, scene: AiScene) {
    && |m.normals| == |m.vertices|
    && (m.texCoords0.Some? ==> |m.texCoords0.value| == |m.vertices|)
    && m.materialIndex < |scene.materials|
  }

  predicate SceneWellFormed(scene: AiScene) {
    forall i :: 0 <= i < |scene.meshes| ==> MeshWellFormed(scene.meshes[i], scene)
  }

  /** Every mesh index of the node tree names a mesh of the scene. */
  predicate NodeWellFormed(n: AiNode, scene: AiScene)
    decreases n, 1
  {
    (forall i :: 0 <= i < |n.meshes| ==> n.meshes[i] < |scene.meshes|) && ChildrenWellFormed(n, 0, scene)
  }

  predicate ChildrenWellFormed(n: AiNode, k: nat, scene: AiScene)
    decreases n, 0, |n.children| - k
  {
    k < |n.children| ==> NodeWellFormed(n.children[k], scene) && ChildrenWellFormed(n, k + 1, scene)
  }

  /** `find_last_of`: the position of the last occurrence of `c`, if any. */
  function FindLastOf(s: string, c: char): (r: Option<nat>)
    ensures r.Some? ==> r.value < |s| && s[r.value] == c && c !in s[r.value + 1..]
    ensures r.None? ==> c !in s
  {
    if s == [] then None
    else if s[|s| - 1] == c then Some(|s| - 1)
    else
      var r := FindLastOf(s[..|s| - 1], c);
      assert s == s[..|s| - 1] + [s[|s| - 1]];
      if r.Some? then
        assert s[r.value + 1..] == s[..|s| - 1][r.value + 1..] + [s[|s| - 1]];
        r
      else r
  }

  /** `path.substr(0, path.find_last_of('/'))`: everything before the last '/', or the whole
      path when it has none (`npos` takes the rest of the string). */
  function DirectoryOf(path: string): (dir: string)
    ensures '/' in path ==>
              && |dir| < |path| && dir == path[..|dir|]
              && path[|dir|] == '/' && '/' !in path[|dir| + 1..]
    ensures '/' !in path ==> dir == path
  {
    match FindLastOf(path, '/')
    case Some(i) => path[..i]
    case None => path
  }

  /** `directory + '/' + path`, the file `TextureFromFile` opens. */
  function TextureFilename(directory: string, path: string): (filename: string)
    ensures |filename| == |directory| + 1 + |path|
  {
    directory + "/" + path
  }

  /** Texture files are found next to the model: the directory of a texture file name built from
      a model's directory and a plain file name is that directory. */
  lemma TextureFileInModelDirectory(directory: string, path: string)
    requires '/' !in path
    ensures DirectoryOf(TextureFilename(directory, path)) == directory
  {
    var f := TextureFilename(directory, path);
    assert f[|directory|] == '/';
    assert f[|directory| + 1..] == path;
    assert f[..|directory|] == directory;
  }

  const GL_RED := 0x1903
  const GL_RGB := 0x1907
  const GL_RGBA := 0x1908

  /** The GL format chosen for an image with `components` channels; for any other count the
      source leaves `format` uninitialised, shown here as no format. */
  function ChannelFormat(components: int): (format: Option<int>)
    ensures format.Some? <==> components == 1 || components == 3 || components == 4
    ensures components == 1 ==> format == Some(GL_RED)
    ensures components == 3 ==> format == Some(GL_RGB)
    ensures components == 4 ==> format == Some(GL_RGBA)
  {
    if components == 1 then Some(GL_RED)
    else if components == 3 then Some(GL_RGB)
    else if components == 4 then Some(GL_RGBA)
    else None
  }

  /** The meshes of a node tree, as indices into the scene, in depth-first pre-order: a node's
      own meshes in order, then those of each child subtree in order. */
  function Preorder(n: AiNode): seq<nat>
    decreases n, 1
  {
    n.meshes + ChildrenPreorder(n, 0)
  }

  /** The pre-order meshes of `n`'s children from the `k`-th on. */
  function ChildrenPreorder(n: AiNode, k: nat): seq<nat>
    decreases n, 0, |n.children| - k
  {
    if k < |n.children| then Preorder(n.children[k]) + ChildrenPreorder(n, k + 1) else []
  }

  /** Every mesh index the pre-order lists names a mesh of a well-formed tree's scene. */
  lemma {:induction false} PreorderInRange(n: AiNode, scene: AiScene)
    requires NodeWellFormed(n, scene)
    ensures InScene(Preorder(n), scene)
    decreases n, 1
  {
    ChildrenPreorderInRange(n, 0, scene);
  }

  lemma {:induction false} ChildrenPreorderInRange(n: AiNode, k: nat, scene: AiScene)
    requires ChildrenWellFormed(n, k, scene)
    ensures InScene(ChildrenPreorder(n, k), scene)
    decreases n, 0, |n.children| - k
  {
    if k < |n.children| {
      PreorderInRange(n.children[k], scene);
      ChildrenPreorderInRange(n, k + 1, scene);
    }
  }

  /** The mesh indices a tree holds, as a multiset: a node's own and those of its subtrees. */
  function TreeMeshes(n: AiNode): multiset<nat>
    decreases n, 1
  {
    multiset(n.meshes) + ChildrenTreeMeshes(n, 0)
  }

  /** The mesh indices held by the subtrees of `n`'s children from the `k`-th on. */
  function ChildrenTreeMeshes(n: AiNode, k: nat): multiset<nat>
    decreases n, 0, |n.children| - k
  {
    if k < |n.children| then TreeMeshes(n.children[k]) + ChildrenTreeMeshes(n, k + 1) else multiset{}
  }

  /** Whether some node of the tree rooted at `n` lists mesh index `m`. */
  predicate Listed(n: AiNode, m: nat)
    decreases n
  {
    m in n.meshes || exists i :: 0 <= i < |n.children| && Listed(n.children[i], m)
  }

  /** Pre-order visits every mesh index the tree holds, each as often as the tree holds it. */
  lemma {:induction false} PreorderMeshes(n: AiNode)
    ensures multiset(Preorder(n)) == TreeMeshes(n)
    decreases n, 1
  {
    ChildrenPreorderMeshes(n, 0);
  }

  lemma {:induction false} ChildrenPreorderMeshes(n: AiNode, k: nat)
    ensures multiset(ChildrenPreorder(n, k)) == ChildrenTreeMeshes(n, k)
    decreases n, 0, |n.children| - k
  {
    if k < |n.children| {
      PreorderMeshes(n.children[k]);
      ChildrenPreorderMeshes(n, k + 1);
    }
  }

  /** A mesh index appears in the pre-order exactly when some node of the tree lists it. */
  lemma {:induction false} PreorderListed(n: AiNode, m: nat)
    ensures m in Preorder(n) <==> Listed(n, m)
    decreases n, 1
  {
    ChildrenPreorderListed(n, 0, m);
  }

  lemma {:induction false} ChildrenPreorderListed(n: AiNode, k: nat, m: nat)
    ensures m in ChildrenPreorder(n, k) <==> exists i :: k <= i < |n.children| && Listed(n.children[i], m)
    decreases n, 0, |n.children| - k
  {
    if k < |n.children| {
      PreorderListed(n.children[k], m);
      ChildrenPreorderListed(n, k + 1, m);
      if exists i :: k <= i < |n.children| && Listed(n.children[i], m) {
        var i :| k <= i < |n.children| && Listed(n.children[i], m);
        if i > k {
          assert k + 1 <= i < |n.children| && Listed(n.children[i], m);
        }
      }
    }
  }

  /** Every mesh index the pre-order lists names a mesh of the scene. */
  predicate PreorderInRanges(node: AiNode, scene: AiScene) {
    InScene(Preorder(node), scene)
  }

  /** A node's own meshes come first, then its children's, so a leaf contributes exactly its
      own meshes and every child's meshes follow the parent's. */
  lemma PreorderOfLeaf(n: AiNode)
    requires n.children == []
    ensures Preorder(n) == n.meshes
  {
  }

  /** The face indices of a mesh in face order, each face's indices in order. */
  function FlattenFaces(faces: seq<AiFace>): seq<nat> {
    if faces == [] then [] else FlattenFaces(faces[..|faces| - 1]) + faces[|faces| - 1].indices
  }

  /** The number of indices is the sum of the faces' index counts. */
  function IndexCount(faces: seq<AiFace>): nat {
    if faces == [] then 0 else IndexCount(faces[..|faces| - 1]) + |faces[|faces| - 1].indices|
  }

  lemma {:induction false} FlattenFacesLength(faces: seq<AiFace>)
    ensures |FlattenFaces(faces)| == IndexCount(faces)
  {
    if faces != [] {
      FlattenFacesLength(faces[..|faces| - 1]);
    }
  }

  /** Triangulated meshes (every face with three indices) give three indices per face, the
      `k`-th face's at positions 3k, 3k+1, 3k+2. */
  lemma {:induction false} FlattenTriangles(faces: seq<AiFace>, k: int)
    requires forall f :: 0 <= f < |faces| ==> |faces[f].indices| == 3
    requires 0 <= k < |faces|
    ensures |FlattenFaces(faces)| == 3 * |faces|
    ensures FlattenFaces(faces)[3 * k .. 3 * k + 3] == faces[k].indices
  {
    var n := |faces| - 1;
    var prefix := faces[..n];
    if n > 0 {
      FlattenTriangles(prefix, if k < n then k else 0);
    } else {
      assert prefix == [];
    }
    assert |FlattenFaces(prefix)| == 3 * n;
    if k < n {
      assert prefix[k] == faces[k];
    }
  }

  /** The vertex `processMesh` builds from entry `i` of the mesh's arrays: position, normal and
      the first texture coordinates, or (0, 0) when the mesh has none. */
  function MeshVertex(m: AiMesh, i: nat): (v: Vertex)
    requires |m.normals| == |m.vertices| && (m.texCoords0.Some? ==> |m.texCoords0.value| == |m.vertices|)
    requires i < |m.vertices|
    ensures v.position == m.vertices[i] && v.normal == m.normals[i]
    ensures v.texCoords == if m.texCoords0.Some? then m.texCoords0.value[i] else ZERO2
  {
    Vertex(m.vertices[i], m.normals[i], if m.texCoords0.Some? then m.texCoords0.value[i] else ZERO2)
  }

  /** The first cache entry loaded from `path`, as the inner loop of `loadMaterialTextures`
      finds it. */
  function FindPath(cache: seq<MeshTexture>, path: string): (r: Option<nat>)
    ensures r.Some? ==> r.value < |cache| && cache[r.value].path == path
                        && forall k :: 0 <= k < r.value ==> cache[k].path != path
    ensures r.None? ==> forall k :: 0 <= k < |cache| ==> cache[k].path != path
  {
    if cache == [] then None
    else
      var n := |cache| - 1;
      match FindPath(cache[..n], path)
      case Some(j) => Some(j)
      case None => if cache[n].path == path then Some(n) else None
  }

  /** No two cache entries share a path. */
  predicate DistinctPaths(cache: seq<MeshTexture>) {
    forall i, j :: 0 <= i < j < |cache| ==> cache[i].path != cache[j].path
  }

  /** What `loadMaterialTextures` returns, and the cache and next texture name it leaves. */
  datatype Loaded = Loaded(textures: seq<MeshTexture>, cache: seq<MeshTexture>, nextId: nat)

  /** One iteration of `loadMaterialTextures`: the cached texture for `path`, or a new one under
      the next texture name, appended to the cache. */
  function LoadOne(prev: Loaded, path: string, typeName: string): Loaded {
    match FindPath(prev.cache, path)
    case Some(j) => Loaded(prev.textures + [prev.cache[j]], prev.cache, prev.nextId)
    case None =>
      var t := MeshTexture(prev.nextId, typeName, path);
      Loaded(prev.textures + [t], prev.cache + [t], prev.nextId + 1)
  }

  /** `loadMaterialTextures` on the texture paths of one type: one texture per path, in order,
      and a cache that only grows at the end, by one entry per texture name used. */
  function LoadTextures(cache: seq<MeshTexture>, nextId: nat, paths: seq<string>, typeName: string): (r: Loaded)
    ensures |r.textures| == |paths|
    ensures |cache| <= |r.cache| && r.cache[..|cache|] == cache
    ensures r.nextId == nextId + (|r.cache| - |cache|)
    decreases |paths|
  {
    if paths == [] then Loaded([], cache, nextId)
    else
      var n := |paths| - 1;
      var prev := LoadTextures(cache, nextId, paths[..n], typeName);
      var r := LoadOne(prev, paths[n], typeName);
      assert r.cache[..|cache|] == prev.cache[..|cache|];
      r
  }

  /** Appending a texture keeps every path's first match where it was; a path seen for the first
      time has the new entry as its match. */
  lemma FindPathAppend(cache: seq<MeshTexture>, t: MeshTexture, path: string)
    ensures FindPath(cache + [t], path) ==
              if FindPath(cache, path).Some? then FindPath(cache, path)
              else if t.path == path then Some(|cache|) else None
  {
    assert (cache + [t])[..|cache|] == cache;
  }

  /** Texture `i` of a load result carries `path` and is the first cache entry with it. */
  predicate ReusedAt(r: Loaded, i: int, path: string) {
    && 0 <= i < |r.textures| && r.textures[i].path == path
    && FindPath(r.cache, path).Some? && r.textures[i] == r.cache[FindPath(r.cache, path).value]
  }

  /** One iteration returns, for its own path, the first cache entry with that path. */
  lemma LoadOneFinds(prev: Loaded, path: string, typeName: string)
    ensures ReusedAt(LoadOne(prev, path, typeName), |prev.textures|, path)
  {
    if FindPath(prev.cache, path).None? {
      FindPathAppend(prev.cache, MeshTexture(prev.nextId, typeName, path), path);
    }
  }

  /** One iteration keeps what the earlier textures were reused from. */
  lemma LoadOneKeeps(prev: Loaded, path: string, typeName: string, i: int, q: string)
    requires ReusedAt(prev, i, q)
    ensures ReusedAt(LoadOne(prev, path, typeName), i, q)
  {
    var r := LoadOne(prev, path, typeName);
    if FindPath(prev.cache, path).None? {
      FindPathAppend(prev.cache, MeshTexture(prev.nextId, typeName, path), q);
    }
    assert r.textures[i] == prev.textures[i];
  }

  /** Each returned texture carries its path, and is the first cache entry with that path. */
  lemma {:induction false} LoadTexturesReuse(cache: seq<MeshTexture>, nextId: nat, paths: seq<string>, typeName: string, i: int)
    requires 0 <= i < |paths|
    ensures ReusedAt(LoadTextures(cache, nextId, paths, typeName), i, paths[i])
    decreases |paths|
  {
    var n := |paths| - 1;
    var prev := LoadTextures(cache, nextId, paths[..n], typeName);
    var r := LoadTextures(cache, nextId, paths, typeName);
    assert r == LoadOne(prev, paths[n], typeName);
    if i < n {
      LoadTexturesReuse(cache, nextId, paths[..n], typeName, i);
      assert paths[..n][i] == paths[i];
      assert ReusedAt(prev, i, paths[i]);
      LoadOneKeeps(prev, paths[n], typeName, i, paths[i]);
      assert ReusedAt(r, i, paths[i]);
    } else {
      LoadOneFinds(prev, paths[n], typeName);
    }
  }

  /** The entries a load appends are new textures of the requested type, named in sequence
      from `nextId`. */
  lemma {:induction false} LoadTexturesNames(cache: seq<MeshTexture>, nextId: nat, paths: seq<string>, typeName: string)
    ensures forall k :: |cache| <= k < |LoadTextures(cache, nextId, paths, typeName).cache| ==>
              && LoadTextures(cache, nextId, paths, typeName).cache[k].id == nextId + (k - |cache|)
              && LoadTextures(cache, nextId, paths, typeName).cache[k].kind == typeName
    decreases |paths|
  {
    if paths != [] {
      var n := |paths| - 1;
      LoadTexturesNames(cache, nextId, paths[..n], typeName);
      var prev := LoadTextures(cache, nextId, paths[..n], typeName);
      var r := LoadTextures(cache, nextId, paths, typeName);
      forall k | |cache| <= k < |r.cache|
        ensures r.cache[k].id == nextId + (k - |cache|) && r.cache[k].kind == typeName
      {
        assert r == LoadOne(prev, paths[n], typeName);
        if k < |prev.cache| {
          assert r.cache[k] == prev.cache[k];
        } else {
          assert r.cache[k] == MeshTexture(prev.nextId, typeName, paths[n]);
        }
      }
    }
  }

  /** The cache never gains a second entry for a path it already holds. */
  lemma {:induction false} LoadTexturesDistinct(cache: seq<MeshTexture>, nextId: nat, paths: seq<string>, typeName: string)
    requires DistinctPaths(cache)
    ensures DistinctPaths(LoadTextures(cache, nextId, paths, typeName).cache)
    decreases |paths|
  {
    if paths != [] {
      var n := |paths| - 1;
      LoadTexturesDistinct(cache, nextId, paths[..n], typeName);
    }
  }

  /** A path that is already cached is never loaded again: the cache does not grow. */
  lemma {:induction false} CachedPathsReused(cache: seq<MeshTexture>, nextId: nat, paths: seq<string>, typeName: string)
    requires forall i :: 0 <= i < |paths| ==> FindPath(cache, paths[i]).Some?
    ensures LoadTextures(cache, nextId, paths, typeName).cache == cache
    ensures LoadTextures(cache, nextId, paths, typeName).nextId == nextId
    decreases |paths|
  {
    if paths != [] {
      var n := |paths| - 1;
      var front := paths[..n];
      forall i | 0 <= i < |front|
        ensures FindPath(cache, front[i]).Some?
      {
        assert front[i] == paths[i];
      }
      CachedPathsReused(cache, nextId, front, typeName);
      var prev := LoadTextures(cache, nextId, front, typeName);
      assert prev.cache == cache && prev.nextId == nextId;
      assert FindPath(prev.cache, paths[n]).Some?;
      assert LoadTextures(cache, nextId, paths, typeName) == LoadOne(prev, paths[n], typeName);
    }
  }

  /** Loading the same paths a second time, with the cache the first load left, reuses every
      texture: the same textures come back and nothing new is loaded. */
  lemma LoadTwiceReuses(cache: seq<MeshTexture>, nextId: nat, paths: seq<string>, typeName: string)
    ensures var first := LoadTextures(cache, nextId, paths, typeName);
      var second := LoadTextures(first.cache, first.nextId, paths, typeName);
      second.textures == first.textures && second.cache == first.cache && second.nextId == first.nextId
  {
    var first := LoadTextures(cache, nextId, paths, typeName);
    forall i | 0 <= i < |paths|
      ensures FindPath(first.cache, paths[i]).Some?
    {
      LoadTexturesReuse(cache, nextId, paths, typeName, i);
    }
    CachedPathsReused(first.cache, first.nextId, paths, typeName);
    var second := LoadTextures(first.cache, first.nextId, paths, typeName);
    forall i | 0 <= i < |paths|
      ensures second.textures[i] == first.textures[i]
    {
      LoadTexturesReuse(cache, nextId, paths, typeName, i);
      LoadTexturesReuse(first.cache, first.nextId, paths, typeName, i);
    }
  }

  /** The result of `processMesh` and the cache it leaves: vertices entry by entry, the faces'
      indices flattened, then the diffuse textures followed by the specular ones. */
  datatype MeshResult = MeshResult(mesh: Mesh, cache: seq<MeshTexture>, nextId: nat)

  function ProcessMeshSpec(m: AiMesh, scene: AiScene, cache: seq<MeshTexture>, nextId: nat): (r: MeshResult)
    requires MeshWellFormed(m, scene)
    ensures |r.mesh.vertices| == |m.vertices|
    ensures forall i :: 0 <= i < |m.vertices| ==> r.mesh.vertices[i] == MeshVertex(m, i)
    ensures r.mesh.indices == FlattenFaces(m.faces)
    ensures var material := scene.materials[m.materialIndex];
      var diffuse := LoadTextures(cache, nextId, material.diffuse, "texture_diffuse");
      var specular := LoadTextures(diffuse.cache, diffuse.nextId, material.specular, "texture_specular");
      r.mesh.textures == diffuse.textures + specular.textures
      && r.cache == specular.cache && r.nextId == specular.nextId
  {
    var material := scene.materials[m.materialIndex];
    var diffuse := LoadTextures(cache, nextId, material.diffuse, "texture_diffuse");
    var specular := LoadTextures(diffuse.cache, diffuse.nextId, material.specular, "texture_specular");
    var vertices := seq(|m.vertices|, i requires 0 <= i < |m.vertices| => MeshVertex(m, i));
    MeshResult(Mesh(vertices, FlattenFaces(m.faces), diffuse.textures + specular.textures),
               specular.cache, specular.nextId)
  }

  /** The loader's state: the meshes collected so far, the texture cache and the next name. */
  datatype LoaderState = LoaderState(meshes: seq<Mesh>, texturesLoaded: seq<MeshTexture>, nextTextureId: nat)

  /** Every index of `order` names a mesh of the scene. */
  predicate InScene(order: seq<nat>, scene: AiScene) {
    forall i :: 0 <= i < |order| ==> order[i] < |scene.meshes|
  }

  /** `meshes.push_back(processMesh(scene->mMeshes[index], scene))`. */
  function MeshStep(scene: AiScene, index: nat, s: LoaderState): (r: LoaderState)
    requires SceneWellFormed(scene) && index < |scene.meshes|
    ensures |r.meshes| == |s.meshes| + 1 && r.meshes[..|s.meshes|] == s.meshes
    ensures |s.texturesLoaded| <= |r.texturesLoaded| && r.texturesLoaded[..|s.texturesLoaded|] == s.texturesLoaded
  {
    var m := ProcessMeshSpec(scene.meshes[index], scene, s.texturesLoaded, s.nextTextureId);
    LoadTexturesKeepCache(s.texturesLoaded, s.nextTextureId, scene.materials[scene.meshes[index].materialIndex]);
    LoaderState(s.meshes + [m.mesh], m.cache, m.nextId)
  }

  /** Both texture loads of a mesh only append to the cache. */
  lemma LoadTexturesKeepCache(cache: seq<MeshTexture>, nextId: nat, material: AiMaterial)
    ensures var diffuse := LoadTextures(cache, nextId, material.diffuse, "texture_diffuse");
      var specular := LoadTextures(diffuse.cache, diffuse.nextId, material.specular, "texture_specular");
      |cache| <= |specular.cache| && specular.cache[..|cache|] == cache
  {
    var diffuse := LoadTextures(cache, nextId, material.diffuse, "texture_diffuse");
    var specular := LoadTextures(diffuse.cache, diffuse.nextId, material.specular, "texture_specular");
    assert specular.cache[..|cache|] == specular.cache[..|diffuse.cache|][..|cache|];
  }

  /** `meshes.push_back(processMesh(...))` for each scene mesh index in `order`, one after
      another. */
  function ProcessAll(scene: AiScene, order: seq<nat>, s: LoaderState): (r: LoaderState)
    requires SceneWellFormed(scene) && InScene(order, scene)
    ensures |r.meshes| == |s.meshes| + |order| && r.meshes[..|s.meshes|] == s.meshes
    decreases |order|
  {
    if order == [] then s
    else
      var n := |order| - 1;
      var prev := ProcessAll(scene, order[..n], s);
      var r := MeshStep(scene, order[n], prev);
      assert r.meshes[..|s.meshes|] == prev.meshes[..|s.meshes|];
      r
  }

  /** Processing one more index of `order` is one more mesh step. */
  lemma ProcessAllSnoc(scene: AiScene, order: seq<nat>, i: int, s: LoaderState)
    requires SceneWellFormed(scene) && InScene(order, scene) && 0 <= i < |order|
    ensures InScene(order[..i], scene) && InScene(order[..i + 1], scene)
    ensures ProcessAll(scene, order[..i + 1], s) == MeshStep(scene, order[i], ProcessAll(scene, order[..i], s))
  {
    assert order[..i + 1][..i] == order[..i];
  }

  /** Processing two lists of meshes one after the other is processing their concatenation. */
  lemma {:induction false} ProcessAllAppend(scene: AiScene, a: seq<nat>, b: seq<nat>, s: LoaderState)
    requires SceneWellFormed(scene)
    requires InScene(a, scene) && InScene(b, scene)
    ensures InScene(a + b, scene)
    ensures ProcessAll(scene, a + b, s) == ProcessAll(scene, b, ProcessAll(scene, a, s))
    decreases |b|
  {
    forall i | 0 <= i < |a + b|
      ensures (a + b)[i] < |scene.meshes|
    {
      if i < |a| {
        assert (a + b)[i] == a[i];
      } else {
        assert (a + b)[i] == b[i - |a|];
      }
    }
    if b == [] {
      assert a + b == a;
    } else {
      var n := |b| - 1;
      assert InScene(b[..n], scene) by {
        assert forall i :: 0 <= i < n ==> b[..n][i] == b[i];
      }
      ProcessAllAppend(scene, a, b[..n], s);
      assert (a + b)[..|a + b| - 1] == a + b[..n];
      assert (a + b)[|a + b| - 1] == b[n];
    }
  }

  /** Processing the subtrees from child `k` on is processing child `k`, then the rest. */
  lemma ChildStep(scene: AiScene, node: AiNode, k: nat, s: LoaderState)
    requires SceneWellFormed(scene) && ChildrenWellFormed(node, k, scene) && k < |node.children|
    ensures NodeWellFormed(node.children[k], scene) && ChildrenWellFormed(node, k + 1, scene)
    ensures InScene(Preorder(node.children[k]), scene) && InScene(ChildrenPreorder(node, k + 1), scene)
    ensures InScene(ChildrenPreorder(node, k), scene)
    ensures ProcessAll(scene, ChildrenPreorder(node, k), s)
            == ProcessAll(scene, ChildrenPreorder(node, k + 1), ProcessAll(scene, Preorder(node.children[k]), s))
  {
    PreorderInRange(node.children[k], scene);
    ChildrenPreorderInRange(node, k + 1, scene);
    ProcessAllAppend(scene, Preorder(node.children[k]), ChildrenPreorder(node, k + 1), s);
  }

  /** The meshes a load collects are those of the scene's meshes in pre-order: mesh `i` is
      processed from the `i`-th index of the pre-order. */
  lemma {:induction false} ProcessAllMeshes(scene: AiScene, order: seq<nat>, s: LoaderState, i: int)
    requires SceneWellFormed(scene)
    requires InScene(order, scene) && 0 <= i < |order|
    ensures ProcessAll(scene, order, s).meshes[|s.meshes| + i].indices == FlattenFaces(scene.meshes[order[i]].faces)
    ensures |ProcessAll(scene, order, s).meshes[|s.meshes| + i].vertices| == |scene.meshes[order[i]].vertices|
    decreases |order|
  {
    var n := |order| - 1;
    if i < n {
      ProcessAllMeshes(scene, order[..n], s, i);
      var prev := ProcessAll(scene, order[..n], s);
      assert ProcessAll(scene, order, s).meshes[|s.meshes| + i] == prev.meshes[|s.meshes| + i];
    }
  }

  /** `getAllVertices`' result: every mesh's vertex list, concatenated in mesh order. */
  function ConcatVertices(meshes: seq<Mesh>): seq<Vertex> {
    if meshes == [] then [] else ConcatVertices(meshes[..|meshes| - 1]) + meshes[|meshes| - 1].vertices
  }

  function VertexCount(meshes: seq<Mesh>): nat {
    if meshes == [] then 0 else VertexCount(meshes[..|meshes| - 1]) + |meshes[|meshes| - 1].vertices|
  }

  /** The concatenation is as long as the vertex counts together, and mesh `m`'s vertices sit
      right after those of the meshes before it. */
  lemma {:induction false} ConcatVerticesLayout(meshes: seq<Mesh>, m: int)
    requires 0 <= m < |meshes|
    ensures |ConcatVertices(meshes)| == VertexCount(meshes)
    ensures var start := VertexCount(meshes[..m]);
      start + |meshes[m].vertices| <= |ConcatVertices(meshes)|
      && ConcatVertices(meshes)[start .. start + |meshes[m].vertices|] == meshes[m].vertices
  {
    var n := |meshes| - 1;
    var prefix := meshes[..n];
    if m < n {
      ConcatVerticesLayout(prefix, m);
      assert prefix[..m] == meshes[..m];
      assert prefix[m] == meshes[m];
    } else {
      assert prefix == meshes[..m];
      if n > 0 {
        ConcatVerticesLayout(prefix, 0);
      }
    }
  }

  class Model {
    var directory: string
    var meshes: seq<Mesh>
    var texturesLoaded: seq<MeshTexture>
    /** The next name `glGenTextures` hands out. */
    var nextTextureId: nat

    function State(): LoaderState
      reads this
    {
      LoaderState(meshes, texturesLoaded, nextTextureId)
    }

    /** `Model(path)`: loads the model at `path`; `imported` is what the importer read from it. */
    constructor(path: string, imported: Option<AiScene>, firstTextureId: nat)
      requires imported.Some? ==> SceneWellFormed(imported.value)
      requires imported.Some? && imported.value.root.Some? ==> NodeWellFormed(imported.value.root.value, imported.value)
      ensures var empty := LoaderState([], [], firstTextureId);
        if imported.None? || imported.value.incomplete || imported.value.root.None? then
          State() == empty && directory == ""
        else
          directory == DirectoryOf(path)
          && PreorderInRanges(imported.value.root.value, imported.value)
          && State() == ProcessAll(imported.value, Preorder(imported.value.root.value), empty)
    {
      directory := "";
      meshes := [];
      texturesLoaded := [];
      nextTextureId := firstTextureId;
      new;
      LoadModel(path, imported);
    }

    /** `loadModel`: a failed or incomplete import, or one without a root node, changes nothing;
        otherwise the directory is taken from the path and the root node is processed. */
    method LoadModel(path: string, imported: Option<AiScene>)
      requires imported.Some? ==> SceneWellFormed(imported.value)
      requires imported.Some? && imported.value.root.Some? ==> NodeWellFormed(imported.value.root.value, imported.value)
      modifies this
      ensures if imported.None? || imported.value.incomplete || imported.value.root.None? then
                State() == old(State()) && directory == old(directory)
              else
                directory == DirectoryOf(path)
                && PreorderInRanges(imported.value.root.value, imported.value)
                && State() == ProcessAll(imported.value, Preorder(imported.value.root.value), old(State()))
    {
      if imported.None? || imported.value.incomplete || imported.value.root.None? {
        return;
      }
      var scene := imported.value;
      directory := DirectoryOf(path);
      ProcessNode(scene.root.value, scene);
    }

    /** `processNode`: the node's own meshes are processed and appended in order, then each
        child subtree in order, which processes the tree's meshes in pre-order. */
    method ProcessNode(node: AiNode, scene: AiScene)
      requires SceneWellFormed(scene) && NodeWellFormed(node, scene)
      modifies this
      ensures PreorderInRanges(node, scene) && State() == ProcessAll(scene, Preorder(node), old(State()))
      ensures directory == old(directory)
      decreases node
    {
      PreorderInRange(node, scene);
      ChildrenPreorderInRange(node, 0, scene);
      ProcessNodeMeshes(node.meshes, scene);
      ProcessAllAppend(scene, node.meshes, ChildrenPreorder(node, 0), old(State()));
      var k := 0;
      while k < |node.children|
        invariant 0 <= k <= |node.children|
        invariant ChildrenWellFormed(node, k, scene) && InScene(ChildrenPreorder(node, k), scene)
        invariant ProcessAll(scene, ChildrenPreorder(node, k), State()) == ProcessAll(scene, Preorder(node), old(State()))
        invariant directory == old(directory)
      {
        ChildStep(scene, node, k, State());
        ProcessNode(node.children[k], scene);
        k := k + 1;
      }
    }

    /** The first loop of `processNode`: the meshes the node lists, processed and appended in
        order. */
    method ProcessNodeMeshes(order: seq<nat>, scene: AiScene)
      requires SceneWellFormed(scene) && InScene(order, scene)
      modifies this
      ensures State() == ProcessAll(scene, order, old(State()))
      ensures directory == old(directory)
    {
      var i := 0;
      while i < |order|
        invariant 0 <= i <= |order| && InScene(order[..i], scene)
        invariant State() == ProcessAll(scene, order[..i], old(State()))
        invariant directory == old(directory)
      {
        ProcessAllSnoc(scene, order, i, old(State()));
        var mesh := ProcessMesh(scene.meshes[order[i]], scene);
        meshes := meshes + [mesh];
        i := i + 1;
      }
      assert order[..i] == order;
    }

    /** `processMesh`: vertices and indices are built in loops, then the diffuse and the
        specular textures are loaded through the cache. */
    method ProcessMesh(m: AiMesh, scene: AiScene) returns (mesh: Mesh)
      requires MeshWellFormed(m, scene)
      modifies this
      ensures var r := ProcessMeshSpec(m, scene, old(texturesLoaded), old(nextTextureId));
        mesh == r.mesh && texturesLoaded == r.cache && nextTextureId == r.nextId
      ensures meshes == old(meshes) && directory == old(directory)
    {
      var vertices: seq<Vertex> := [];
      var i := 0;
      while i < |m.vertices|
        invariant 0 <= i <= |m.vertices|
        invariant |vertices| == i && forall k :: 0 <= k < i ==> vertices[k] == MeshVertex(m, k)
      {
        var texCoords := if m.texCoords0.Some? then m.texCoords0.value[i] else ZERO2;
        vertices := vertices + [Vertex(m.vertices[i], m.normals[i], texCoords)];
        i := i + 1;
      }
      var indices: seq<nat> := [];
      var f := 0;
      while f < |m.faces|
        invariant 0 <= f <= |m.faces|
        invariant indices == FlattenFaces(m.faces[..f])
      {
        var face := m.faces[f];
        var j := 0;
        while j < |face.indices|
          invariant 0 <= j <= |face.indices|
          invariant indices == FlattenFaces(m.faces[..f]) + face.indices[..j]
        {
          indices := indices + [face.indices[j]];
          assert face.indices[..j + 1] == face.indices[..j] + [face.indices[j]];
          j := j + 1;
        }
        assert m.faces[..f + 1][..f] == m.faces[..f];
        assert face.indices[..j] == face.indices;
        f := f + 1;
      }
      assert m.faces[..f] == m.faces;
      var material := scene.materials[m.materialIndex];
      var diffuseMaps := LoadMaterialTextures(material.diffuse, "texture_diffuse");
      var specularMaps := LoadMaterialTextures(material.specular, "texture_specular");
      var textures := diffuseMaps + specularMaps;
      mesh := Mesh(vertices, indices, textures);
    }

    /** `TextureFromFile`: a new texture name, and the file it is read from. */
    method TextureFromFile(path: string) returns (id: nat, filename: string)
      modifies this`nextTextureId
      ensures id == old(nextTextureId) && nextTextureId == id + 1
      ensures filename == TextureFilename(directory, path)
    {
      filename := directory + "/" + path;
      id := nextTextureId;
      nextTextureId := nextTextureId + 1;
    }

    /** `loadMaterialTextures`: for each path, the first cached texture with that path, or a
        newly loaded one that is also appended to the cache. */
    method LoadMaterialTextures(paths: seq<string>, typeName: string) returns (textures: seq<MeshTexture>)
      modifies this
      ensures var r := LoadTextures(old(texturesLoaded), old(nextTextureId), paths, typeName);
        textures == r.textures && texturesLoaded == r.cache && nextTextureId == r.nextId
      ensures meshes == old(meshes) && directory == old(directory)
    {
      textures := [];
      var i := 0;
      while i < |paths|
        invariant 0 <= i <= |paths|
        invariant var r := LoadTextures(old(texturesLoaded), old(nextTextureId), paths[..i], typeName);
          textures == r.textures && texturesLoaded == r.cache && nextTextureId == r.nextId
        invariant meshes == old(meshes) && directory == old(directory)
      {
        var path := paths[i];
        var found: Option<nat> := None;
        var j := 0;
        while j < |texturesLoaded|
          invariant 0 <= j <= |texturesLoaded|
          invariant forall k :: 0 <= k < j ==> texturesLoaded[k].path != path
        {
          if texturesLoaded[j].path == path {
            found := Some(j);
            break;
          }
          j := j + 1;
        }
        assert found == FindPath(texturesLoaded, path);
        if found.Some? {
          textures := textures + [texturesLoaded[found.value]];
        } else {
          var id, _ := TextureFromFile(path);
          var texture := MeshTexture(id, typeName, path);
          textures := textures + [texture];
          texturesLoaded := texturesLoaded + [texture];
        }
        assert paths[..i + 1][..i] == paths[..i];
        i := i + 1;
      }
      assert paths[..i] == paths;
    }

    /** `getAllVertices`: the meshes' vertices, concatenated in mesh order. */
    method GetAllVertices() returns (allVertices: seq<Vertex>)
      ensures allVertices == ConcatVertices(meshes)
      ensures |allVertices| == VertexCount(meshes)
    {
      allVertices := [];
      var m := 0;
      while m < |meshes|
        invariant 0 <= m <= |meshes|
        invariant allVertices == ConcatVertices(meshes[..m])
      {
        assert meshes[..m + 1][..m] == meshes[..m];
        allVertices := allVertices + meshes[m].vertices;
        m := m + 1;
      }
      assert meshes[..m] == meshes;
      if |meshes| > 0 {
        ConcatVerticesLayout(meshes, 0);
      }
    }
  }

  /** The part of `Positionable` that is not floating-point matrix math: the flag that says its
      matrices are out of date. */
  class Positionable {
    var damaged: bool

    /** `damage`: the matrices must be recomputed. */
    method Damage()
      modifies this
      ensures damaged
    {
      damaged := true;
    }

    /** `update`, as far as the flag goes: the matrices are recomputed and no longer damaged. */
    method Update()
      modifies this
      ensures !damaged
    {
      damaged := false;
    }
  }
}
