/** The imported asset as the two model loaders see it (src/Scene/Model.cpp
    and src/Core/Model.cpp): an abstract node tree with mesh references,
    meshes with optional attribute arrays and faces, materials with texture
    path lists per texture type. Also the parts both loaders share: the
    pre-order flattening, face-index flattening, the path-keyed texture
    cache, and the bounding box with its normalisation. */
module Assets {
  import opened MathLib

  /** `aiNode`: indices into the scene's mesh array, and child nodes. */
  datatype AiNode = AiNode(meshes: seq<nat>, children: seq<AiNode>)

  /** `aiMesh`. An absent normal / texture-coordinate / tangent array is
      None (`HasNormals()`, `mTextureCoords[0]`, `HasTangentsAndBitangents()`). */
  datatype AiMesh = AiMesh(
    vertices: seq<Vec3>,
    normals: Option<seq<Vec3>>,
    texCoords: Option<seq<Vec2>>,
    tangents: Option<seq<Vec3>>,
    bitangents: seq<Vec3>,
    faces: seq<seq<nat>>,
    materialIndex: nat)

  /** The `aiTextureType`s the loaders query. */
  datatype TextureType = BaseColor | Diffuse | Emissive | Normals | Unknown

  /** `aiMaterial`: texture paths per type, and the colour and factor
      properties that `Get` may find. */
  datatype AiMaterial = AiMaterial(
    textures: map<TextureType, seq<string>>,
    baseColor: Option<Vec4>,
    diffuseColor: Option<Vec4>,
    metallic: Option<real>,
    roughness: Option<real>)

  /** `aiScene`: `incomplete` is `AI_SCENE_FLAGS_INCOMPLETE`. */
  datatype AiScene = AiScene(meshes: seq<AiMesh>, materials: seq<AiMaterial>, root: Option<AiNode>, incomplete: bool)

  /** `GetTextureCount(type)` paths, in slot order. */
  function TexturePaths(mat: AiMaterial, t: TextureType): seq<string>
  {
    if t in mat.textures then mat.textures[t] else []
  }

  /** What the importer guarantees about a mesh: every present attribute
      array has one entry per vertex, and the material index is valid. */
  predicate AttributesFit(m: AiMesh)
  {
    && (m.normals.Some? ==> |m.normals.value| == |m.vertices|)
    && (m.texCoords.Some? ==> |m.texCoords.value| == |m.vertices|)
    && (m.tangents.Some? ==> |m.tangents.value| == |m.vertices| && |m.bitangents| == |m.vertices|)
  }

  predicate MeshWellFormed(m: AiMesh, materialCount: nat)
  {
    AttributesFit(m) && m.materialIndex < materialCount
  }

  /** Every reference names a mesh of the scene. */
  predicate RefsValid(refs: seq<nat>, meshCount: nat)
  {
    forall k :: 0 <= k < |refs| ==> refs[k] < meshCount
  }

  /** Both parts of a valid list of references are valid. */
  lemma RefsValidParts(a: seq<nat>, b: seq<nat>, meshCount: nat)
    requires RefsValid(a + b, meshCount)
    ensures RefsValid(a, meshCount) && RefsValid(b, meshCount)
  {
    assert forall k :: 0 <= k < |a| ==> a[k] == (a + b)[k];
    assert forall k :: 0 <= k < |b| ==> b[k] == (a + b)[|a| + k];
  }

  predicate SceneWellFormed(s: AiScene)
  {
    && (forall i :: 0 <= i < |s.meshes| ==> MeshWellFormed(s.meshes[i], |s.materials|))
    && (s.root.Some? ==> RefsValid(Preorder(s.root.value), |s.meshes|))
  }

  /** `std::filesystem::path(p).parent_path()` for a path with `/`
      separators: everything before the last separator. */
  function ParentPath(path: string): string
  {
    if path == [] then []
    else if path[|path| - 1] == '/' then path[..|path| - 1]
    else ParentPath(path[..|path| - 1])
  }

  /** The directory of `dir/name` is `dir`. */
  lemma {:induction false} ParentOfJoin(dir: string, name: string)
    requires '/' !in name
    ensures ParentPath(dir + "/" + name) == dir
    decreases |name|
  {
    if name == [] {
      assert (dir + "/" + name)[..|dir|] == dir;
    } else {
      var front := name[..|name| - 1];
      assert (dir + "/" + name)[..|dir + "/" + name| - 1] == dir + "/" + front;
      assert name[|name| - 1] in name;
      ParentOfJoin(dir, front);
    }
  }

  /** A load succeeds when the importer returned a complete scene with a
      root node. */
  predicate Imported(scene: Option<AiScene>)
  {
    scene.Some? && !scene.value.incomplete && scene.value.root.Some?
  }

  // ---------------------------------------------------------------- tree

  /** The mesh references of a subtree in the order `processNode` visits
      them: the node's own meshes, then each child's subtree in order. */
  function Preorder(node: AiNode): seq<nat>
    decreases node, 1
  {
    node.meshes + ChildrenPreorder(node, |node.children|)
  }

  /** The references of the first `k` children's subtrees. */
  function ChildrenPreorder(node: AiNode, k: nat): seq<nat>
    requires k <= |node.children|
    decreases node, 0, k
  {
    if k == 0 then [] else ChildrenPreorder(node, k - 1) + Preorder(node.children[k - 1])
  }

  /** Mesh reference `x` occurs somewhere in the subtree. */
  predicate Occurs(node: AiNode, x: nat)
    decreases node
  {
    x in node.meshes || exists i :: 0 <= i < |node.children| && Occurs(node.children[i], x)
  }

  /** Number of mesh references in the subtree. */
  function RefCount(node: AiNode): nat
    decreases node, 1
  {
    |node.meshes| + ChildrenRefCount(node, |node.children|)
  }

  function ChildrenRefCount(node: AiNode, k: nat): nat
    requires k <= |node.children|
    decreases node, 0, k
  {
    if k == 0 then 0 else ChildrenRefCount(node, k - 1) + RefCount(node.children[k - 1])
  }

  /** The flattening visits every reference of the tree, each occurrence
      once, and nothing else. */
  lemma {:induction false} PreorderIsFlattening(node: AiNode)
    ensures |Preorder(node)| == RefCount(node)
    ensures forall x :: x in Preorder(node) <==> Occurs(node, x)
    decreases node, 1
  {
    ChildrenPreorderIsFlattening(node, |node.children|);
  }

  lemma {:induction false} ChildrenPreorderIsFlattening(node: AiNode, k: nat)
    requires k <= |node.children|
    ensures |ChildrenPreorder(node, k)| == ChildrenRefCount(node, k)
    ensures forall x :: x in ChildrenPreorder(node, k) <==>
                        exists i :: 0 <= i < k && Occurs(node.children[i], x)
    decreases node, 0, k
  {
    if k > 0 {
      ChildrenPreorderIsFlattening(node, k - 1);
      PreorderIsFlattening(node.children[k - 1]);
    }
  }

  /** The first `k` children's references are a prefix of the first `j`
      children's references when `k <= j`. */
  lemma {:induction false} ChildrenPreorderPrefix(node: AiNode, k: nat, j: nat)
    requires k <= j <= |node.children|
    ensures ChildrenPreorder(node, k) <= ChildrenPreorder(node, j)
    decreases j - k
  {
    if k < j {
      ChildrenPreorderPrefix(node, k, j - 1);
    }
  }

  /** A subtree's references, and those of the first children's subtrees,
      are valid when the whole tree's are. */
  lemma ChildRefsValid(node: AiNode, i: nat, meshCount: nat)
    requires i < |node.children| && RefsValid(Preorder(node), meshCount)
    ensures RefsValid(Preorder(node.children[i]), meshCount)
    ensures RefsValid(ChildrenPreorder(node, i + 1), meshCount)
  {
    ChildrenPreorderPrefix(node, i + 1, |node.children|);
    var whole := Preorder(node);
    var part := ChildrenPreorder(node, i + 1);
    forall k | 0 <= k < |part| ensures part[k] < meshCount {
      assert part[k] == whole[|node.meshes| + k];
    }
    var sub := Preorder(node.children[i]);
    forall k | 0 <= k < |sub| ensures sub[k] < meshCount {
      assert sub[k] == part[|part| - |sub| + k];
    }
  }

  /** A node's own meshes come first, in their order. */
  lemma OwnMeshesFirst(node: AiNode)
    ensures |node.meshes| <= |Preorder(node)|
    ensures Preorder(node)[..|node.meshes|] == node.meshes
  {
  }

  // --------------------------------------------------------------- faces

  /** The faces' index lists concatenated in face order. */
  function Flatten(faces: seq<seq<nat>>): seq<nat>
  {
    if faces == [] then [] else Flatten(faces[..|faces| - 1]) + faces[|faces| - 1]
  }

  lemma {:induction false} FlattenAppend(a: seq<seq<nat>>, b: seq<seq<nat>>)
    ensures Flatten(a + b) == Flatten(a) + Flatten(b)
    decreases |b|
  {
    if b == [] {
      assert a + b == a;
    } else {
      assert (a + b)[..|a + b| - 1] == a + b[..|b| - 1];
      FlattenAppend(a, b[..|b| - 1]);
    }
  }

  /** Index `j` of face `f` lands right after the indices of the faces
      before it. */
  lemma FlattenAt(faces: seq<seq<nat>>, f: nat, j: nat)
    requires f < |faces| && j < |faces[f]|
    ensures |Flatten(faces[..f])| + j < |Flatten(faces)|
    ensures Flatten(faces)[|Flatten(faces[..f])| + j] == faces[f][j]
  {
    assert faces == faces[..f] + ([faces[f]] + faces[f + 1..]);
    FlattenAppend(faces[..f], [faces[f]] + faces[f + 1..]);
    FlattenAppend([faces[f]], faces[f + 1..]);
    assert Flatten([faces[f]]) == faces[f] by {
      var single: seq<seq<nat>> := [faces[f]];
      assert single[..0] == [];
    }
  }

  /** The nested loop of `processMesh` that gathers the face indices. */
  method CollectIndices(faces: seq<seq<nat>>) returns (indices: seq<nat>)
    ensures indices == Flatten(faces)
  {
    indices := [];
    for i := 0 to |faces|
      invariant indices == Flatten(faces[..i])
    {
      var face := faces[i];
      ghost var before := indices;
      for j := 0 to |face|
        invariant indices == before + face[..j]
      {
        indices := indices + [face[j]];
      }
      assert faces[..i + 1][..i] == faces[..i];
    }
    assert faces[..|faces|] == faces;
  }

  // ------------------------------------------------------------ textures

  /** A loaded texture: the id from the texture loader, the sampler name
      it was first loaded for, and its path. */
  datatype Texture = Texture(id: nat, typeName: string, path: string)

  function PathsOf(ts: seq<Texture>): (ps: seq<string>)
    ensures |ps| == |ts|
    ensures forall i :: 0 <= i < |ts| ==> ps[i] == ts[i].path
  {
    seq(|ts|, i requires 0 <= i < |ts| => ts[i].path)
  }

  /** The paths of a concatenation are the concatenated paths. */
  lemma PathsOfConcat(a: seq<Texture>, b: seq<Texture>)
    ensures PathsOf(a + b) == PathsOf(a) + PathsOf(b)
  {
    assert forall i :: 0 <= i < |b| ==> (a + b)[|a| + i] == b[i];
  }

  predicate Distinct(s: seq<string>)
  {
    forall i, j :: 0 <= i < j < |s| ==> s[i] != s[j]
  }

  /** The first cache entry with this path, if any. */
  function FirstWithPath(loaded: seq<Texture>, path: string): (r: Option<nat>)
    ensures r.Some? ==> r.value < |loaded|
  {
    if loaded == [] then None
    else match FirstWithPath(loaded[..|loaded| - 1], path)
      case Some(j) => Some(j)
      case None => if loaded[|loaded| - 1].path == path then Some(|loaded| - 1) else None
  }

  /** The search finds a texture exactly when the cache holds the path,
      and what it finds is the first entry with that path. */
  lemma {:induction false} FirstWithPathIsFirst(loaded: seq<Texture>, path: string)
    ensures FirstWithPath(loaded, path).None? <==> path !in PathsOf(loaded)
    ensures FirstWithPath(loaded, path).Some? ==> loaded[FirstWithPath(loaded, path).value].path == path
    ensures FirstWithPath(loaded, path).Some? ==>
              forall j :: 0 <= j < FirstWithPath(loaded, path).value ==> loaded[j].path != path
    decreases |loaded|
  {
    if loaded != [] {
      var front := loaded[..|loaded| - 1];
      FirstWithPathIsFirst(front, path);
      assert PathsOf(loaded) == PathsOf(front) + [loaded[|loaded| - 1].path];
    }
  }

  /** The linear search of `loadMaterialTextures` over `textures_loaded`. */
  method FindLoaded(loaded: seq<Texture>, path: string) returns (r: Option<nat>)
    ensures r == FirstWithPath(loaded, path)
  {
    r := None;
    var j := 0;
    while j < |loaded|
      invariant j <= |loaded|
      invariant FirstWithPath(loaded[..j], path) == None
    {
      if loaded[j].path == path {
        FirstWithPathExtend(loaded[..j + 1], loaded, path);
        assert loaded[..j + 1][..j] == loaded[..j];
        return Some(j);
      }
      assert loaded[..j + 1][..j] == loaded[..j];
      j := j + 1;
    }
    assert loaded[..j] == loaded;
  }

  /** Extending the cache does not change an existing first match. */
  lemma {:induction false} FirstWithPathExtend(prefix: seq<Texture>, loaded: seq<Texture>, path: string)
    requires prefix <= loaded && path in PathsOf(prefix)
    ensures FirstWithPath(loaded, path) == FirstWithPath(prefix, path)
    decreases |loaded|
  {
    if |loaded| > |prefix| {
      var front := loaded[..|loaded| - 1];
      assert prefix <= front;
      FirstWithPathExtend(prefix, front, path);
      FirstWithPathIsFirst(prefix, path);
    } else {
      assert prefix == loaded;
    }
  }

  /** One slot: reuse the first cache entry with the same path, or load
      the file and append the new texture to the cache. */
  function LoadOne(path: string, typeName: string, loaded: seq<Texture>, dir: string,
                   loader: (string, string) -> nat): (Texture, seq<Texture>)
  {
    Reuse(loaded, FirstWithPath(loaded, path), Texture(loader(path, dir), typeName, path))
  }

  /** The cached entry `found`, or `added` appended to the cache. */
  function Reuse(loaded: seq<Texture>, found: Option<nat>, added: Texture): (Texture, seq<Texture>)
    requires found.Some? ==> found.value < |loaded|
  {
    if found.Some? then (loaded[found.value], loaded) else (added, loaded + [added])
  }

  /** One slot yields a texture with the slot's path: the first cached
      one when the cache holds the path, else a newly loaded one that is
      appended to the cache. */
  lemma LoadOneSpec(path: string, typeName: string, loaded: seq<Texture>, dir: string,
                    loader: (string, string) -> nat)
    ensures var r := LoadOne(path, typeName, loaded, dir, loader);
            && r.0.path == path
            && (path in PathsOf(loaded) ==>
                  FirstWithPath(loaded, path).Some? && r == (loaded[FirstWithPath(loaded, path).value], loaded))
            && (path !in PathsOf(loaded) ==>
                  var t := Texture(loader(path, dir), typeName, path);
                  r == (t, loaded + [t]))
  {
    FirstWithPathIsFirst(loaded, path);
  }

  /** `loadMaterialTextures`: one texture per slot path, with the updated
      cache. */
  function LoadTextures(paths: seq<string>, typeName: string, loaded: seq<Texture>, dir: string,
                        loader: (string, string) -> nat): (r: (seq<Texture>, seq<Texture>))
    ensures |r.0| == |paths|
  {
    if paths == [] then ([], loaded)
    else
      var front := LoadTextures(paths[..|paths| - 1], typeName, loaded, dir, loader);
      var one := LoadOne(paths[|paths| - 1], typeName, front.1, dir, loader);
      (front.0 + [one.0], one.1)
  }

  /** One texture per slot, carrying the slot's path. */
  lemma {:induction false} LoadTexturesPaths(paths: seq<string>, typeName: string, loaded: seq<Texture>, dir: string,
                                             loader: (string, string) -> nat)
    ensures PathsOf(LoadTextures(paths, typeName, loaded, dir, loader).0) == paths
    decreases |paths|
  {
    if paths != [] {
      var front := LoadTextures(paths[..|paths| - 1], typeName, loaded, dir, loader);
      LoadTexturesPaths(paths[..|paths| - 1], typeName, loaded, dir, loader);
      var one := LoadOne(paths[|paths| - 1], typeName, front.1, dir, loader);
      LoadOneSpec(paths[|paths| - 1], typeName, front.1, dir, loader);
      assert PathsOf(front.0 + [one.0]) == PathsOf(front.0) + [paths[|paths| - 1]];
      assert paths == paths[..|paths| - 1] + [paths[|paths| - 1]];
    }
  }

  /** The cache only grows, and only by textures loaded for paths of the
      slots that it did not hold. */
  lemma {:induction false} LoadTexturesGrows(paths: seq<string>, typeName: string, loaded: seq<Texture>, dir: string,
                                             loader: (string, string) -> nat)
    ensures var r := LoadTextures(paths, typeName, loaded, dir, loader);
            && loaded <= r.1
            && (forall k :: |loaded| <= k < |r.1| ==> r.1[k].path in paths && r.1[k].path !in PathsOf(loaded))
            && (forall k :: |loaded| <= k < |r.1| ==> r.1[k] == Texture(loader(r.1[k].path, dir), typeName, r.1[k].path))
    decreases |paths|
  {
    if paths != [] {
      var front := LoadTextures(paths[..|paths| - 1], typeName, loaded, dir, loader);
      LoadTexturesGrows(paths[..|paths| - 1], typeName, loaded, dir, loader);
      var path := paths[|paths| - 1];
      LoadOneSpec(path, typeName, front.1, dir, loader);
      assert forall q :: q in paths[..|paths| - 1] ==> q in paths;
      if path !in PathsOf(front.1) {
        assert PathsOf(loaded) <= PathsOf(front.1);
      }
    }
  }

  /** Afterwards the cache holds every slot's path. */
  lemma {:induction false} LoadTexturesCovers(paths: seq<string>, typeName: string, loaded: seq<Texture>, dir: string,
                                              loader: (string, string) -> nat)
    ensures forall p :: p in paths ==> p in PathsOf(LoadTextures(paths, typeName, loaded, dir, loader).1)
    decreases |paths|
  {
    if paths != [] {
      var front := LoadTextures(paths[..|paths| - 1], typeName, loaded, dir, loader);
      LoadTexturesCovers(paths[..|paths| - 1], typeName, loaded, dir, loader);
      var path := paths[|paths| - 1];
      var one := LoadOne(path, typeName, front.1, dir, loader);
      LoadOneSpec(path, typeName, front.1, dir, loader);
      assert front.1 <= one.1;
      assert PathsOf(front.1) <= PathsOf(one.1);
      assert path in PathsOf(one.1) by {
        if path !in PathsOf(front.1) {
          assert one.1[|one.1| - 1].path == path;
        }
      }
      assert paths == paths[..|paths| - 1] + [path];
    }
  }

  /** A cache with distinct paths keeps them distinct. */
  lemma {:induction false} LoadTexturesDistinct(paths: seq<string>, typeName: string, loaded: seq<Texture>, dir: string,
                                                loader: (string, string) -> nat)
    requires Distinct(PathsOf(loaded))
    ensures Distinct(PathsOf(LoadTextures(paths, typeName, loaded, dir, loader).1))
    decreases |paths|
  {
    if paths != [] {
      var front := LoadTextures(paths[..|paths| - 1], typeName, loaded, dir, loader);
      LoadTexturesDistinct(paths[..|paths| - 1], typeName, loaded, dir, loader);
      var path := paths[|paths| - 1];
      var one := LoadOne(path, typeName, front.1, dir, loader);
      LoadOneSpec(path, typeName, front.1, dir, loader);
      if path !in PathsOf(front.1) {
        var t := Texture(loader(path, dir), typeName, path);
        PathsOfConcat(front.1, [t]);
        DistinctSnoc(PathsOf(front.1), path);
        assert PathsOf(one.1) == PathsOf(front.1) + [path];
      } else {
        assert one.1 == front.1;
      }
    }
  }

  /** Appending a new element keeps a sequence free of duplicates. */
  lemma DistinctSnoc(s: seq<string>, x: string)
    requires Distinct(s) && x !in s
    ensures Distinct(s + [x])
  {
    forall i, j | 0 <= i < j < |s| + 1
      ensures (s + [x])[i] != (s + [x])[j]
    {
      if j == |s| {
        assert s[i] in s;
      }
    }
  }

  /** The whole cache contract of `loadMaterialTextures`. */
  lemma LoadTexturesCache(paths: seq<string>, typeName: string, loaded: seq<Texture>, dir: string,
                          loader: (string, string) -> nat)
    ensures var r := LoadTextures(paths, typeName, loaded, dir, loader);
            && PathsOf(r.0) == paths
            && loaded <= r.1
            && (forall p :: p in paths ==> p in PathsOf(r.1))
            && (forall k :: |loaded| <= k < |r.1| ==> r.1[k].path in paths && r.1[k].path !in PathsOf(loaded))
            && (Distinct(PathsOf(loaded)) ==> Distinct(PathsOf(r.1)))
  {
    LoadTexturesPaths(paths, typeName, loaded, dir, loader);
    LoadTexturesGrows(paths, typeName, loaded, dir, loader);
    LoadTexturesCovers(paths, typeName, loaded, dir, loader);
    if Distinct(PathsOf(loaded)) {
      LoadTexturesDistinct(paths, typeName, loaded, dir, loader);
    }
  }

  /** A slot whose path is already cached gets the cached texture (its id
      and the type name it was first loaded under); nothing is loaded. */
  lemma {:induction false} CacheHitReuses(paths: seq<string>, typeName: string, loaded: seq<Texture>, dir: string,
                                          loader: (string, string) -> nat, i: nat)
    requires i < |paths| && paths[i] in PathsOf(loaded)
    ensures FirstWithPath(loaded, paths[i]).Some?
    ensures LoadTextures(paths, typeName, loaded, dir, loader).0[i]
         == loaded[FirstWithPath(loaded, paths[i]).value]
    decreases |paths|
  {
    var front := LoadTextures(paths[..|paths| - 1], typeName, loaded, dir, loader);
    if i < |paths| - 1 {
      CacheHitReuses(paths[..|paths| - 1], typeName, loaded, dir, loader, i);
    } else {
      LoadTexturesGrows(paths[..|paths| - 1], typeName, loaded, dir, loader);
      FirstWithPathExtend(loaded, front.1, paths[i]);
      FirstWithPathIsFirst(loaded, paths[i]);
      LoadOneSpec(paths[i], typeName, front.1, dir, loader);
      assert PathsOf(loaded) <= PathsOf(front.1);
    }
  }

  /** Loading the same slot list twice loads nothing the second time: the
      cache is unchanged. */
  lemma {:induction false} ReloadIsCached(paths: seq<string>, typeName: string, loaded: seq<Texture>, dir: string,
                                          loader: (string, string) -> nat)
    requires forall p :: p in paths ==> p in PathsOf(loaded)
    ensures LoadTextures(paths, typeName, loaded, dir, loader).1 == loaded
    decreases |paths|
  {
    if paths != [] {
      assert paths[|paths| - 1] in paths;
      ReloadIsCached(paths[..|paths| - 1], typeName, loaded, dir, loader);
      LoadOneSpec(paths[|paths| - 1], typeName, loaded, dir, loader);
    }
  }

  /** Cache entries keep their place when the cache grows. */
  lemma PathsOfPrefix(a: seq<Texture>, b: seq<Texture>, p: string)
    requires a <= b && p in PathsOf(a)
    ensures p in PathsOf(b)
  {
    var k :| 0 <= k < |a| && PathsOf(a)[k] == p;
    assert PathsOf(b)[k] == p;
  }

  /** Three lookups in a row, each leaving its own paths in a cache that
      the later ones only grow, leave all their paths in the final cache. */
  lemma CoversInSequence(a: seq<Texture>, ca: seq<Texture>, b: seq<Texture>, cb: seq<Texture>,
                         c: seq<Texture>, cc: seq<Texture>)
    requires forall p :: p in PathsOf(a) ==> p in PathsOf(ca)
    requires forall p :: p in PathsOf(b) ==> p in PathsOf(cb)
    requires forall p :: p in PathsOf(c) ==> p in PathsOf(cc)
    requires ca <= cb <= cc
    ensures forall p :: p in PathsOf(a + b + c) ==> p in PathsOf(cc)
  {
    assert PathsOf(a + b + c) == PathsOf(a) + PathsOf(b) + PathsOf(c);
    forall p | p in PathsOf(a + b + c) ensures p in PathsOf(cc) {
      if p in PathsOf(a) {
        PathsOfPrefix(ca, cb, p);
        PathsOfPrefix(cb, cc, p);
      } else if p in PathsOf(b) {
        PathsOfPrefix(cb, cc, p);
      }
    }
  }

  // --------------------------------------------------------------- bounds

  /** Vertex layout shared by both loaders. A field that the C++ loader
      leaves unset (no tangents; in the legacy loader, no normal) is None. */
  datatype Vertex = Vertex(position: Vec3, normal: Option<Vec3>, texCoords: Vec2,
                           tangent: Option<Vec3>, bitangent: Option<Vec3>)

  /** The starting values of the min / max scan. */
  const Sentinel: real := 1000000000.0

  datatype Bounds = Bounds(min: Vec3, max: Vec3)

  const Unbounded: Bounds := Bounds(Vec3(Sentinel, Sentinel, Sentinel), Vec3(-Sentinel, -Sentinel, -Sentinel))

  /** One step of the scan: each bound moves only when the coordinate is
      strictly beyond it. */
  function Extend(b: Bounds, p: Vec3): Bounds
  {
    Bounds(Vec3(if p.x < b.min.x then p.x else b.min.x,
                if p.y < b.min.y then p.y else b.min.y,
                if p.z < b.min.z then p.z else b.min.z),
           Vec3(if p.x > b.max.x then p.x else b.max.x,
                if p.y > b.max.y then p.y else b.max.y,
                if p.z > b.max.z then p.z else b.max.z))
  }

  /** The scan over positions in order. */
  function BoxOf(ps: seq<Vec3>): Bounds
  {
    if ps == [] then Unbounded else Extend(BoxOf(ps[..|ps| - 1]), ps[|ps| - 1])
  }

  function Positions(vs: seq<Vertex>): (ps: seq<Vec3>)
    ensures |ps| == |vs|
    ensures forall i :: 0 <= i < |vs| ==> ps[i] == vs[i].position
  {
    seq(|vs|, i requires 0 <= i < |vs| => vs[i].position)
  }

  /** The positions of every vertex of every mesh, mesh by mesh. */
  function AllPositions(vss: seq<seq<Vertex>>): seq<Vec3>
  {
    if vss == [] then [] else AllPositions(vss[..|vss| - 1]) + Positions(vss[|vss| - 1])
  }

  predicate Within(b: Bounds, p: Vec3)
  {
    b.min.x <= p.x <= b.max.x && b.min.y <= p.y <= b.max.y && b.min.z <= p.z <= b.max.z
  }

  /** The scan continued from `b` over the vertices `vs`. */
  function BoxFrom(b: Bounds, vs: seq<Vertex>): Bounds
  {
    if vs == [] then b else Extend(BoxFrom(b, vs[..|vs| - 1]), vs[|vs| - 1].position)
  }

  /** The scan over the vertex lists, mesh after mesh, as the nested loop
      of `computeBoundingBox` runs it. */
  function MeshesBox(vss: seq<seq<Vertex>>): Bounds
  {
    if vss == [] then Unbounded else BoxFrom(MeshesBox(vss[..|vss| - 1]), vss[|vss| - 1])
  }

  lemma {:induction false} BoxFromIsBoxOf(ps: seq<Vec3>, vs: seq<Vertex>)
    ensures BoxFrom(BoxOf(ps), vs) == BoxOf(ps + Positions(vs))
    decreases |vs|
  {
    if vs == [] {
      assert ps + Positions(vs) == ps;
    } else {
      BoxFromIsBoxOf(ps, vs[..|vs| - 1]);
      var all := ps + Positions(vs);
      assert all[..|all| - 1] == ps + Positions(vs[..|vs| - 1]);
    }
  }

  /** The mesh-by-mesh scan is the scan of all positions in order. */
  lemma {:induction false} MeshesBoxIsBoxOf(vss: seq<seq<Vertex>>)
    ensures MeshesBox(vss) == BoxOf(AllPositions(vss))
    decreases |vss|
  {
    if vss != [] {
      MeshesBoxIsBoxOf(vss[..|vss| - 1]);
      BoxFromIsBoxOf(AllPositions(vss[..|vss| - 1]), vss[|vss| - 1]);
    }
  }

  /** The nested min / max loop of `computeBoundingBox` over the meshes'
      vertex lists. */
  method ScanBounds(vss: seq<seq<Vertex>>) returns (box: Bounds)
    ensures box == MeshesBox(vss)
  {
    box := Unbounded;
    for mi := 0 to |vss|
      invariant box == MeshesBox(vss[..mi])
    {
      var vs := vss[mi];
      ghost var start := box;
      for vi := 0 to |vs|
        invariant box == BoxFrom(start, vs[..vi])
      {
        assert vs[..vi + 1][..vi] == vs[..vi];
        var p := vs[vi].position;
        var lo, hi := box.min, box.max;
        if p.x < lo.x { lo := lo.(x := p.x); }
        if p.y < lo.y { lo := lo.(y := p.y); }
        if p.z < lo.z { lo := lo.(z := p.z); }
        if p.x > hi.x { hi := hi.(x := p.x); }
        if p.y > hi.y { hi := hi.(y := p.y); }
        if p.z > hi.z { hi := hi.(z := p.z); }
        box := Bounds(lo, hi);
      }
      assert vs[..|vs|] == vs;
      assert vss[..mi + 1][..mi] == vss[..mi];
    }
    assert vss[..|vss|] == vss;
  }

  /** Every position lies inside the box. */
  lemma {:induction false} BoxContains(ps: seq<Vec3>)
    ensures forall i :: 0 <= i < |ps| ==> Within(BoxOf(ps), ps[i])
  {
    if ps != [] {
      BoxContains(ps[..|ps| - 1]);
    }
  }

  predicate InSentinelRange(p: Vec3)
  {
    -Sentinel <= p.x <= Sentinel && -Sentinel <= p.y <= Sentinel && -Sentinel <= p.z <= Sentinel
  }

  /** When every coordinate is within the sentinels and there is at least
      one position, each bound is attained by some position: the box is
      the componentwise minimum and maximum. */
  lemma {:induction false} BoxAttained(ps: seq<Vec3>)
    requires ps != []
    requires forall i :: 0 <= i < |ps| ==> InSentinelRange(ps[i])
    ensures exists i :: 0 <= i < |ps| && ps[i].x == BoxOf(ps).min.x
    ensures exists i :: 0 <= i < |ps| && ps[i].y == BoxOf(ps).min.y
    ensures exists i :: 0 <= i < |ps| && ps[i].z == BoxOf(ps).min.z
    ensures exists i :: 0 <= i < |ps| && ps[i].x == BoxOf(ps).max.x
    ensures exists i :: 0 <= i < |ps| && ps[i].y == BoxOf(ps).max.y
    ensures exists i :: 0 <= i < |ps| && ps[i].z == BoxOf(ps).max.z
  {
    var n := |ps| - 1;
    var front := ps[..n];
    var p := ps[n];
    if front == [] {
      assert BoxOf(ps) == Extend(BoxOf(front), p) && BoxOf(front) == Unbounded;
      assert ps[0] == p;
    } else {
      BoxAttained(front);
      var b := BoxOf(front);
      var i0 :| 0 <= i0 < |front| && front[i0].x == b.min.x;
      var i1 :| 0 <= i1 < |front| && front[i1].y == b.min.y;
      var i2 :| 0 <= i2 < |front| && front[i2].z == b.min.z;
      var i3 :| 0 <= i3 < |front| && front[i3].x == b.max.x;
      var i4 :| 0 <= i4 < |front| && front[i4].y == b.max.y;
      var i5 :| 0 <= i5 < |front| && front[i5].z == b.max.z;
      assert ps[i0] == front[i0] && ps[i1] == front[i1] && ps[i2] == front[i2];
      assert ps[i3] == front[i3] && ps[i4] == front[i4] && ps[i5] == front[i5];
    }
  }

  /** The normalisation: `scale(2 / maxDim)` after `translate(-center)`.
      A zero extent divides by zero. */
  datatype Normalization = Normalization(scale: Float, center: Vec3)

  function MaxDim(b: Bounds): real
  {
    Max(Max(b.max.x - b.min.x, b.max.y - b.min.y), b.max.z - b.min.z)
  }

  function NormalizationOf(b: Bounds): Normalization
  {
    var center := Scale(0.5, Add(b.min, b.max));
    var maxDim := MaxDim(b);
    Normalization(if maxDim == 0.0 then NonFinite else Finite(2.0 / maxDim), center)
  }

  /** The model matrix applied to a point: `s * (p - center)`. */
  function Transform(s: real, center: Vec3, p: Vec3): Vec3
  {
    Vec3(Affine(s, p.x, center.x), Affine(s, p.y, center.y), Affine(s, p.z, center.z))
  }

  function Affine(s: real, v: real, c: real): real { s * (v - c) }

  /** One coordinate: a value between `lo` and `hi` moved by the midpoint
      and scaled by `2 / d` with `hi - lo <= d` lands in [-1, 1]. */
  lemma CoordInUnitRange(v: real, lo: real, hi: real, d: real, s: real, c: real)
    requires lo <= v <= hi && 0.0 < d && hi - lo <= d
    requires s == 2.0 / d && c == 0.5 * (lo + hi)
    ensures -1.0 <= Affine(s, v, c) <= 1.0
  {
    assert s * d == 2.0;
    MulMonoReal(v - c, 0.5 * d, s);
    MulMonoReal(-0.5 * d, v - c, s);
  }

  /** With a positive extent every scanned position is mapped into the cube
      [-1, 1]^3. */
  lemma NormalizedInUnitCube(ps: seq<Vec3>, i: nat)
    requires i < |ps| && 0.0 < MaxDim(BoxOf(ps))
    ensures NormalizationOf(BoxOf(ps)).scale.Finite?
    ensures var n := NormalizationOf(BoxOf(ps));
            var q := Transform(n.scale.value, n.center, ps[i]);
            -1.0 <= q.x <= 1.0 && -1.0 <= q.y <= 1.0 && -1.0 <= q.z <= 1.0
  {
    var b := BoxOf(ps);
    BoxContains(ps);
    assert Within(b, ps[i]);
    var d := MaxDim(b);
    assert b.max.x - b.min.x <= d && b.max.y - b.min.y <= d && b.max.z - b.min.z <= d;
    var n := NormalizationOf(b);
    assert n.scale == Finite(2.0 / d);
    assert n.center == Vec3(0.5 * (b.min.x + b.max.x), 0.5 * (b.min.y + b.max.y), 0.5 * (b.min.z + b.max.z));
    CoordInUnitRange(ps[i].x, b.min.x, b.max.x, d, n.scale.value, n.center.x);
    CoordInUnitRange(ps[i].y, b.min.y, b.max.y, d, n.scale.value, n.center.y);
    CoordInUnitRange(ps[i].z, b.min.z, b.max.z, d, n.scale.value, n.center.z);
  }

  /** Where vertex `vi` of mesh `mi` sits in the flattened position list. */
  lemma {:induction false} PositionIndex(vss: seq<seq<Vertex>>, mi: nat, vi: nat) returns (k: nat)
    requires mi < |vss| && vi < |vss[mi]|
    ensures k < |AllPositions(vss)| && AllPositions(vss)[k] == vss[mi][vi].position
    decreases |vss|
  {
    var front := vss[..|vss| - 1];
    if mi == |vss| - 1 {
      k := |AllPositions(front)| + vi;
    } else {
      assert vss[mi] == front[mi];
      k := PositionIndex(front, mi, vi);
    }
  }
}
