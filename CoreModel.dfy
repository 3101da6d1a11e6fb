/** The legacy model loader (src/Core/Model.cpp): the same pre-order walk,
    vertex copy, index flattening, texture cache and bounding box as the
    evaluation loader, but a missing normal is left unset, the albedo map
    comes from the DIFFUSE slots only, and meshes carry no material
    properties. */
module CoreModel {
  import opened MathLib
  import opened Assets
  import SceneModel

  datatype Mesh = Mesh(vertices: seq<Vertex>, indices: seq<nat>, textures: seq<Texture>)

  const DefaultTexCoords: Vec2 := Vec2(0.0, 0.0)

  /** Vertex `i`: the normal only when the mesh has normals, texture
      coordinates (0, 0) when it has none, and tangents only when texture
      coordinates exist. */
  function VertexOf(m: AiMesh, i: nat): Vertex
    requires AttributesFit(m) && i < |m.vertices|
  {
    var hasFrame := m.texCoords.Some? && m.tangents.Some?;
    Vertex(m.vertices[i],
           if m.normals.Some? then Some(m.normals.value[i]) else None,
           if m.texCoords.Some? then m.texCoords.value[i] else DefaultTexCoords,
           if hasFrame then Some(m.tangents.value[i]) else None,
           if hasFrame then Some(m.bitangents[i]) else None)
  }

  function VerticesOf(m: AiMesh): (vs: seq<Vertex>)
    requires AttributesFit(m)
    ensures |vs| == |m.vertices|
  {
    seq(|m.vertices|, i requires 0 <= i < |m.vertices| => VertexOf(m, i))
  }

  /** Every vertex keeps its position, and has a normal exactly when the
      mesh has normals. */
  lemma VerticesDefaults(m: AiMesh)
    requires AttributesFit(m)
    ensures Positions(VerticesOf(m)) == m.vertices
    ensures forall i :: 0 <= i < |m.vertices| ==> (VerticesOf(m)[i].normal.Some? <==> m.normals.Some?)
    ensures m.normals.Some? ==> forall i :: 0 <= i < |m.vertices| ==> VerticesOf(m)[i].normal == Some(m.normals.value[i])
  {
  }

  /** A legacy vertex is the evaluation loader's vertex, except that a
      missing normal stays unset instead of becoming +Y. */
  lemma VertexAgreesWithScene(m: AiMesh, i: nat)
    requires AttributesFit(m) && i < |m.vertices|
    ensures VertexOf(m, i) == SceneModel.VertexOf(m, i) <==> m.normals.Some?
    ensures VertexOf(m, i) == SceneModel.VertexOf(m, i).(normal := VertexOf(m, i).normal)
  {
  }

  /** The vertex loop of `processMesh`. */
  method BuildVertices(m: AiMesh) returns (vertices: seq<Vertex>)
    requires AttributesFit(m)
    ensures vertices == VerticesOf(m)
  {
    vertices := [];
    for i := 0 to |m.vertices|
      invariant |vertices| == i
      invariant forall k :: 0 <= k < i ==> vertices[k] == VertexOf(m, k)
    {
      var normal: Option<Vec3> := None;
      if m.normals.Some? {
        normal := Some(m.normals.value[i]);
      }
      var texCoords := DefaultTexCoords;
      var tangent: Option<Vec3> := None;
      var bitangent: Option<Vec3> := None;
      if m.texCoords.Some? {
        texCoords := m.texCoords.value[i];
        if m.tangents.Some? {
          tangent := Some(m.tangents.value[i]);
          bitangent := Some(m.bitangents[i]);
        }
      }
      vertices := vertices + [Vertex(m.vertices[i], normal, texCoords, tangent, bitangent)];
    }
  }

  /** All textures of a mesh: DIFFUSE as albedo, then normal maps, then
      UNKNOWN (metallic-roughness) maps. */
  function MeshTextures(mat: AiMaterial, loaded: seq<Texture>, dir: string,
                        loader: (string, string) -> nat): (seq<Texture>, seq<Texture>)
  {
    var albedo := LoadTextures(TexturePaths(mat, Diffuse), "albedoMap", loaded, dir, loader);
    var normals := LoadTextures(TexturePaths(mat, Normals), "normalMap", albedo.1, dir, loader);
    var arm := LoadTextures(TexturePaths(mat, Unknown), "metallicRoughnessMap", normals.1, dir, loader);
    (albedo.0 + normals.0 + arm.0, arm.1)
  }

  /** The mesh's texture paths are its DIFFUSE, normal and UNKNOWN slots in
      that order. */
  lemma MeshTexturesPaths(mat: AiMaterial, loaded: seq<Texture>, dir: string, loader: (string, string) -> nat)
    ensures PathsOf(MeshTextures(mat, loaded, dir, loader).0)
         == TexturePaths(mat, Diffuse) + TexturePaths(mat, Normals) + TexturePaths(mat, Unknown)
  {
    var albedo := LoadTextures(TexturePaths(mat, Diffuse), "albedoMap", loaded, dir, loader);
    LoadTexturesPaths(TexturePaths(mat, Diffuse), "albedoMap", loaded, dir, loader);
    var normals := LoadTextures(TexturePaths(mat, Normals), "normalMap", albedo.1, dir, loader);
    LoadTexturesPaths(TexturePaths(mat, Normals), "normalMap", albedo.1, dir, loader);
    var arm := LoadTextures(TexturePaths(mat, Unknown), "metallicRoughnessMap", normals.1, dir, loader);
    LoadTexturesPaths(TexturePaths(mat, Unknown), "metallicRoughnessMap", normals.1, dir, loader);
    PathsOfConcat(albedo.0, normals.0);
    PathsOfConcat(albedo.0 + normals.0, arm.0);
  }

  /** Processing a mesh's textures only grows the cache and keeps its
      paths distinct. */
  lemma MeshTexturesGrows(mat: AiMaterial, loaded: seq<Texture>, dir: string, loader: (string, string) -> nat)
    ensures var r := MeshTextures(mat, loaded, dir, loader);
            && loaded <= r.1
            && (Distinct(PathsOf(loaded)) ==> Distinct(PathsOf(r.1)))
  {
    var albedo := LoadTextures(TexturePaths(mat, Diffuse), "albedoMap", loaded, dir, loader);
    LoadTexturesCache(TexturePaths(mat, Diffuse), "albedoMap", loaded, dir, loader);
    var normals := LoadTextures(TexturePaths(mat, Normals), "normalMap", albedo.1, dir, loader);
    LoadTexturesCache(TexturePaths(mat, Normals), "normalMap", albedo.1, dir, loader);
    LoadTexturesCache(TexturePaths(mat, Unknown), "metallicRoughnessMap", normals.1, dir, loader);
  }

  /** Every path a mesh uses is in the cache afterwards. */
  lemma MeshTexturesCovers(mat: AiMaterial, loaded: seq<Texture>, dir: string, loader: (string, string) -> nat)
    ensures var r := MeshTextures(mat, loaded, dir, loader);
            forall p :: p in PathsOf(r.0) ==> p in PathsOf(r.1)
  {
    var albedo := LoadTextures(TexturePaths(mat, Diffuse), "albedoMap", loaded, dir, loader);
    LoadTexturesPaths(TexturePaths(mat, Diffuse), "albedoMap", loaded, dir, loader);
    LoadTexturesCovers(TexturePaths(mat, Diffuse), "albedoMap", loaded, dir, loader);
    LoadTexturesGrows(TexturePaths(mat, Diffuse), "albedoMap", loaded, dir, loader);
    var normals := LoadTextures(TexturePaths(mat, Normals), "normalMap", albedo.1, dir, loader);
    LoadTexturesPaths(TexturePaths(mat, Normals), "normalMap", albedo.1, dir, loader);
    LoadTexturesCovers(TexturePaths(mat, Normals), "normalMap", albedo.1, dir, loader);
    LoadTexturesGrows(TexturePaths(mat, Normals), "normalMap", albedo.1, dir, loader);
    var arm := LoadTextures(TexturePaths(mat, Unknown), "metallicRoughnessMap", normals.1, dir, loader);
    LoadTexturesPaths(TexturePaths(mat, Unknown), "metallicRoughnessMap", normals.1, dir, loader);
    LoadTexturesCovers(TexturePaths(mat, Unknown), "metallicRoughnessMap", normals.1, dir, loader);
    LoadTexturesGrows(TexturePaths(mat, Unknown), "metallicRoughnessMap", normals.1, dir, loader);
    CoversInSequence(albedo.0, albedo.1, normals.0, normals.1, arm.0, arm.1);
  }

  /** Both loaders pick the same textures, with the same cache effect,
      exactly for a material without BASE_COLOR slots whose DIFFUSE slots
      are not empty or whose EMISSIVE slots are empty. */
  lemma MeshTexturesAgreeWithScene(mat: AiMaterial, loaded: seq<Texture>, dir: string,
                                   loader: (string, string) -> nat)
    requires TexturePaths(mat, BaseColor) == []
    requires TexturePaths(mat, Diffuse) != [] || TexturePaths(mat, Emissive) == []
    ensures MeshTextures(mat, loaded, dir, loader) == SceneModel.MeshTextures(mat, loaded, dir, loader)
  {
    var diffuse := LoadTextures(TexturePaths(mat, Diffuse), "albedoMap", loaded, dir, loader);
    assert LoadTextures(TexturePaths(mat, BaseColor), "albedoMap", loaded, dir, loader) == ([], loaded);
    if TexturePaths(mat, Diffuse) == [] {
      assert diffuse == ([], loaded);
      assert LoadTextures(TexturePaths(mat, Emissive), "albedoMap", loaded, dir, loader) == ([], loaded);
    } else {
      assert diffuse.0 != [];
    }
  }

  /** `processMesh` with its cache effect. */
  function MeshOf(m: AiMesh, mat: AiMaterial, loaded: seq<Texture>, dir: string,
                  loader: (string, string) -> nat): (Mesh, seq<Texture>)
    requires AttributesFit(m)
  {
    var t := MeshTextures(mat, loaded, dir, loader);
    (Mesh(VerticesOf(m), Flatten(m.faces), t.0), t.1)
  }

  /** The meshes and the cache after processing the references `refs` in
      order, starting from `meshes` and `loaded`. */
  function ProcessMeshes(meshes: seq<Mesh>, loaded: seq<Texture>, refs: seq<nat>, scene: AiScene, dir: string,
                         loader: (string, string) -> nat): (seq<Mesh>, seq<Texture>)
    requires SceneWellFormed(scene) && RefsValid(refs, |scene.meshes|)
  {
    if refs == [] then (meshes, loaded)
    else
      AppendMesh(ProcessMeshes(meshes, loaded, refs[..|refs| - 1], scene, dir, loader),
                 scene.meshes[refs[|refs| - 1]], scene, dir, loader)
  }

  function AppendMesh(prev: (seq<Mesh>, seq<Texture>), m: AiMesh, scene: AiScene, dir: string,
                      loader: (string, string) -> nat): (seq<Mesh>, seq<Texture>)
    requires SceneWellFormed(scene) && m in scene.meshes
  {
    var r := MeshOf(m, scene.materials[m.materialIndex], prev.1, dir, loader);
    (prev.0 + [r.0], r.1)
  }

  /** Processing `a + b` is processing `a`, then `b`. */
  lemma {:induction false} ProcessMeshesAppend(meshes: seq<Mesh>, loaded: seq<Texture>, a: seq<nat>, b: seq<nat>,
                                               scene: AiScene, dir: string, loader: (string, string) -> nat)
    requires SceneWellFormed(scene) && RefsValid(a + b, |scene.meshes|)
    ensures RefsValid(a, |scene.meshes|) && RefsValid(b, |scene.meshes|)
    ensures var st := ProcessMeshes(meshes, loaded, a, scene, dir, loader);
            (ProcessMeshes(meshes, loaded, a + b, scene, dir, loader)
             == ProcessMeshes(st.0, st.1, b, scene, dir, loader))
    decreases |b|
  {
    RefsValidParts(a, b, |scene.meshes|);
    if b == [] {
      assert a + b == a;
    } else {
      var front := b[..|b| - 1];
      assert b == front + [b[|b| - 1]];
      assert a + b == (a + front) + [b[|b| - 1]];
      RefsValidParts(a + front, [b[|b| - 1]], |scene.meshes|);
      ProcessMeshesAppend(meshes, loaded, a, front, scene, dir, loader);
    }
  }

  /** Processing appends one mesh per reference and leaves the earlier
      meshes alone; the cache only grows and keeps its paths distinct. */
  lemma {:induction false} ProcessMeshesShape(meshes: seq<Mesh>, loaded: seq<Texture>, refs: seq<nat>,
                                              scene: AiScene, dir: string, loader: (string, string) -> nat)
    requires SceneWellFormed(scene) && RefsValid(refs, |scene.meshes|)
    ensures var r := ProcessMeshes(meshes, loaded, refs, scene, dir, loader);
            && |r.0| == |meshes| + |refs|
            && meshes <= r.0
            && loaded <= r.1
            && (Distinct(PathsOf(loaded)) ==> Distinct(PathsOf(r.1)))
    decreases |refs|
  {
    if refs != [] {
      var front := refs[..|refs| - 1];
      ProcessMeshesShape(meshes, loaded, front, scene, dir, loader);
      var prev := ProcessMeshes(meshes, loaded, front, scene, dir, loader);
      var src := scene.meshes[refs[|refs| - 1]];
      MeshTexturesGrows(scene.materials[src.materialIndex], prev.1, dir, loader);
    }
  }

  /** The k-th new mesh is built from the k-th reference: its vertices, its
      indices (faces in order) and its texture paths come from that source
      mesh and its material. */
  lemma {:induction false} ProcessMeshesAt(meshes: seq<Mesh>, loaded: seq<Texture>, refs: seq<nat>,
                                           scene: AiScene, dir: string, loader: (string, string) -> nat, k: nat)
    requires SceneWellFormed(scene) && RefsValid(refs, |scene.meshes|) && k < |refs|
    ensures |ProcessMeshes(meshes, loaded, refs, scene, dir, loader).0| == |meshes| + |refs|
    ensures var built := ProcessMeshes(meshes, loaded, refs, scene, dir, loader).0[|meshes| + k];
            var src := scene.meshes[refs[k]];
            var mat := scene.materials[src.materialIndex];
            && built.vertices == VerticesOf(src)
            && built.indices == Flatten(src.faces)
            && PathsOf(built.textures)
               == TexturePaths(mat, Diffuse) + TexturePaths(mat, Normals) + TexturePaths(mat, Unknown)
    decreases |refs|
  {
    ProcessMeshesShape(meshes, loaded, refs, scene, dir, loader);
    var front := refs[..|refs| - 1];
    var prev := ProcessMeshes(meshes, loaded, front, scene, dir, loader);
    ProcessMeshesShape(meshes, loaded, front, scene, dir, loader);
    if k == |refs| - 1 {
      var src := scene.meshes[refs[k]];
      MeshTexturesPaths(scene.materials[src.materialIndex], prev.1, dir, loader);
    } else {
      ProcessMeshesAt(meshes, loaded, front, scene, dir, loader, k);
    }
  }

  /** The vertex lists of the meshes, in order. */
  function VertexLists(meshes: seq<Mesh>): (vss: seq<seq<Vertex>>)
    ensures |vss| == |meshes|
  {
    seq(|meshes|, i requires 0 <= i < |meshes| => meshes[i].vertices)
  }

  class Model {
    /** `textures_loaded`: every texture loaded so far, one per path. */
    var texturesLoaded: seq<Texture>
    var meshes: seq<Mesh>
    var directory: string
    /** `boundsMin` / `boundsMax`; None while never assigned. */
    var bounds: Option<Bounds>
    /** `modelMatrix`; None while never assigned. */
    var normalization: Option<Normalization>

    /** The state `Model(path)` leaves behind: empty after an import
        failure, otherwise the pre-order mesh list, the texture cache it
        built and, when there are meshes, their bounding box and its
        normalisation. */
    predicate LoadedFrom(path: string, imported: Option<AiScene>, loader: (string, string) -> nat)
      requires imported.Some? ==> SceneWellFormed(imported.value)
      reads this
    {
      && (!Imported(imported) ==> meshes == [] && texturesLoaded == [] && directory == [])
      && (Imported(imported) ==>
            && directory == ParentPath(path)
            && (meshes, texturesLoaded)
               == ProcessMeshes([], [], Preorder(imported.value.root.value), imported.value, directory, loader))
      && (meshes == [] ==> bounds == None && normalization == None)
      && (meshes != [] ==> && bounds == Some(MeshesBox(VertexLists(meshes)))
                           && normalization == Some(NormalizationOf(bounds.value)))
    }

    /** `Model(path)`: load, then compute the bounding box. The importer's
        result for `path` is `imported`; `loader` is the texture loader. */
    constructor(path: string, imported: Option<AiScene>, loader: (string, string) -> nat)
      requires imported.Some? ==> SceneWellFormed(imported.value)
      ensures LoadedFrom(path, imported, loader)
    {
      texturesLoaded := [];
      meshes := [];
      directory := [];
      bounds := None;
      normalization := None;
      new;
      LoadModel(path, imported, loader);
      ComputeBoundingBox();
    }

    /** `loadModel`: an import failure leaves the model empty. */
    method LoadModel(path: string, imported: Option<AiScene>, loader: (string, string) -> nat)
      requires imported.Some? ==> SceneWellFormed(imported.value)
      modifies this
      ensures !Imported(imported) ==> meshes == old(meshes) && texturesLoaded == old(texturesLoaded)
                                      && directory == old(directory)
      ensures Imported(imported) ==>
                && directory == ParentPath(path)
                && (meshes, texturesLoaded)
                   == ProcessMeshes(old(meshes), old(texturesLoaded), Preorder(imported.value.root.value),
                                    imported.value, directory, loader)
      ensures bounds == old(bounds) && normalization == old(normalization)
    {
      if !Imported(imported) {
        return;
      }
      var scene := imported.value;
      directory := ParentPath(path);
      ProcessNode(scene.root.value, scene, loader);
    }

    /** `processNode`: the node's own meshes in order, then each child's
        subtree in order. */
    method ProcessNode(node: AiNode, scene: AiScene, loader: (string, string) -> nat)
      requires SceneWellFormed(scene) && RefsValid(Preorder(node), |scene.meshes|)
      modifies this
      ensures (meshes, texturesLoaded)
           == ProcessMeshes(old(meshes), old(texturesLoaded), Preorder(node), scene, directory, loader)
      ensures directory == old(directory) && bounds == old(bounds) && normalization == old(normalization)
      decreases node, 2
    {
      ProcessMeshesAppend(meshes, texturesLoaded, node.meshes, ChildrenPreorder(node, |node.children|),
                          scene, directory, loader);
      AppendMeshes(node.meshes, scene, loader);
      ProcessChildren(node, scene, loader);
    }

    /** The second loop of `processNode`: each child's subtree in order. */
    method ProcessChildren(node: AiNode, scene: AiScene, loader: (string, string) -> nat)
      requires SceneWellFormed(scene) && RefsValid(Preorder(node), |scene.meshes|)
      requires RefsValid(ChildrenPreorder(node, |node.children|), |scene.meshes|)
      modifies this
      ensures (meshes, texturesLoaded)
           == ProcessMeshes(old(meshes), old(texturesLoaded), ChildrenPreorder(node, |node.children|),
                            scene, directory, loader)
      ensures directory == old(directory) && bounds == old(bounds) && normalization == old(normalization)
      decreases node, 1
    {
      ghost var m0, t0 := meshes, texturesLoaded;
      for i := 0 to |node.children|
        invariant RefsValid(ChildrenPreorder(node, i), |scene.meshes|)
        invariant (meshes, texturesLoaded) == ProcessMeshes(m0, t0, ChildrenPreorder(node, i), scene, directory, loader)
        invariant directory == old(directory) && bounds == old(bounds) && normalization == old(normalization)
      {
        ChildRefsValid(node, i, |scene.meshes|);
        ProcessChild(node, i, scene, loader, m0, t0);
      }
    }

    /** One pass of the child loop: child `i`'s subtree is appended after
        the subtrees of the children before it. */
    method ProcessChild(node: AiNode, i: nat, scene: AiScene, loader: (string, string) -> nat,
                        ghost m0: seq<Mesh>, ghost t0: seq<Texture>)
      requires SceneWellFormed(scene) && RefsValid(Preorder(node), |scene.meshes|)
      requires i < |node.children| && RefsValid(ChildrenPreorder(node, i), |scene.meshes|)
      requires RefsValid(ChildrenPreorder(node, i + 1), |scene.meshes|)
      requires (meshes, texturesLoaded) == ProcessMeshes(m0, t0, ChildrenPreorder(node, i), scene, directory, loader)
      modifies this
      ensures (meshes, texturesLoaded)
           == ProcessMeshes(m0, t0, ChildrenPreorder(node, i + 1), scene, directory, loader)
      ensures directory == old(directory) && bounds == old(bounds) && normalization == old(normalization)
      decreases node, 0
    {
      ChildRefsValid(node, i, |scene.meshes|);
      ProcessMeshesAppend(m0, t0, ChildrenPreorder(node, i), Preorder(node.children[i]), scene, directory, loader);
      ProcessNode(node.children[i], scene, loader);
    }

    /** The first loop of `processNode`: one mesh per reference of the
        node, in order. */
    method AppendMeshes(refs: seq<nat>, scene: AiScene, loader: (string, string) -> nat)
      requires SceneWellFormed(scene) && RefsValid(refs, |scene.meshes|)
      modifies this
      ensures (meshes, texturesLoaded)
           == ProcessMeshes(old(meshes), old(texturesLoaded), refs, scene, directory, loader)
      ensures directory == old(directory) && bounds == old(bounds) && normalization == old(normalization)
    {
      ghost var m0, t0 := meshes, texturesLoaded;
      for i := 0 to |refs|
        invariant (meshes, texturesLoaded) == ProcessMeshes(m0, t0, refs[..i], scene, directory, loader)
        invariant directory == old(directory) && bounds == old(bounds) && normalization == old(normalization)
      {
        AppendMeshAt(refs, i, scene, loader, m0, t0);
      }
      assert refs[..|refs|] == refs;
    }

    /** One pass of the own-mesh loop: the mesh of reference `i` is
        processed and appended. */
    method AppendMeshAt(refs: seq<nat>, i: nat, scene: AiScene, loader: (string, string) -> nat,
                        ghost m0: seq<Mesh>, ghost t0: seq<Texture>)
      requires SceneWellFormed(scene) && RefsValid(refs, |scene.meshes|) && i < |refs|
      requires (meshes, texturesLoaded) == ProcessMeshes(m0, t0, refs[..i], scene, directory, loader)
      modifies this
      ensures (meshes, texturesLoaded) == ProcessMeshes(m0, t0, refs[..i + 1], scene, directory, loader)
      ensures directory == old(directory) && bounds == old(bounds) && normalization == old(normalization)
    {
      ghost var prev := (meshes, texturesLoaded);
      assert refs[..i + 1][..i] == refs[..i];
      assert ProcessMeshes(m0, t0, refs[..i + 1], scene, directory, loader)
          == AppendMesh(prev, scene.meshes[refs[i]], scene, directory, loader);
      var mesh := ProcessMesh(scene.meshes[refs[i]], scene, loader);
      meshes := meshes + [mesh];
    }

    /** `processMesh`: vertices, indices and textures of one mesh. */
    method ProcessMesh(m: AiMesh, scene: AiScene, loader: (string, string) -> nat) returns (mesh: Mesh)
      requires SceneWellFormed(scene) && m in scene.meshes
      modifies this
      ensures (mesh, texturesLoaded) == MeshOf(m, scene.materials[m.materialIndex], old(texturesLoaded), directory, loader)
      ensures meshes == old(meshes) && directory == old(directory)
      ensures bounds == old(bounds) && normalization == old(normalization)
    {
      var vertices := BuildVertices(m);
      var indices := CollectIndices(m.faces);
      var material := scene.materials[m.materialIndex];
      var diffuseMaps := LoadMaterialTextures(material, Diffuse, "albedoMap", loader);
      var normalMaps := LoadMaterialTextures(material, Normals, "normalMap", loader);
      var armMaps := LoadMaterialTextures(material, Unknown, "metallicRoughnessMap", loader);
      mesh := Mesh(vertices, indices, diffuseMaps + normalMaps + armMaps);
    }

    /** `loadMaterialTextures`: for each slot, the first cached texture with
        the same path, or a newly loaded one that is also cached. */
    method LoadMaterialTextures(mat: AiMaterial, t: TextureType, typeName: string,
                                loader: (string, string) -> nat)
      returns (textures: seq<Texture>)
      modifies this
      ensures (textures, texturesLoaded)
           == LoadTextures(TexturePaths(mat, t), typeName, old(texturesLoaded), directory, loader)
      ensures meshes == old(meshes) && directory == old(directory)
      ensures bounds == old(bounds) && normalization == old(normalization)
    {
      var paths := TexturePaths(mat, t);
      textures := [];
      for i := 0 to |paths|
        invariant (textures, texturesLoaded)
               == LoadTextures(paths[..i], typeName, old(texturesLoaded), directory, loader)
        invariant meshes == old(meshes) && directory == old(directory)
        invariant bounds == old(bounds) && normalization == old(normalization)
      {
        assert paths[..i + 1][..i] == paths[..i];
        var hit := FindLoaded(texturesLoaded, paths[i]);
        if hit.Some? {
          textures := textures + [texturesLoaded[hit.value]];
        } else {
          var texture := Texture(loader(paths[i], directory), typeName, paths[i]);
          textures := textures + [texture];
          texturesLoaded := texturesLoaded + [texture];
        }
      }
      assert paths[..|paths|] == paths;
    }

    /** `computeBoundingBox`: nothing without meshes; otherwise the min/max
        scan over every vertex position and the normalisation built from
        it. */
    method ComputeBoundingBox()
      modifies this
      ensures meshes == old(meshes) && texturesLoaded == old(texturesLoaded) && directory == old(directory)
      ensures meshes == [] ==> bounds == old(bounds) && normalization == old(normalization)
      ensures meshes != [] ==> && bounds == Some(MeshesBox(VertexLists(meshes)))
                               && normalization == Some(NormalizationOf(bounds.value))
    {
      if meshes == [] {
        return;
      }
      var box := ScanBounds(VertexLists(meshes));
      bounds := Some(box);
      normalization := Some(NormalizationOf(box));
    }
  }

  /** After loading, every vertex of the model is mapped into [-1, 1]^3 by
      the normalisation when the model has a positive extent. */
  lemma ModelFitsUnitCube(meshes: seq<Mesh>, mi: nat, vi: nat)
    requires mi < |meshes| && vi < |meshes[mi].vertices|
    requires 0.0 < MaxDim(MeshesBox(VertexLists(meshes)))
    ensures var n := NormalizationOf(MeshesBox(VertexLists(meshes)));
            && n.scale.Finite?
            && var q := Transform(n.scale.value, n.center, meshes[mi].vertices[vi].position);
               -1.0 <= q.x <= 1.0 && -1.0 <= q.y <= 1.0 && -1.0 <= q.z <= 1.0
  {
    var vss := VertexLists(meshes);
    var k := PositionIndex(vss, mi, vi);
    MeshesBoxIsBoxOf(vss);
    NormalizedInUnitCube(AllPositions(vss), k);
  }
}
