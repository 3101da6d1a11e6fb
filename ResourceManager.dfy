/** The path-keyed model cache (src/Resources/ResourceManager.cpp). The
    process-wide singleton becomes an ordinary object owned by its user. */
module Resources {
  import opened MathLib
  import opened Assets
  import SceneModel

  class ResourceManager {
    /** `modelCache`: the model loaded for each path requested so far. */
    var modelCache: map<string, SceneModel.Model>

    constructor()
      ensures modelCache == map[]
    {
      modelCache := map[];
    }

    /** `LoadModel`: a cached path returns the stored model and changes
        nothing; any other path constructs exactly one new model, stores it
        under that path alone and returns it. Either way the path now maps
        to the returned model, so a second request for it returns the same
        one. The importer's result for each path is `importer`; `loader` is
        the texture loader. */
    method LoadModel(path: string, importer: string -> Option<AiScene>, loader: (string, string) -> nat)
      returns (model: SceneModel.Model)
      requires importer(path).Some? ==> SceneWellFormed(importer(path).value)
      modifies this
      ensures path in modelCache && modelCache[path] == model
      ensures path in old(modelCache) ==> model == old(modelCache)[path] && modelCache == old(modelCache)
      ensures path !in old(modelCache) ==>
                && fresh(model)
                && model.LoadedFrom(path, importer(path), loader)
                && modelCache == old(modelCache)[path := model]
      ensures forall p :: p != path ==> (p in modelCache <==> p in old(modelCache))
      ensures forall p :: p != path && p in old(modelCache) ==> modelCache[p] == old(modelCache)[p]
    {
      if path in modelCache {
        return modelCache[path];
      }
      model := new SceneModel.Model(path, importer(path), loader);
      modelCache := modelCache[path := model];
    }

    /** `Clear`: the cache is empty afterwards. */
    method Clear()
      modifies this
      ensures modelCache == map[]
    {
      modelCache := map[];
    }
  }
}
