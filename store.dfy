/** The module-level `buildArtifacts` map of `utils/store.ts`: exported files kept by build id. */
module BuildStore {
  import opened Options

  datatype StaticFile = StaticFile(content: string, contentType: string)

  /** `Record<string, StaticFile>`: exported files by relative path. */
  type FilesMap = map<string, StaticFile>

  /** `map.get(id)`: the stored value, or `undefined`. */
  function Lookup(artifacts: map<string, FilesMap>, buildId: string): (r: Option<FilesMap>)
    ensures r.Some? <==> buildId in artifacts
    ensures r.Some? ==> r.value == artifacts[buildId]
  {
    if buildId in artifacts then Some(artifacts[buildId]) else None
  }

  class Store {
    var buildArtifacts: map<string, FilesMap>

    /** The store starts empty: every id is unknown. */
    constructor ()
      ensures buildArtifacts == map[]
      ensures forall id :: Lookup(buildArtifacts, id) == None
    {
      buildArtifacts := map[];
    }

    /** `storeBuild`: `id` now maps to `filesMap`, replacing any earlier map; no other id changes. */
    method StoreBuild(buildId: string, filesMap: FilesMap)
      modifies this
      ensures Lookup(buildArtifacts, buildId) == Some(filesMap)
      ensures forall other :: other != buildId ==> Lookup(buildArtifacts, other) == Lookup(old(buildArtifacts), other)
      ensures buildArtifacts.Keys == old(buildArtifacts).Keys + {buildId}
    {
      buildArtifacts := buildArtifacts[buildId := filesMap];
    }

    /** `getBuild` */
    method GetBuild(buildId: string) returns (r: Option<FilesMap>)
      ensures r.Some? <==> buildId in buildArtifacts
      ensures r.Some? ==> r.value == buildArtifacts[buildId]
    {
      r := if buildId in buildArtifacts then Some(buildArtifacts[buildId]) else None;
    }

    /** `deleteBuild`: `id` is unknown afterwards; no other id changes. */
    method DeleteBuild(buildId: string)
      modifies this
      ensures Lookup(buildArtifacts, buildId) == None
      ensures forall other :: other != buildId ==> Lookup(buildArtifacts, other) == Lookup(old(buildArtifacts), other)
      ensures buildArtifacts.Keys == old(buildArtifacts).Keys - {buildId}
    {
      buildArtifacts := buildArtifacts - {buildId};
    }
  }
}
