/** ModelManager: the registry updated in place. */
module ModelManager {
  import opened Wrappers
  import opened ModelUtil
  import opened ModelRegistry
  import Spec = ModelRegistry

  class ModelManager {
    const system: ModelFile
    var modelFiles: Registry

    constructor (system: ModelFile)
      requires system.namespace == SYSTEM_NAMESPACE
      ensures this.system == system && modelFiles == Spec.ClearModelFiles(system)
    {
      this.system := system;
      modelFiles := map[system.namespace := system];
    }

    method AddModelFile(m: ModelFile) returns (err: Option<Error>)
      modifies this
      ensures Spec.AddModelFile(old(modelFiles), m) == if err.None? then Ok(modelFiles) else Err(err.value)
      ensures if err.None? then m.namespace !in old(modelFiles) && modelFiles == old(modelFiles)[m.namespace := m]
              else modelFiles == old(modelFiles)
    {
      if m.namespace == SYSTEM_NAMESPACE {
        return Some(SystemNamespace);
      }
      if m.namespace !in modelFiles {
        if !Validates(modelFiles, m) {
          return Some(IllegalModel);
        }
        modelFiles := modelFiles[m.namespace := m];
      } else {
        return Some(NamespaceExists);
      }
      err := None;
    }

    method UpdateModelFile(m: ModelFile) returns (err: Option<Error>)
      modifies this
      ensures Spec.UpdateModelFile(old(modelFiles), m) == if err.None? then Ok(modelFiles) else Err(err.value)
      ensures if err.None? then m.namespace in old(modelFiles) && modelFiles == old(modelFiles)[m.namespace := m]
              else modelFiles == old(modelFiles)
    {
      if m.namespace !in modelFiles {
        return Some(NoSuchModel);
      } else if modelFiles[m.namespace].namespace == SYSTEM_NAMESPACE {
        return Some(SystemNamespace);
      }
      if !Validates(modelFiles, m) {
        return Some(IllegalModel);
      }
      modelFiles := modelFiles[m.namespace := m];
      err := None;
    }

    method DeleteModelFile(ns: string) returns (err: Option<Error>)
      modifies this
      ensures Spec.DeleteModelFile(old(modelFiles), ns) == if err.None? then Ok(modelFiles) else Err(err.value)
      ensures if err.None? then ns in old(modelFiles) && modelFiles == old(modelFiles) - {ns}
              else modelFiles == old(modelFiles)
    {
      if ns !in modelFiles {
        return Some(NoSuchModel);
      } else if ns == SYSTEM_NAMESPACE {
        return Some(SystemNamespace);
      }
      modelFiles := modelFiles - {ns};
      err := None;
    }

    method ClearModelFiles()
      modifies this
      ensures modelFiles == Spec.ClearModelFiles(system) == map[system.namespace := system]
    {
      modelFiles := map[];
      modelFiles := modelFiles[system.namespace := system];
    }

    /** Registers every file, then validates every registered one; on any failure puts the
        registry back as it was. */
    method AddModelFiles(files: seq<ModelFile>) returns (r: Result<seq<ModelFile>, Error>)
      modifies this
      ensures Spec.AddModelFiles(old(modelFiles), files) == if r.Ok? then Ok(modelFiles) else Err(r.error)
      ensures if r.Ok? then r.value == files else modelFiles == old(modelFiles)
    {
      var originalModelFiles := modelFiles;
      var newModelFiles: seq<ModelFile> := [];
      for n := 0 to |files|
        invariant newModelFiles == files[..n]
        invariant Register(originalModelFiles, files) == Register(modelFiles, files[n..])
      {
        var m := files[n];
        assert files[n..][0] == m && files[n..][1..] == files[n + 1..];
        if m.namespace == SYSTEM_NAMESPACE || m.namespace in modelFiles {
          modelFiles := originalModelFiles;
          return Err(if m.namespace == SYSTEM_NAMESPACE then SystemNamespace else NamespaceExists);
        }
        modelFiles := modelFiles[m.namespace := m];
        newModelFiles := newModelFiles + [m];
      }
      var unchecked := modelFiles.Keys;
      while unchecked != {}
        invariant unchecked <= modelFiles.Keys
        invariant forall ns <- modelFiles.Keys - unchecked :: Validates(modelFiles, modelFiles[ns])
      {
        var ns :| ns in unchecked;
        if !Validates(modelFiles, modelFiles[ns]) {
          modelFiles := originalModelFiles;
          return Err(IllegalModel);
        }
        unchecked := unchecked - {ns};
      }
      r := Ok(newModelFiles);
    }
  }
}
