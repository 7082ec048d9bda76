/** Validation of an installation manifest against the release this binary supports. */
module Manifest {
  import opened Wrappers
  import opened Dependencies

  datatype Version = Version(major: nat, minor: nat, patch: nat, prerelease: string, build: string)

  /** A version requirement is known only by which versions it matches. */
  type VersionReq = Version -> bool

  datatype DeploymentMode = SelfHosted | Operated

  datatype ModuleInstallation = ModuleInstallation(version: Version, configuration: string)

  datatype SecretReference = Environment(env: string) | File(file: string)

  datatype LocalSecrets = LocalSecrets(
    operationsPassword: SecretReference,
    examplePassword: SecretReference,
    dispatcherPassword: SecretReference,
    readinessPassword: SecretReference)

  datatype LocalDeployment = LocalDeployment(
    installationId: string,
    databaseName: string,
    httpPort: nat,
    secrets: LocalSecrets)

  datatype Manifest = Manifest(
    release: Version,
    deploymentMode: DeploymentMode,
    modules: map<string, ModuleInstallation>,
    local: Option<LocalDeployment>)

  datatype ModuleMetadata = ModuleMetadata(
    version: Version,
    requiredDependencies: set<string>,
    contractRequirements: map<string, VersionReq>)

  datatype ReleaseMetadata = ReleaseMetadata(
    release: Version,
    deploymentModes: set<DeploymentMode>,
    modules: map<string, ModuleMetadata>,
    contracts: map<string, Version>)

  datatype ValidatedManifest = ValidatedManifest(
    deploymentMode: DeploymentMode,
    modules: map<string, ModuleInstallation>,
    local: Option<LocalDeployment>)

  datatype ManifestError =
    | UnsupportedRelease
    | UnsupportedMode
    | UnknownModule(id: string)
    | IncompatibleVersion(id: string)
    | MissingContract(id: string, contract: string)
    | UnmetContract(id: string, contract: string)
    | MissingDependency(id: string, dependency: string)
    | DependencyCycle(id: string)

  // ------------------------------------------------------------------ the specification

  ghost predicate ContractMet(metadata: ReleaseMetadata, requirements: map<string, VersionReq>, contract: string)
    requires contract in requirements
  {
    contract in metadata.contracts && requirements[contract](metadata.contracts[contract])
  }

  /** The module is known, enabled at the supported version, and its contracts are met. */
  ghost predicate Supported(manifest: Manifest, metadata: ReleaseMetadata, id: string)
    requires id in manifest.modules
  {
    && id in metadata.modules
    && manifest.modules[id].version == metadata.modules[id].version
    && forall c | c in metadata.modules[id].contractRequirements ::
         ContractMet(metadata, metadata.modules[id].contractRequirements, c)
  }

  ghost predicate Closed(manifest: Manifest, metadata: ReleaseMetadata) {
    forall id | id in manifest.modules && id in metadata.modules ::
      metadata.modules[id].requiredDependencies <= manifest.modules.Keys
  }

  function DependencyGraph(manifest: Manifest, metadata: ReleaseMetadata): Graph {
    Graph(manifest.modules.Keys, map id | id in metadata.modules :: metadata.modules[id].requiredDependencies)
  }

  /** A round trip through enabled modules, each requiring the next. */
  ghost predicate Cycle(manifest: Manifest, metadata: ReleaseMetadata, p: seq<string>) {
    && |p| >= 2 && p[0] == p[|p| - 1]
    && (forall i | 0 <= i < |p| :: p[i] in manifest.modules && p[i] in metadata.modules)
    && (forall i | 0 <= i < |p| - 1 :: p[i + 1] in metadata.modules[p[i]].requiredDependencies)
  }

  ghost predicate CycleThrough(manifest: Manifest, metadata: ReleaseMetadata, id: string) {
    exists p: seq<string> :: Cycle(manifest, metadata, p) && p[0] == id
  }

  /** The graph the search walks has exactly these round trips. */
  lemma CyclesAgree(manifest: Manifest, metadata: ReleaseMetadata, id: string)
    requires manifest.modules.Keys <= metadata.modules.Keys
    ensures DependencyGraph(manifest, metadata).OnCycle(id) <==> CycleThrough(manifest, metadata, id)
  {
    var g := DependencyGraph(manifest, metadata);
    if g.OnCycle(id) {
      var p :| |p| >= 2 && p[0] == id && p[|p| - 1] == id && g.Path(p);
      forall i | 0 <= i < |p|
        ensures p[i] in manifest.modules && p[i] in metadata.modules
      {
        assert i < |p| - 1 ==> g.Edge(p[i], p[i + 1]);
        assert i > 0 ==> g.Edge(p[i - 1], p[i - 1 + 1]);
      }
      forall i | 0 <= i < |p| - 1
        ensures p[i + 1] in metadata.modules[p[i]].requiredDependencies
      {
        assert g.Edge(p[i], p[i + 1]);
      }
      assert Cycle(manifest, metadata, p);
    }
    if CycleThrough(manifest, metadata, id) {
      var p :| Cycle(manifest, metadata, p) && p[0] == id;
      assert g.Path(p);
    }
  }

  ghost predicate Acceptable(manifest: Manifest, metadata: ReleaseMetadata) {
    && manifest.release == metadata.release
    && manifest.deploymentMode in metadata.deploymentModes
    && (forall id | id in manifest.modules :: Supported(manifest, metadata, id))
    && Closed(manifest, metadata)
    && forall id :: !CycleThrough(manifest, metadata, id)
  }

  /** The error is true of the manifest, and every check before the one that failed passed. */
  ghost predicate Justified(error: ManifestError, manifest: Manifest, metadata: ReleaseMetadata) {
    var release, mode := manifest.release == metadata.release, manifest.deploymentMode in metadata.deploymentModes;
    var supported := forall id | id in manifest.modules :: Supported(manifest, metadata, id);
    match error
    case UnsupportedRelease => !release
    case UnsupportedMode => release && !mode
    case UnknownModule(id) => release && mode && id in manifest.modules && id !in metadata.modules
    case IncompatibleVersion(id) =>
      && release && mode && id in manifest.modules && id in metadata.modules
      && manifest.modules[id].version != metadata.modules[id].version
    case MissingContract(id, c) =>
      && release && mode && id in manifest.modules && id in metadata.modules
      && manifest.modules[id].version == metadata.modules[id].version
      && c in metadata.modules[id].contractRequirements && c !in metadata.contracts
    case UnmetContract(id, c) =>
      && release && mode && id in manifest.modules && id in metadata.modules
      && manifest.modules[id].version == metadata.modules[id].version
      && c in metadata.modules[id].contractRequirements && c in metadata.contracts
      && !metadata.modules[id].contractRequirements[c](metadata.contracts[c])
    case MissingDependency(id, d) =>
      && release && mode && supported && id in manifest.modules
      && d in metadata.modules[id].requiredDependencies && d !in manifest.modules
    case DependencyCycle(id) =>
      && release && mode && supported && Closed(manifest, metadata)
      && CycleThrough(manifest, metadata, id)
  }

  // --------------------------------------------------------------------- the validator

  method CheckContracts(metadata: ReleaseMetadata, id: string, requirements: map<string, VersionReq>)
    returns (error: Option<ManifestError>)
    ensures error.None? <==> forall c | c in requirements :: ContractMet(metadata, requirements, c)
    ensures error.Some? ==>
              || (error.value.MissingContract? && error.value.id == id
                  && error.value.contract in requirements && error.value.contract !in metadata.contracts)
              || (error.value.UnmetContract? && error.value.id == id
                  && error.value.contract in requirements && error.value.contract in metadata.contracts
                  && !requirements[error.value.contract](metadata.contracts[error.value.contract]))
  {
    var todo := requirements.Keys;
    while todo != {}
      invariant todo <= requirements.Keys
      invariant forall c | c in requirements.Keys - todo :: ContractMet(metadata, requirements, c)
      decreases |todo|
    {
      var c :| c in todo;
      todo := todo - {c};
      if c !in metadata.contracts {
        assert !ContractMet(metadata, requirements, c);
        return Some(MissingContract(id, c));
      }
      if !requirements[c](metadata.contracts[c]) {
        assert !ContractMet(metadata, requirements, c);
        return Some(UnmetContract(id, c));
      }
    }
    return None;
  }

  /** The first loop: every enabled module is supported by the release. */
  method CheckModules(manifest: Manifest, metadata: ReleaseMetadata) returns (error: Option<ManifestError>)
    requires manifest.release == metadata.release && manifest.deploymentMode in metadata.deploymentModes
    ensures error.None? <==> forall id | id in manifest.modules :: Supported(manifest, metadata, id)
    ensures error.Some? ==> Justified(error.value, manifest, metadata)
  {
    var todo := manifest.modules.Keys;
    while todo != {}
      invariant todo <= manifest.modules.Keys
      invariant forall id | id in manifest.modules.Keys - todo :: Supported(manifest, metadata, id)
      decreases |todo|
    {
      var id :| id in todo;
      todo := todo - {id};
      if id !in metadata.modules {
        assert !Supported(manifest, metadata, id);
        return Some(UnknownModule(id));
      }
      if manifest.modules[id].version != metadata.modules[id].version {
        assert !Supported(manifest, metadata, id);
        return Some(IncompatibleVersion(id));
      }
      error := CheckContracts(metadata, id, metadata.modules[id].contractRequirements);
      if error.Some? {
        assert !Supported(manifest, metadata, id);
        return;
      }
    }
    error := None;
  }

  /** The second loop indexes the metadata; the first has made sure that no index can miss. */
  method CheckDependencies(manifest: Manifest, metadata: ReleaseMetadata) returns (error: Option<ManifestError>)
    requires manifest.modules.Keys <= metadata.modules.Keys
    ensures error.None? <==> Closed(manifest, metadata)
    ensures error.Some? ==>
              && error.value.MissingDependency? && error.value.id in manifest.modules
              && error.value.dependency in metadata.modules[error.value.id].requiredDependencies
              && error.value.dependency !in manifest.modules
  {
    var todo := manifest.modules.Keys;
    while todo != {}
      invariant todo <= manifest.modules.Keys
      invariant forall id | id in manifest.modules.Keys - todo ::
                  metadata.modules[id].requiredDependencies <= manifest.modules.Keys
      decreases |todo|
    {
      var id :| id in todo;
      todo := todo - {id};
      var required := metadata.modules[id].requiredDependencies;
      while required != {}
        invariant required <= metadata.modules[id].requiredDependencies
        invariant metadata.modules[id].requiredDependencies - required <= manifest.modules.Keys
        decreases |required|
      {
        var dependency :| dependency in required;
        required := required - {dependency};
        if dependency !in manifest.modules {
          return Some(MissingDependency(id, dependency));
        }
      }
    }
    return None;
  }

  /** Ok exactly for the acceptable manifests, which pass through unchanged; every error is justified. */
  method ValidateManifest(manifest: Manifest, metadata: ReleaseMetadata)
    returns (result: Result<ValidatedManifest, ManifestError>)
    ensures result.Ok? <==> Acceptable(manifest, metadata)
    ensures result.Ok? ==>
              result.value == ValidatedManifest(manifest.deploymentMode, manifest.modules, manifest.local)
    ensures result.Err? ==> Justified(result.error, manifest, metadata)
  {
    if manifest.release != metadata.release {
      return Err(UnsupportedRelease);
    }
    if manifest.deploymentMode !in metadata.deploymentModes {
      return Err(UnsupportedMode);
    }
    var error := CheckModules(manifest, metadata);
    if error.Some? {
      return Err(error.value);
    }
    assert forall id | id in manifest.modules :: Supported(manifest, metadata, id);
    error := CheckDependencies(manifest, metadata);
    if error.Some? {
      return Err(error.value);
    }
    forall id
      ensures DependencyGraph(manifest, metadata).OnCycle(id) <==> CycleThrough(manifest, metadata, id)
    {
      CyclesAgree(manifest, metadata, id);
    }
    var acyclic, order, expanded := EnsureAcyclic(DependencyGraph(manifest, metadata));
    if acyclic.Err? {
      return Err(DependencyCycle(acyclic.error));
    }
    return Ok(ValidatedManifest(manifest.deploymentMode, manifest.modules, manifest.local));
  }
}
