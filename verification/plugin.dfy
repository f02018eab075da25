/** The provider configuration of the older plugin entry point: how the
    credential options select the SDK configuration, and the default region. */
module Provider {
  import opened Wrappers

  const DEFAULT_REGION := "ap-southeast-2"

  /** JavaScript truthiness of an optional string: present and not empty. */
  predicate Truthy(s: Option<string>) {
    s.Some? && s.value != ""
  }

  /** The SDK configuration: credentials read from a named shared profile,
      no explicit credentials, or an access-key pair; always with the region
      that was passed in. */
  datatype AwsConfig =
    | SharedProfile(profile: string, region: Option<string>)
    | RegionOnly(region: Option<string>)
    | AccessKeys(accessKeyId: Option<string>, secretAccessKey: Option<string>, region: Option<string>)

  /** A non-empty profile wins; with neither a key id nor a secret the
      configuration carries the region only; otherwise it carries both key
      fields as given, even when one of them is missing. */
  function CreateAwsConfig(awsProfile: Option<string>, awsId: Option<string>, awsSecret: Option<string>,
                           awsRegion: Option<string>): (r: AwsConfig)
    ensures r.region == awsRegion
    ensures r.SharedProfile? <==> Truthy(awsProfile)
    ensures r.SharedProfile? ==> r.profile == awsProfile.value
    ensures r.RegionOnly? <==> !Truthy(awsProfile) && !Truthy(awsId) && !Truthy(awsSecret)
    ensures r.AccessKeys? <==> !Truthy(awsProfile) && (Truthy(awsId) || Truthy(awsSecret))
    ensures r.AccessKeys? ==> r.accessKeyId == awsId && r.secretAccessKey == awsSecret
  {
    if Truthy(awsProfile) then SharedProfile(awsProfile.value, awsRegion)
    else if !Truthy(awsId) && !Truthy(awsSecret) then RegionOnly(awsRegion)
    else AccessKeys(awsId, awsSecret, awsRegion)
  }

  /** The provider block's optional attributes; `None` is an omitted one. */
  datatype ProviderConfig = ProviderConfig(
    awsId: Option<string>,
    awsSecret: Option<string>,
    awsRegion: Option<string>,
    awsProfile: Option<string>)

  /** `configure`: an omitted region defaults to "ap-southeast-2" before the
      credential options are looked at. */
  function Configure(p: ProviderConfig): (r: AwsConfig)
    ensures p.awsRegion.Some? ==> r.region == p.awsRegion
    ensures p.awsRegion.None? ==> r.region == Some(DEFAULT_REGION)
    ensures r.SharedProfile? <==> Truthy(p.awsProfile)
    ensures r.RegionOnly? <==> !Truthy(p.awsProfile) && !Truthy(p.awsId) && !Truthy(p.awsSecret)
    ensures r.SharedProfile? ==> p.awsProfile == Some(r.profile)
    ensures r.AccessKeys? ==> r.accessKeyId == p.awsId && r.secretAccessKey == p.awsSecret
  {
    CreateAwsConfig(p.awsProfile, p.awsId, p.awsSecret, Some(p.awsRegion.GetOr(DEFAULT_REGION)))
  }
}

/** The `bundle` resource: uploads a file to `<prefix>/<fileHash>/<file name>`
    in a bucket and reports the key; reading it back signals drift by blanking
    `fileHash` when the object cannot be fetched. */
module Bundle {
  import opened Wrappers
  import opened NodePath
  import opened Remote

  datatype Config = Config(bucket: string, prefix: Option<string>, file: string, fileHash: string)

  datatype State = State(bucket: string, prefix: Option<string>, file: string, fileHash: string, key: string)

  /** `path.join` given a value that is not a string, a missing file, or a
      failed remote call. */
  datatype Error =
    | InvalidArgType
    | FileNotFound(path: string)
    | RemoteFailure(cause: RemoteError)

  function WithKey(c: Config, key: string): State {
    State(c.bucket, c.prefix, c.file, c.fileHash, key)
  }

  function ConfigOf(s: State): Config {
    Config(s.bucket, s.prefix, s.file, s.fileHash)
  }

  /** `prefix || '.'`. */
  function PrefixOrDot(prefix: Option<string>): (r: string)
    ensures r != []
    ensures prefix.Some? && prefix.value != [] ==> r == prefix.value
    ensures !(prefix.Some? && prefix.value != []) ==> r == "."
  {
    if prefix.Some? && prefix.value != [] then prefix.value else "."
  }

  /** `join(prefix || '.', fileHash, basename(file))`: the key the source's
      own join would give for the prefix `prefix || '.'`. */
  function KeyFor(prefix: Option<string>, fileHash: string, file: string): (r: string)
    ensures r != []
    ensures KeyAsWritten(Some(PrefixOrDot(prefix)), fileHash, file) == Success(r)
  {
    Join([PrefixOrDot(prefix), fileHash, Basename(file)])
  }

  /** `join(prefix, fileHash, basename(file))`, which throws when the prefix
      was omitted. */
  function KeyAsWritten(prefix: Option<string>, fileHash: string, file: string): (r: Result<string, Error>)
    ensures r.Success? <==> prefix.Some?
  {
    match prefix
    case None => Failure(InvalidArgType)
    case Some(p) => Success(Join([p, fileHash, Basename(file)]))
  }

  /** The plan: the configuration with the key it will be uploaded under. */
  function Plan(prior: Option<State>, config: Config): (r: State)
    ensures ConfigOf(r) == config
    ensures r.key == Join([PrefixOrDot(config.prefix), config.fileHash, Basename(config.file)])
  {
    WithKey(config, KeyFor(config.prefix, config.fileHash, config.file))
  }

  datatype CreateRun = CreateRun(result: Result<State, Error>, s3: Storage, calls: seq<Call>)

  /** Reads the file, uploads it under `key`, and returns the configuration
      with that key. */
  function Upload(config: Config, key: string, s3: Storage, files: map<string, Content>): (r: CreateRun)
    ensures config.file !in files ==> r == CreateRun(Failure(FileNotFound(config.file)), s3, [])
    ensures config.file in files ==> r.calls == [PutObject(config.bucket, key)]
    ensures r.result.Success? <==> config.file in files && s3.up && config.bucket in s3.buckets
    ensures r.result.Success? ==>
      r.result.value == WithKey(config, key) && r.s3 == s3.(objects := s3.objects[ObjectId(config.bucket, key) := files[config.file]])
    ensures r.result.Failure? ==> r.s3 == s3
  {
    if config.file !in files then CreateRun(Failure(FileNotFound(config.file)), s3, [])
    else
      var (stored, s3') := Put(s3, config.bucket, key, Some(files[config.file]));
      match stored
      case Failure(e) => CreateRun(Failure(RemoteFailure(e)), s3, [PutObject(config.bucket, key)])
      case Success(_) => CreateRun(Success(WithKey(config, key)), s3', [PutObject(config.bucket, key)])
  }

  /** Create as the source writes it: the key is joined from the raw prefix. */
  function CreateAsWritten(config: Config, s3: Storage, files: map<string, Content>): (r: CreateRun)
    ensures config.prefix.None? ==> r == CreateRun(Failure(InvalidArgType), s3, [])
    ensures config.prefix.Some? ==>
      r == Upload(config, Join([config.prefix.value, config.fileHash, Basename(config.file)]), s3, files)
  {
    match KeyAsWritten(config.prefix, config.fileHash, config.file)
    case Failure(e) => CreateRun(Failure(e), s3, [])
    case Success(key) => Upload(config, key, s3, files)
  }

  /** Create with the key derived as the plan derives it. */
  function Create(config: Config, s3: Storage, files: map<string, Content>): (r: CreateRun)
    ensures r.result.Success? <==> config.file in files && s3.up && config.bucket in s3.buckets
    ensures r.result.Success? ==> r.result.value == Plan(None, config)
    ensures r.result.Success? ==>
      r.s3 == s3.(objects := s3.objects[ObjectId(config.bucket, Plan(None, config).key) := files[config.file]])
    ensures r.result.Failure? ==> r.s3 == s3
    ensures r.calls == if config.file in files then [PutObject(config.bucket, Plan(None, config).key)] else []
  {
    Upload(config, KeyFor(config.prefix, config.fileHash, config.file), s3, files)
  }

  /** Update as the source writes it: create as written on the new
      configuration. */
  function UpdateAsWritten(prior: State, config: Config, s3: Storage, files: map<string, Content>): (r: CreateRun)
    ensures r == CreateAsWritten(config, s3, files)
    ensures config.prefix.None? ==> r == CreateRun(Failure(InvalidArgType), s3, [])
  {
    CreateAsWritten(config, s3, files)
  }

  /** Update uploads the new configuration as the corrected create does. */
  function Update(prior: State, config: Config, s3: Storage, files: map<string, Content>): (r: CreateRun)
    ensures r == Create(config, s3, files)
    ensures r.result.Success? <==> config.file in files && s3.up && config.bucket in s3.buckets
    ensures r.result.Success? ==> r.result.value == Plan(Some(prior), config)
    ensures r.calls == if config.file in files then [PutObject(config.bucket, Plan(Some(prior), config).key)] else []
  {
    Create(config, s3, files)
  }

  datatype ReadRun = ReadRun(result: Result<State, Error>, calls: seq<Call>)

  /** Fetches the object under `key`: found, the state with that key;
      otherwise the state with that key and an empty `fileHash`. */
  function Fetch(state: State, key: string, s3: Storage): (r: ReadRun)
    ensures r.calls == [GetObject(state.bucket, key)]
    ensures r.result.Success?
    ensures s3.up && ObjectId(state.bucket, key) in s3.objects ==> r.result.value == state.(key := key)
    ensures !(s3.up && ObjectId(state.bucket, key) in s3.objects) ==> r.result.value == state.(key := key, fileHash := "")
  {
    match Get(s3, state.bucket, key)
    case Success(_) => ReadRun(Success(state.(key := key)), [GetObject(state.bucket, key)])
    case Failure(_) => ReadRun(Success(state.(key := key, fileHash := "")), [GetObject(state.bucket, key)])
  }

  /** Read as the source writes it: the key is joined from the raw prefix,
      outside the guarded fetch. */
  function ReadAsWritten(state: State, s3: Storage): (r: ReadRun)
    ensures state.prefix.None? ==> r == ReadRun(Failure(InvalidArgType), [])
    ensures state.prefix.Some? ==> r == Fetch(state, Join([state.prefix.value, state.fileHash, Basename(state.file)]), s3)
  {
    match KeyAsWritten(state.prefix, state.fileHash, state.file)
    case Failure(e) => ReadRun(Failure(e), [])
    case Success(key) => Fetch(state, key, s3)
  }

  /** Read with the key derived as the plan derives it; a failed fetch is
      reported as drift, never as an error. */
  function Read(state: State, s3: Storage): (r: ReadRun)
    ensures r.result.Success?
    ensures r.calls == [GetObject(state.bucket, Plan(None, ConfigOf(state)).key)]
    ensures ConfigOf(r.result.value.(fileHash := state.fileHash)) == ConfigOf(state)
    ensures r.result.value.key == Plan(None, ConfigOf(state)).key
    ensures r.result.value.fileHash == state.fileHash <==>
      (s3.up && ObjectId(state.bucket, r.result.value.key) in s3.objects) || state.fileHash == ""
    ensures r.result.value ==
      if s3.up && ObjectId(state.bucket, Plan(None, ConfigOf(state)).key) in s3.objects
      then state.(key := Plan(None, ConfigOf(state)).key)
      else state.(key := Plan(None, ConfigOf(state)).key, fileHash := "")
  {
    Fetch(state, KeyFor(state.prefix, state.fileHash, state.file), s3)
  }

  // ---------------------------------------------------------------------
  // Properties

  /** Without a prefix the plan proposes a key, but create and read as
      written throw before any remote call. */
  lemma MissingPrefixBreaksCreateAndRead(config: Config, state: State, s3: Storage, files: map<string, Content>)
    requires config.prefix.None? && state.prefix.None?
    ensures Plan(None, config).key == Join([".", config.fileHash, Basename(config.file)])
    ensures CreateAsWritten(config, s3, files).result == Failure(InvalidArgType)
    ensures CreateAsWritten(config, s3, files).calls == []
    ensures ReadAsWritten(state, s3).result == Failure(InvalidArgType)
    ensures UpdateAsWritten(state, config, s3, files).result == Failure(InvalidArgType)
  {
  }

  /** With an empty prefix and a file hash that starts with a separator, the
      plan reads the prefix as "." and proposes a relative key, while create
      as written skips the empty prefix and uploads under an absolute one. */
  lemma EmptyPrefixAbsoluteHashMovesObject(config: Config, s3: Storage, files: map<string, Content>)
    requires config.prefix == Some("")
    requires config.fileHash != [] && config.fileHash[0] == SEP
    ensures Plan(None, config).key[0] != SEP
    ensures KeyAsWritten(config.prefix, config.fileHash, config.file).value[0] == SEP
    ensures config.file in files ==> CreateAsWritten(config, s3, files).calls != Create(config, s3, files).calls
  {
    JoinAbsoluteAfterDotOrEmpty(config.fileHash, Basename(config.file));
  }

  /** With a prefix, create as written stores the object under the key the
      plan proposed: a non-empty prefix is used by both, and an empty one is
      read as "." by the plan and skipped by create, which `join` treats
      alike for a relative file hash. */
  lemma CreateAsWrittenMatchesPlan(config: Config, s3: Storage, files: map<string, Content>)
    requires config.prefix.Some?
    requires config.prefix.value == "" ==> config.fileHash == "" || config.fileHash[0] != SEP
    ensures CreateAsWritten(config, s3, files) == Create(config, s3, files)
  {
    if config.prefix.value == "" {
      JoinCurrentDirectoryOrEmpty(config.fileHash, Basename(config.file));
    }
  }

  /** What create stores, read finds again unchanged. */
  lemma CreateThenRead(config: Config, s3: Storage, files: map<string, Content>)
    requires Create(config, s3, files).result.Success?
    ensures var run := Create(config, s3, files);
      Read(run.result.value, run.s3).result == Success(run.result.value)
  {
  }

  /** Once the object is gone, read blanks `fileHash`, so the next plan
      differs from the state and the bundle is uploaded again. */
  lemma LostObjectIsDrift(state: State, s3: Storage)
    requires state.fileHash != ""
    requires ObjectId(state.bucket, Plan(None, ConfigOf(state)).key) !in s3.objects
    ensures Read(state, s3).result.value.fileHash == ""
    ensures Plan(Some(Read(state, s3).result.value), ConfigOf(state)) != Read(state, s3).result.value
  {
  }
}

/** The hashed `application_version` resource: the version label is the
    SHA-256 hex digest of the application name, bucket and key, cut to 31
    characters, and create registers it with the hosting service. */
module HashedVersion {
  import opened Wrappers
  import opened Remote

  const VERSION_LENGTH: nat := 31
  const DESCRIPTION := "My App"

  datatype SourceBundle = SourceBundle(bucket: string, key: string)

  datatype Config = Config(applicationName: string, sourceBundle: SourceBundle)

  datatype State = State(applicationName: string, sourceBundle: SourceBundle, version: string)

  datatype Error = RemoteFailure(cause: RemoteError)

  /** The hex digest of the SHA-256 of a text; the hash itself is not modelled. */
  type HexDigest = string -> string

  /** The text the hash is fed: the three writes one after the other. */
  function HashInput(config: Config): (r: string)
    ensures |r| == |config.applicationName| + |config.sourceBundle.bucket| + |config.sourceBundle.key|
    ensures r[..|config.applicationName|] == config.applicationName
    ensures r[|config.applicationName|..] == config.sourceBundle.bucket + config.sourceBundle.key
  {
    config.applicationName + config.sourceBundle.bucket + config.sourceBundle.key
  }

  /** `createVersionHash`: the first 31 characters of the digest. */
  function CreateVersionHash(config: Config, digest: HexDigest): (r: string)
    ensures r <= digest(HashInput(config))
    ensures |r| == if |digest(HashInput(config))| < VERSION_LENGTH then |digest(HashInput(config))| else VERSION_LENGTH
  {
    var hex := digest(HashInput(config));
    if |hex| <= VERSION_LENGTH then hex else hex[..VERSION_LENGTH]
  }

  function WithVersion(config: Config, version: string): State {
    State(config.applicationName, config.sourceBundle, version)
  }

  /** The plan: the configuration with its hashed version label. */
  function Plan(prior: Option<State>, config: Config, digest: HexDigest): (r: State)
    ensures r.applicationName == config.applicationName && r.sourceBundle == config.sourceBundle
    ensures r.version == CreateVersionHash(config, digest)
    ensures |r.version| <= VERSION_LENGTH && r.version <= digest(HashInput(config))
  {
    WithVersion(config, CreateVersionHash(config, digest))
  }

  /** The registration request: the configured bundle, described as
      "My App", under the hashed version label. */
  function RequestFor(config: Config, digest: HexDigest): (r: VersionRequest)
    ensures r.applicationName == config.applicationName && r.description == DESCRIPTION
    ensures r.s3Bucket == config.sourceBundle.bucket && r.s3Key == config.sourceBundle.key
    ensures r.versionLabel == CreateVersionHash(config, digest) && |r.versionLabel| <= VERSION_LENGTH
  {
    VersionRequest(config.applicationName, DESCRIPTION, config.sourceBundle.bucket, config.sourceBundle.key,
                   CreateVersionHash(config, digest))
  }

  datatype CreateRun = CreateRun(result: Result<State, Error>, eb: Hosting, calls: seq<Call>)

  /** Registers a version bound to the configured bundle under the hashed
      label and returns the configuration with that label. */
  function Create(config: Config, eb: Hosting, digest: HexDigest, arn: string): (r: CreateRun)
    ensures r.calls == [CreateApplicationVersion(RequestFor(config, digest))]
    ensures r.result.Success? <==>
      eb.up && config.applicationName in eb.versions && !Registered(eb, config.applicationName, CreateVersionHash(config, digest))
    ensures r.result.Success? ==>
      && r.result.value == Plan(None, config, digest)
      && Registered(r.eb, config.applicationName, r.result.value.version)
      && r.eb.versions[config.applicationName][r.result.value.version].s3Bucket == config.sourceBundle.bucket
      && r.eb.versions[config.applicationName][r.result.value.version].s3Key == config.sourceBundle.key
    ensures r.result.Failure? ==> r.eb == eb
    ensures r.result.Success? ==>
      r.eb == eb.(versions := eb.versions[config.applicationName :=
        eb.versions[config.applicationName][CreateVersionHash(config, digest) :=
          Descriptor(config.applicationName, DESCRIPTION, config.sourceBundle.bucket, config.sourceBundle.key,
                     CreateVersionHash(config, digest), arn)]])
    ensures forall app, ver | Registered(eb, app, ver) ::
      Registered(r.eb, app, ver) && r.eb.versions[app][ver] == eb.versions[app][ver]
  {
    var version := CreateVersionHash(config, digest);
    var request := RequestFor(config, digest);
    var (registered, eb') := Register(eb, request, arn);
    match registered
    case Failure(e) => CreateRun(Failure(RemoteFailure(e)), eb', [CreateApplicationVersion(request)])
    case Success(_) => CreateRun(Success(WithVersion(config, version)), eb', [CreateApplicationVersion(request)])
  }

  /** Update registers the new configuration as create does. */
  function Update(prior: State, config: Config, eb: Hosting, digest: HexDigest, arn: string): (r: CreateRun)
    ensures r == Create(config, eb, digest, arn)
    ensures r.result.Success? <==>
      eb.up && config.applicationName in eb.versions && !Registered(eb, config.applicationName, Plan(Some(prior), config, digest).version)
    ensures r.result.Success? ==> r.result.value == Plan(Some(prior), config, digest)
    ensures r.result.Failure? ==> r.eb == eb
  {
    Create(config, eb, digest, arn)
  }

  /** The label sees only the concatenation of the three fields: bundles that
      split the same text differently get the same label, and once one is
      registered the hosting service refuses the other. */
  lemma SameConcatenationSameVersion(c1: Config, c2: Config, eb: Hosting, digest: HexDigest, arn1: string, arn2: string)
    requires c1.applicationName == c2.applicationName
    requires c1.sourceBundle.bucket + c1.sourceBundle.key == c2.sourceBundle.bucket + c2.sourceBundle.key
    requires Create(c1, eb, digest, arn1).result.Success?
    ensures CreateVersionHash(c1, digest) == CreateVersionHash(c2, digest)
    ensures Create(c2, Create(c1, eb, digest, arn1).eb, digest, arn2).result.Failure?
  {
    assert HashInput(c1) == HashInput(c2) by {
      assert HashInput(c1) == c1.applicationName + (c1.sourceBundle.bucket + c1.sourceBundle.key);
      assert HashInput(c2) == c2.applicationName + (c2.sourceBundle.bucket + c2.sourceBundle.key);
    }
  }
}
