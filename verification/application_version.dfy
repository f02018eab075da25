/** The application-version resource: the version label derived from the
    archive path, the plan state machine with its collision check and
    immutability rule, and the create/read/update/destroy lifecycle over the
    hosting service and the object store. */
module ApplicationVersion {
  import opened Wrappers
  import opened NodePath
  import opened Remote

  /** The desired configuration: the three required attributes. */
  datatype Config = Config(sourceBucket: string, applicationName: string, archivePath: string)

  /** The persisted state: the configuration plus the three computed attributes. */
  datatype State = State(
    sourceBucket: string,
    applicationName: string,
    archivePath: string,
    sourceKey: string,
    versionLabel: string,
    applicationVersionArn: string)

  /** A computed attribute in a plan: its value, or unknown until apply. */
  datatype Value = Known(value: string) | Unknown

  /** What a plan proposes: the configuration alone (returned verbatim), or
      the configuration with a value for each computed attribute. */
  datatype Planned =
    | ConfigOnly(config: Config)
    | Proposed(config: Config, sourceKey: Value, versionLabel: Value, applicationVersionArn: Value)

  /** The two domain errors, and a failed remote call passed through. */
  datatype Error =
    | VersionLabelCollision(versionLabel: string)
    | ImmutableVersionViolation
    | RemoteFailure(cause: RemoteError)

  // ---------------------------------------------------------------------
  // Schema

  /** The attributes of the resource; `Name` gives each one's wire name. */
  datatype Attribute =
    | SourceBucket | ApplicationName | ArchivePath
    | SourceKey | VersionLabel | ApplicationVersionArn
  {
    function Name(): string {
      match this
      case SourceBucket => "source_bucket"
      case ApplicationName => "application_name"
      case ArchivePath => "archive_path"
      case SourceKey => "source_key"
      case VersionLabel => "version_label"
      case ApplicationVersionArn => "application_version_arn"
    }
  }

  datatype Schema = Schema(required: set<Attribute>, computed: set<Attribute>)

  function ConfigFields(c: Config): map<Attribute, Value> {
    map[SourceBucket := Known(c.sourceBucket),
        ApplicationName := Known(c.applicationName),
        ArchivePath := Known(c.archivePath)]
  }

  /** The attributes a plan carries and their values, as the plugin protocol sees them. */
  function FieldsOf(p: Planned): map<Attribute, Value> {
    match p
    case ConfigOnly(c) => ConfigFields(c)
    case Proposed(c, key, versionLabel, arn) =>
      ConfigFields(c)[SourceKey := key][VersionLabel := versionLabel][ApplicationVersionArn := arn]
  }

  /** The resource's schema: three required and three computed string
      attributes, which are exactly the attributes a configuration and a
      proposed plan carry. */
  function SimpleSchema(): (s: Schema)
    ensures s.required !! s.computed
    ensures forall c: Config {:trigger ConfigFields(c)} :: ConfigFields(c).Keys == s.required
    ensures forall c, key, versionLabel, arn ::
      FieldsOf(Proposed(c, key, versionLabel, arn)).Keys == s.required + s.computed
    ensures forall a, b | a in s.required + s.computed && b in s.required + s.computed ::
      a.Name() == b.Name() ==> a == b
  {
    Schema({SourceBucket, ApplicationName, ArchivePath}, {SourceKey, VersionLabel, ApplicationVersionArn})
  }

  /** The library's simple plan for a resource without prior state: every
      configured attribute as given, every computed attribute unknown. */
  function CreateSimplePlan(config: Config): (p: Planned)
    ensures FieldsOf(p).Keys == SimpleSchema().required + SimpleSchema().computed
    ensures forall f | f in SimpleSchema().computed :: FieldsOf(p)[f] == Unknown
    ensures forall f | f in SimpleSchema().required :: FieldsOf(p)[f] == ConfigFields(config)[f]
  {
    Proposed(config, Unknown, Unknown, Unknown)
  }

  // ---------------------------------------------------------------------
  // Derived names

  /** The version label: the archive's file name without its extension. */
  function CalculateVersionLabel(config: Config): (r: string)
    ensures r + Extname(config.archivePath) == Basename(config.archivePath)
    ensures SEP !in r
  {
    WithoutExtensionThenExtension(config.archivePath);
    NoSeparatorInPrefix(BasenameWithoutSuffix(config.archivePath, Extname(config.archivePath)), Basename(config.archivePath));
    BasenameWithoutSuffix(config.archivePath, Extname(config.archivePath))
  }

  /** The object key the archive is uploaded under: `<application>/<file name>`,
      so the object's own name is the archive's. */
  function ObjectKey(config: Config): (r: string)
    ensures config.applicationName + [SEP] <= r
  {
    config.applicationName + [SEP] + Basename(config.archivePath)
  }

  function VersionQuery(config: Config): Call {
    DescribeApplicationVersions(config.applicationName, [CalculateVersionLabel(config)])
  }

  /** The registration request: the uploaded object, with an empty
      description, under the derived label, which is the object's own name
      without the archive's extension. */
  function VersionRequestFor(config: Config): (r: VersionRequest)
    ensures r.applicationName == config.applicationName && r.description == ""
    ensures r.s3Bucket == config.sourceBucket && r.s3Key == ObjectKey(config)
    ensures r.versionLabel == CalculateVersionLabel(config)
  {
    VersionRequest(config.applicationName, "", config.sourceBucket, ObjectKey(config), CalculateVersionLabel(config))
  }

  /** A state whose archive path is kept and whose other five attributes come
      from the descriptor the hosting service echoes. */
  function FromDescriptor(archivePath: string, d: Descriptor): (r: State)
    ensures r.archivePath == archivePath
    ensures r.sourceBucket == d.s3Bucket && r.sourceKey == d.s3Key
    ensures r.applicationName == d.applicationName && r.versionLabel == d.versionLabel
    ensures r.applicationVersionArn == d.applicationVersionArn
  {
    State(d.s3Bucket, d.applicationName, archivePath, d.s3Key, d.versionLabel, d.applicationVersionArn)
  }

  // ---------------------------------------------------------------------
  // Collision check and plan

  /** Whether a version with this label exists for the application. */
  function ApplicationVersionExists(eb: Hosting, applicationName: string, versionLabel: string): (r: Result<bool, RemoteError>)
    ensures r.Success? <==> eb.up
    ensures r.Success? ==> (r.value <==> Registered(eb, applicationName, versionLabel))
    ensures r.Failure? ==> r.error == Unreachable(DescribeApplicationVersions(applicationName, [versionLabel]))
  {
    match Describe(eb, applicationName, versionLabel)
    case Failure(e) => Failure(e)
    case Success(found) => Success(|found| > 0)
  }

  /** Whether the configuration names a different version than the prior
      state: the (application, label) pair a version is registered under
      changes. */
  function IdentityChanged(prior: State, config: Config): (r: bool)
    ensures r <==> (prior.applicationName, prior.versionLabel) != (config.applicationName, CalculateVersionLabel(config))
  {
    prior.versionLabel != CalculateVersionLabel(config) || prior.applicationName != config.applicationName
  }

  datatype PlanRun = PlanRun(result: Result<Planned, Error>, calls: seq<Call>)

  /** Runs the collision check for the configuration's (application, label)
      pair and proposes `planned` only when the pair is free. */
  function CheckCollision(config: Config, eb: Hosting, planned: Planned): (r: PlanRun)
    ensures r.calls == [VersionQuery(config)]
    ensures r.result.Success? <==> eb.up && !Registered(eb, config.applicationName, CalculateVersionLabel(config))
    ensures r.result.Success? ==> r.result.value == planned
    ensures !eb.up ==> r.result == Failure(RemoteFailure(Unreachable(VersionQuery(config))))
    ensures eb.up && Registered(eb, config.applicationName, CalculateVersionLabel(config)) ==>
      r.result == Failure(VersionLabelCollision(CalculateVersionLabel(config)))
  {
    var versionLabel := CalculateVersionLabel(config);
    match ApplicationVersionExists(eb, config.applicationName, versionLabel)
    case Failure(e) => PlanRun(Failure(RemoteFailure(e)), [VersionQuery(config)])
    case Success(true) => PlanRun(Failure(VersionLabelCollision(versionLabel)), [VersionQuery(config)])
    case Success(false) => PlanRun(Success(planned), [VersionQuery(config)])
  }

  /** The plan override. Without prior state, or when label or application
      changed, the new (application, label) pair is checked for a collision
      and the configuration is proposed with every computed attribute
      unknown; a changed bucket alone is refused; otherwise the configuration
      is returned as it is, without any remote call. */
  function Plan(prior: Option<State>, config: Config, eb: Hosting): (r: PlanRun)
    ensures prior.None? || IdentityChanged(prior.value, config) ==>
      && r.calls == [VersionQuery(config)]
      && (!eb.up ==> r.result == Failure(RemoteFailure(Unreachable(VersionQuery(config)))))
      && (eb.up && Registered(eb, config.applicationName, CalculateVersionLabel(config)) ==>
            r.result == Failure(VersionLabelCollision(CalculateVersionLabel(config))))
      && (eb.up && !Registered(eb, config.applicationName, CalculateVersionLabel(config)) ==>
            r.result == Success(Proposed(config, Unknown, Unknown, Unknown)))
    ensures prior.Some? && !IdentityChanged(prior.value, config) ==>
      r.calls == [] &&
      if prior.value.sourceBucket != config.sourceBucket then r.result == Failure(ImmutableVersionViolation)
      else r.result == Success(ConfigOnly(config))
  {
    var versionLabel := CalculateVersionLabel(config);
    if prior.None? then
      CheckCollision(config, eb, CreateSimplePlan(config))
    else
      var state := prior.value;
      var changedVersion := state.versionLabel != versionLabel;
      var changedApplication := state.applicationName != config.applicationName;
      var changedSourceBucket := state.sourceBucket != config.sourceBucket;
      if changedVersion || changedApplication then
        CheckCollision(config, eb, Proposed(config, Unknown, Unknown, Unknown))
      else if changedSourceBucket then
        PlanRun(Failure(ImmutableVersionViolation), [])
      else
        PlanRun(Success(ConfigOnly(config)), [])
  }

  // ---------------------------------------------------------------------
  // Lifecycle

  datatype ApplyRun = ApplyRun(result: Result<State, Error>, clients: Clients, calls: seq<Call>)

  /** Uploads the archive to `<bucket>/<application>/<file name>`, then
      registers a version bound to that object under the derived label, and
      returns the echoed descriptor merged with the archive path. A failed
      registration leaves the uploaded object in place. */
  function Create(config: Config, clients: Clients, files: map<string, Content>, arn: string): (r: ApplyRun)
    ensures 1 <= |r.calls| <= 2 && r.calls[0] == PutObject(config.sourceBucket, ObjectKey(config))
    ensures |r.calls| == 2 ==> r.calls[1] == CreateApplicationVersion(VersionRequestFor(config))
    ensures |r.calls| == 2 <==> clients.s3.up && config.archivePath in files && config.sourceBucket in clients.s3.buckets
    ensures |r.calls| == 1 ==> r.clients == clients && r.result.Failure?
    ensures |r.calls| == 2 ==>
      r.clients.s3 == clients.s3.(objects := clients.s3.objects[ObjectId(config.sourceBucket, ObjectKey(config)) := files[config.archivePath]])
    ensures r.result.Success? <==>
      && clients.s3.up && config.archivePath in files && config.sourceBucket in clients.s3.buckets
      && clients.eb.up && config.applicationName in clients.eb.versions
      && !Registered(clients.eb, config.applicationName, CalculateVersionLabel(config))
    ensures r.result.Failure? ==> r.clients.eb == clients.eb && r.result.error.RemoteFailure?
    ensures r.result.Success? ==>
      r.clients.eb == clients.eb.(versions := clients.eb.versions[config.applicationName :=
        clients.eb.versions[config.applicationName][CalculateVersionLabel(config) :=
          Descriptor(config.applicationName, "", config.sourceBucket, ObjectKey(config), CalculateVersionLabel(config), arn)]])
    ensures forall app, ver | Registered(clients.eb, app, ver) ::
      Registered(r.clients.eb, app, ver) && r.clients.eb.versions[app][ver] == clients.eb.versions[app][ver]
    ensures r.result.Success? ==>
      && Registered(r.clients.eb, config.applicationName, CalculateVersionLabel(config))
      && r.result.value == FromDescriptor(config.archivePath, r.clients.eb.versions[config.applicationName][CalculateVersionLabel(config)])
      && r.result.value == State(config.sourceBucket, config.applicationName, config.archivePath,
                                 ObjectKey(config), CalculateVersionLabel(config), arn)
  {
    var key := ObjectKey(config);
    var body := if config.archivePath in files then Some(files[config.archivePath]) else None;
    var (uploaded, s3) := Put(clients.s3, config.sourceBucket, key, body);
    var upload := PutObject(config.sourceBucket, key);
    if uploaded.Failure? then
      ApplyRun(Failure(RemoteFailure(uploaded.error)), clients, [upload])
    else
      var request := VersionRequestFor(config);
      var (registered, eb) := Register(clients.eb, request, arn);
      var calls := [upload, CreateApplicationVersion(request)];
      match registered
      case Failure(e) => ApplyRun(Failure(RemoteFailure(e)), Clients(eb, s3), calls)
      case Success(d) => ApplyRun(Success(FromDescriptor(config.archivePath, d)), Clients(eb, s3), calls)
  }

  datatype ReadRun = ReadRun(result: Result<Option<State>, Error>, calls: seq<Call>)

  /** Looks the state's version up by application and label: absent when the
      hosting service has none, otherwise the state refreshed from the first
      descriptor found, archive path kept. */
  function Read(state: State, eb: Hosting): (r: ReadRun)
    ensures r.calls == [DescribeApplicationVersions(state.applicationName, [state.versionLabel])]
    ensures r.result.Success? <==> eb.up
    ensures eb.up && !Registered(eb, state.applicationName, state.versionLabel) ==> r.result == Success(None)
    ensures eb.up && Registered(eb, state.applicationName, state.versionLabel) ==>
      r.result == Success(Some(FromDescriptor(state.archivePath, eb.versions[state.applicationName][state.versionLabel])))
  {
    var query := DescribeApplicationVersions(state.applicationName, [state.versionLabel]);
    match Describe(eb, state.applicationName, state.versionLabel)
    case Failure(e) => ReadRun(Failure(RemoteFailure(e)), [query])
    case Success(found) =>
      if |found| < 1 then ReadRun(Success(None), [query])
      else ReadRun(Success(Some(FromDescriptor(state.archivePath, found[0]))), [query])
  }

  /** Recreates the version when label or application changed; refuses any
      other change, whatever the bucket. */
  function Update(prior: State, config: Config, clients: Clients, files: map<string, Content>, arn: string): (r: ApplyRun)
    ensures r.result == Failure(ImmutableVersionViolation) <==> !IdentityChanged(prior, config)
    ensures !IdentityChanged(prior, config) ==> r.clients == clients && r.calls == []
    ensures IdentityChanged(prior, config) ==> r == Create(config, clients, files, arn)
  {
    var plannedVersionLabel := CalculateVersionLabel(config);
    var changedVersion := prior.versionLabel != plannedVersionLabel;
    var changedApplication := prior.applicationName != config.applicationName;
    if changedVersion || changedApplication then Create(config, clients, files, arn)
    else ApplyRun(Failure(ImmutableVersionViolation), clients, [])
  }

  /** Deliberately leaves the remote version and its object in place. */
  function Destroy(state: State, clients: Clients): (r: (Clients, seq<Call>))
    ensures r.1 == []
    ensures forall app, ver | Registered(clients.eb, app, ver) ::
      Registered(r.0.eb, app, ver) && r.0.eb.versions[app][ver] == clients.eb.versions[app][ver]
    ensures r.0.s3.objects == clients.s3.objects
    ensures r.0 == clients
  {
    (clients, [])
  }

  // ---------------------------------------------------------------------
  // Properties

  /** The uploaded object is named as the archive, and the label registered
      for it is that name without the archive's extension. */
  lemma ObjectKeyNamesTheArchive(config: Config)
    requires Basename(config.archivePath) != []
    ensures Basename(ObjectKey(config)) == Basename(config.archivePath)
    ensures VersionRequestFor(config).versionLabel + Extname(config.archivePath) == Basename(VersionRequestFor(config).s3Key)
  {
    BasenameOfChild(config.applicationName, Basename(config.archivePath));
  }

  /** The label is a function of the archive's file name alone: the directory
      is irrelevant. */
  lemma LabelDependsOnlyOnBasename(c1: Config, c2: Config)
    requires Basename(c1.archivePath) == Basename(c2.archivePath)
    ensures CalculateVersionLabel(c1) == CalculateVersionLabel(c2)
  {
    var e1, e2 := Extname(c1.archivePath), Extname(c2.archivePath);
    assert e1 == e2;
    var l1, l2 := CalculateVersionLabel(c1), CalculateVersionLabel(c2);
    assert l1 + e1 == l2 + e2;
    assert |l1| == |l2|;
    assert l1 == (l1 + e1)[..|l1|];
  }

  /** The label of `dir/stem.ext` is `stem`, whatever the directory, when
      the extension holds the name's last dot and the stem is not empty. */
  lemma {:induction false} LabelOfFileName(c: Config, dir: string, stem: string, ext: string)
    requires c.archivePath == dir + [SEP] + stem + ext
    requires stem != [] && SEP !in stem && SEP !in ext
    requires |ext| > 0 && ext[0] == '.' && '.' !in ext[1..]
    requires stem + ext != ".."
    ensures Basename(c.archivePath) == stem + ext
    ensures Extname(c.archivePath) == ext
    ensures CalculateVersionLabel(c) == stem
  {
    var name := stem + ext;
    NoSeparatorInConcat(stem, ext);
    assert c.archivePath == dir + [SEP] + name;
    BasenameOfChild(dir, name);
    ExtnameOfName(c.archivePath, stem, ext);
    var derived := CalculateVersionLabel(c);
    assert derived + ext == stem + ext;
    assert derived == (derived + ext)[..|derived|];
  }

  /** Two archives with the same stem in different directories and with
      different extensions get the same label, the stem. */
  lemma SameStemSameLabel(c1: Config, c2: Config, dir1: string, dir2: string, stem: string, ext1: string, ext2: string)
    requires c1.archivePath == dir1 + [SEP] + stem + ext1 && c2.archivePath == dir2 + [SEP] + stem + ext2
    requires stem != [] && SEP !in stem && SEP !in ext1 && SEP !in ext2
    requires |ext1| > 0 && ext1[0] == '.' && '.' !in ext1[1..] && stem + ext1 != ".."
    requires |ext2| > 0 && ext2[0] == '.' && '.' !in ext2[1..] && stem + ext2 != ".."
    ensures CalculateVersionLabel(c1) == CalculateVersionLabel(c2) == stem
  {
    LabelOfFileName(c1, dir1, stem, ext1);
    LabelOfFileName(c2, dir2, stem, ext2);
  }

  /** Create on `<dir>/<stem><ext>` uploads to `<application>/<stem><ext>`,
      then registers label `<stem>` bound to that object, and returns the
      configuration with that key, that label and the ARN the service
      assigned, when the pair is free, the archive readable and both services
      answer. */
  lemma CreateEndToEnd(config: Config, dir: string, stem: string, ext: string,
                       clients: Clients, files: map<string, Content>, arn: string)
    requires config.archivePath == dir + [SEP] + stem + ext
    requires stem != [] && SEP !in stem && SEP !in ext
    requires |ext| > 0 && ext[0] == '.' && '.' !in ext[1..] && stem + ext != ".."
    requires clients.eb.up && clients.s3.up && config.archivePath in files
    requires config.sourceBucket in clients.s3.buckets && config.applicationName in clients.eb.versions
    requires !Registered(clients.eb, config.applicationName, stem)
    ensures Plan(None, config, clients.eb).result == Success(Proposed(config, Unknown, Unknown, Unknown))
    ensures var key := config.applicationName + [SEP] + (stem + ext);
      && Create(config, clients, files, arn).calls ==
           [PutObject(config.sourceBucket, key),
            CreateApplicationVersion(VersionRequest(config.applicationName, "", config.sourceBucket, key, stem))]
      && Create(config, clients, files, arn).result ==
           Success(State(config.sourceBucket, config.applicationName, config.archivePath, key, stem, arn))
  {
    LabelOfFileName(config, dir, stem, ext);
    var run := Create(config, clients, files, arn);
    assert |run.calls| == 2;
  }

  /** The version label of a concrete archive path. */
  lemma OrdersVersionLabel(c: Config)
    requires c.archivePath == "/tmp/orders-v2.zip"
    ensures CalculateVersionLabel(c) == "orders-v2"
  {
    assert c.archivePath == "/tmp" + [SEP] + "orders-v2" + ".zip";
    LabelOfFileName(c, "/tmp", "orders-v2", ".zip");
  }

  /** A plan that found its (application, label) pair free is followed by a
      create that the hosting service accepts, provided the archive can be
      read, the bucket and the application exist, and both services answer. */
  lemma CleanPlanThenCreateSucceeds(prior: Option<State>, config: Config, clients: Clients,
                                    files: map<string, Content>, arn: string)
    requires Plan(prior, config, clients.eb).result.Success?
    requires Plan(prior, config, clients.eb).result.value.Proposed?
    requires clients.s3.up && config.archivePath in files && config.sourceBucket in clients.s3.buckets
    requires config.applicationName in clients.eb.versions
    ensures Create(config, clients, files, arn).result.Success?
  {
    assert prior.None? || IdentityChanged(prior.value, config);
    assert clients.eb.up && !Registered(clients.eb, config.applicationName, CalculateVersionLabel(config));
  }

  /** What create returns is what read finds afterwards. */
  lemma CreateThenRead(config: Config, clients: Clients, files: map<string, Content>, arn: string)
    requires Create(config, clients, files, arn).result.Success?
    ensures var run := Create(config, clients, files, arn);
      Read(run.result.value, run.clients.eb).result == Success(Some(run.result.value))
  {
  }

  /** Planning the same configuration again against the state create
      returned is a no-op that makes no remote call. */
  lemma PlanAfterCreateIsNoop(config: Config, clients: Clients, files: map<string, Content>, arn: string)
    requires Create(config, clients, files, arn).result.Success?
    ensures var run := Create(config, clients, files, arn);
      Plan(Some(run.result.value), config, run.clients.eb) == PlanRun(Success(ConfigOnly(config)), [])
  {
  }

  /** An archive `dir/stem.ext` whose stem is the prior label keeps the
      version, whatever its directory and its extension: the plan is a no-op
      that proposes the new configuration, and update refuses. */
  lemma LabelPreservingMoveIsNoop(prior: State, config: Config, dir: string, stem: string, ext: string,
                                  eb: Hosting, clients: Clients, files: map<string, Content>, arn: string)
    requires config.archivePath == dir + [SEP] + stem + ext
    requires stem != [] && SEP !in stem && SEP !in ext
    requires |ext| > 0 && ext[0] == '.' && '.' !in ext[1..] && stem + ext != ".."
    requires prior.versionLabel == stem
    requires config.applicationName == prior.applicationName && config.sourceBucket == prior.sourceBucket
    ensures Plan(Some(prior), config, eb) == PlanRun(Success(ConfigOnly(config)), [])
    ensures Update(prior, config, clients, files, arn).result == Failure(ImmutableVersionViolation)
  {
    LabelOfFileName(config, dir, stem, ext);
  }

  /** Plan and update apply the same change test: a replacing plan is
      followed by an update that recreates. */
  lemma ReplacingPlanThenUpdateRecreates(prior: State, config: Config, eb: Hosting, clients: Clients,
                                         files: map<string, Content>, arn: string)
    ensures Plan(Some(prior), config, eb).result.Success? && Plan(Some(prior), config, eb).result.value.Proposed? ==>
      Update(prior, config, clients, files, arn) == Create(config, clients, files, arn)
  {
    if !IdentityChanged(prior, config) {
      assert !Plan(Some(prior), config, eb).result.Success? || Plan(Some(prior), config, eb).result.value.ConfigOnly?;
    }
  }

  /** A plan that refuses a moved bucket is matched by an update that refuses. */
  lemma RefusedPlanThenUpdateRefuses(prior: State, config: Config, eb: Hosting, clients: Clients,
                                     files: map<string, Content>, arn: string)
    ensures Plan(Some(prior), config, eb).result == Failure(ImmutableVersionViolation) ==>
      Update(prior, config, clients, files, arn).result == Failure(ImmutableVersionViolation)
  {
    if IdentityChanged(prior, config) {
      assert Plan(Some(prior), config, eb).result != Failure(ImmutableVersionViolation);
    }
  }

  /** A no-op plan is matched by an update that refuses: update on an
      unchanged (application, label) pair refuses without a call. */
  lemma NoopPlanThenUpdateRefuses(prior: State, config: Config, eb: Hosting, clients: Clients,
                                  files: map<string, Content>, arn: string)
    ensures Plan(Some(prior), config, eb).result.Success? && Plan(Some(prior), config, eb).result.value.ConfigOnly? ==>
      Update(prior, config, clients, files, arn).result == Failure(ImmutableVersionViolation)
  {
    if IdentityChanged(prior, config) {
      assert !Plan(Some(prior), config, eb).result.Success? || Plan(Some(prior), config, eb).result.value.Proposed?;
    }
  }

  /** On a hosting map where every descriptor is filed under its own
      application and label, a version read back carries the application and
      label it was looked up by, and the archive path of the state. */
  lemma ReadFindsItsOwnVersion(state: State, eb: Hosting)
    requires WellFiled(eb)
    ensures Read(state, eb).result.Success? && Read(state, eb).result.value.Some? ==>
      && Read(state, eb).result.value.value.applicationName == state.applicationName
      && Read(state, eb).result.value.value.versionLabel == state.versionLabel
      && Read(state, eb).result.value.value.archivePath == state.archivePath
  {
  }
}
