/** The two remote services the plugin talks to, seen as values: the
    application-hosting service (Elastic Beanstalk) holds, per application,
    the registered versions by label; the object store (S3) holds content by
    bucket and key, in the buckets that exist. A service that is down fails every call made to it. Every
    call an operation issues is recorded, in order, in its call log. */
module Remote {
  import opened Wrappers

  type Content = seq<bv8>

  /** Where an uploaded object lives. */
  datatype ObjectId = ObjectId(bucket: string, key: string)

  /** What `createApplicationVersion` is asked to register. */
  datatype VersionRequest = VersionRequest(
    applicationName: string,
    description: string,
    s3Bucket: string,
    s3Key: string,
    versionLabel: string)

  /** An application-version descriptor as the hosting service echoes it. */
  datatype Descriptor = Descriptor(
    applicationName: string,
    description: string,
    s3Bucket: string,
    s3Key: string,
    versionLabel: string,
    applicationVersionArn: string)

  datatype Hosting = Hosting(versions: map<string, map<string, Descriptor>>, up: bool)

  datatype Storage = Storage(objects: map<ObjectId, Content>, buckets: set<string>, up: bool)

  /** The capability pair handed to the resource operations. */
  datatype Clients = Clients(eb: Hosting, s3: Storage)

  datatype Call =
    | PutObject(bucket: string, key: string)
    | GetObject(bucket: string, key: string)
    | CreateApplicationVersion(request: VersionRequest)
    | DescribeApplicationVersions(applicationName: string, versionLabels: seq<string>)

  /** A failed remote call: the service could not be reached, it refused the
      request, or the request body could not be read. */
  datatype RemoteError =
    | Unreachable(call: Call)
    | Rejected(call: Call)
    | BodyUnreadable(call: Call)

  predicate Registered(eb: Hosting, applicationName: string, versionLabel: string) {
    applicationName in eb.versions && versionLabel in eb.versions[applicationName]
  }

  /** Every descriptor is filed under its own application name and label. */
  ghost predicate WellFiled(eb: Hosting) {
    forall app, ver | app in eb.versions && ver in eb.versions[app] ::
      eb.versions[app][ver].applicationName == app && eb.versions[app][ver].versionLabel == ver
  }

  /** `describeApplicationVersions` for one label: the matching descriptors. */
  function Describe(eb: Hosting, applicationName: string, versionLabel: string): (r: Result<seq<Descriptor>, RemoteError>)
    ensures r.Success? <==> eb.up
    ensures r.Success? ==> (|r.value| > 0 <==> Registered(eb, applicationName, versionLabel))
    ensures r.Success? && |r.value| > 0 ==> r.value[0] == eb.versions[applicationName][versionLabel]
  {
    if !eb.up then Failure(Unreachable(DescribeApplicationVersions(applicationName, [versionLabel])))
    else if Registered(eb, applicationName, versionLabel) then Success([eb.versions[applicationName][versionLabel]])
    else Success([])
  }

  /** `createApplicationVersion`: registers the request under its application
      and label with the ARN the service assigns, and echoes the descriptor.
      An unknown application, and a label already registered for the
      application, are refused. */
  function Register(eb: Hosting, request: VersionRequest, arn: string): (r: (Result<Descriptor, RemoteError>, Hosting))
    ensures r.0.Success? <==>
      eb.up && request.applicationName in eb.versions && !Registered(eb, request.applicationName, request.versionLabel)
    ensures r.0.Failure? ==> r.1 == eb
    ensures r.0.Success? ==>
      && r.0.value == Descriptor(request.applicationName, request.description, request.s3Bucket,
                                 request.s3Key, request.versionLabel, arn)
      && Registered(r.1, request.applicationName, request.versionLabel)
      && r.1.versions[request.applicationName][request.versionLabel] == r.0.value
      && r.1.up
    ensures r.0.Success? ==>
      r.1 == eb.(versions := eb.versions[request.applicationName :=
                   eb.versions[request.applicationName][request.versionLabel := r.0.value]])
    ensures forall app, ver | Registered(eb, app, ver) ::
      Registered(r.1, app, ver) && r.1.versions[app][ver] == eb.versions[app][ver]
    ensures forall app, ver | Registered(r.1, app, ver) ::
      Registered(eb, app, ver) || (app == request.applicationName && ver == request.versionLabel)
    ensures WellFiled(eb) ==> WellFiled(r.1)
  {
    var call := CreateApplicationVersion(request);
    if !eb.up then (Failure(Unreachable(call)), eb)
    else if request.applicationName !in eb.versions then (Failure(Rejected(call)), eb)
    else if Registered(eb, request.applicationName, request.versionLabel) then (Failure(Rejected(call)), eb)
    else
      var descriptor := Descriptor(request.applicationName, request.description, request.s3Bucket,
                                   request.s3Key, request.versionLabel, arn);
      var existing := eb.versions[request.applicationName];
      (Success(descriptor),
       eb.(versions := eb.versions[request.applicationName := existing[request.versionLabel := descriptor]]))
  }

  /** `putObject`: stores the body under (bucket, key), replacing what was
      there; a bucket that does not exist is refused. */
  function Put(s3: Storage, bucket: string, key: string, body: Option<Content>): (r: (Result<(), RemoteError>, Storage))
    ensures r.0.Success? <==> s3.up && body.Some? && bucket in s3.buckets
    ensures r.0.Failure? ==> r.1 == s3
    ensures r.0.Success? ==> r.1 == s3.(objects := s3.objects[ObjectId(bucket, key) := body.value])
  {
    var call := PutObject(bucket, key);
    if !s3.up then (Failure(Unreachable(call)), s3)
    else if body.None? then (Failure(BodyUnreadable(call)), s3)
    else if bucket !in s3.buckets then (Failure(Rejected(call)), s3)
    else (Success(()), s3.(objects := s3.objects[ObjectId(bucket, key) := body.value]))
  }

  /** `getObject`: the stored content, or a failure when the service is down
      or nothing is stored under (bucket, key). */
  function Get(s3: Storage, bucket: string, key: string): (r: Result<Content, RemoteError>)
    ensures r.Success? <==> s3.up && ObjectId(bucket, key) in s3.objects
    ensures r.Success? ==> r.value == s3.objects[ObjectId(bucket, key)]
  {
    var call := GetObject(bucket, key);
    if !s3.up then Failure(Unreachable(call))
    else if ObjectId(bucket, key) !in s3.objects then Failure(Rejected(call))
    else Success(s3.objects[ObjectId(bucket, key)])
  }
}
