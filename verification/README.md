# Elastic Beanstalk Terraform provider — verified model

This project models, in Dafny, the resource logic of a Terraform provider plugin
for AWS Elastic Beanstalk: the `application-version` resource (an archive
uploaded to S3 and registered as an application version whose label is the
archive's file name without its extension), and the older plugin entry point
with its provider configuration, its `bundle` resource (a file uploaded under
`<prefix>/<fileHash>/<file name>`), and its hashed `application_version`
resource (a version labelled by a truncated SHA-256 digest).

The remote services are values: Elastic Beanstalk is a map from application to
label to version descriptor, S3 a map from (bucket, key) to bytes together with
the set of existing buckets, each with a flag saying whether the service
answers. Every lifecycle operation is a function. The creates and updates
return their result, the new service state and the list of remote calls they
made, in order. `ApplicationVersion.Plan` and the reads return their result
and their calls. The bundle and hashed-version plans are plain functions of the
configuration, and destroy returns the services and no calls. The local file system is a map from path to bytes,
the ARN the service assigns is a parameter, and the SHA-256 hex digest is a
function parameter.

Modules:

- `Wrappers` — `Option` and `Result`.
- `NodePath` — Node's POSIX `basename`, `extname` and `join` (with `normalize`).
- `Remote` — the two services and the calls made on them.
- `ApplicationVersion` — `applicationVersion.js`.
- `Provider`, `Bundle`, `HashedVersion` — `plugin.js`.

Two behaviours of the code are easy to miss, and the model keeps both:
- The `application-version` plan returns the configuration unchanged (without the computed attributes) when nothing relevant changed.
- The `bundle` resource has its own plan, which derives the key with `prefix || '.'`. Create and read use the raw prefix instead (see "## Findings").

## Model

| member | source | states |
|---|---|---|
| NodePath.Basename | applicationVersion.js:35 | the last path segment after trailing `/` are removed; it contains no `/` |
| NodePath.BasenameOfChild | applicationVersion.js:39 | the base name of `dir/name` is `name` for a non-empty `name` without `/` |
| NodePath.Extname | applicationVersion.js:35 | the extension is a proper suffix of the base name that starts at its last dot; it is empty exactly when there is no dot, the only dot leads, or the name is `..` |
| NodePath.ExtnameOfName | applicationVersion.js:35 | the extension of `dir/stem.ext` is `.ext` when that dot is the name's last |
| NodePath.BasenameWithoutSuffix | applicationVersion.js:34-35 | a prefix of the base name; the suffix is removed when it is a proper suffix of the base name, the base name is returned unchanged otherwise, and a non-empty suffix equal to the whole path gives `""` |
| NodePath.WithoutExtensionThenExtension | applicationVersion.js:35 | `basename(p, extname(p))` followed by `extname(p)` is `basename(p)` for every path |
| NodePath.SplitAtSeparator | plugin.js:57 | splitting `a/b` at separators gives the pieces of `a` followed by those of `b` |
| NodePath.NormalizeCurrentDirectoryPrefix | plugin.js:57 | a leading `./` does not change the normalised form of a relative path |
| NodePath.Join | plugin.js:57 | `join` always yields a non-empty path |
| NodePath.JoinCurrentDirectoryOrEmpty | plugin.js:57-65 | joining with a first part of `.` or with an empty first part gives the same path when the next part is relative |
| NodePath.NormalizeKeepsRelative | plugin.js:57 | normalising a relative path gives a relative path |
| NodePath.JoinAbsoluteAfterDotOrEmpty | plugin.js:57-65 | with an absolute next part, joining after `.` gives a relative path and joining after an empty part an absolute one |
| Remote.Describe | applicationVersion.js:67-70 | the lookup succeeds iff the service answers; the result is non-empty iff the pair is registered, and it holds that version first |
| Remote.Register | applicationVersion.js:46-55 | registration succeeds iff the service answers, the application exists and the label is free for it; it files exactly the requested descriptor with the assigned ARN, and otherwise leaves the service exactly as it was (no other version, application or flag changes); it keeps every descriptor filed under its own application and label |
| Remote.Put | applicationVersion.js:41-45 | the upload succeeds iff the service answers, the body could be read and the bucket exists; it then stores the body under (bucket, key), and otherwise changes nothing |
| Remote.Get | plugin.js:88 | the fetch succeeds iff the service answers and the object exists, and returns its bytes |
| ApplicationVersion.SimpleSchema | applicationVersion.js:94-105 | required and computed attributes are disjoint; a configuration carries exactly the required ones, a proposed plan all six; the six wire names are distinct |
| ApplicationVersion.CreateSimplePlan | applicationVersion.js:143 | every required attribute is taken from the configuration and every computed attribute is unknown |
| ApplicationVersion.CalculateVersionLabel | applicationVersion.js:34-35 | the label followed by the extension is the archive's base name; the label has no `/` |
| ApplicationVersion.LabelDependsOnlyOnBasename | applicationVersion.js:34-35 | archives with the same base name get the same label |
| ApplicationVersion.ObjectKey | applicationVersion.js:39 | the key lies in the application's directory: it starts with `<application>/` |
| ApplicationVersion.ObjectKeyNamesTheArchive | applicationVersion.js:38-39 | the uploaded object is named as the archive, and the label is that name without the archive's extension |
| ApplicationVersion.VersionRequestFor | applicationVersion.js:46-55 | the request names the application, an empty description, the configured bucket, the object key and the derived label |
| ApplicationVersion.FromDescriptor | applicationVersion.js:56-63 | the state takes bucket, application, key, label and ARN from the echoed descriptor and keeps the archive path |
| ApplicationVersion.IdentityChanged | applicationVersion.js:85-88 | true exactly when the (application, label) pair the version is registered under differs |
| ApplicationVersion.CheckCollision | applicationVersion.js:141-142 | one lookup; the planned value iff the service answers and the pair is free; otherwise a collision on the derived label, or the remote failure |
| ApplicationVersion.LabelOfFileName | applicationVersion.js:34-35 | the label of `dir/stem.ext` is `stem` |
| ApplicationVersion.SameStemSameLabel | applicationVersion.js:34-35 | archives with the same stem in different directories or with different extensions share a label |
| ApplicationVersion.OrdersVersionLabel | applicationVersion.js:34-35 | the label of `/tmp/orders-v2.zip` is `orders-v2` |
| ApplicationVersion.ApplicationVersionExists | applicationVersion.js:107-113 | succeeds iff the service answers, and then is true iff the (application, label) pair is registered |
| ApplicationVersion.Plan | applicationVersion.js:138-165 | with no prior state, or a changed label or application: one lookup, then a collision error, a remote failure or a proposal with every computed attribute unknown; otherwise no call, and a bucket change is refused while an unchanged one returns the configuration |
| ApplicationVersion.Create | applicationVersion.js:37-64 | upload first, then registration; success iff the archive is readable, both services answer, the bucket and the application exist and the pair is free; only remote failures; the state is the echoed descriptor with key `<application>/<file name>` and the derived label; a failed registration leaves the object uploaded; a successful one adds exactly the descriptor `(application, "", bucket, key, label, ARN)` under the pair and changes nothing else in the hosting service |
| ApplicationVersion.Read | applicationVersion.js:66-82 | one lookup by application and label; absent when the pair is unregistered, otherwise the state refreshed from the registered descriptor with the archive path kept |
| ApplicationVersion.Update | applicationVersion.js:84-92 | recreates iff label or application changed; otherwise refuses without any call, even when the bucket changed |
| ApplicationVersion.Destroy | applicationVersion.js:123-126 | makes no call and returns both services exactly as they were |
| ApplicationVersion.CreateEndToEnd | applicationVersion.js:37-64 | on `dir/stem.ext` the plan proposes a create, which uploads to `<application>/stem.ext`, registers label `stem` bound to it, and returns that state |
| ApplicationVersion.CleanPlanThenCreateSucceeds | applicationVersion.js:140-158 | a plan that found the pair free is followed by a successful create when the archive is readable, S3 answers, and the bucket and the application exist |
| ApplicationVersion.CreateThenRead | applicationVersion.js:66-82 | read after a successful create returns exactly the created state |
| ApplicationVersion.PlanAfterCreateIsNoop | applicationVersion.js:146-164 | planning the same configuration against the created state makes no call and changes nothing |
| ApplicationVersion.LabelPreservingMoveIsNoop | applicationVersion.js:146-164 | an archive `dir/stem.ext` whose stem is the prior label, in any directory and with any dot-led extension, keeps the version: the plan is a no-op and update refuses |
| ApplicationVersion.ReplacingPlanThenUpdateRecreates | applicationVersion.js:84-92 | a replacing plan is followed by an update that recreates |
| ApplicationVersion.RefusedPlanThenUpdateRefuses | applicationVersion.js:84-92 | a plan that refuses a moved bucket is matched by an update that refuses |
| ApplicationVersion.NoopPlanThenUpdateRefuses | applicationVersion.js:84-92 | a no-op plan is matched by an update that refuses |
| ApplicationVersion.ReadFindsItsOwnVersion | applicationVersion.js:66-82 | on a hosting map that files every descriptor under its own application and label, a version read back carries the application, label and archive path it was looked up with |
| Provider.CreateAwsConfig | plugin.js:9-27 | a non-empty profile selects shared-profile credentials; with no key id and no secret only the region is set; otherwise both key fields are passed as given; the region is passed through unchanged |
| Provider.Configure | plugin.js:38-39 | an omitted (undefined) region becomes `ap-southeast-2`; an empty profile or key counts as absent; the profile, or the key id and secret, are passed on as given |
| Bundle.PrefixOrDot | plugin.js:57 | a non-empty prefix is kept, and an absent or empty one gives `.` |
| Bundle.KeyFor | plugin.js:57 | the planned key is the key the raw-prefix join gives for the prefix `prefix \|\| '.'`, and is never empty |
| Bundle.Plan | plugin.js:56-62 | the plan is the configuration plus the key `join(prefix or ".", fileHash, basename(file))` |
| Bundle.KeyAsWritten | plugin.js:65 | the key is derived iff a prefix was given |
| Bundle.Upload | plugin.js:66-77 | a missing file fails before any call; otherwise one upload, and success iff S3 answers and the bucket exists, storing the file's bytes under the key |
| Bundle.CreateAsWritten | plugin.js:63-78 | without a prefix the create fails with no call; with one it uploads under `join(prefix, fileHash, basename(file))` |
| Bundle.Create | plugin.js:63-78 | succeeds iff the file exists, S3 answers and the bucket exists, and returns exactly the plan for the configuration, stored under its key with every other object, the bucket set and the service flag unchanged; a failed create leaves S3 unchanged |
| Bundle.UpdateAsWritten | plugin.js:101-103 | update as written is create as written on the new configuration, so it fails with no call when the prefix is omitted |
| Bundle.Update | plugin.js:101-103 | update is the corrected create on the new configuration, whatever the prior state, and returns the plan for it |
| Bundle.Fetch | plugin.js:83-99 | one fetch; a found object keeps the state with the key, a failed fetch blanks `fileHash`; never an error |
| Bundle.ReadAsWritten | plugin.js:79-100 | without a prefix read fails with no call; with one it fetches `join(prefix, fileHash, basename(file))` |
| Bundle.Read | plugin.js:79-100 | always succeeds; the key is the planned one; the state is refreshed with that key and keeps `fileHash` when the object is there, and blanks it otherwise |
| Bundle.MissingPrefixBreaksCreateAndRead | plugin.js:56-81 | without a prefix the plan proposes a key under `.`, while create, update and read as written fail with no call |
| Bundle.CreateAsWrittenMatchesPlan | plugin.js:57-65 | with a prefix, create as written behaves as the corrected create, the empty prefix included when the file hash is relative |
| Bundle.EmptyPrefixAbsoluteHashMovesObject | plugin.js:57-65 | with an empty prefix and a file hash starting with `/`, the plan proposes a relative key while create as written uploads under an absolute one |
| Bundle.CreateThenRead | plugin.js:63-100 | read after a successful create returns exactly the created state |
| Bundle.LostObjectIsDrift | plugin.js:93-98 | a missing object makes read blank `fileHash`, so the next plan differs from the state |
| HashedVersion.HashInput | plugin.js:107-111 | the hashed text is the application name, then the bucket, then the key, with nothing between them |
| HashedVersion.CreateVersionHash | plugin.js:106-113 | the version is a prefix of the digest of application name, bucket and key written in sequence, at most 31 characters long |
| HashedVersion.Plan | plugin.js:125-131 | the plan is the configuration with the version `createVersionHash` computes: at most 31 characters, a prefix of the digest |
| HashedVersion.RequestFor | plugin.js:135-143 | the request names the application, the description `My App`, the configured bucket and key, and the hashed label of at most 31 characters |
| HashedVersion.Create | plugin.js:132-151 | one registration with description `My App` bound to the configured bundle; success iff the service answers, the application exists and the label is free, returning the plan; a successful one adds exactly the descriptor `(application, My App, bundle bucket, bundle key, version, ARN)` and changes nothing else in the hosting service |
| HashedVersion.Update | plugin.js:152-154 | update is create on the new configuration, and returns the plan for it; it is refused when the new version is already registered |
| HashedVersion.SameConcatenationSameVersion | plugin.js:106-113 | bundles whose bucket and key concatenate to the same text get the same version, and the second create is refused |

## Left out

- The network, the SDK clients and their request objects: the services are modelled as maps with an availability flag.
- The shape of remote errors is not modelled. Every remote failure is one of three abstract causes.
- Message texts of `ImmutableVersionViolation` and `VersionLabelCollision`: only the error kind and the label are kept.
- Streaming the archive (`createReadStream`) and reading the file: the archive is a map from path to bytes. A file that cannot be read makes the upload fail.
- SHA-256 is a function parameter, and the hash stream's incremental writes are its input concatenated.
- The ARN the hosting service assigns is a parameter of create.
- The provider and plugin wiring (`createProvider`, `createPlugin`, `plugin.run`, `createSimpleResource` dispatch), and the creation of the `aws.Config`, `ElasticBeanstalk` and `S3` objects. `Configure` returns the configuration the SDK is given.
- `console.log` of the configuration.
- The hashed `application_version` resource defines no read or destroy, and the `bundle` resource defines no destroy; the library's defaults for them are not part of this model.
- `elasticBeanstalkProvider.js`, the flow type definitions and the build scripts are not part of this model.
- `NodePath` models Node's POSIX path functions only, on `/`-separated strings; Windows paths are not modelled.
- An omitted optional attribute is modelled as absent (`None`); JavaScript's distinction between `undefined` and `null` is not. Both make `path.join` throw.
- Provider.Configure: assumes an omitted attribute arrives as `undefined`. The default region applies only to `undefined`, so a `null` region would be passed on without it; the model does not represent `null`.
- NodePath.BasenameWithoutSuffix: for a suffix that partly matches the end of a path with trailing separators, Node keeps those separators in its result, while the model returns the base name. The label only ever passes the path's own extension, which never reaches this case.
- `Remote.Register` refuses an unknown application and a label that the application already has, as the hosting service does; other service-side validation (label length, bucket region, source bundle existence) is not modelled. `Remote.Put` refuses a missing bucket; access control is not modelled.
- NodePath.Join: only non-emptiness is stated of `join` in general; its behaviour is pinned down where the model needs it, by `SplitAtSeparator`, `NormalizeCurrentDirectoryPrefix` and `JoinCurrentDirectoryOrEmpty`.
- `ApplicationVersion.Create` ignores `Tags: []` in the request, since the model has no tags.

## Findings

| source | as written | input that shows it | evidently intended | confidence | as-written member | corrected member |
|---|---|---|---|---|---|---|
| plugin.js:65-102 | create and read build the key with `join(prefix, …)` while the plan uses `join(prefix \|\| '.', …)`; an omitted prefix makes `join` throw, and update, which calls create, throws with it | a `bundle` with `prefix` omitted: the plan proposes key `<fileHash>/<file name>`, then create and update fail before uploading and read fails | create and read use the planned key `join(prefix \|\| '.', fileHash, basename(file))` | high, not executed | Bundle.MissingPrefixBreaksCreateAndRead | Bundle.Create |
| plugin.js:57-65 | the plan reads an empty prefix as `.`, while create's `join` skips it | `prefix = ""`, `fileHash = "/h"`, file `a.zip`: the plan proposes `h/a.zip`, create uploads to `/h/a.zip` | the object is stored under the key the plan proposed | low, not executed | Bundle.EmptyPrefixAbsoluteHashMovesObject | Bundle.Create |
