# Request path and wire contracts of the Monitor control plane, in Dafny

This project models six small pieces of the Monitor core and its clients. Each is a pure
function over immutable datatypes, and the properties the code promises are proved about it.

- **Gateway request taxonomy** (`api_tags.dfy`, module `ApiTags`, and `api_requests.dfy`, module `ApiRequests`).
  - `ApiRequest` is a closed sum of 53 variants. Each carries an opaque JSON payload.
  - `ApiTags` holds the variants, their wire tags and the proof that no two tags coincide.
  - The adjacently tagged wire encoding is `{"type": <variant name>, "params": <payload>}`.
  - Decoding follows serde's adjacently tagged reader: the object form with each key at most once, and the two-element array form `[tag, payload]`.
  - An object's members are read in order, and the first one that is wrong decides the error: a second `type` or `params`, or a first `type` that names no variant.
  - The module defines a tag parser and the seven variants that resolve straight to text.
- **Gateway route** (`gateway.dfy`, module `Gateway`).
  - Resolution always passes the caller along.
  - The route turns the awaited outcome into an answer:
    - a join failure of the spawned task, then a resolver error, each give 500 with debug text;
    - otherwise the text with a JSON content type.
  - The route is composed with the authentication middleware.
- **Authentication middleware** (`auth.dfy`, module `Auth`).
  - A missing JWT client, or a failing `authenticate` (an oracle), answers 401.
  - Otherwise the user is inserted into the request and the downstream handler runs once.
- **Documented client wire contract** (`client_api.dfy`, module `ClientApi`).
  - Module-to-path routing: `/auth`, `/user`, `/read`, `/write`, `/execute`.
  - Two credential schemes: a JWT in `Authorization`, or `X-Api-Key` and `X-Api-Secret` together.
  - Header names are case-insensitive, as in HTTP. Headers are a map keyed by the lower-case name, and any spelling folds to that key.
  - The `{type, params}` body and the `{error, trace}` error envelope.
- **Server configuration defaults** (`server_entity.dfy`, module `ServerEntity`).
  - Three ways to obtain a `ServerConfig`: serde with absent fields defaulted, the builder, and conversion from the partial config.
  - The module proves that they agree on the defaults.
  - The serde reader takes the object form, which rejects a repeated key or a wrongly typed value and skips unknown keys, and the array form, which reads fields by position.
  - Also modelled: `ServerStatus` (default `NotOk`, encoded as its variant name, and read from that name or from `{"<name>": null}`) and `ServerActionState` (the default `IDLE` has all four flags false).
- **Periphery container calls** (`periphery_container.dfy`, module `PeripheryContainer`).
  - Each client method becomes a descriptor: server, verb, path, body and expected reply kind.
  - A reverse reading shows that only one pair of calls collides.
- **Legacy `updateDeployment` handler** (`deployment_update.dfy`, module `DeploymentUpdate`).
  - A transition over a map of deployments plus an append-only update log.
  - The permission rule, the re-clone decision and its target, and the write are modelled.
  - Re-cloning and writing are oracles that may fail.

`wrappers.dfy` (`Option`, `Result`), `json.dfy` (a small JSON value type) and `http.dfy` (the HTTP verb) are shared by the modules.

Points where the sources disagree, and how the model reads them:

- **JWT header name.** The client documentation spells the header "Authorication" on line 10 and "Authorization" on line 13. The model uses `Authorization`.
  - The documentation says "either ... or". `ClientApi.CredentialsOf` reads this as exclusive: headers that carry both schemes give no credentials.
  - `ClientApi.Authenticates` states the documented acceptance rule on its own.
- **Two path layouts.** The core mounts one route, `POST /`, nested under `/api` (core/src/main.rs:29, core/src/requests/api/mod.rs:120-122). The client documentation lists five paths (client/core/rs/src/api/mod.rs:7). The two are modelled separately (`Gateway`, `ClientApi`) and not reconciled.
- **Absent permission level.** `update.ts` compares `user.permissions! < 2`. In JavaScript, `undefined < 2` is false, while `null < 2` is true because `null` compares as 0. So a user record whose level is `undefined` is never refused, and one whose level is `null` is treated as below 2. `DeploymentUpdate.Permissions` keeps the two apart, and `DeploymentUpdate.Refused` models exactly that.

## Model

| member | source | states |
|---|---|---|
| `ApiTags.Tag` | core/src/requests/api/mod.rs:34-115 | each variant's wire tag is its own Rust name, `UpdateUserPerimissions` spelling included; its contract is stated by `ApiTags.TagInjective` and `ApiRequests.TagRoundTrip` |
| `ApiTags.TagInverseCorrect` | core/src/requests/api/mod.rs:34-115 | the length and the first and fourth letters of a variant's tag identify that variant |
| `ApiRequests.ParseTag` | core/src/requests/api/mod.rs:30-116 | a tag read back names a variant whose wire tag is that string, and it fails exactly when no variant has that tag |
| `ApiTags.TagInjective` | core/src/requests/api/mod.rs:32-116 | the 53 variant names are pairwise distinct, so the tag alone determines the variant |
| `ApiRequests.TagRoundTrip` | core/src/requests/api/mod.rs:30-116 | reading a variant's tag back yields that variant |
| `ApiRequests.UnknownTag` | core/src/requests/api/mod.rs:30-116 | a string whose length and first and fourth letters match no tag names no variant |
| `ApiRequests.PayloadTypeIsNotATag` | core/src/requests/api/mod.rs:38-70 | the payload type names `UpdateUserPermissions` and `PruneDockerContainers` are not accepted as tags |
| `ApiRequests.PrunePayloadTypesAreNotTags` | core/src/requests/api/mod.rs:71-72 | neither are `PruneDockerImages` and `PruneDockerNetworks` |
| `ApiRequests.TagFollowsVariantName` | core/src/requests/api/mod.rs:38-72 | the tag differs from the payload type name for exactly the misspelled `UpdateUserPerimissions` and the three prune variants |
| `ApiRequests.PayloadType` | core/src/requests/api/mod.rs:34-115 | the name of the request struct each variant wraps; how it relates to the wire tag is stated by `ApiRequests.TagFollowsVariantName` |
| `ApiRequests.StringResolved` | core/src/requests/api/mod.rs:55-68 | exactly the seven variants marked `#[to_string_resolver]` resolve to text; `Gateway.ResolveRequest` states what that routing does |
| `ApiRequests.Encode` | core/src/requests/api/mod.rs:30 | the encoding is an object whose `type` is the variant name and whose `params` is the payload |
| `ApiRequests.VariantOf` | core/src/requests/api/mod.rs:30-116 | a tag value is accepted exactly when it is a string naming a variant, and it is that variant's tag |
| `ApiRequests.Decode` | core/src/requests/api/mod.rs:30-116 | an object decodes exactly when `type` and `params` each occur once and `type` is a string naming a variant, and the result agrees with both; a duplicate-field error names a key that occurs twice, a tag error is the first `type`'s, a missing `type` is reported exactly when there is none and `params` is not repeated, and a missing `params` only when `type` occurs once and names that variant; a two-element array `[tag, payload]` decodes exactly when the tag names a variant; any other JSON value is refused |
| `ApiRequests.RoundTrip` | core/src/requests/api/mod.rs:30-116 | decoding an encoded request gives back the same variant and payload |
| `ApiRequests.EncodeInjective` | core/src/requests/api/mod.rs:30-116 | different requests have different encodings |
| `ApiRequests.ArrayFormRoundTrip` | core/src/requests/api/mod.rs:30 | the array `[tag, payload]` decodes to the same request as the object encoding |
| `ApiRequests.RepeatedTypeRejected` | core/src/requests/api/mod.rs:30 | a body that repeats `type` is refused even when both copies name the same variant |
| `ApiRequests.ScanMembers` | core/src/requests/api/mod.rs:30 | the member-by-member pass over an object gets through exactly when neither `type` nor `params` is read twice and the first `type` names a variant, ends holding the first of each, and otherwise fails with a duplicate of a repeated key or with the first tag's own error |
| `ApiRequests.ScanAppend` | core/src/requests/api/mod.rs:30 | the pass over two runs of members is the pass over the first, then over the second from where it stopped; an error in the first run is final |
| `ApiRequests.BadTagReportedWhereMet` | core/src/requests/api/mod.rs:30 | a first `type` that names no variant is the error, whatever members follow it |
| `ApiRequests.RepeatReportedWhereMet` | core/src/requests/api/mod.rs:30 | a `type` or `params` met a second time, with nothing wrong before it, is the duplicate-field error, whatever members follow it |
| `ApiRequests.UnknownFirstTypeReportedFirst` | core/src/requests/api/mod.rs:30 | `{"type":"Nope","type":"GetServer","params":{}}` fails as an unknown variant `Nope`, not as a duplicate |
| `ApiRequests.NonStringFirstTypeReportedFirst` | core/src/requests/api/mod.rs:30 | `{"type":5,"type":"GetServer","params":{}}` fails because `type` is not a string, not as a duplicate |
| `Gateway.ResolveRequest` | core/src/requests/api/mod.rs:129-133 | the routing is stated over the resolvers by `Gateway.ResolutionUsesOneOracle` and `Gateway.SuccessIsResolvedText`: a text-resolved variant consults only the text resolver, every other variant only the value resolver and its serialiser |
| `Gateway.ResolutionUsesOneOracle` | core/src/requests/api/mod.rs:129-133 | two resolvers that agree on the text of a text-resolved request give the same answer to it, whatever their value resolvers do; two that agree on the value of any other request, and on its serialisation, give the same answer to it, whatever their text resolvers do |
| `Gateway.Respond` | core/src/requests/api/mod.rs:129-148 | a join failure gives 500 with its text and is checked first; a resolver error gives 500 with its text; otherwise the resolved text is the body, unchanged, with a JSON content type |
| `Gateway.Handle` | core/src/requests/api/mod.rs:122-148 | without a user extension the handler answers 500 and resolves nothing; otherwise it resolves exactly once, for the request and the user from the request's extension; success implies no join failure and the resolver's own text |
| `Gateway.Endpoint` | core/src/requests/api/mod.rs:118-152 | the route behind its middleware answers 401 and resolves nothing unless a JWT client is present and `authenticate` succeeds; otherwise it is the handler run with the user `authenticate` returned |
| `Gateway.NoResolutionWithoutAuthentication` | core/src/requests/api/mod.rs:152 | behind the middleware, a failed check answers 401 and starts no resolution; a passed check starts exactly one, for the user `authenticate` returned |
| `Gateway.SuccessIsResolvedText` | core/src/requests/api/mod.rs:129-148 | for an authenticated caller, a text-resolved request is answered with the text resolver's output for that caller as JSON, or 500 with its error; any other request is answered with the value resolver's result for that caller, serialised, or 500 with its error |
| `Auth.AuthRequest` | core/src/auth/mod.rs:24-38 | a missing JWT client answers 401 with the fixed message; a failed `authenticate` answers 401 with `error: ` and the error; otherwise the request gains the user and the downstream answer is returned unchanged; downstream runs once if both checks pass, never otherwise |
| `Auth.ForwardedRequestOnlyGainsUser` | core/src/auth/mod.rs:36-37 | the request handed downstream differs from the incoming one only in its user extension, which holds the authenticated user |
| `ClientApi.ModuleAt` | client/core/rs/src/api/mod.rs:28-29 | a path is read as the module served there |
| `ClientApi.PathRoundTrip` | client/core/rs/src/api/mod.rs:7 | each module's path names that module back |
| `ClientApi.PathInjective` | client/core/rs/src/api/mod.rs:33-37 | the five modules have five different paths |
| `ClientApi.WithHeader` | client/core/rs/src/api/mod.rs:8-12 | adding a header stores its value under the lower-case form of its name and leaves every other header as it was |
| `ClientApi.CredentialsOf` | client/core/rs/src/api/mod.rs:10-13 | credentials are found only when the headers authenticate, and are found whenever exactly one scheme is complete; they are the header values |
| `ClientApi.CredentialsRoundTrip` | client/core/rs/src/api/mod.rs:10-13 | headers built from either scheme authenticate and give the same credentials back, whatever other headers are present |
| `ClientApi.AnySpellingAuthenticates` | client/core/rs/src/api/mod.rs:10-13 | headers set under any spelling of `Authorization`, `X-Api-Key` and `X-Api-Secret` give the same credentials as the lower-case names |
| `ClientApi.BuildRequest` | client/core/rs/src/api/mod.rs:5-16 | every call is a POST with a JSON content type, the caller's credentials, the module's path, and a body whose `type` is the struct name and `params` its fields |
| `ClientApi.GetDeploymentExample` | client/core/rs/src/api/mod.rs:18-26 | the documented `GetDeployment` example is a call to `/read` with that exact body |
| `ClientApi.EncodeError` | client/core/rs/src/api/mod.rs:41-51 | an error body has a top-level `error` string and a `trace` array of the messages in order |
| `ClientApi.DecodeError` | client/core/rs/src/api/mod.rs:41-51 | an error body is read only from a string `error` and a `trace` of strings, and agrees with both |
| `ClientApi.ErrorRoundTrip` | client/core/rs/src/api/mod.rs:41-51 | error bodies read back exactly, trace order included |
| `ServerEntity.Default` | client/rs/src/entities/server/mod.rs:38-142 | every field except `address` has a default, and each default has the field's type |
| `ServerEntity.FromJson` | client/rs/src/entities/server/mod.rs:35-105 | a present JSON value is read as a field only when it has the field's type (a string for `address` and `region`, a number for the six thresholds, a boolean for the rest); `ServerEntity.FieldReadIsEncoding` states that the value read is the one that JSON encodes |
| `ServerEntity.FieldReadIsEncoding` | client/rs/src/entities/server/mod.rs:35-105 | a field reads a JSON value to `v` exactly when `v` has the field's type and that JSON is `v`'s encoding: reading accepts nothing else and loses nothing |
| `ServerEntity.Set` | client/rs/src/entities/server/mod.rs:31-34 | setting one field of a partial config or builder changes that field and no other |
| `ServerEntity.ReadField` | client/rs/src/entities/server/mod.rs:36-105 | a field reads as the value present if its type fits, else as its default; absent without default is a missing-field error, present with the wrong type an invalid-type error |
| `ServerEntity.ReadAll` | client/rs/src/entities/server/mod.rs:35-106 | reading a list of fields succeeds exactly when each one does, with each value as present-else-default |
| `ServerEntity.FirstRejection` | client/rs/src/entities/server/mod.rs:31-106 | scanning an object's members in order finds nothing to reject exactly when no field key repeats and every present field has its type; what it finds is a duplicate field or a wrong type |
| `ServerEntity.DeserializeObject` | client/rs/src/entities/server/mod.rs:31-106 | an object is read exactly when no key repeats, every present field has its type and `address` is present; each field is then the value present, else its default |
| `ServerEntity.ReadElements` | client/rs/src/entities/server/mod.rs:31-106 | reading the fields by position from an index on succeeds exactly when each remaining element has its field's type or is missing with a default, and there are no more elements than fields |
| `ServerEntity.DeserializeArray` | client/rs/src/entities/server/mod.rs:31-106 | an array is read exactly when it is non-empty, no longer than the field list, and each element has the type of the field at its position; missing trailing fields take their defaults; an empty array is an invalid-length error |
| `ServerEntity.Deserialize` | client/rs/src/entities/server/mod.rs:31-106 | an object is read exactly when no key repeats, every present field has its type and `address` is present, with each field as present, else its default; a repeated key or wrong type, then a missing `address`, are the errors; arrays are read by position; every other JSON value is refused |
| `ServerEntity.ArrayAgreesWithObject` | client/rs/src/entities/server/mod.rs:31-106 | an array of at most fifteen elements and the object that names each element by its field's key are both read or both refused, to the same config |
| `ServerEntity.KeyRoundTrip` | client/rs/src/entities/server/mod.rs:35-105 | the JSON key of every field reads back as that field |
| `ServerEntity.ParseKey` | client/rs/src/entities/server/mod.rs:35-105 | a key names a field exactly when it is that field's snake_case name, and every other key is left unnamed (serde skips it) |
| `ServerEntity.KeyInjective` | client/rs/src/entities/server/mod.rs:35-105 | no two fields share a JSON key |
| `ServerEntity.Serialize` | client/rs/src/entities/server/mod.rs:31-106 | a config is written as an object with one member per field |
| `ServerEntity.SerializedField` | client/rs/src/entities/server/mod.rs:31-106 | in the written object each field's key carries that field's value |
| `ServerEntity.SerdeRoundTrip` | client/rs/src/entities/server/mod.rs:31-106 | deserialising a serialised config gives the same config |
| `ServerEntity.Build` | client/rs/src/entities/server/mod.rs:36-105 | the builder fails exactly when `address` was never set, and otherwise takes each field as set, else its default |
| `ServerEntity.FromPartial` | client/rs/src/entities/server/mod.rs:31-104 | partial to full conversion keeps every present field and fills each absent field that has a partial default with that default |
| `ServerEntity.SerdeAgreesWithBuilder` | client/rs/src/entities/server/mod.rs:38-105 | deserialising the JSON of the fields set succeeds exactly when building succeeds, with the same config; both fail only for a missing `address` |
| `ServerEntity.PartialField` | client/rs/src/entities/server/mod.rs:38-105 | in the JSON of a partial config each field reads back as the value set, else its default |
| `ServerEntity.BuilderAgreesWithPartial` | client/rs/src/entities/server/mod.rs:40-104 | with `address` set, the builder and the partial conversion agree on every field except an absent `region` |
| `ServerEntity.OnlyAddress` | client/rs/src/entities/server/mod.rs:36-142 | a config with only `address` has all toggles true, cpu 90/99, mem 75/95, disk 75/95 and region "", whether it is built or deserialised from `{"address": …}` |
| `ServerEntity.OnlyAddressArray` | client/rs/src/entities/server/mod.rs:31-142 | the one-element array `[address]` reads as the config with that address and every other field defaulted |
| `ServerEntity.DefaultWarningsBelowCritical` | client/rs/src/entities/server/mod.rs:120-142 | each default warning threshold is strictly below its critical one |
| `ServerEntity.OverrideOneField` | client/rs/src/entities/server/mod.rs:38-105 | setting one field on the builder changes that field of the built config and leaves every other field as before |
| `ServerEntity.StatusToJson` | client/rs/src/entities/server/mod.rs:153-170 | a status is written as a JSON string that reads back as that status |
| `ServerEntity.StatusFromJson` | client/rs/src/entities/server/mod.rs:153-170 | exactly the strings `"NotOk"`, `"Ok"` and `"Disabled"` and the one-member objects `{"NotOk": null}`, `{"Ok": null}` and `{"Disabled": null}` are read as a status, as serde_json's reader of a unit-only enum takes them |
| `ServerEntity.StatusReadIsEncoding` | client/rs/src/entities/server/mod.rs:153-170 | a status is read only from its own encoding or from the map form of that encoding's name |
| `ServerEntity.StatusRoundTrip` | client/rs/src/entities/server/mod.rs:153-170 | each of the three statuses reads back from its encoding |
| `ServerEntity.StatusNamed` | client/rs/src/entities/server/mod.rs:165-170 | exactly the three variant names name a status |
| `ServerEntity.StatusMapForm` | client/rs/src/entities/server/mod.rs:153-170 | the map form `{"<name>": null}` of each status reads as that same status |
| `ServerEntity.DefaultStatusIsNotOk` | client/rs/src/entities/server/mod.rs:153-170 | the `#[default]` status is `NotOk`: it is the one status written, and read back, as `"NotOk"` |
| `ServerEntity.IdleIsTheOnlyRestingState` | client/rs/src/entities/server/mod.rs:144-151 | the derived default action state has no action running, and it is the only such state |
| `PeripheryContainer.Describe` | lib/periphery_client/src/container.rs:7-73 | every call forwards the server unchanged; list and both stats calls are GETs with no body, the others POSTs with a body expecting a `Log` |
| `PeripheryContainer.Interpret` | lib/periphery_client/src/container.rs:7-73 | a descriptor read back as an operation is exactly the descriptor that operation produces |
| `PeripheryContainer.StatsPathShape` | lib/periphery_client/src/container.rs:64-72 | a stats path never equals the list path, and equals the stats-list path exactly for the name "list" |
| `PeripheryContainer.DescribeRoundTrip` | lib/periphery_client/src/container.rs:59-73 | every call reads back as itself except the stats of a container named "list", which reads as the stats-list call |
| `PeripheryContainer.StatsListCollision` | lib/periphery_client/src/container.rs:64-72 | the stats of a container named "list" are requested exactly as the stats of all containers |
| `PeripheryContainer.DescribeInjective` | lib/periphery_client/src/container.rs:7-73 | two calls yield the same request only when they are equal or are that colliding pair |
| `PeripheryContainer.NamedCallsDifferOnlyInPath` | lib/periphery_client/src/container.rs:11-48 | start, stop and remove send the same `{"name": …}` body and differ only in their path |
| `DeploymentUpdate.Refused` | core/src/messages/deployments/update.ts:16 | the permission check of the handler; what it decides is stated about `Update` by `DeploymentUpdate.DeniedByLevelAndOwnership` and `DeploymentUpdate.DenialLifted` |
| `DeploymentUpdate.DeniedByLevelAndOwnership` | core/src/messages/deployments/update.ts:14-27 | for a stored deployment the user does not own, the handler denies a `null` level and a level below 2 and lets an `undefined` level or a level of at least 2 through; an owner is never denied |
| `DeploymentUpdate.DenialLifted` | core/src/messages/deployments/update.ts:14-27 | a denied call is let through once the user is raised to level 2, or once the user is added to the stored owners, all else unchanged |
| `DeploymentUpdate.CloneTargetOf` | core/src/messages/deployments/update.ts:35-43 | the clone runs on the deployment's server exactly when that server is not the core and is found; otherwise it runs locally |
| `DeploymentUpdate.StoredForm` | core/src/messages/deployments/update.ts:45-47 | the document written keeps the stored owners and is otherwise the update as given |
| `DeploymentUpdate.Update` | core/src/messages/deployments/update.ts:9-73 | unknown id: nothing happens; refused exactly when below level 2 and not a stored owner, with one error record and no clone or write; a clone exactly when repository or branch changed; a failed clone or write leaves the store as it was, with one error record; success writes and then appends one non-error record |
| `DeploymentUpdate.OwnersNeverChange` | core/src/messages/deployments/update.ts:45-47 | no call adds or removes a deployment or changes any owners |
| `DeploymentUpdate.OnlyTargetChanges` | core/src/messages/deployments/update.ts:47 | only the updated deployment can change, and only when the call ends in a write |
| `DeploymentUpdate.OneRecordPerCall` | core/src/messages/deployments/update.ts:14-72 | the log only grows, by one record unless the id is unknown; the record names the deployment, the user and the note, and is an error exactly when nothing was written; these are this handler's own records, not the clone helpers' |
| `DeploymentUpdate.SuppliedOwnersIgnored` | core/src/messages/deployments/update.ts:14-47 | the owners the caller supplies change nothing: permission uses the stored owners and the stored owners are written |
| `DeploymentUpdate.OwnersInvariant` | core/src/messages/deployments/update.ts:45-47 | over any sequence of calls, the deployments and their owners stay as they were, the old log stays a prefix, and each call adds at most one record and one clone |

## Left out

- Transport and scheduling are not modelled.
  - Not modelled: HTTP extraction, `get_json` and `post_json`, and `tokio::spawn`.
  - A task that fails to join is the input `panic` of `Gateway.Handle`.
  - Logging, timers and request ids are dropped.
- `JwtClient::authenticate` and the login providers are not part of this model. `authenticate` is an oracle returning a user or an error. The `{e:#?}` and `{e:?}` renderings are the abstract functions `show`, `showError` and `showJoin`.
- The handlers of the 53 variants and the resolver derive macro are not shown.
  - Payloads are opaque JSON values.
  - The two resolvers are oracles.
  - No per-variant permission rule is modelled.
- Float thresholds are mathematical reals. The f32/f64 split and IEEE rounding are not modelled.
- `ServerEntity.Deserialize`: for an object, the error is stated only by kind. A repeated key or a wrong type is reported as one of those two kinds; which key it names is not stated, although the reader scans the members in input order as serde does.
  - Unknown keys are ignored, as serde does.
  - An array is read by position; its error order (wrong type, too few, too many) follows serde's sequence reader.
- `ApiRequests.Decode`: each payload is kept as an opaque JSON value, so an error inside `params` (which serde reports when it deserialises the variant's struct) is not modelled.
  - Unknown keys are skipped, as serde's adjacently tagged reader does.
- `ClientApi.AnySpellingAuthenticates`: the case folding of the documented spellings is a precondition, not computed. The model folds ASCII letters only, as `http` header names do.
- `ServerEntity.FromPartial`: the conversion's value for an absent `address` or `region` is not shown in the source. It is taken as the parameters `absentAddress` and `absentRegion`, and nothing is claimed about it.
- The other server types in the same file are not modelled: `ServerListItemInfo`, `ServerQuery` and the `docker_*`/`stats` submodules. They are not on the configuration path.
- `DeploymentUpdate.SuppliedOwnersIgnored`: this assumes the clone oracle does not look at owners. The source hands the clone the update with the caller's owners.
- `DeploymentUpdate.Update` abstracts the persistence layer.
  - Writing `owners = false` is modelled as leaving the stored owners in place. How the database would cast `false` is not modelled.
  - The changelog text and the error dump in the log records are dropped.
  - A failing server lookup is folded into the clone outcome.
  - `deployment._id` is taken to be present, as its non-null assertion claims.
  - The log append is not awaited in the source; the model appends in program order.
  - `clonePeriphery` and `cloneRepo` are not part of this model. Their outcome is the oracle `cloneOk`, which is given the clone target, the caller and the update. Any update records or other effects of those helpers are outside the model, so the record counts of `DeploymentUpdate.OneRecordPerCall` and `DeploymentUpdate.OwnersInvariant` cover this handler's own records only.
- The gateway's `/api` mount and socket setup in the process bootstrap are not modelled, and neither are the frontend pages.
