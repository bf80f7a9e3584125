/**
 * The gateway's request taxonomy: the closed sum type every call to the
 * `/api` endpoint is decoded into, with its wire encoding `{type, params}`.
 * Each variant's payload is kept opaque (a JSON value); the handlers that
 * consume the payloads are outside this model.
 */
module ApiRequests {
  import opened Wrappers
  import opened Json
  import opened ApiTags

  /** The name of the request struct each variant wraps. */
  function PayloadType(v: Variant): string {
    match v
    case CreateLoginSecret => "CreateLoginSecret"
    case DeleteLoginSecret => "DeleteLoginSecret"
    case UpdateUserPerimissions => "UpdateUserPermissions"
    case UpdateUserPermissionsOnTarget => "UpdateUserPermissionsOnTarget"
    case GetPeripheryVersion => "GetPeripheryVersion"
    case GetSystemInformation => "GetSystemInformation"
    case GetDockerContainers => "GetDockerContainers"
    case GetDockerImages => "GetDockerImages"
    case GetDockerNetworks => "GetDockerNetworks"
    case GetServer => "GetServer"
    case ListServers => "ListServers"
    case CreateServer => "CreateServer"
    case DeleteServer => "DeleteServer"
    case UpdateServer => "UpdateServer"
    case RenameServer => "RenameServer"
    case GetAllSystemStats => "GetAllSystemStats"
    case GetBasicSystemStats => "GetBasicSystemStats"
    case GetCpuUsage => "GetCpuUsage"
    case GetDiskUsage => "GetDiskUsage"
    case GetNetworkUsage => "GetNetworkUsage"
    case GetSystemProcesses => "GetSystemProcesses"
    case GetSystemComponents => "GetSystemComponents"
    case PruneContainers => "PruneDockerContainers"
    case PruneImages => "PruneDockerImages"
    case PruneNetworks => "PruneDockerNetworks"
    case GetDeployment => "GetDeployment"
    case ListDeployments => "ListDeployments"
    case CreateDeployment => "CreateDeployment"
    case DeleteDeployment => "DeleteDeployment"
    case UpdateDeployment => "UpdateDeployment"
    case RenameDeployment => "RenameDeployment"
    case Deploy => "Deploy"
    case StartContainer => "StartContainer"
    case StopContainer => "StopContainer"
    case RemoveContainer => "RemoveContainer"
    case GetBuild => "GetBuild"
    case ListBuilds => "ListBuilds"
    case CreateBuild => "CreateBuild"
    case DeleteBuild => "DeleteBuild"
    case UpdateBuild => "UpdateBuild"
    case RunBuild => "RunBuild"
    case GetBuilder => "GetBuilder"
    case ListBuilders => "ListBuilders"
    case CreateBuilder => "CreateBuilder"
    case DeleteBuilder => "DeleteBuilder"
    case UpdateBuilder => "UpdateBuilder"
    case GetRepo => "GetRepo"
    case ListRepos => "ListRepos"
    case CreateRepo => "CreateRepo"
    case UpdateRepo => "UpdateRepo"
    case DeleteRepo => "DeleteRepo"
    case CloneRepo => "CloneRepo"
    case PullRepo => "PullRepo"
  }

  /** The variants marked `#[to_string_resolver]`: their resolver yields the response text itself. */
  predicate StringResolved(v: Variant) {
    v.GetAllSystemStats?
    || v.GetBasicSystemStats?
    || v.GetCpuUsage?
    || v.GetDiskUsage?
    || v.GetNetworkUsage?
    || v.GetSystemProcesses?
    || v.GetSystemComponents?
  }

  /** Reads a wire tag back into the variant of that name; `None` for any other string. */
  function ParseTag(t: string): (r: Option<Variant>)
    ensures r.Some? ==> Tag(r.value) == t
    ensures r.None? ==> forall v :: Tag(v) != t
  {
    if exists v :: Tag(v) == t then
      TagsAreDistinct();
      Some(var v :| Tag(v) == t; v)
    else None
  }

  /** Reading a variant's wire tag back yields that same variant. */
  lemma TagRoundTrip(v: Variant)
    ensures ParseTag(Tag(v)) == Some(v)
  {
    TagInjective(ParseTag(Tag(v)).value, v);
  }

  /** A string whose length and letters match no tag's is no variant's tag. */
  lemma UnknownTag(t: string)
    requires TagInverse(t).None?
    ensures ParseTag(t) == None
  {
    forall v ensures Tag(v) != t {
      TagInverseCorrect(v);
    }
  }

  /** A request that names a payload type instead of a variant is not understood. */
  lemma PayloadTypeIsNotATag()
    ensures ParseTag("UpdateUserPermissions") == None
    ensures ParseTag("PruneDockerContainers") == None
  {
    UnknownTag("UpdateUserPermissions");
    UnknownTag("PruneDockerContainers");
  }

  lemma PrunePayloadTypesAreNotTags()
    ensures ParseTag("PruneDockerImages") == None
    ensures ParseTag("PruneDockerNetworks") == None
  {
    UnknownTag("PruneDockerImages");
    UnknownTag("PruneDockerNetworks");
  }

  /** The wire tag differs from the payload's type name for exactly four variants. */
  lemma TagFollowsVariantName(v: Variant)
    ensures Tag(v) != PayloadType(v) <==>
      v in {UpdateUserPerimissions, PruneContainers, PruneImages, PruneNetworks}
  {
  }

  /** A request as the gateway receives it: the variant and its opaque payload. */
  datatype ApiRequest = ApiRequest(variant: Variant, params: Json)

  /** Why a body is not an `ApiRequest`. */
  datatype DecodeError =
    | UnexpectedShape(found: Json)
    | DuplicateField(key: string)
    | MissingType
    | TypeNotAString(found: Json)
    | UnknownVariant(tag: string)
    | MissingParams(variant: Variant)
    | InvalidLength(len: nat)
    | TrailingElements

  /** The adjacently tagged encoding `{"type": <variant name>, "params": <payload>}`. */
  function Encode(req: ApiRequest): (j: Json)
    ensures Field(j, "type") == Some(JStr(Tag(req.variant)))
    ensures Field(j, "params") == Some(req.params)
    ensures Occurrences(j.members, "type") == 1 && Occurrences(j.members, "params") == 1
  {
    TypedBody(Tag(req.variant), req.params)
  }

  /** Reads a tag value: a string naming a variant. */
  function VariantOf(t: Json): (r: Result<Variant, DecodeError>)
    ensures r.Ok? <==> t.JStr? && exists v :: Tag(v) == t.s
    ensures r.Ok? ==> t == JStr(Tag(r.value))
  {
    if !t.JStr? then Err(TypeNotAString(t))
    else
      match ParseTag(t.s)
      case None => Err(UnknownVariant(t.s))
      case Some(v) => Ok(v)
  }

  /**
   * What serde's adjacently tagged visitor has read of an object so far:
   * the variant named by the first `type`, and the first `params`.
   */
  datatype Scan = Scan(variant: Option<Variant>, params: Option<Json>)

  /**
   * The visitor's step on one member. A member whose key is neither `type`
   * nor `params` is skipped; a second `type` or `params` is a duplicate
   * field; the first `type` is read as a tag at once, before any later
   * member is looked at.
   */
  function Step(s: Scan, m: Member): Result<Scan, DecodeError> {
    if m.key == "type" then
      if s.variant.Some? then Err(DuplicateField("type"))
      else
        var v :- VariantOf(m.value);
        Ok(s.(variant := Some(v)))
    else if m.key == "params" then
      if s.params.Some? then Err(DuplicateField("params"))
      else Ok(s.(params := Some(m.value)))
    else Ok(s)
  }

  /** Whether a scan state already holds the key `key`. */
  function Held(s: Scan, key: string): nat {
    if key == "type" && s.variant.Some? then 1
    else if key == "params" && s.params.Some? then 1
    else 0
  }

  /**
   * The visitor over the members in order, from state `s`. It gets through
   * exactly when neither key ends up read twice and the first `type`, if it
   * is read here, names a variant; it ends holding the first of each key.
   * A failure is a duplicate of a key read twice, or the bad first tag.
   */
  function ScanMembers(ms: seq<Member>, s: Scan): (r: Result<Scan, DecodeError>)
    ensures r.Ok? <==>
      && Occurrences(ms, "type") + Held(s, "type") <= 1
      && Occurrences(ms, "params") + Held(s, "params") <= 1
      && (s.variant.None? && Find(ms, "type").Some? ==> VariantOf(Find(ms, "type").value).Ok?)
    ensures r.Ok? ==> (r.value.variant ==
      if s.variant.Some? || Find(ms, "type").None? then s.variant else Some(VariantOf(Find(ms, "type").value).value))
    ensures r.Ok? ==> r.value.params == (if s.params.Some? then s.params else Find(ms, "params"))
    ensures r.Err? && r.error.DuplicateField? ==>
      (r.error.key == "type" || r.error.key == "params") && Occurrences(ms, r.error.key) + Held(s, r.error.key) > 1
    ensures r.Err? && !r.error.DuplicateField? ==>
      && s.variant.None? && Find(ms, "type").Some?
      && VariantOf(Find(ms, "type").value).Err? && VariantOf(Find(ms, "type").value).error == r.error
    decreases |ms|
  {
    if ms == [] then Ok(s)
    else
      var s' :- Step(s, ms[0]);
      ScanMembers(ms[1..], s')
  }

  /**
   * Reads a body back, in either form serde's adjacently tagged visitor
   * accepts: an object with exactly one `type`, a string naming a variant,
   * and exactly one `params` (other members are skipped), or a two-element
   * array `[type, params]`. An object's members are read in order and the
   * first thing wrong with them is the error; only after the last member
   * are a missing `type` and then a missing `params` reported.
   */
  function Decode(j: Json): (r: Result<ApiRequest, DecodeError>)
    ensures j.JObj? ==> (r.Ok? <==>
      && Occurrences(j.members, "type") == 1
      && Occurrences(j.members, "params") == 1
      && Field(j, "type").value.JStr?
      && (exists v :: Tag(v) == Field(j, "type").value.s))
    ensures j.JObj? && r.Ok? ==>
      && Field(j, "type") == Some(JStr(Tag(r.value.variant)))
      && Field(j, "params") == Some(r.value.params)
    ensures j.JObj? && r.Err? && r.error.DuplicateField? ==> Occurrences(j.members, r.error.key) > 1
    ensures j.JObj? && r.Err? && (r.error.TypeNotAString? || r.error.UnknownVariant?) ==>
      Field(j, "type").Some? && VariantOf(Field(j, "type").value).Err?
      && VariantOf(Field(j, "type").value).error == r.error
    ensures j.JObj? ==> (r == Err(MissingType) <==>
      Field(j, "type").None? && Occurrences(j.members, "params") <= 1)
    ensures j.JObj? && r.Err? && r.error.MissingParams? ==>
      Field(j, "params").None? && Occurrences(j.members, "type") == 1
      && Field(j, "type") == Some(JStr(Tag(r.error.variant)))
    ensures j.JArr? ==> (r.Ok? <==>
      |j.items| == 2 && j.items[0].JStr? && exists v :: Tag(v) == j.items[0].s)
    ensures j.JArr? && r.Ok? ==> j.items == [JStr(Tag(r.value.variant)), r.value.params]
    ensures !j.JObj? && !j.JArr? ==> r == Err(UnexpectedShape(j))
  {
    match j
    case JObj(ms) =>
      var s :- ScanMembers(ms, Scan(None, None));
      (match s.variant
       case None => Err(MissingType)
       case Some(v) =>
         match s.params
         case None => Err(MissingParams(v))
         case Some(p) => Ok(ApiRequest(v, p)))
    case JArr(items) =>
      if |items| == 0 then Err(InvalidLength(0))
      else
        var v :- VariantOf(items[0]);
        if |items| == 1 then Err(InvalidLength(1))
        else if |items| > 2 then Err(TrailingElements)
        else
          assert items == [items[0], items[1]];
          Ok(ApiRequest(v, items[1]))
    case _ => Err(UnexpectedShape(j))
  }

  /** Decoding an encoded request gives the request back. */
  lemma RoundTrip(req: ApiRequest)
    ensures Decode(Encode(req)) == Ok(req)
  {
    TagRoundTrip(req.variant);
  }

  /** Two requests with the same encoding are the same request. */
  lemma EncodeInjective(a: ApiRequest, b: ApiRequest)
    ensures Encode(a) == Encode(b) ==> a == b
  {
    RoundTrip(a);
    RoundTrip(b);
  }

  /** The array form `[type, params]` reads as the same request as the object form. */
  lemma {:induction false} ArrayFormRoundTrip(req: ApiRequest)
    ensures Decode(JArr([JStr(Tag(req.variant)), req.params])) == Ok(req)
    ensures Decode(JArr([JStr(Tag(req.variant)), req.params])) == Decode(Encode(req))
  {
    TagRoundTrip(req.variant);
    RoundTrip(req);
  }

  /** A body that repeats `type` is rejected even when every copy names the same variant. */
  lemma RepeatedTypeRejected(req: ApiRequest)
    ensures Decode(JObj(Encode(req).members + [Member("type", JStr(Tag(req.variant)))])).Err?
  {
    var ms := Encode(req).members + [Member("type", JStr(Tag(req.variant)))];
    assert ms[1..][1..][1..] == [];
    assert Occurrences(ms, "type") == 2;
  }

  /** Scanning two runs of members is scanning the first, then the second from where it stopped. */
  lemma {:induction false} ScanAppend(pre: seq<Member>, post: seq<Member>, s: Scan)
    ensures ScanMembers(pre, s).Err? ==> ScanMembers(pre + post, s) == Err(ScanMembers(pre, s).error)
    ensures ScanMembers(pre, s).Ok? ==> ScanMembers(pre + post, s) == ScanMembers(post, ScanMembers(pre, s).value)
    decreases |pre|
  {
    if pre == [] {
      assert pre + post == post;
    } else {
      var xs := pre + post;
      assert xs[0] == pre[0];
      assert xs[1..] == pre[1..] + post;
      var st := Step(s, pre[0]);
      if st.Ok? {
        ScanAppend(pre[1..], post, st.value);
      }
    }
  }

  /**
   * The first `type` is read as soon as it is met: when it names no
   * variant, that is the error, whatever members follow it.
   */
  lemma BadTagReportedWhereMet(pre: seq<Member>, t: Json, post: seq<Member>)
    requires Occurrences(pre, "type") == 0 && Occurrences(pre, "params") <= 1
    requires VariantOf(t).Err?
    ensures Decode(JObj(pre + [Member("type", t)] + post)) == Err(VariantOf(t).error)
  {
    var m := Member("type", t);
    assert pre + [m] + post == pre + ([m] + post);
    ScanAppend(pre, [m] + post, Scan(None, None));
    assert ([m] + post)[0] == m;
  }

  /**
   * A key met a second time is reported as a duplicate at once, whatever
   * members follow, provided nothing before it was already wrong.
   */
  lemma RepeatReportedWhereMet(pre: seq<Member>, key: string, x: Json, post: seq<Member>)
    requires key == "type" || key == "params"
    requires Occurrences(pre, key) == 1
    requires Occurrences(pre, "type") <= 1 && Occurrences(pre, "params") <= 1
    requires Find(pre, "type").Some? ==> VariantOf(Find(pre, "type").value).Ok?
    ensures Decode(JObj(pre + [Member(key, x)] + post)) == Err(DuplicateField(key))
  {
    var m := Member(key, x);
    assert pre + [m] + post == pre + ([m] + post);
    ScanAppend(pre, [m] + post, Scan(None, None));
    assert ([m] + post)[0] == m;
  }

  /** An unknown first `type` is the error even when a later `type` names a variant. */
  lemma UnknownFirstTypeReportedFirst()
    ensures Decode(JObj([Member("type", JStr("Nope")), Member("type", JStr("GetServer")), Member("params", JObj([]))]))
      == Err(UnknownVariant("Nope"))
  {
    UnknownTag("Nope");
    var m := Member("type", JStr("Nope"));
    var rest := [Member("type", JStr("GetServer")), Member("params", JObj([]))];
    BadTagReportedWhereMet([], JStr("Nope"), rest);
    assert [] + [m] + rest == [m] + rest;
  }

  /** A non-string first `type` is the error even when a later `type` names a variant. */
  lemma NonStringFirstTypeReportedFirst()
    ensures Decode(JObj([Member("type", JNum(5.0)), Member("type", JStr("GetServer")), Member("params", JObj([]))]))
      == Err(TypeNotAString(JNum(5.0)))
  {
    var m := Member("type", JNum(5.0));
    var rest := [Member("type", JStr("GetServer")), Member("params", JObj([]))];
    BadTagReportedWhereMet([], JNum(5.0), rest);
    assert [] + [m] + rest == [m] + rest;
  }
}
