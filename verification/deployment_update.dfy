/**
 * The legacy `updateDeployment` message handler as a pure transition: a
 * store of deployments keyed by id plus an append-only update log go in,
 * the new store and log come out, together with the repository clones the
 * call performed. Cloning and writing can fail; both are oracles.
 */
module DeploymentUpdate {
  import opened Wrappers
  import opened Json

  type Id = string

  /** The fields the handler looks at; everything else is the opaque `settings`. */
  datatype Deployment = Deployment(
    id: Id,
    serverId: Option<Id>,
    repo: Option<string>,
    branch: Option<string>,
    owners: seq<string>,
    settings: Json)

  /** A user record's `permissions` as JavaScript sees it: a number, `null`, or `undefined`. */
  datatype Permissions = Undefined | Null | Level(n: int)

  datatype User = User(username: string, permissions: Permissions)

  /**
   * JavaScript's `permissions < 2`: `null` converts to 0, which is below 2,
   * and `undefined` converts to NaN, which is below nothing.
   */
  predicate BelowTwo(p: Permissions) {
    match p
    case Undefined => false
    case Null => true
    case Level(n) => n < 2
  }

  /** Where a re-clone runs: on the deployment's periphery server, or on the core itself. */
  datatype CloneTarget<S> = Periphery(server: S) | Local

  const DENIED_TITLE: string := "Update Deployment (DENIED)"
  const ERROR_TITLE: string := "Update Deployment (ERROR)"
  const SUCCESS_TITLE: string := "Update Deployment"

  /** One entry of the update log; its log text (changelog, error dump) is not modelled. */
  datatype UpdateRecord = UpdateRecord(target: Id, title: string, isError: bool, operator: string, note: Option<string>)

  datatype State = State(deployments: map<Id, Deployment>, log: seq<UpdateRecord>)

  /** How the call ended. */
  datatype Verdict = NotFound | Denied | Failed | Written

  datatype Outcome<S> = Outcome(state: State, clones: seq<CloneTarget<S>>, verdict: Verdict)

  /**
   * The permission rule: a user below level 2 who does not own the stored
   * deployment is refused. An `undefined` level is never below 2, so such
   * a user is never refused; a `null` level is.
   */
  predicate Refused(user: User, stored: Deployment) {
    BelowTwo(user.permissions) && user.username !in stored.owners
  }

  /** A re-clone is needed when the repository or the branch changes. */
  predicate NeedsReclone(update: Deployment, stored: Deployment) {
    update.repo != stored.repo || update.branch != stored.branch
  }

  /**
   * The deployment's server, unless it is the core itself or is not found;
   * in both of those cases the clone runs locally.
   */
  function CloneTargetOf<S>(servers: map<Id, S>, coreId: Id, update: Deployment): (t: CloneTarget<S>)
    ensures t.Periphery? <==> update.serverId != Some(coreId) && update.serverId.Some? && update.serverId.value in servers
    ensures t.Periphery? ==> t.server == servers[update.serverId.value]
  {
    match update.serverId
    case Some(sid) => if sid != coreId && sid in servers then Periphery(servers[sid]) else Local
    case None => Local
  }

  /** The document written: the update as given, with the stored owners kept. */
  function StoredForm(update: Deployment, stored: Deployment): (w: Deployment)
    ensures w.owners == stored.owners
    ensures w.(owners := update.owners) == update
  {
    update.(owners := stored.owners)
  }

  /**
   * `updateDeployment(app, user, {deployment: update, note})`.
   * `cloneOk(t, u, d)` says whether cloning `d` on `t` for caller `u`
   * succeeds (the local clone is handed the caller), and `writeOk(d)`
   * whether `updateById` of `d` succeeds. The log holds this handler's own
   * records; whatever the clone helpers record themselves is not modelled.
   */
  function Update<S>(
    st: State, servers: map<Id, S>, coreId: Id, user: User, update: Deployment, note: Option<string>,
    cloneOk: (CloneTarget<S>, User, Deployment) -> bool, writeOk: Deployment -> bool): (r: Outcome<S>)
    // No stored deployment: nothing at all happens.
    ensures update.id !in st.deployments <==> r.verdict == NotFound
    ensures r.verdict == NotFound ==> r.state == st && r.clones == []
    // Refused: one error record, no clone, no write.
    ensures r.verdict == Denied <==> update.id in st.deployments && Refused(user, st.deployments[update.id])
    ensures r.verdict == Denied ==>
      r.clones == [] && r.state == st.(log := st.log + [UpdateRecord(update.id, DENIED_TITLE, true, user.username, note)])
    // Allowed: a clone exactly when repository or branch changed, on the computed target.
    ensures r.verdict in {Failed, Written} ==>
      r.clones == (if NeedsReclone(update, st.deployments[update.id]) then [CloneTargetOf(servers, coreId, update)] else [])
    // A failed clone or write: one error record and the store untouched.
    ensures r.verdict == Failed ==>
      r.state == st.(log := st.log + [UpdateRecord(update.id, ERROR_TITLE, true, user.username, note)])
    // Success: the written document is stored, then one non-error record.
    ensures r.verdict == Written ==>
      r.state == State(
        st.deployments[update.id := StoredForm(update, st.deployments[update.id])],
        st.log + [UpdateRecord(update.id, SUCCESS_TITLE, false, user.username, note)])
    ensures r.verdict == Written <==>
      update.id in st.deployments && !Refused(user, st.deployments[update.id])
      && (NeedsReclone(update, st.deployments[update.id]) ==> cloneOk(CloneTargetOf(servers, coreId, update), user, update))
      && writeOk(StoredForm(update, st.deployments[update.id]))
  {
    if update.id !in st.deployments then Outcome(st, [], NotFound)
    else
      var stored := st.deployments[update.id];
      if Refused(user, stored) then
        Outcome(st.(log := st.log + [UpdateRecord(update.id, DENIED_TITLE, true, user.username, note)]), [], Denied)
      else
        var failed := st.(log := st.log + [UpdateRecord(update.id, ERROR_TITLE, true, user.username, note)]);
        var target := CloneTargetOf(servers, coreId, update);
        var clones := if NeedsReclone(update, stored) then [target] else [];
        if NeedsReclone(update, stored) && !cloneOk(target, user, update) then Outcome(failed, clones, Failed)
        else
          var doc := StoredForm(update, stored);
          if !writeOk(doc) then Outcome(failed, clones, Failed)
          else
            Outcome(
              State(st.deployments[update.id := doc],
                    st.log + [UpdateRecord(update.id, SUCCESS_TITLE, false, user.username, note)]),
              clones, Written)
  }

  /** The handler never adds or removes a deployment, and never changes anyone's owners. */
  lemma OwnersNeverChange<S>(
    st: State, servers: map<Id, S>, coreId: Id, user: User, update: Deployment, note: Option<string>,
    cloneOk: (CloneTarget<S>, User, Deployment) -> bool, writeOk: Deployment -> bool)
    ensures var r := Update(st, servers, coreId, user, update, note, cloneOk, writeOk);
      r.state.deployments.Keys == st.deployments.Keys
      && forall k :: k in st.deployments ==> r.state.deployments[k].owners == st.deployments[k].owners
  {
  }

  /**
   * Only the deployment named by the update can change, and only when the
   * call ends in a write; every other stored deployment is left as it was.
   */
  lemma OnlyTargetChanges<S>(
    st: State, servers: map<Id, S>, coreId: Id, user: User, update: Deployment, note: Option<string>,
    cloneOk: (CloneTarget<S>, User, Deployment) -> bool, writeOk: Deployment -> bool)
    ensures var r := Update(st, servers, coreId, user, update, note, cloneOk, writeOk);
      forall k :: k in st.deployments && (k != update.id || r.verdict != Written) ==>
        r.state.deployments[k] == st.deployments[k]
  {
  }

  /**
   * The log only grows, by exactly one record unless the deployment is
   * unknown; that record is about the update's id, by the calling user, and
   * is an error exactly when nothing was written.
   */
  lemma OneRecordPerCall<S>(
    st: State, servers: map<Id, S>, coreId: Id, user: User, update: Deployment, note: Option<string>,
    cloneOk: (CloneTarget<S>, User, Deployment) -> bool, writeOk: Deployment -> bool)
    ensures var r := Update(st, servers, coreId, user, update, note, cloneOk, writeOk);
      r.state.log[..|st.log|] == st.log
      && |r.state.log| == |st.log| + (if r.verdict == NotFound then 0 else 1)
      && (r.verdict != NotFound ==>
            var rec := r.state.log[|st.log|];
            rec.target == update.id && rec.operator == user.username && rec.note == note
            && (rec.isError <==> r.verdict != Written))
  {
  }

  /**
   * Who `Update` turns away from a stored deployment. A user who does not
   * own it is denied with a `null` level or a level below 2, and let
   * through with an `undefined` level or a level of at least 2; an owner is
   * let through at any level.
   */
  lemma DeniedByLevelAndOwnership<S>(
    st: State, servers: map<Id, S>, coreId: Id, name: string, level: int, update: Deployment, note: Option<string>,
    cloneOk: (CloneTarget<S>, User, Deployment) -> bool, writeOk: Deployment -> bool)
    ensures update.id in st.deployments && name !in st.deployments[update.id].owners ==>
      && Update(st, servers, coreId, User(name, Null), update, note, cloneOk, writeOk).verdict == Denied
      && Update(st, servers, coreId, User(name, Undefined), update, note, cloneOk, writeOk).verdict != Denied
      && (Update(st, servers, coreId, User(name, Level(level)), update, note, cloneOk, writeOk).verdict == Denied
          <==> level < 2)
    ensures update.id in st.deployments && name in st.deployments[update.id].owners ==>
      forall p :: Update(st, servers, coreId, User(name, p), update, note, cloneOk, writeOk).verdict != Denied
  {
  }

  /**
   * A denied user gets past the check by being raised to level 2, or by
   * being added to the stored deployment's owners, all else unchanged.
   */
  lemma DenialLifted<S>(
    st: State, servers: map<Id, S>, coreId: Id, user: User, update: Deployment, note: Option<string>,
    cloneOk: (CloneTarget<S>, User, Deployment) -> bool, writeOk: Deployment -> bool)
    requires Update(st, servers, coreId, user, update, note, cloneOk, writeOk).verdict == Denied
    ensures Update(st, servers, coreId, user.(permissions := Level(2)), update, note, cloneOk, writeOk).verdict != Denied
    ensures var stored := st.deployments[update.id];
      var owned := st.(deployments := st.deployments[update.id := stored.(owners := stored.owners + [user.username])]);
      Update(owned, servers, coreId, user, update, note, cloneOk, writeOk).verdict != Denied
  {
    var stored := st.deployments[update.id];
    assert user.username in stored.(owners := stored.owners + [user.username]).owners;
  }

  /**
   * The owners the caller supplies play no part: permission is decided on
   * the stored owners and the stored owners are what is written. (The clone
   * oracle is assumed not to look at owners.)
   */
  lemma SuppliedOwnersIgnored<S>(
    st: State, servers: map<Id, S>, coreId: Id, user: User, update: Deployment, note: Option<string>,
    cloneOk: (CloneTarget<S>, User, Deployment) -> bool, writeOk: Deployment -> bool, owners: seq<string>)
    requires forall t, u, d :: cloneOk(t, u, d) == cloneOk(t, u, d.(owners := []))
    ensures Update(st, servers, coreId, user, update.(owners := owners), note, cloneOk, writeOk)
         == Update(st, servers, coreId, user, update, note, cloneOk, writeOk)
  {
    var other := update.(owners := owners);
    assert cloneOk(CloneTargetOf(servers, coreId, update), user, update) == cloneOk(CloneTargetOf(servers, coreId, update), user, update.(owners := []));
    assert cloneOk(CloneTargetOf(servers, coreId, other), user, other) == cloneOk(CloneTargetOf(servers, coreId, other), user, other.(owners := []));
    assert other.(owners := []) == update.(owners := []);
    if update.id in st.deployments {
      assert StoredForm(other, st.deployments[update.id]) == StoredForm(update, st.deployments[update.id]);
    }
  }

  // ---- Sequences of calls ----

  /** One incoming `updateDeployment` message. */
  datatype Call = Call(user: User, update: Deployment, note: Option<string>)

  /** The state after handling `calls` in order, and every clone they performed. */
  function UpdateAll<S>(
    st: State, servers: map<Id, S>, coreId: Id, calls: seq<Call>,
    cloneOk: (CloneTarget<S>, User, Deployment) -> bool, writeOk: Deployment -> bool): (r: (State, seq<CloneTarget<S>>))
    decreases |calls|
  {
    if calls == [] then (st, [])
    else
      var c := calls[0];
      var first := Update(st, servers, coreId, c.user, c.update, c.note, cloneOk, writeOk);
      var rest := UpdateAll(first.state, servers, coreId, calls[1..], cloneOk, writeOk);
      (rest.0, first.clones + rest.1)
  }

  /**
   * However many updates are handled, the set of deployments and every
   * deployment's owners stay as they were, the old log stays a prefix, and
   * each call adds at most one record and performs at most one clone.
   */
  lemma {:induction false} OwnersInvariant<S>(
    st: State, servers: map<Id, S>, coreId: Id, calls: seq<Call>,
    cloneOk: (CloneTarget<S>, User, Deployment) -> bool, writeOk: Deployment -> bool)
    ensures var r := UpdateAll(st, servers, coreId, calls, cloneOk, writeOk);
      r.0.deployments.Keys == st.deployments.Keys
      && (forall k :: k in st.deployments ==> r.0.deployments[k].owners == st.deployments[k].owners)
      && |st.log| <= |r.0.log| <= |st.log| + |calls|
      && r.0.log[..|st.log|] == st.log
      && |r.1| <= |calls|
    decreases |calls|
  {
    if calls != [] {
      var c := calls[0];
      var first := Update(st, servers, coreId, c.user, c.update, c.note, cloneOk, writeOk);
      OwnersNeverChange(st, servers, coreId, c.user, c.update, c.note, cloneOk, writeOk);
      OneRecordPerCall(st, servers, coreId, c.user, c.update, c.note, cloneOk, writeOk);
      OwnersInvariant(first.state, servers, coreId, calls[1..], cloneOk, writeOk);
      var r := UpdateAll(first.state, servers, coreId, calls[1..], cloneOk, writeOk);
      assert r.0.log[..|st.log|] == r.0.log[..|first.state.log|][..|st.log|];
    }
  }
}
