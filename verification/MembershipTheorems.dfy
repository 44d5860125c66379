/** What holds in every run of the membership protocol. A state is reached by `Runs` from an
    `Initial` one; `Later` adds a second run, of any length, behind it. */
module MembershipTheorems {
  import opened Domain
  import opened Membership
  import opened MembershipRuns
  import opened MembershipInvariants
  import opened MembershipSteps

  ghost predicate Reached(env: Env, s: Sys) {
    exists init, actions :: Initial(init) && Runs(env, init, actions, s)
  }

  ghost predicate Later(env: Env, s: Sys, t: Sys) {
    Reached(env, s) && exists actions :: Runs(env, s, actions, t)
  }

  lemma ReachedInv(env: Env, s: Sys)
    requires Reached(env, s)
    ensures Inv(env, s)
  {
    hide Inv, Initial;
    var init, actions :| Initial(init) && Runs(env, init, actions, s);
    Reachable(env, init, actions, s);
  }

  lemma LaterInv(env: Env, s: Sys, t: Sys)
    requires Later(env, s, t)
    ensures Inv(env, s) && Inv(env, t) && Grows(s, t)
  {
    hide Inv, Grows, Reached;
    ReachedInv(env, s);
    var actions :| Runs(env, s, actions, t);
    RunKeeps(env, s, actions, t);
  }

  // Joining.

  /** `d` is a member of the cluster of agent `c`. */
  ghost predicate MemberUnder(s: Sys, d: DeviceId, c: DeviceId) {
    && d in s.agents && Belongs(s.agents[d].state)
    && s.agents[d].state.cluster.value.coordinatorDeviceId == c && c in s.agents
  }

  /** A member holds the cluster and coordinator its own invitation named. */
  lemma MemberWasInvited(env: Env, s: Sys, d: DeviceId)
    requires Reached(env, s) && d in s.agents && Belongs(s.agents[d].state)
    ensures exists p ::
      && p in s.agents[d].asked && env.decode(p.inviteToken).Some?
      && env.decode(p.inviteToken).value.clusterId == s.agents[d].state.cluster.value.id
      && env.decode(p.inviteToken).value.coordinatorDeviceId == s.agents[d].state.cluster.value.coordinatorDeviceId
  {
    hide MemberOk, TokensOk, Inv;
    ReachedInv(env, s);
    Parts(env, s, d);
    var k := s.agents[d].state.cluster.value;
    var p :| p in s.agents[d].asked && p.clusterId == k.id && p.coordinatorDeviceId == k.coordinatorDeviceId;
    assert Faithful(env, p);
  }

  lemma Matched(env: Env, k: StoredCluster, c: DeviceId, a: Authorization, i: nat)
    requires RosterOk(env, c, k) && i < |k.members| && k.members[i].member.deviceId == a.deviceId
    requires a.clusterId == k.id
    ensures AuthorizeInCluster(env, k, a, a.deviceId) ==
      if KnownDigest(env, k.members[i]) == Digest(env, a.credential) then Done(k.members[i].member)
      else Refused(Unauthorized)
  {
    var j := FirstMatch(env, k.members, a.deviceId, Digest(env, a.credential));
    if j < |k.members| {
      assert i == j;
    }
  }

  /** The credential a member stored is the one recorded for it, so its coordinator lets it in,
      as the same member, in that state and ever after. */
  lemma MemberLetInForever(env: Env, s: Sys, t: Sys, d: DeviceId, c: DeviceId)
    requires Later(env, s, t) && MemberUnder(s, d, c)
    ensures c in t.agents && Coordinates(s.agents[c].state) && Coordinates(t.agents[c].state)
    ensures
      var k := s.agents[d].state.cluster.value;
      var a := Authorization(k.id, d, k.credential);
      && MemberUnder(t, d, c) && t.agents[d].state.cluster.value.credential == k.credential
      && t.agents[d].state.cluster.value.id == k.id
      && Recorded(s.agents[c].state.cluster.value, d, k.credential)
      && AuthorizeInCluster(env, s.agents[c].state.cluster.value, a, d).Done?
      && AuthorizeInCluster(env, s.agents[c].state.cluster.value, a, d).value.deviceId == d
      && AuthorizeInCluster(env, t.agents[c].state.cluster.value, a, d) ==
        AuthorizeInCluster(env, s.agents[c].state.cluster.value, a, d)
  {
    hide TokensOk, Inv, Later, AuthorizedMembers, AuthorizeInCluster, RosterOk;
    LaterInv(env, s, t);
    Parts(env, s, d);
    Parts(env, s, c);
    Parts(env, t, c);
    assert AgentGrows(s.agents[c], t.agents[c]) && AgentGrows(s.agents[d], t.agents[d]);
    RecordedAuthorizes(env, s.agents[c].state.cluster.value, t.agents[c].state.cluster.value, c, d,
                       s.agents[d].state.cluster.value.credential);
  }

  lemma RecordedAuthorizes(env: Env, k: StoredCluster, l: StoredCluster, c: DeviceId, d: DeviceId, credential: string)
    requires RosterOk(env, c, k) && RosterOk(env, c, l) && ClusterGrows(k, l) && k.role == Coordinator
    requires Recorded(k, d, credential)
    ensures var a := Authorization(k.id, d, credential);
      && AuthorizeInCluster(env, k, a, d) == AuthorizeInCluster(env, l, a, d)
      && AuthorizeInCluster(env, k, a, d).Done? && AuthorizeInCluster(env, k, a, d).value.deviceId == d
  {
    hide AuthorizeInCluster;
    var i :| 0 <= i < |k.acceptedJoins| && k.acceptedJoins[i].deviceId == d
      && k.acceptedJoins[i].credential == credential;
    assert Admitted(k, i);
    assert l.members[i + 1] == k.members[i + 1];
    var a := Authorization(k.id, d, credential);
    Matched(env, k, c, a, i + 1);
    Matched(env, l, c, a, i + 1);
  }

  // Deciding from a cache.

  /** A cached roster is a prefix of the coordinator's, now and later, and lists its holder. */
  lemma CacheIsPrefix(env: Env, s: Sys, t: Sys, d: DeviceId, c: DeviceId)
    requires Later(env, s, t) && MemberUnder(s, d, c)
    ensures c in t.agents && Coordinates(t.agents[c].state)
    ensures
      var cached := AuthorizedMembers(env, s.agents[d].state.cluster.value.members);
      cached <= AuthorizedMembers(env, t.agents[c].state.cluster.value.members) && Lists(cached, d)
    ensures s.agents[d].state.cluster.value.Summary() == t.agents[c].state.cluster.value.Summary()
  {
    hide TokensOk, AgentOk, Inv, Later, AuthorizedMembers;
    LaterInv(env, s, t);
    Parts(env, s, d);
    assert AgentGrows(s.agents[c], t.agents[c]);
    ShownGrow(env, s.agents[c].state.cluster.value.members, t.agents[c].state.cluster.value.members);
  }

  /** Whoever a member lets in from its cache, however stale, its coordinator lets in as the same
      member, now and later. The two decisions are equal exactly when the cache lists the device or
      the coordinator refuses as well. */
  lemma CacheDecides(env: Env, s: Sys, t: Sys, d: DeviceId, c: DeviceId, a: Authorization, peer: DeviceId)
    requires Later(env, s, t) && MemberUnder(s, d, c)
    ensures c in t.agents && Coordinates(t.agents[c].state)
    ensures
      var mine := AuthorizeInCluster(env, s.agents[d].state.cluster.value, a, peer);
      var theirs := AuthorizeInCluster(env, t.agents[c].state.cluster.value, a, peer);
      && (mine.Done? ==> theirs == mine)
      && (mine == theirs <==> HasDevice(s.agents[d].state.cluster.value.members, a.deviceId) || theirs.Refused?)
  {
    hide TokensOk, MemberOk, Inv, Later, Grows, AuthorizedMembers, AuthorizeInCluster, RosterOk;
    LaterInv(env, s, t);
    CacheIsPrefix(env, s, t, d, c);
    Parts(env, t, c);
    PrefixDecides(env, s.agents[d].state.cluster.value, t.agents[c].state.cluster.value, c, a, peer);
  }

  lemma PrefixDecides(env: Env, k: StoredCluster, l: StoredCluster, c: DeviceId, a: Authorization, peer: DeviceId)
    requires RosterOk(env, c, l) && k.id == l.id
    requires AuthorizedMembers(env, k.members) <= AuthorizedMembers(env, l.members)
    ensures AuthorizeInCluster(env, k, a, peer).Done? ==>
      AuthorizeInCluster(env, l, a, peer) == AuthorizeInCluster(env, k, a, peer)
    ensures AuthorizeInCluster(env, k, a, peer) == AuthorizeInCluster(env, l, a, peer) <==>
      HasDevice(k.members, a.deviceId) || AuthorizeInCluster(env, l, a, peer).Refused?
  {
    hide RosterOk;
    var digest := Digest(env, a.credential);
    var i := FirstMatch(env, k.members, a.deviceId, digest);
    forall j | 0 <= j < |k.members| ensures Shown(env, k.members[j]) == Shown(env, l.members[j]) {
      assert AuthorizedMembers(env, k.members)[j] == AuthorizedMembers(env, l.members)[j];
    }
    if a.deviceId == peer && a.clusterId == k.id && HasDevice(k.members, a.deviceId) {
      var j :| 0 <= j < |k.members| && k.members[j].member.deviceId == a.deviceId;
      var h := if i < |k.members| then i else j;
      Matched(env, l, c, a, h);
    }
  }

  /** An agent keeps no pending join beside a cluster, and a member stores no credential but its own. */
  lemma MemberKeepsOwnSecret(env: Env, s: Sys, d: DeviceId)
    requires Reached(env, s) && d in s.agents && s.agents[d].state.cluster.Some?
    ensures s.agents[d].state.pending.None?
    ensures Belongs(s.agents[d].state) ==> OwnSecretsOnly(d, s.agents[d].state.cluster.value)
  {
    hide MemberOk, TokensOk, Inv, Reached, RosterOk;
    ReachedInv(env, s);
    Parts(env, s, d);
  }

  // Invitations.

  /** Each invitation admits at most one device: no two accepted joins, of whatever coordinators,
      consumed the same one. */
  lemma OneDevicePerInvite(env: Env, s: Sys, c: DeviceId, e: DeviceId, i: nat, j: nat)
    requires Reached(env, s) && c in s.agents && e in s.agents
    requires i < |s.agents[c].uses| && j < |s.agents[e].uses| && s.agents[c].uses[i] == s.agents[e].uses[j]
    ensures c == e && i == j
  {
    hide MemberOk, AgentOk, Inv;
    ReachedInv(env, s);
    Parts(env, s, c);
    Parts(env, s, e);
    assert IssuedBy(s, s.agents[c].uses[i], c) && IssuedBy(s, s.agents[e].uses[j], e);
  }

  /** Consumed invitations, accepted joins and members other than the coordinator line up one to
      one, and devices, request ids and stored digests are as they should be. */
  lemma JoinsLineUp(env: Env, s: Sys, c: DeviceId)
    requires Reached(env, s) && c in s.agents && Coordinates(s.agents[c].state)
    ensures RosterOk(env, c, s.agents[c].state.cluster.value)
    ensures |s.agents[c].uses| == |s.agents[c].state.cluster.value.acceptedJoins|
    ensures forall i :: 0 <= i < |s.agents[c].uses| ==>
      UsedAsAsked(s, s.agents[c].state.cluster.value.acceptedJoins[i], s.agents[c].uses[i])
  {
    hide MemberOk, Inv;
    ReachedInv(env, s);
    Parts(env, s, c);
  }

  lemma AcceptOnce(k: StoredCluster, env: Env, c: DeviceId, i: nat)
    requires RosterOk(env, c, k) && i < |k.acceptedJoins|
    ensures FirstJoin(k.acceptedJoins, k.acceptedJoins[i].requestId) == i
  {
  }

  /** A request id once accepted gets its original credential again, whatever invitation and new
      secret come with it, and changes nothing; for another device it is refused. */
  lemma RetryGetsSameCredential(env: Env, s: Sys, t: Sys, c: DeviceId, i: nat, token: string, m: ClusterMember,
                                secret: string)
    requires Later(env, s, t) && c in s.agents && Coordinates(s.agents[c].state)
    requires i < |s.agents[c].state.cluster.value.acceptedJoins| && env.reachable(m)
    ensures c in t.agents && Coordinates(t.agents[c].state)
    ensures
      var join := s.agents[c].state.cluster.value.acceptedJoins[i];
      var now := t.agents[c].state;
      AcceptMember(env, now, token, m, join.requestId, m.deviceId, secret) ==
        if m.deviceId == join.deviceId
        then Done((now, JoinReply(now.cluster.value.Summary(), join.credential,
                                  AuthorizedMembers(env, now.cluster.value.members))))
        else Refused(InvalidInvite)
  {
    hide MemberOk, TokensOk, Inv, Later, RosterOk;
    LaterInv(env, s, t);
    Parts(env, t, c);
    assert AgentGrows(s.agents[c], t.agents[c]);
    AcceptOnce(t.agents[c].state.cluster.value, env, c, i);
  }

  /** Once a device is a member, only its original request is answered; a device that gave that
      request up cannot get in again. */
  lemma OnlyOriginalRequest(env: Env, s: Sys, c: DeviceId, token: string, m: ClusterMember, rid: RequestId,
                            secret: string)
    requires Reached(env, s) && c in s.agents && Coordinates(s.agents[c].state) && env.reachable(m)
    requires HasDevice(s.agents[c].state.cluster.value.members, m.deviceId)
    ensures
      AcceptMember(env, s.agents[c].state, token, m, rid, m.deviceId, secret).Done? <==>
      exists i ::
        && 0 <= i < |s.agents[c].state.cluster.value.acceptedJoins|
        && s.agents[c].state.cluster.value.acceptedJoins[i].requestId == rid
        && s.agents[c].state.cluster.value.acceptedJoins[i].deviceId == m.deviceId
  {
    hide MemberOk, TokensOk, Inv, Reached, RosterOk;
    ReachedInv(env, s);
    Parts(env, s, c);
    var js := s.agents[c].state.cluster.value.acceptedJoins;
    forall i | 0 <= i < |js| && js[i].requestId == rid ensures FirstJoin(js, rid) == i {
      AcceptOnce(s.agents[c].state.cluster.value, env, c, i);
    }
  }
}
