/** What the membership operations answer, and how complete the rosters are that they hand out. */
module MembershipAnswers {
  import opened Domain
  import opened Membership
  import opened MembershipRuns
  import opened MembershipInvariants
  import opened MembershipSteps
  import opened MembershipTheorems
  import opened MembershipRetries

  // ---- rosters -------------------------------------------------------------------------------------

  /** The roster shows every member, in order, with the digest of the credential recorded for it. */
  ghost predicate Complete(env: Env, k: StoredCluster, roster: seq<AuthorizedMember>) {
    && |roster| == |k.members|
    && forall i :: 0 <= i < |roster| ==>
      roster[i].member == k.members[i].member && roster[i].digest == "sha256:" + env.hex(k.members[i].credential)
  }

  lemma ShownIsComplete(env: Env, c: DeviceId, k: StoredCluster)
    requires RosterOk(env, c, k)
    ensures Complete(env, k, AuthorizedMembers(env, k.members))
  {
  }

  /** In every reached state an agent serves its roster exactly if it coordinates and the peer is
      authorized, and then the whole roster; otherwise the exact error. */
  lemma RosterAnswer(env: Env, s: Sys, c: DeviceId, a: Authorization, peer: DeviceId)
    requires Reached(env, s) && c in s.agents
    ensures
      var me := s.agents[c].state;
      match RemoteMembers(env, me, a, peer)
      case Refused(e) =>
        if me.cluster.None? then e == NotInCluster
        else if !Coordinates(me) then e == NotCoordinator
        else e == Unauthorized && AuthorizeInCluster(env, me.cluster.value, a, peer).Refused?
      case Done(reply) =>
        && Coordinates(me) && AuthorizeInCluster(env, me.cluster.value, a, peer).Done?
        && reply.summary == me.cluster.value.Summary() && Complete(env, me.cluster.value, reply.roster)
  {
    hide MemberOk, TokensOk, Inv, Reached, Complete, RosterOk;
    ReachedInv(env, s);
    Parts(env, s, c);
    if Coordinates(s.agents[c].state) {
      ShownIsComplete(env, c, s.agents[c].state.cluster.value);
    }
  }

  /** Records that show the same roster of the same cluster decide every request alike. */
  lemma SameRosterDecides(env: Env, k: StoredCluster, l: StoredCluster, a: Authorization, peer: DeviceId)
    requires k.id == l.id && AuthorizedMembers(env, k.members) == AuthorizedMembers(env, l.members)
    ensures AuthorizeInCluster(env, k, a, peer) == AuthorizeInCluster(env, l, a, peer)
  {
    assert |k.members| == |AuthorizedMembers(env, k.members)| == |l.members|;
    var digest := Digest(env, a.credential);
    forall i | 0 <= i < |k.members|
      ensures k.members[i].member == l.members[i].member
      ensures Answers(env, k.members[i], a.deviceId, digest) <==> Answers(env, l.members[i], a.deviceId, digest)
    {
      assert AuthorizedMembers(env, k.members)[i] == AuthorizedMembers(env, l.members)[i];
    }
  }

  /** The record of `d` decides every request as the coordinator's record `k` did. */
  ghost predicate DecidesAs(env: Env, mine: StoredCluster, k: StoredCluster) {
    && mine.Summary() == k.Summary() && AuthorizedMembers(env, mine.members) == AuthorizedMembers(env, k.members)
    && forall a: Authorization, peer: DeviceId ::
      AuthorizeInCluster(env, mine, a, peer) == AuthorizeInCluster(env, k, a, peer)
  }

  lemma DecidesAsShown(env: Env, mine: StoredCluster, k: StoredCluster)
    requires mine.Summary() == k.Summary() && AuthorizedMembers(env, mine.members) == AuthorizedMembers(env, k.members)
    ensures DecidesAs(env, mine, k)
  {
    hide AuthorizeInCluster, AuthorizedMembers;
    forall a: Authorization, peer: DeviceId
      ensures AuthorizeInCluster(env, mine, a, peer) == AuthorizeInCluster(env, k, a, peer)
    {
      SameRosterDecides(env, mine, k, a, peer);
    }
  }

  /** The answer that `c` gives to a roster request in state `s`. */
  ghost function RosterMessage(env: Env, s: Sys, c: DeviceId, a: Authorization, d: DeviceId): Message
    requires c in s.agents && RemoteMembers(env, s.agents[c].state, a, d).Done?
  {
    MemberRoster(c, d, RemoteMembers(env, s.agents[c].state, a, d).value)
  }

  /** A member that asks its coordinator in `s` and caches the answer in `u`, however much later, knows
      exactly whom the coordinator knew in `s`: it lets in precisely those. */
  lemma RefreshIsComplete(env: Env, s: Sys, u: Sys, c: DeviceId, d: DeviceId, a: Authorization)
    requires Later(env, s, u) && MemberUnder(s, d, c) && RemoteMembers(env, s.agents[c].state, a, d).Done?
    requires RosterMessage(env, s, c, a, d) in u.network
    ensures Coordinates(s.agents[c].state) && MemberUnder(u, d, c)
    ensures
      var cache := Cache(d, RosterMessage(env, s, c, a, d));
      && Enabled(env, u, cache)
      && var t := Step(env, u, cache);
        && MemberUnder(t, d, c)
        && DecidesAs(env, t.agents[d].state.cluster.value, s.agents[c].state.cluster.value)
  {
    hide TokensOk, Inv, Later, DecidesAs, RosterOk, RemoteMembers;
    LaterInv(env, s, u);
    Parts(env, s, d);
    Parts(env, u, d);
    assert AgentGrows(s.agents[d], u.agents[d]);
    RemoteMeans(env, s.agents[c].state, a, d);
    var k, mine := s.agents[c].state.cluster.value, u.agents[d].state.cluster.value;
    CachedShows(env, AuthorizedMembers(env, k.members), k.members, u.agents[d].state.deviceId, mine.credential);
    var t := Step(env, u, Cache(d, RosterMessage(env, s, c, a, d)));
    DecidesAsShown(env, t.agents[d].state.cluster.value, k);
  }

  lemma RemoteMeans(env: Env, me: AgentState, a: Authorization, peer: DeviceId)
    requires RemoteMembers(env, me, a, peer).Done?
    ensures Coordinates(me)
    ensures RemoteMembers(env, me, a, peer).value ==
      RosterReply(me.cluster.value.Summary(), AuthorizedMembers(env, me.cluster.value.members))
  {
  }

  /** Asking is possible at any time: the request of a member is granted, and its answer is sent. */
  lemma MemberIsServed(env: Env, s: Sys, c: DeviceId, d: DeviceId)
    requires Reached(env, s) && MemberUnder(s, d, c)
    ensures
      var k := s.agents[d].state.cluster.value;
      var a := Authorization(k.id, d, k.credential);
      && RemoteMembers(env, s.agents[c].state, a, d).Done? && Enabled(env, s, Serve(c, d, a))
      && RosterMessage(env, s, c, a, d) in Step(env, s, Serve(c, d, a)).network
  {
    hide Reached, Inv;
    assert Runs(env, s, [], s);
    assert Later(env, s, s);
    MemberLetInForever(env, s, s, d, c);
    hide AuthorizeInCluster;
  }

  /** Any record decides like this, also one from before digests were stored: the peer speaks for itself
      and names this cluster, and the first entry of its device with a fitting digest is the answer. */
  lemma AuthorizeAnswer(env: Env, k: StoredCluster, a: Authorization, peer: DeviceId)
    ensures
      match AuthorizeInCluster(env, k, a, peer)
      case Refused(e) =>
        && e == Unauthorized
        && (a.deviceId == peer && a.clusterId == k.id ==> forall i :: 0 <= i < |k.members| ==> !Fitting(env, k, a, i))
      case Done(m) =>
        && a.deviceId == peer && a.clusterId == k.id
        && exists i :: 0 <= i < |k.members| && FirstFitting(env, k, a, i) && m == k.members[i].member
  {
    var i := FirstMatch(env, k.members, a.deviceId, Digest(env, a.credential));
    forall j | 0 <= j < |k.members|
      ensures Fitting(env, k, a, j) <==> Answers(env, k.members[j], a.deviceId, Digest(env, a.credential))
    {
    }
    assert i < |k.members| && a.deviceId == peer && a.clusterId == k.id ==> FirstFitting(env, k, a, i);
  }

  ghost predicate FirstFitting(env: Env, k: StoredCluster, a: Authorization, i: int)
    requires 0 <= i < |k.members|
  {
    Fitting(env, k, a, i) && forall j :: 0 <= j < i ==> !Fitting(env, k, a, j)
  }

  ghost predicate Fitting(env: Env, k: StoredCluster, a: Authorization, i: int)
    requires 0 <= i < |k.members|
  {
    var presented := "sha256:" + env.hex(a.credential);
    && k.members[i].member.deviceId == a.deviceId
    && presented ==
       if k.members[i].digest == "" then "sha256:" + env.hex(k.members[i].credential) else k.members[i].digest
  }

  // ---- accepting -----------------------------------------------------------------------------------

  /** Why a request must be refused, if it must. */
  ghost function JoinProblem(
      env: Env, me: AgentState, token: string, m: ClusterMember, rid: RequestId, peer: DeviceId): Option<TransportError>
  {
    if !env.reachable(m) then Some(InvalidMessage)
    else if m.deviceId != peer then Some(Unauthorized)
    else if me.cluster.None? then Some(NotInCluster)
    else if !Coordinates(me) then Some(NotCoordinator)
    else if Holds(me.cluster.value, rid, peer) then None
    else if Known(me.cluster.value, rid) || me.cluster.value.inviteToken != Some(token)
    then Some(InvalidInvite)
    else if HasDevice(me.cluster.value.members, peer) then Some(AlreadyInCluster)
    else None
  }

  /** The record after a newcomer was let in: it is last, the invitation is spent, nothing else changed. */
  ghost predicate LetIn(k: StoredCluster, l: StoredCluster, m: ClusterMember, rid: RequestId, credential: string) {
    && l == k.(members := l.members, acceptedJoins := l.acceptedJoins, inviteToken := None)
    && |l.members| == |k.members| + 1 && l.members[..|k.members|] == k.members
    && l.members[|k.members|].member == m && l.members[|k.members|].credential == credential
    && |l.acceptedJoins| == |k.acceptedJoins| + 1 && l.acceptedJoins[..|k.acceptedJoins|] == k.acceptedJoins
    && l.acceptedJoins[|k.acceptedJoins|] == AcceptedJoin(rid, m.deviceId, credential)
  }

  /** In every reached state: a join is granted exactly if it repeats an accepted request of its device,
      or comes from a new device with a new request and the current invitation; with the exact error
      otherwise. The answer carries the whole roster, which lists the device, and the credential that
      is recorded for it. */
  lemma JoinAnswer(
      env: Env, s: Sys, c: DeviceId, token: string, m: ClusterMember, rid: RequestId, peer: DeviceId, secret: string)
    requires Reached(env, s) && c in s.agents
    ensures
      var me := s.agents[c].state;
      match AcceptMember(env, me, token, m, rid, peer, secret)
      case Refused(e) => JoinProblem(env, me, token, m, rid, peer) == Some(e)
      case Done((after, reply)) =>
        && JoinProblem(env, me, token, m, rid, peer).None? && Coordinates(me) && Coordinates(after)
        && after == me.(cluster := after.cluster)
        && (Holds(me.cluster.value, rid, peer) ==> after == me)
        && (!Holds(me.cluster.value, rid, peer) ==>
          LetIn(me.cluster.value, after.cluster.value, m, rid, secret) && reply.credential == secret)
        && reply.summary == me.cluster.value.Summary() && Complete(env, after.cluster.value, reply.roster)
        && AcceptedJoin(rid, peer, reply.credential) in after.cluster.value.acceptedJoins
        && Lists(reply.roster, peer)
  {
    hide MemberOk, TokensOk, Inv, Reached, Complete, RosterOk, AcceptMember, LetIn, JoinProblem, Lists;
    ReachedInv(env, s);
    Parts(env, s, c);
    AcceptProblem(env, s.agents[c].state, c, token, m, rid, peer, secret);
    var r := AcceptMember(env, s.agents[c].state, token, m, rid, peer, secret);
    if r.Done? {
      CoordinatesIfDone(env, s.agents[c].state, token, m, rid, peer, secret);
      var a := s.agents[c];
      var act := Accept(c, peer, token, m, rid, secret);
      var b := a.(state := Saved(a.state, r), uses := a.uses + Consumed(a.state, r.value.0, token));
      assert Accepts(env, a, b, act, r.value.1);
      AcceptAnswers(env, c, a, b, act, r.value.1);
      AcceptLeaves(env, a.state, c, token, m, rid, peer, secret);
      if Retried(a.state, rid) {
        RetryKeeps(env, c, a, b, act, r.value.1);
      } else {
        FreshKeeps(env, c, a, b, act, r.value.1);
      }
      ShownIsComplete(env, c, r.value.0.cluster.value);
    }
  }

  lemma AcceptProblem(
      env: Env, me: AgentState, c: DeviceId, token: string, m: ClusterMember, rid: RequestId, peer: DeviceId,
      secret: string)
    requires Coordinates(me) ==> RosterOk(env, c, me.cluster.value)
    ensures
      match AcceptMember(env, me, token, m, rid, peer, secret)
      case Refused(e) => JoinProblem(env, me, token, m, rid, peer) == Some(e)
      case Done(_) => JoinProblem(env, me, token, m, rid, peer).None?
  {
    if Coordinates(me) {
      var js := me.cluster.value.acceptedJoins;
      forall i | 0 <= i < |js| && js[i].requestId == rid ensures FirstJoin(js, rid) == i {
        AcceptOnce(me.cluster.value, env, c, i);
      }
    }
  }

  lemma AcceptLeaves(
      env: Env, me: AgentState, c: DeviceId, token: string, m: ClusterMember, rid: RequestId, peer: DeviceId,
      secret: string)
    requires AcceptMember(env, me, token, m, rid, peer, secret).Done? && RosterOk(env, c, me.cluster.value)
    ensures
      var (after, reply) := AcceptMember(env, me, token, m, rid, peer, secret).value;
      && Coordinates(me) && Coordinates(after) && after == me.(cluster := after.cluster)
      && (Holds(me.cluster.value, rid, peer) <==> Retried(me, rid))
      && (Holds(me.cluster.value, rid, peer) ==> after == me)
      && (!Holds(me.cluster.value, rid, peer) ==>
        LetIn(me.cluster.value, after.cluster.value, m, rid, secret) && reply.credential == secret)
      && reply.summary == me.cluster.value.Summary()
      && reply.roster == AuthorizedMembers(env, after.cluster.value.members)
  {
    var js := me.cluster.value.acceptedJoins;
    forall i | 0 <= i < |js| && js[i].requestId == rid ensures FirstJoin(js, rid) == i {
      AcceptOnce(me.cluster.value, env, c, i);
    }
  }

  // ---- founding and joining --------------------------------------------------------------------------

  /** A cluster is founded exactly by a device that is in none and is not joining one; the founder is
      its only member and holds its only invitation. */
  lemma FoundAnswer(
      env: Env, s: AgentState, endpoint: Endpoint, name: string, id: ClusterId, token: string, credential: string,
      now: nat)
    ensures
      match CreateCluster(env, s, endpoint, name, id, token, credential, now)
      case Refused(e) =>
        (s.cluster.Some? && e == AlreadyInCluster)
        || (s.cluster.None? && s.pending.Some? && e == TransportError.Conflict)
      case Done((after, summary)) =>
        && s.cluster.None? && s.pending.None? && after == s.(cluster := after.cluster) && Coordinates(after)
        && summary == ClusterSummary(id, name, endpoint, s.deviceId) == after.cluster.value.Summary()
        && RosterOk(env, s.deviceId, after.cluster.value) && |after.cluster.value.members| == 1
        && after.cluster.value.members[0].member == ClusterMember(s.deviceId, s.deviceName, endpoint, now)
        && after.cluster.value.credential == credential && after.cluster.value.inviteToken == Some(token)
  {
  }

  /** A join that was begun is resumed, unchanged, exactly by the same coordinator and invitation;
      any other is a conflict until it is finished or given up. */
  lemma JoinResumes(
      s: AgentState, coordinator: Endpoint, token: string, inv: Invitation, rid: RequestId,
      coordinator': Endpoint, token': string, inv': Invitation, rid': RequestId)
    requires s.cluster.None? && s.pending.None?
    ensures
      var first := BeginJoin(s, coordinator, token, inv, rid);
      && first.Done?
      && first.value.1 == PendingJoin(coordinator, token, rid, inv.clusterId, inv.coordinatorDeviceId)
      && first.value.0 == s.(pending := Some(first.value.1))
      && BeginJoin(first.value.0, coordinator', token', inv', rid') ==
        if coordinator' == coordinator && token' == token then first else Refused(TransportError.Conflict)
  {
  }

  /** Giving up forgets exactly the request that was turned away; a later join under another request id
      is not disturbed. */
  lemma AbandonAnswer(s: AgentState, p: PendingJoin)
    ensures
      var r := AbandonJoin(s, p);
      && r.Done? && r.value.0 == s.(pending := r.value.0.pending)
      && r.value.0.pending ==
        (if s.pending.Some? && s.pending.value.requestId == p.requestId then None else s.pending)
  {
  }

  /** An accepted answer is stored exactly by the device that still waits for it, if it is from the
      cluster and coordinator of the invitation; the cache is then the whole roster of the answer. */
  lemma FinishAnswer(env: Env, s: AgentState, p: PendingJoin, reply: JoinReply)
    ensures
      match FinishJoin(s, p, reply)
      case Refused(e) =>
        if !Pinned(p, reply.summary) then e == PeerIdentityMismatch
        else if s.cluster.Some? then e == AlreadyInCluster && s.cluster.value.id != reply.summary.id
        else e == TransportError.Conflict && (s.pending.None? || s.pending.value.requestId != p.requestId)
      case Done((after, _)) =>
        && Pinned(p, reply.summary) && after.pending.None?
        && (s.cluster.Some? ==> after == s.(pending := None) && s.cluster.value.id == reply.summary.id)
        && (s.cluster.None? ==>
          && s.pending.Some? && s.pending.value.requestId == p.requestId && Belongs(after)
          && after == s.(cluster := after.cluster, pending := None)
          && after.cluster.value.Summary() == reply.summary && after.cluster.value.credential == reply.credential
          && |after.cluster.value.members| == |reply.roster|
          && forall i :: 0 <= i < |reply.roster| ==>
            after.cluster.value.members[i] == StoredMember(reply.roster[i].member, "", reply.roster[i].digest))
  {
  }

  /** A device that finishes with the answer it was given knows exactly whom the coordinator knew when it
      answered, itself included. */
  lemma JoinIsComplete(
      env: Env, s: Sys, c: DeviceId, token: string, m: ClusterMember, rid: RequestId, peer: DeviceId, secret: string,
      d: AgentState, p: PendingJoin)
    requires Reached(env, s) && c in s.agents && AcceptMember(env, s.agents[c].state, token, m, rid, peer, secret).Done?
    requires
      var reply := AcceptMember(env, s.agents[c].state, token, m, rid, peer, secret).value.1;
      d.cluster.None? && d.pending == Some(p) && Pinned(p, reply.summary)
    ensures
      var (after, reply) := AcceptMember(env, s.agents[c].state, token, m, rid, peer, secret).value;
      && Coordinates(after) && FinishJoin(d, p, reply).Done? && Belongs(FinishJoin(d, p, reply).value.0)
      && DecidesAs(env, FinishJoin(d, p, reply).value.0.cluster.value, after.cluster.value)
  {
    hide Inv, Reached, RosterOk, AcceptMember, DecidesAs, MemberOk, TokensOk;
    ReachedInv(env, s);
    Parts(env, s, c);
    CoordinatesIfDone(env, s.agents[c].state, token, m, rid, peer, secret);
    AcceptLeaves(env, s.agents[c].state, c, token, m, rid, peer, secret);
    var (after, reply) := AcceptMember(env, s.agents[c].state, token, m, rid, peer, secret).value;
    CachedShows(env, reply.roster, after.cluster.value.members, peer, "");
    DecidesAsShown(env, FinishJoin(d, p, reply).value.0.cluster.value, after.cluster.value);
  }

  lemma CoordinatesIfDone(
      env: Env, me: AgentState, token: string, m: ClusterMember, rid: RequestId, peer: DeviceId, secret: string)
    requires AcceptMember(env, me, token, m, rid, peer, secret).Done?
    ensures Coordinates(me)
  {
  }
}
