/** What every step of every agent keeps, and what never shrinks. */
module MembershipInvariants {
  import opened Domain
  import opened Membership
  import opened MembershipRuns

  /** Decoding undoes encoding; what else decodes is left open. */
  ghost predicate Codec(env: Env) {
    forall inv: Invitation :: env.decode(env.encode(inv)) == Some(inv)
  }

  // One agent alone.

  /** The record of a coordinator: itself first, then exactly one member per accepted join. */
  ghost predicate RosterOk(env: Env, c: DeviceId, k: StoredCluster) {
    && k.coordinatorDeviceId == c
    && |k.members| == |k.acceptedJoins| + 1
    && k.members[0].member.deviceId == c && k.members[0].credential == k.credential
    && k.members[0].member.endpoint == k.coordinator
    && (forall i :: 0 <= i < |k.members| ==> k.members[i].digest == Digest(env, k.members[i].credential))
    && (forall i, j :: 0 <= i < j < |k.members| ==> k.members[i].member.deviceId != k.members[j].member.deviceId)
    && (forall i, j :: 0 <= i < j < |k.acceptedJoins| ==> k.acceptedJoins[i].requestId != k.acceptedJoins[j].requestId)
    && (forall i :: 0 <= i < |k.acceptedJoins| ==> Admitted(k, i))
  }

  ghost predicate Admitted(k: StoredCluster, i: nat)
    requires i < |k.acceptedJoins| && |k.members| == |k.acceptedJoins| + 1
  {
    && k.members[i + 1].member.deviceId == k.acceptedJoins[i].deviceId
    && k.members[i + 1].credential == k.acceptedJoins[i].credential
  }

  /** The ids a join records are those of its invitation. */
  ghost predicate Faithful(env: Env, p: PendingJoin) {
    && env.decode(p.inviteToken).Some?
    && env.decode(p.inviteToken).value.clusterId == p.clusterId
    && env.decode(p.inviteToken).value.coordinatorDeviceId == p.coordinatorDeviceId
  }

  ghost predicate AskedOk(env: Env, a: Agent) {
    && (a.state.pending.Some? ==> a.state.pending.value in a.asked)
    && (forall p <- a.asked :: Faithful(env, p))
    && (forall p <- a.asked, q <- a.asked :: p.requestId == q.requestId ==> p == q)
  }

  /** Some join this agent started pins the cluster it belongs to. */
  ghost predicate Invited(asked: set<PendingJoin>, k: StoredCluster) {
    exists p :: p in asked && p.clusterId == k.id && p.coordinatorDeviceId == k.coordinatorDeviceId
  }

  /** A member's record holds no secret but its own, and nothing only a coordinator keeps. */
  ghost predicate OwnSecretsOnly(d: DeviceId, k: StoredCluster) {
    && k.inviteToken.None? && k.acceptedJoins == []
    && forall i :: 0 <= i < |k.members| && k.members[i].credential != "" ==>
      k.members[i].member.deviceId == d && k.members[i].credential == k.credential
  }

  ghost predicate AgentOk(env: Env, d: DeviceId, a: Agent) {
    && a.state.deviceId == d
    && AskedOk(env, a)
    && (a.state.cluster.Some? ==> a.state.pending.None?)
    && (Coordinates(a.state) ==>
      RosterOk(env, d, a.state.cluster.value) && |a.uses| == |a.state.cluster.value.acceptedJoins|)
    && (!Coordinates(a.state) ==> a.uses == [])
    && (Belongs(a.state) ==> Invited(a.asked, a.state.cluster.value) && OwnSecretsOnly(d, a.state.cluster.value))
  }

  // Agents, messages and invitations together.

  ghost predicate Lists(roster: seq<AuthorizedMember>, d: DeviceId) {
    exists i :: 0 <= i < |roster| && roster[i].member.deviceId == d
  }

  ghost predicate Recorded(k: StoredCluster, d: DeviceId, credential: string) {
    exists i :: 0 <= i < |k.acceptedJoins| && k.acceptedJoins[i].deviceId == d
      && k.acceptedJoins[i].credential == credential
  }

  /** A member's record `k` against its coordinator's. */
  ghost predicate MemberOf(env: Env, d: DeviceId, k: StoredCluster, c: AgentState) {
    && Coordinates(c) && c.cluster.value.Summary() == k.Summary()
    && Recorded(c.cluster.value, d, k.credential)
    && AuthorizedMembers(env, k.members) <= AuthorizedMembers(env, c.cluster.value.members)
    && Lists(AuthorizedMembers(env, k.members), d)
  }

  ghost predicate MemberOk(env: Env, s: Sys, d: DeviceId)
    requires d in s.agents
  {
    Belongs(s.agents[d].state) ==>
      var k := s.agents[d].state.cluster.value;
      k.coordinatorDeviceId in s.agents ==> MemberOf(env, d, k, s.agents[k.coordinatorDeviceId].state)
  }

  /** A roster that `c` once sent to `to`. */
  ghost predicate RosterSent(env: Env, c: AgentState, to: DeviceId, summary: ClusterSummary,
                             roster: seq<AuthorizedMember>) {
    && Coordinates(c) && summary == c.cluster.value.Summary()
    && roster <= AuthorizedMembers(env, c.cluster.value.members)
    && Lists(roster, to)
  }

  ghost predicate MessageOk(env: Env, s: Sys, m: Message) {
    m.from in s.agents ==>
      var c := s.agents[m.from].state;
      match m
      case JoinAccepted(_, to, rid, join) =>
        && RosterSent(env, c, to, join.summary, join.roster)
        && AcceptedJoin(rid, to, join.credential) in c.cluster.value.acceptedJoins
      case MemberRoster(_, to, reply) => RosterSent(env, c, to, reply.summary, reply.roster)
  }

  /** The invitation a join consumed is the one its device asked with. */
  ghost predicate UsedAsAsked(s: Sys, join: AcceptedJoin, token: string) {
    join.deviceId in s.agents ==>
      exists p :: p in s.agents[join.deviceId].asked && p.requestId == join.requestId && p.inviteToken == token
  }

  ghost predicate IssuedBy(s: Sys, token: string, d: DeviceId) {
    token in s.issued && s.issued[token] == d
  }

  function Current(a: AgentState): Option<string> {
    if Coordinates(a) then a.cluster.value.inviteToken else None
  }

  ghost predicate TokensOk(s: Sys, d: DeviceId)
    requires d in s.agents
  {
    var a := s.agents[d];
    && (forall i :: 0 <= i < |a.uses| ==> IssuedBy(s, a.uses[i], d) && Current(a.state) != Some(a.uses[i]))
    && (forall i, j :: 0 <= i < j < |a.uses| ==> a.uses[i] != a.uses[j])
    && (Current(a.state).Some? ==> IssuedBy(s, Current(a.state).value, d))
    && (Coordinates(a.state) && |a.uses| == |a.state.cluster.value.acceptedJoins| ==>
      forall i :: 0 <= i < |a.uses| ==> UsedAsAsked(s, a.state.cluster.value.acceptedJoins[i], a.uses[i]))
    && (forall p <- a.asked :: p.inviteToken in s.seen)
  }

  ghost predicate IssueOk(env: Env, s: Sys, t: string)
    requires t in s.issued
  {
    && t in s.seen && s.issued[t] in s.agents
    && Coordinates(s.agents[s.issued[t]].state)
    && (Codec(env) ==>
      && env.decode(t).Some?
      && env.decode(t).value.clusterId == s.agents[s.issued[t]].state.cluster.value.id
      && env.decode(t).value.coordinatorDeviceId == s.issued[t])
  }

  ghost predicate Inv(env: Env, s: Sys) {
    && (forall d <- s.agents :: AgentOk(env, d, s.agents[d]))
    && (forall d <- s.agents :: MemberOk(env, s, d))
    && (forall d <- s.agents :: TokensOk(s, d))
    && (forall m <- s.network :: MessageOk(env, s, m))
    && (forall t <- s.issued :: IssueOk(env, s, t))
  }

  // What never shrinks or changes along a run.

  ghost predicate ClusterGrows(k: StoredCluster, l: StoredCluster) {
    && l.id == k.id && l.coordinatorDeviceId == k.coordinatorDeviceId
    && l.role == k.role && l.credential == k.credential
    && (k.role == Coordinator ==>
      l.Summary() == k.Summary() && k.members <= l.members && k.acceptedJoins <= l.acceptedJoins)
  }

  ghost predicate AgentGrows(a: Agent, b: Agent) {
    && a.asked <= b.asked && a.uses <= b.uses
    && (a.state.cluster.Some? ==> b.state.cluster.Some? && ClusterGrows(a.state.cluster.value, b.state.cluster.value))
  }

  /** Of the invitations seen before, only the current one can be current or consumed later. */
  ghost predicate NoRevival(seen: set<string>, a: Agent, b: Agent) {
    && (Current(b.state).Some? && Current(b.state).value in seen ==> Current(a.state) == Current(b.state))
    && (forall i :: |a.uses| <= i < |b.uses| && b.uses[i] in seen ==> Current(a.state) == Some(b.uses[i]))
  }

  ghost predicate Grows(s: Sys, t: Sys) {
    && s.agents.Keys == t.agents.Keys
    && (forall d <- s.agents :: AgentGrows(s.agents[d], t.agents[d]) && NoRevival(s.seen, s.agents[d], t.agents[d]))
    && s.seen <= t.seen && s.network <= t.network
    && (forall x <- s.issued :: x in t.issued && t.issued[x] == s.issued[x])
  }

  lemma GrowsTransitive(s: Sys, t: Sys, u: Sys)
    requires Grows(s, t) && Grows(t, u)
    ensures Grows(s, u)
  {
    forall d <- s.agents ensures AgentGrows(s.agents[d], u.agents[d]) && NoRevival(s.seen, s.agents[d], u.agents[d]) {
      assert AgentGrows(s.agents[d], t.agents[d]) && AgentGrows(t.agents[d], u.agents[d]);
      assert NoRevival(s.seen, s.agents[d], t.agents[d]) && NoRevival(t.seen, t.agents[d], u.agents[d]);
    }
  }

  // Rosters.

  lemma ShownGrow(env: Env, ms: seq<StoredMember>, ns: seq<StoredMember>)
    requires ms <= ns
    ensures AuthorizedMembers(env, ms) <= AuthorizedMembers(env, ns)
  {
  }

  /** Storing a roster that came from a coordinator shows the same roster. */
  lemma CachedShows(env: Env, roster: seq<AuthorizedMember>, ms: seq<StoredMember>, self: DeviceId, credential: string)
    requires roster <= AuthorizedMembers(env, ms)
    ensures AuthorizedMembers(env, Cached(roster, self, credential)) == roster ==
      AuthorizedMembers(env, Unsecret(roster))
  {
    forall i | 0 <= i < |roster| ensures roster[i].digest != "" {
      assert roster[i] == AuthorizedMembers(env, ms)[i];
    }
  }

  lemma MemberOfGrows(env: Env, d: DeviceId, k: StoredCluster, c: AgentState, c': AgentState)
    requires MemberOf(env, d, k, c)
    requires c'.cluster.Some? && ClusterGrows(c.cluster.value, c'.cluster.value)
    ensures MemberOf(env, d, k, c')
  {
    ShownGrow(env, c.cluster.value.members, c'.cluster.value.members);
    var i :| 0 <= i < |c.cluster.value.acceptedJoins| && c.cluster.value.acceptedJoins[i].deviceId == d
      && c.cluster.value.acceptedJoins[i].credential == k.credential;
    assert c'.cluster.value.acceptedJoins[i] == c.cluster.value.acceptedJoins[i];
  }

  lemma MessageGrows(env: Env, s: Sys, t: Sys, m: Message)
    requires MessageOk(env, s, m) && Grows(s, t)
    ensures MessageOk(env, t, m)
  {
    if m.from in s.agents {
      assert AgentGrows(s.agents[m.from], t.agents[m.from]);
      var k, l := s.agents[m.from].state.cluster.value, t.agents[m.from].state.cluster.value;
      ShownGrow(env, k.members, l.members);
    }
  }

  lemma MemberGrows(env: Env, s: Sys, t: Sys, d: DeviceId)
    requires d in s.agents && MemberOk(env, s, d) && Grows(s, t)
    requires t.agents[d].state.cluster == s.agents[d].state.cluster
    ensures MemberOk(env, t, d)
  {
    if Belongs(s.agents[d].state) {
      var k := s.agents[d].state.cluster.value;
      var c := k.coordinatorDeviceId;
      if c in s.agents {
        assert AgentGrows(s.agents[c], t.agents[c]);
        MemberOfGrows(env, d, k, s.agents[c].state, t.agents[c].state);
      }
    }
  }

  lemma UsedGrows(s: Sys, t: Sys, join: AcceptedJoin, token: string)
    requires UsedAsAsked(s, join, token) && Grows(s, t)
    ensures UsedAsAsked(t, join, token)
  {
    if join.deviceId in s.agents {
      assert AgentGrows(s.agents[join.deviceId], t.agents[join.deviceId]);
    }
  }

  /** An agent that neither consumed nor replaced its invitation keeps its token facts. */
  lemma TokensGrow(s: Sys, t: Sys, d: DeviceId)
    requires d in s.agents && TokensOk(s, d) && Grows(s, t)
    requires t.agents[d].uses == s.agents[d].uses && Current(t.agents[d].state) == Current(s.agents[d].state)
    requires forall p <- t.agents[d].asked :: p in s.agents[d].asked || p.inviteToken in t.seen
    requires Coordinates(t.agents[d].state) ==>
      && Coordinates(s.agents[d].state)
      && s.agents[d].state.cluster.value.acceptedJoins == t.agents[d].state.cluster.value.acceptedJoins
    ensures TokensOk(t, d)
  {
    var a := s.agents[d];
    if Coordinates(t.agents[d].state) && |a.uses| == |a.state.cluster.value.acceptedJoins| {
      forall i | 0 <= i < |a.uses| ensures UsedAsAsked(t, a.state.cluster.value.acceptedJoins[i], a.uses[i]) {
        UsedGrows(s, t, a.state.cluster.value.acceptedJoins[i], a.uses[i]);
      }
    }
  }

  lemma IssueGrows(env: Env, s: Sys, t: Sys, x: string)
    requires x in s.issued && IssueOk(env, s, x) && Grows(s, t)
    ensures IssueOk(env, t, x)
  {
    assert AgentGrows(s.agents[s.issued[x]], t.agents[s.issued[x]]);
  }

  // Steps.

  /** Only agent `d` moves from `s` to `t`. */
  ghost predicate Only(s: Sys, t: Sys, d: DeviceId) {
    s.agents.Keys == t.agents.Keys && forall e <- s.agents :: e != d ==> t.agents[e] == s.agents[e]
  }

  ghost predicate MovedOk(env: Env, t: Sys, d: DeviceId)
    requires d in t.agents
  {
    AgentOk(env, d, t.agents[d]) && MemberOk(env, t, d) && TokensOk(t, d)
  }

  /** A step by one agent keeps the invariant if its own part holds and the rest only grows. */
  lemma Frame(env: Env, s: Sys, t: Sys, d: DeviceId)
    requires Inv(env, s) && Grows(s, t) && Only(s, t, d) && d in t.agents && MovedOk(env, t, d)
    requires forall m <- t.network :: m in s.network || MessageOk(env, t, m)
    requires forall x <- t.issued :: x in s.issued || IssueOk(env, t, x)
    ensures Inv(env, t)
  {
    hide AgentOk, MemberOk, TokensOk, MessageOk, IssueOk;
    forall e <- t.agents ensures AgentOk(env, e, t.agents[e]) && MemberOk(env, t, e) && TokensOk(t, e) {
      if e != d {
        MemberGrows(env, s, t, e);
        TokensGrow(s, t, e);
      }
    }
    forall m <- t.network ensures MessageOk(env, t, m) {
      if m in s.network {
        MessageGrows(env, s, t, m);
      }
    }
    forall x <- t.issued ensures IssueOk(env, t, x) {
      if x in s.issued {
        IssueGrows(env, s, t, x);
      }
    }
  }

  /** What one agent's step leaves to show, besides what it shares with every other. */
  ghost predicate Moves(env: Env, s: Sys, t: Sys, d: DeviceId) {
    && Only(s, t, d) && Grows(s, t) && d in t.agents && MovedOk(env, t, d)
    && (forall m <- t.network :: m in s.network || MessageOk(env, t, m))
    && (forall x <- t.issued :: x in s.issued || IssueOk(env, t, x))
  }

  /** A step that changes neither invitations nor messages, and no coordinator. */
  lemma QuietMove(env: Env, s: Sys, t: Sys, d: DeviceId)
    requires Inv(env, s) && d in s.agents && Only(s, t, d)
    requires !Coordinates(s.agents[d].state) && !Coordinates(t.agents[d].state)
    requires t.issued == s.issued && t.network == s.network && s.seen <= t.seen
    requires AgentGrows(s.agents[d], t.agents[d]) && t.agents[d].uses == s.agents[d].uses
    requires forall p <- t.agents[d].asked :: p in s.agents[d].asked || p.inviteToken in t.seen
    requires AgentOk(env, d, t.agents[d]) && MemberOk(env, t, d)
    ensures Moves(env, s, t, d)
  {
    assert forall e <- s.agents :: AgentGrows(s.agents[e], t.agents[e]) && NoRevival(s.seen, s.agents[e], t.agents[e]);
    assert TokensOk(t, d);
  }

  /** A step that leaves the agent's cluster and the invitations alone. */
  lemma SteadyMove(env: Env, s: Sys, t: Sys, d: DeviceId)
    requires Inv(env, s) && d in s.agents && Only(s, t, d) && AgentOk(env, d, t.agents[d])
    requires t.agents[d].state.cluster == s.agents[d].state.cluster && t.agents[d].uses == s.agents[d].uses
    requires s.agents[d].asked <= t.agents[d].asked
    requires forall p <- t.agents[d].asked :: p in s.agents[d].asked || p.inviteToken in t.seen
    requires t.issued == s.issued && s.network <= t.network && s.seen <= t.seen
    requires forall m <- t.network :: m in s.network || MessageOk(env, t, m)
    ensures Moves(env, s, t, d)
  {
    hide AgentOk, MemberOk, TokensOk, MessageOk, IssueOk;
    assert forall e <- s.agents :: AgentGrows(s.agents[e], t.agents[e]) && NoRevival(s.seen, s.agents[e], t.agents[e]);
    MemberGrows(env, s, t, d);
    TokensGrow(s, t, d);
  }

  lemma Parts(env: Env, s: Sys, d: DeviceId)
    requires Inv(env, s) && d in s.agents
    ensures AgentOk(env, d, s.agents[d]) && MemberOk(env, s, d) && TokensOk(s, d)
  {
  }

  lemma GrowsOnly(s: Sys, t: Sys, d: DeviceId)
    requires Only(s, t, d) && d in s.agents
    requires AgentGrows(s.agents[d], t.agents[d]) && NoRevival(s.seen, s.agents[d], t.agents[d])
    requires s.seen <= t.seen && s.network <= t.network
    requires forall x <- s.issued :: x in t.issued && t.issued[x] == s.issued[x]
    ensures Grows(s, t)
  {
    forall e <- s.agents ensures AgentGrows(s.agents[e], t.agents[e]) && NoRevival(s.seen, s.agents[e], t.agents[e]) {
    }
  }
}
