/** Which requests a coordinator keeps refusing, and which accepted devices can still finish. */
module MembershipRetries {
  import opened Domain
  import opened Membership
  import opened MembershipRuns
  import opened MembershipInvariants
  import opened MembershipSteps
  import opened MembershipTheorems

  // Refused invitations.

  ghost predicate Holds(k: StoredCluster, rid: RequestId, d: DeviceId) {
    exists i :: 0 <= i < |k.acceptedJoins| && k.acceptedJoins[i].requestId == rid && k.acceptedJoins[i].deviceId == d
  }

  ghost predicate Known(k: StoredCluster, rid: RequestId) {
    exists i :: 0 <= i < |k.acceptedJoins| && k.acceptedJoins[i].requestId == rid
  }

  /** The coordinator's answer, without the draw and the clock. */
  predicate Refuses(env: Env, a: AgentState, token: string, m: ClusterMember, rid: RequestId) {
    AcceptMember(env, a, token, m, rid, m.deviceId, "") == Refused(InvalidInvite)
  }

  /** A coordinator refuses an invitation exactly when the request id is not this device's and is
      another's or comes with an invitation that is not current. */
  lemma RefusesWhen(env: Env, a: AgentState, c: DeviceId, token: string, m: ClusterMember, rid: RequestId,
                    secret: string)
    requires Coordinates(a) && RosterOk(env, c, a.cluster.value) && env.reachable(m)
    ensures Refuses(env, a, token, m, rid) <==>
      && !Holds(a.cluster.value, rid, m.deviceId)
      && (Current(a) != Some(token) || Known(a.cluster.value, rid))
    ensures Holds(a.cluster.value, rid, m.deviceId) ==> AcceptMember(env, a, token, m, rid, m.deviceId, secret).Done?
    ensures AcceptMember(env, a, token, m, rid, m.deviceId, secret) == Refused(InvalidInvite) <==>
      Refuses(env, a, token, m, rid)
  {
    var js := a.cluster.value.acceptedJoins;
    forall i | 0 <= i < |js| && js[i].requestId == rid ensures FirstJoin(js, rid) == i {
      AcceptOnce(a.cluster.value, env, c, i);
    }
  }

  /** A request refused for its invitation, which someone presented or created by then, is granted
      later exactly if its device meanwhile got the same request id accepted with another
      invitation; otherwise it stays refused. */
  lemma RefusedUnlessReused(env: Env, s: Sys, t: Sys, c: DeviceId, token: string, m: ClusterMember, rid: RequestId,
                            secret: string)
    requires Later(env, s, t) && c in s.agents && Coordinates(s.agents[c].state) && env.reachable(m)
    requires token in s.seen && Refuses(env, s.agents[c].state, token, m, rid)
    ensures c in t.agents && Coordinates(t.agents[c].state)
    ensures |t.agents[c].uses| == |t.agents[c].state.cluster.value.acceptedJoins|
    ensures
      var later := AcceptMember(env, t.agents[c].state, token, m, rid, m.deviceId, secret);
      && (later.Done? <==> ReusedWith(t, c, token, rid, m.deviceId))
      && (later.Refused? ==> later.error == InvalidInvite)
  {
    hide MemberOk, TokensOk, Inv, Later, AcceptMember, RosterOk;
    LaterInv(env, s, t);
    Parts(env, s, c);
    Parts(env, t, c);
    assert AgentGrows(s.agents[c], t.agents[c]) && NoRevival(s.seen, s.agents[c], t.agents[c]);
    var k, l := s.agents[c].state.cluster.value, t.agents[c].state.cluster.value;
    RefusesWhen(env, s.agents[c].state, c, token, m, rid, secret);
    RefusesWhen(env, t.agents[c].state, c, token, m, rid, secret);
    if Holds(l, rid, m.deviceId) {
      var i :| 0 <= i < |l.acceptedJoins| && l.acceptedJoins[i].requestId == rid
        && l.acceptedJoins[i].deviceId == m.deviceId;
      NewlyHeld(env, k, l, c, rid, m.deviceId, i);
      assert t.agents[c].uses[i] != token;
    } else if Known(k, rid) {
      var i :| 0 <= i < |k.acceptedJoins| && k.acceptedJoins[i].requestId == rid;
      assert l.acceptedJoins[i].requestId == rid;
    }
  }

  /** A join held now but not before is new, and its request id was unknown before. */
  lemma NewlyHeld(env: Env, k: StoredCluster, l: StoredCluster, c: DeviceId, rid: RequestId, d: DeviceId, i: nat)
    requires k.acceptedJoins <= l.acceptedJoins && RosterOk(env, c, l) && !Holds(k, rid, d)
    requires i < |l.acceptedJoins| && l.acceptedJoins[i].requestId == rid && l.acceptedJoins[i].deviceId == d
    ensures i >= |k.acceptedJoins| && forall j :: 0 <= j < |k.acceptedJoins| ==> k.acceptedJoins[j].requestId != rid
  {
    if i < |k.acceptedJoins| {
      assert Holds(k, rid, d);
    }
    forall j | 0 <= j < |k.acceptedJoins| ensures k.acceptedJoins[j].requestId != rid {
      assert l.acceptedJoins[j] == k.acceptedJoins[j];
    }
  }

  /** The device's accepted join with this request id consumed an invitation other than `token`. */
  ghost predicate ReusedWith(s: Sys, c: DeviceId, token: string, rid: RequestId, d: DeviceId)
    requires c in s.agents && Coordinates(s.agents[c].state)
    requires |s.agents[c].uses| == |s.agents[c].state.cluster.value.acceptedJoins|
  {
    var js := s.agents[c].state.cluster.value.acceptedJoins;
    exists i :: 0 <= i < |js| && js[i].requestId == rid && js[i].deviceId == d && s.agents[c].uses[i] != token
  }

  /** An agent never reuses a request id, so its refused request stays refused for good. */
  lemma AgentStaysRefused(env: Env, s: Sys, t: Sys, c: DeviceId, p: PendingJoin, m: ClusterMember, secret: string)
    requires Later(env, s, t) && c in s.agents && Coordinates(s.agents[c].state) && env.reachable(m)
    requires m.deviceId in s.agents && p in s.agents[m.deviceId].asked
    requires Refuses(env, s.agents[c].state, p.inviteToken, m, p.requestId)
    ensures c in t.agents
    ensures AcceptMember(env, t.agents[c].state, p.inviteToken, m, p.requestId, m.deviceId, secret) ==
      Refused(InvalidInvite)
  {
    hide MemberOk, Inv, Later, AcceptMember, Refuses, RosterOk;
    var d := m.deviceId;
    LaterInv(env, s, t);
    Parts(env, s, d);
    Parts(env, t, d);
    Parts(env, t, c);
    RefusedUnlessReused(env, s, t, c, p.inviteToken, m, p.requestId, secret);
    assert AgentGrows(s.agents[d], t.agents[d]);
    var js := t.agents[c].state.cluster.value.acceptedJoins;
    forall i | 0 <= i < |js| && js[i].requestId == p.requestId && js[i].deviceId == d
      ensures t.agents[c].uses[i] == p.inviteToken
    {
      assert UsedAsAsked(t, js[i], t.agents[c].uses[i]);
    }
  }

  // One cluster, founded by "c" with invitation "A".

  function Token(env: Env, secret: string): string {
    env.encode(Invitation(0, "c", secret))
  }

  lemma TokensDiffer(env: Env)
    requires Codec(env)
    ensures Token(env, "A") != Token(env, "B") && env.decode(Token(env, "A")) == Some(Invitation(0, "c", "A"))
  {
    assert env.decode(env.encode(Invitation(0, "c", "A"))) == Some(Invitation(0, "c", "A"));
    assert env.decode(env.encode(Invitation(0, "c", "B"))) == Some(Invitation(0, "c", "B"));
  }

  function Fresh(d: DeviceId): Agent {
    Agent(AgentState(0, d, d, None, None), {}, [])
  }

  function FoundedCluster(env: Env): StoredCluster {
    var me := StoredMember(ClusterMember("c", "c", "c", 0), "k", Digest(env, "k"));
    StoredCluster(0, "c", "c", "c", Coordinator, "k", Some(Token(env, "A")), [me], [])
  }

  function Founded(env: Env, others: map<DeviceId, Agent>): Sys {
    var c := Agent(AgentState(1, "c", "c", Some(FoundedCluster(env)), None), {}, []);
    Sys(others["c" := c], {}, {Token(env, "A")}, map[Token(env, "A") := "c"])
  }

  lemma FoundedReached(env: Env, others: map<DeviceId, Agent>)
    requires "c" in others && forall d <- others :: others[d] == Fresh(d)
    ensures Reached(env, Founded(env, others))
  {
    var init := Sys(others, {}, {}, map[]);
    var found := Found("c", "c", "c", 0, "A", "k", 0);
    assert Initial(init);
    assert Step(env, init, found) == Founded(env, others);
    OneStep(env, init, found, Founded(env, others));
  }

  /** A coordinator's record once it accepted `m` with request id `rid` and invitation "A". */
  function JoinedCluster(env: Env, m: ClusterMember, rid: RequestId): StoredCluster {
    var k := FoundedCluster(env);
    k.(members := k.members + [StoredMember(m, "l", Digest(env, "l"))],
       acceptedJoins := [AcceptedJoin(rid, m.deviceId, "l")], inviteToken := None)
  }

  lemma AcceptsFirst(env: Env, s: AgentState, m: ClusterMember, rid: RequestId)
    requires s.cluster == Some(FoundedCluster(env)) && env.reachable(m) && m.deviceId != "c"
    ensures
      var r := AcceptMember(env, s, Token(env, "A"), m, rid, m.deviceId, "l");
      r.Done? && r.value.0 == s.(cluster := Some(JoinedCluster(env, m, rid)))
  {
    var k := FoundedCluster(env);
    assert !HasDevice(k.members, m.deviceId);
    assert k.acceptedJoins + [AcceptedJoin(rid, m.deviceId, "l")] == [AcceptedJoin(rid, m.deviceId, "l")];
  }

  /** Reuse does happen, whatever the codec: a device outside the model presents invitation "B" in
      vain, gets the same request id accepted with "A", and "B" is granted from then on. */
  lemma ReuseGrantsRefused(env: Env, m: ClusterMember) returns (s: Sys, t: Sys)
    requires Codec(env) && env.reachable(m) && m.deviceId != "c"
    ensures Later(env, s, t) && s.agents.Keys == t.agents.Keys == {"c"} && Token(env, "B") in s.seen
    ensures Refuses(env, s.agents["c"].state, Token(env, "B"), m, 7)
    ensures AcceptMember(env, t.agents["c"].state, Token(env, "B"), m, 7, m.deviceId, "").Done?
  {
    TokensDiffer(env);
    hide Codec, Reached, Digest;
    var f := Founded(env, map["c" := Fresh("c")]);
    FoundedReached(env, map["c" := Fresh("c")]);
    var vain := Accept("c", m.deviceId, Token(env, "B"), m, 7, "l");
    s := Step(env, f, vain);
    assert s == f.(seen := f.seen + {Token(env, "B")});
    ReachedStep(env, f, vain);
    var accept := Accept("c", m.deviceId, Token(env, "A"), m, 7, "l");
    AcceptsFirst(env, s.agents["c"].state, m, 7);
    t := Step(env, s, accept);
    OneStep(env, s, accept, t);
    assert t.agents["c"].state.cluster.value.acceptedJoins[0] == AcceptedJoin(7, m.deviceId, "l");
  }

  lemma {:induction false} RunsSnoc(env: Env, s: Sys, actions: seq<Action>, t: Sys, a: Action)
    requires Runs(env, s, actions, t) && Enabled(env, t, a)
    ensures Runs(env, s, actions + [a], Step(env, t, a))
    decreases |actions|
  {
    hide EnabledAt, StepAt;
    if actions == [] {
      OneStep(env, s, a, Step(env, t, a));
    } else {
      RunsSnoc(env, Step(env, s, actions[0]), actions[1..], t, a);
      assert (actions + [a])[1..] == actions[1..] + [a];
    }
  }

  lemma ReachedStep(env: Env, s: Sys, a: Action)
    requires Reached(env, s) && Enabled(env, s, a)
    ensures Reached(env, Step(env, s, a))
  {
    hide EnabledAt, StepAt, Initial;
    var init, actions :| Initial(init) && Runs(env, init, actions, s);
    RunsSnoc(env, init, actions, s, a);
  }

  lemma OneStep(env: Env, s: Sys, a: Action, t: Sys)
    requires Enabled(env, s, a) && t == Step(env, s, a)
    ensures Runs(env, s, [a], t)
  {
    hide EnabledAt, StepAt;
    assert [a][1..] == [];
    assert Runs(env, t, [], t);
  }

  // Finishing after an acceptance.

  /** The invitation an agent's accepted join consumed names the coordinator's own cluster. */
  lemma AcceptedAsAsked(env: Env, s: Sys, c: DeviceId, d: DeviceId, p: PendingJoin)
    requires Inv(env, s) && Codec(env) && c in s.agents && Coordinates(s.agents[c].state)
    requires d in s.agents && p in s.agents[d].asked && Holds(s.agents[c].state.cluster.value, p.requestId, d)
    ensures p.clusterId == s.agents[c].state.cluster.value.id && p.coordinatorDeviceId == c
  {
    hide MemberOk, MessageOk, RosterOk, Codec;
    Parts(env, s, c);
    Parts(env, s, d);
    var k := s.agents[c].state.cluster.value;
    var i :| 0 <= i < |k.acceptedJoins| && k.acceptedJoins[i].requestId == p.requestId
      && k.acceptedJoins[i].deviceId == d;
    var token := s.agents[c].uses[i];
    assert UsedAsAsked(s, k.acceptedJoins[i], token);
    assert IssuedBy(s, token, c) && IssueOk(env, s, token);
    assert token == p.inviteToken && Faithful(env, p);
  }

  function AcceptAction(c: DeviceId, m: ClusterMember, p: PendingJoin): Action {
    Accept(c, m.deviceId, p.inviteToken, m, p.requestId, "")
  }

  /** Sending the recorded request again finishes a join whose first answer was lost. */
  lemma RetryFinishes(env: Env, s: Sys, c: DeviceId, m: ClusterMember, p: PendingJoin)
    requires Reached(env, s) && Codec(env) && c in s.agents && Coordinates(s.agents[c].state) && env.reachable(m)
    requires m.deviceId in s.agents && s.agents[m.deviceId].state.cluster.None?
    requires s.agents[m.deviceId].state.pending == Some(p)
    requires Holds(s.agents[c].state.cluster.value, p.requestId, m.deviceId)
    ensures exists t ::
      Later(env, s, t) && MemberUnder(t, m.deviceId, c) && t.agents[m.deviceId].state.pending.None?
  {
    hide Inv, MemberOk, TokensOk, RosterOk, Reached, Codec, StepAt, AuthorizedMembers, Later;
    var d, k := m.deviceId, s.agents[c].state.cluster.value;
    ReachedInv(env, s);
    Parts(env, s, d);
    Parts(env, s, c);
    AcceptedAsAsked(env, s, c, d, p);
    var i :| 0 <= i < |k.acceptedJoins| && k.acceptedJoins[i].requestId == p.requestId
      && k.acceptedJoins[i].deviceId == d;
    AcceptOnce(k, env, c, i);
    var a := AcceptAction(c, m, p);
    var reply := JoinReply(k.Summary(), k.acceptedJoins[i].credential, AuthorizedMembers(env, k.members));
    Resent(env, s, a, i, reply);
    var u := Step(env, s, a);
    var b := Finish(d, p, JoinAccepted(c, d, p.requestId, reply));
    assert k.coordinatorDeviceId == c by {
      RosterSelf(env, c, k);
    }
    Stored(env, u, d, p, b.message);
    var t := Step(env, u, b);
    assert Enabled(env, s, a);
    assert Enabled(env, u, b);
    TwoSteps(env, s, a, u, b, t);
  }

  lemma RosterSelf(env: Env, c: DeviceId, k: StoredCluster)
    requires RosterOk(env, c, k)
    ensures k.coordinatorDeviceId == c
  {
  }

  lemma Resent(env: Env, s: Sys, a: Action, i: nat, reply: JoinReply)
    requires a.Accept? && a.device in s.agents && Coordinates(s.agents[a.device].state)
    requires a.peer == a.member.deviceId && env.reachable(a.member)
    requires
      var k := s.agents[a.device].state.cluster.value;
      && i < |k.acceptedJoins| && FirstJoin(k.acceptedJoins, a.requestId) == i && k.acceptedJoins[i].deviceId == a.peer
      && reply == JoinReply(k.Summary(), k.acceptedJoins[i].credential, AuthorizedMembers(env, k.members))
    ensures
      var t := Step(env, s, a);
      && t.agents.Keys == s.agents.Keys && JoinAccepted(a.device, a.peer, a.requestId, reply) in t.network
      && t.agents[a.device].state.cluster == s.agents[a.device].state.cluster
      && forall e <- s.agents :: e != a.device ==> t.agents[e] == s.agents[e]
  {
  }

  lemma Stored(env: Env, s: Sys, d: DeviceId, p: PendingJoin, m: Message)
    requires d in s.agents && s.agents[d].state.cluster.None? && s.agents[d].state.pending == Some(p)
    requires m.JoinAccepted? && Pinned(p, m.join.summary)
    ensures
      var t := Step(env, s, Finish(d, p, m));
      && t.agents.Keys == s.agents.Keys && t.agents[d].state.pending.None?
      && Belongs(t.agents[d].state) && t.agents[d].state.cluster.value.coordinatorDeviceId == p.coordinatorDeviceId
  {
  }

  lemma TwoSteps(env: Env, s: Sys, a: Action, u: Sys, b: Action, t: Sys)
    requires Reached(env, s) && Enabled(env, s, a) && u == Step(env, s, a) && Enabled(env, u, b) && t == Step(env, u, b)
    ensures Later(env, s, t)
  {
    hide Enabled, Step, Reached;
    var actions := [a, b];
    assert actions[1..] == [b];
    assert Runs(env, t, [], t);
    assert Runs(env, u, [b], t);
    assert Runs(env, s, actions, t);
  }

  /** Agent `d`, accepted by `c` under request `rid`, neither joined nor still holds that request. */
  ghost predicate GaveUp(s: Sys, d: DeviceId, c: DeviceId, rid: RequestId) {
    && d in s.agents && c in s.agents && Coordinates(s.agents[c].state)
    && Holds(s.agents[c].state.cluster.value, rid, d)
    && AwayFrom(s.agents[d].state, c, rid)
  }

  ghost predicate AwayFrom(a: AgentState, c: DeviceId, rid: RequestId) {
    && (Belongs(a) ==> a.cluster.value.coordinatorDeviceId != c)
    && (a.pending.Some? ==> a.pending.value.requestId != rid)
  }

  lemma HeldWasAsked(env: Env, s: Sys, c: DeviceId, d: DeviceId, rid: RequestId)
    requires Inv(env, s) && c in s.agents && Coordinates(s.agents[c].state) && d in s.agents
    requires Holds(s.agents[c].state.cluster.value, rid, d)
    ensures exists p :: p in s.agents[d].asked && p.requestId == rid
  {
    hide MemberOk, MessageOk, RosterOk, IssueOk;
    Parts(env, s, c);
    var k := s.agents[c].state.cluster.value;
    var i :| 0 <= i < |k.acceptedJoins| && k.acceptedJoins[i].requestId == rid && k.acceptedJoins[i].deviceId == d;
    assert UsedAsAsked(s, k.acceptedJoins[i], s.agents[c].uses[i]);
  }

  lemma OneRequestHeld(env: Env, c: DeviceId, k: StoredCluster, d: DeviceId, rid: RequestId, join: AcceptedJoin)
    requires RosterOk(env, c, k) && Holds(k, rid, d) && join in k.acceptedJoins && join.deviceId == d
    ensures join.requestId == rid
  {
    var i :| 0 <= i < |k.acceptedJoins| && k.acceptedJoins[i].requestId == rid && k.acceptedJoins[i].deviceId == d;
    var j :| 0 <= j < |k.acceptedJoins| && k.acceptedJoins[j] == join;
    assert Admitted(k, i) && Admitted(k, j);
    assert k.members[i + 1].member.deviceId == k.members[j + 1].member.deviceId;
  }

  /** The agent's own step, whatever it is, does not bring it back. */
  lemma StaysAway(env: Env, s: Sys, a: Action, c: DeviceId, rid: RequestId)
    requires !a.Forge? && Inv(env, s) && Enabled(env, s, a) && GaveUp(s, a.device, c, rid)
    ensures a.device in Step(env, s, a).agents && AwayFrom(Step(env, s, a).agents[a.device].state, c, rid)
  {
    hide MemberOk, TokensOk, AgentOk, IssueOk, RosterSent, RosterOk, AcceptMember, RemoteMembers, MessageOk, Inv, Holds;
    var d := a.device;
    match a {
      case Ask(_, _, _, _) => HeldWasAsked(env, s, c, d, rid);
      case Finish(_, p, m) =>
        if p.coordinatorDeviceId == c {
          AnswerHeld(env, s, d, c, rid, m);
        }
      case Accept(_, peer, token, m, r, secret) => SameSelf(env, s, a);
      case _ =>
    }
  }

  lemma AnswerHeld(env: Env, s: Sys, d: DeviceId, c: DeviceId, rid: RequestId, m: Message)
    requires Inv(env, s) && c in s.agents && Coordinates(s.agents[c].state)
    requires Holds(s.agents[c].state.cluster.value, rid, d)
    requires m in s.network && m.JoinAccepted? && m.from == c && m.to == d
    ensures m.requestId == rid
  {
    hide MemberOk, TokensOk, IssueOk, RosterOk, Holds;
    Parts(env, s, c);
    assert MessageOk(env, s, m);
    OneRequestHeld(env, c, s.agents[c].state.cluster.value, d, rid, AcceptedJoin(m.requestId, d, m.join.credential));
  }

  lemma SameSelf(env: Env, s: Sys, a: Action)
    requires a.Accept? && a.device in s.agents
    ensures
      var b := Step(env, s, a).agents[a.device].state;
      && b.pending == s.agents[a.device].state.pending
      && (Belongs(b) ==> b.cluster == s.agents[a.device].state.cluster)
  {
  }

  lemma {:induction false} NeverBack(env: Env, s: Sys, actions: seq<Action>, t: Sys, d: DeviceId, c: DeviceId,
                                     rid: RequestId)
    requires Inv(env, s) && Runs(env, s, actions, t) && GaveUp(s, d, c, rid)
    ensures GaveUp(t, d, c, rid)
    decreases |actions|
  {
    hide Inv, EnabledAt, StepAt, Holds, AwayFrom;
    if actions != [] {
      var a, u := actions[0], Step(env, s, actions[0]);
      StepKeeps(env, s, a);
      assert AgentGrows(s.agents[c], u.agents[c]);
      StillHeld(s.agents[c].state.cluster.value, u.agents[c].state.cluster.value, rid, d);
      if !a.Forge? && a.device == d {
        StaysAway(env, s, a, c, rid);
      } else if !a.Forge? {
        StepOnly(env, s, a);
      }
      NeverBack(env, u, actions[1..], t, d, c, rid);
    }
  }

  lemma StillHeld(k: StoredCluster, l: StoredCluster, rid: RequestId, d: DeviceId)
    requires k.acceptedJoins <= l.acceptedJoins && Holds(k, rid, d)
    ensures Holds(l, rid, d)
  {
    var i :| 0 <= i < |k.acceptedJoins| && k.acceptedJoins[i].requestId == rid && k.acceptedJoins[i].deviceId == d;
    assert l.acceptedJoins[i] == k.acceptedJoins[i];
  }

  lemma StepOnly(env: Env, s: Sys, a: Action)
    requires !a.Forge? && a.device in s.agents
    ensures Only(s, Step(env, s, a), a.device)
  {
    hide CreateCluster, CreateInvite, BeginJoin, AcceptMember, FinishJoin, AbandonJoin, RemoteMembers, StoreRoster;
    hide Saved;
  }

  /** An accepted agent that has not joined can still do so exactly while it keeps its original
      request: dropping it, as a join does on an error answer or a wrong peer, locks it out. */
  lemma CanFinishIff(env: Env, s: Sys, c: DeviceId, m: ClusterMember, rid: RequestId)
    requires Reached(env, s) && Codec(env) && c in s.agents && Coordinates(s.agents[c].state) && env.reachable(m)
    requires m.deviceId in s.agents && s.agents[m.deviceId].state.cluster.None?
    requires Holds(s.agents[c].state.cluster.value, rid, m.deviceId)
    ensures (exists t :: Later(env, s, t) && MemberUnder(t, m.deviceId, c)) <==>
      s.agents[m.deviceId].state.pending.Some? && s.agents[m.deviceId].state.pending.value.requestId == rid
  {
    hide Holds, Reached, Codec, Inv;
    var d := m.deviceId;
    ReachedInv(env, s);
    if s.agents[d].state.pending.Some? && s.agents[d].state.pending.value.requestId == rid {
      RetryFinishes(env, s, c, m, s.agents[d].state.pending.value);
    } else {
      forall t | Later(env, s, t) ensures !MemberUnder(t, d, c) {
        var actions :| Runs(env, s, actions, t);
        NeverBack(env, s, actions, t, d, c, rid);
      }
    }
  }

  /** An invitation its coordinator created never fails the identity check of a join. */
  lemma GenuineInvitePasses(env: Env, s: Sys, d: DeviceId, p: PendingJoin, m: Message)
    requires Reached(env, s) && Codec(env) && d in s.agents && p in s.agents[d].asked && Answered(s, d, p, m)
    requires p.inviteToken in s.issued
    ensures Pinned(p, m.join.summary)
  {
    hide MemberOk, TokensOk, RosterOk, Codec, Reached;
    ReachedInv(env, s);
    assert IssueOk(env, s, p.inviteToken);
    Parts(env, s, d);
    assert Faithful(env, p);
    var c := p.coordinatorDeviceId;
    assert c == s.issued[p.inviteToken];
    Parts(env, s, c);
    assert MessageOk(env, s, m);
    RosterSelf(env, c, s.agents[c].state.cluster.value);
  }

  ghost predicate KnownBy(k: StoredCluster, d: DeviceId, credential: string) {
    exists i :: 0 <= i < |k.members| && k.members[i].member.deviceId == d && k.members[i].credential == credential
  }

  /** If no two credentials share a digest, a coordinator lets a peer in exactly when it speaks for
      itself, names this cluster and presents the credential recorded for it. */
  lemma CoordinatorDecides(env: Env, s: Sys, c: DeviceId, a: Authorization, peer: DeviceId)
    requires Reached(env, s) && c in s.agents && Coordinates(s.agents[c].state)
    requires forall x: string, y: string :: env.hex(x) == env.hex(y) ==> x == y
    ensures
      var k := s.agents[c].state.cluster.value;
      AuthorizeInCluster(env, k, a, peer).Done? <==>
        && a.deviceId == peer && a.clusterId == k.id
        && KnownBy(k, peer, a.credential)
  {
    hide MemberOk, TokensOk, Reached, Inv, AuthorizeInCluster;
    ReachedInv(env, s);
    Parts(env, s, c);
    DecidesByCredential(env, s.agents[c].state.cluster.value, c, a, peer);
  }

  lemma DecidesByCredential(env: Env, k: StoredCluster, c: DeviceId, a: Authorization, peer: DeviceId)
    requires RosterOk(env, c, k)
    requires forall x: string, y: string :: env.hex(x) == env.hex(y) ==> x == y
    ensures AuthorizeInCluster(env, k, a, peer).Done? <==>
      && a.deviceId == peer && a.clusterId == k.id
      && KnownBy(k, peer, a.credential)
  {
    var i := FirstMatch(env, k.members, a.deviceId, Digest(env, a.credential));
    if i < |k.members| {
      assert k.members[i].digest[7..] == env.hex(k.members[i].credential);
      assert Digest(env, a.credential)[7..] == env.hex(a.credential);
    }
    forall j | 0 <= j < |k.members| && k.members[j].member.deviceId == a.deviceId
      && k.members[j].credential == a.credential
      ensures Answers(env, k.members[j], a.deviceId, Digest(env, a.credential))
    {
    }
  }

  /** "d" asked with invitation "A", "c" accepted, and the answer has not arrived. */
  lemma AcceptedUnanswered(env: Env, m: ClusterMember) returns (s: Sys, p: PendingJoin)
    requires Codec(env) && env.reachable(m) && m.deviceId == "d"
    ensures Reached(env, s) && s.agents.Keys == {"c", "d"} && p.requestId == 0
    ensures s.agents["d"] == Agent(AgentState(1, "d", "d", None, Some(p)), {p}, [])
    ensures s.agents["c"].state.cluster == Some(JoinedCluster(env, m, 0))
  {
    TokensDiffer(env);
    hide Codec, Reached, Digest, JoinedCluster, FoundedCluster;
    var others := map["c" := Fresh("c"), "d" := Fresh("d")];
    var s1 := Founded(env, others);
    FoundedReached(env, others);
    var ask := Ask("d", "c", Token(env, "A"), 0);
    var s2 := Step(env, s1, ask);
    ReachedStep(env, s1, ask);
    p := PendingJoin("c", Token(env, "A"), 0, 0, "c");
    var accept := Accept("c", "d", Token(env, "A"), m, 0, "l");
    AcceptsFirst(env, s2.agents["c"].state, m, 0);
    hide AcceptMember;
    assert p in s2.agents["d"].asked && Asks(s2, "d", Token(env, "A"), 0);
    s := Step(env, s2, accept);
    ReachedStep(env, s2, accept);
  }

  /** The lock-out does happen, whatever the codec: "d" asks, "c" accepts, and "d" gives the request
      up on an error before the answer arrives. */
  lemma LockedOut(env: Env, m: ClusterMember) returns (s: Sys)
    requires Codec(env) && env.reachable(m) && m.deviceId == "d"
    ensures Reached(env, s) && GaveUp(s, "d", "c", 0) && s.agents["d"].state.cluster.None?
    ensures forall t :: Later(env, s, t) ==> !MemberUnder(t, "d", "c")
  {
    hide Codec, Reached, Digest;
    var s3, p := AcceptedUnanswered(env, m);
    s := Step(env, s3, Abandon("d", p));
    ReachedStep(env, s3, Abandon("d", p));
    assert s.agents["c"].state.cluster.value.acceptedJoins[0] == AcceptedJoin(0, "d", "l");
    assert GaveUp(s, "d", "c", 0);
    StaysLockedOut(env, s);
  }

  lemma StaysLockedOut(env: Env, s: Sys)
    requires Reached(env, s) && GaveUp(s, "d", "c", 0)
    ensures forall t :: Later(env, s, t) ==> !MemberUnder(t, "d", "c")
  {
    hide Reached, Inv, Holds;
    ReachedInv(env, s);
    forall t | Later(env, s, t) ensures !MemberUnder(t, "d", "c") {
      var actions :| Runs(env, s, actions, t);
      NeverBack(env, s, actions, t, "d", "c", 0);
    }
  }
}
