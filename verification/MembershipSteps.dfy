/** Every action keeps the invariant and lets nothing shrink. */
module MembershipSteps {
  import opened Domain
  import opened Membership
  import opened MembershipRuns
  import opened MembershipInvariants

  // One agent alone.

  lemma CreateKeeps(env: Env, d: DeviceId, a: Agent, b: Agent, endpoint: Endpoint, name: string, id: ClusterId,
                    token: string, credential: string, now: nat)
    requires AgentOk(env, d, a)
    requires var r := CreateCluster(env, a.state, endpoint, name, id, token, credential, now);
      r.Done? && b == a.(state := Saved(a.state, r))
    ensures AgentOk(env, d, b) && AgentGrows(a, b) && Current(b.state) == Some(token)
    ensures Coordinates(b.state) && b.state.cluster.value.id == id
  {
  }

  lemma InviteKeeps(env: Env, d: DeviceId, a: Agent, b: Agent, secret: string)
    requires AgentOk(env, d, a)
    requires var r := CreateInvite(env, a.state, secret); r.Done? && b == a.(state := Saved(a.state, r))
    ensures AgentOk(env, d, b) && AgentGrows(a, b)
    ensures Coordinates(a.state) && Coordinates(b.state)
    ensures b.state.cluster.value == a.state.cluster.value.(inviteToken := b.state.cluster.value.inviteToken)
    ensures Current(b.state) == Some(env.encode(Invitation(b.state.cluster.value.id, d, secret)))
  {
    assert RosterOk(env, d, b.state.cluster.value) by {
      var k, l := a.state.cluster.value, b.state.cluster.value;
      forall i | 0 <= i < |l.acceptedJoins| ensures Admitted(l, i) {
        assert Admitted(k, i);
      }
    }
  }

  lemma AskKeeps(env: Env, d: DeviceId, a: Agent, b: Agent, endpoint: Endpoint, token: string, rid: RequestId)
    requires AgentOk(env, d, a) && env.decode(token).Some? && forall p <- a.asked :: p.requestId != rid
    requires var r := BeginJoin(a.state, endpoint, token, env.decode(token).value, rid);
      r.Done? && b == a.(state := Saved(a.state, r), asked := a.asked + {r.value.1})
    ensures AgentOk(env, d, b) && b.state.cluster == a.state.cluster
    ensures forall p <- b.asked :: p in a.asked || p.inviteToken == token
  {
  }

  lemma AbandonKeeps(env: Env, d: DeviceId, a: Agent, b: Agent, p: PendingJoin)
    requires AgentOk(env, d, a) && b == a.(state := Saved(a.state, AbandonJoin(a.state, p)))
    ensures AgentOk(env, d, b) && b.state.cluster == a.state.cluster
  {
  }

  lemma FinishKeeps(env: Env, d: DeviceId, a: Agent, b: Agent, p: PendingJoin, join: JoinReply)
    requires AgentOk(env, d, a) && p in a.asked && b == a.(state := Saved(a.state, FinishJoin(a.state, p, join)))
    ensures AgentOk(env, d, b) && AgentGrows(a, b)
    ensures b.state.cluster == a.state.cluster || (a.state.cluster.None? && Belongs(b.state) && Pinned(p, join.summary))
  {
    if b.state.cluster != a.state.cluster {
      assert Invited(b.asked, b.state.cluster.value);
    }
  }

  lemma CacheKeeps(env: Env, d: DeviceId, a: Agent, b: Agent, reply: RosterReply)
    requires AgentOk(env, d, a) && Belongs(a.state) && b == a.(state := Saved(a.state, StoreRoster(a.state, reply)))
    ensures AgentOk(env, d, b) && AgentGrows(a, b) && Belongs(b.state)
  {
    var p :| p in a.asked && p.clusterId == a.state.cluster.value.id
      && p.coordinatorDeviceId == a.state.cluster.value.coordinatorDeviceId;
    assert Invited(b.asked, b.state.cluster.value);
  }

  // One action of the whole system.

  /** A coordinator installs a fresh invitation of its own. */
  lemma IssueMoves(env: Env, s: Sys, d: DeviceId, b: Agent, token: string, secret: string)
    requires Inv(env, s) && d in s.agents && token !in s.seen
    requires AgentOk(env, d, b) && AgentGrows(s.agents[d], b) && b.uses == s.agents[d].uses
    requires b.asked == s.agents[d].asked
    requires Coordinates(b.state) && Current(b.state) == Some(token)
    requires token == env.encode(Invitation(b.state.cluster.value.id, d, secret))
    ensures Moves(env, s, Issue(Put(s, d, b), d, token), d)
  {
    hide AgentOk, MessageOk, Inv, Shown, AuthorizedMembers;
    var t := Issue(Put(s, d, b), d, token);
    Parts(env, s, d);
    IssuedSeen(env, s);
    GrowsOnly(s, t, d);
    IssuedTokens(env, s, t, d);
  }

  lemma IssuedSeen(env: Env, s: Sys)
    requires Inv(env, s)
    ensures forall x <- s.issued :: x in s.seen
  {
    forall x <- s.issued ensures x in s.seen {
      assert IssueOk(env, s, x);
    }
  }

  lemma IssuedTokens(env: Env, s: Sys, t: Sys, d: DeviceId)
    requires d in s.agents && TokensOk(s, d) && Grows(s, t)
    requires AgentOk(env, d, s.agents[d]) && AgentOk(env, d, t.agents[d])
    requires t.agents[d].uses == s.agents[d].uses && t.agents[d].asked == s.agents[d].asked
    requires forall x <- s.issued :: x in s.seen
    requires Current(t.agents[d].state).Some? && Current(t.agents[d].state).value !in s.seen
    requires IssuedBy(t, Current(t.agents[d].state).value, d)
    ensures TokensOk(t, d)
  {
    var a, b := s.agents[d], t.agents[d];
    var js := b.state.cluster.value.acceptedJoins;
    assert AgentGrows(a, b);
    forall i | 0 <= i < |b.uses| ensures UsedAsAsked(t, js[i], b.uses[i]) && IssuedBy(t, b.uses[i], d) {
      assert IssuedBy(s, a.uses[i], d);
      assert UsedAsAsked(s, js[i], a.uses[i]);
      UsedGrows(s, t, js[i], a.uses[i]);
    }
  }

  lemma FoundMoves(env: Env, s: Sys, a: Action)
    requires a.Found? && Inv(env, s) && Enabled(env, s, a)
    ensures Moves(env, s, Step(env, s, a), a.device)
  {
    hide AgentOk, MemberOk, TokensOk, MessageOk, IssueOk, Inv, Moves, CreateCluster;
    var d, t := a.device, Step(env, s, a);
    Parts(env, s, d);
    var token := env.encode(Invitation(a.id, d, a.secret));
    var r := CreateCluster(env, s.agents[d].state, a.endpoint, a.name, a.id, token, a.credential, a.now);
    if r.Refused? {
      SteadyMove(env, s, t, d);
    } else {
      CreateKeeps(env, d, s.agents[d], t.agents[d], a.endpoint, a.name, a.id, token, a.credential, a.now);
      IssueMoves(env, s, d, t.agents[d], token, a.secret);
    }
  }

  lemma InviteMoves(env: Env, s: Sys, a: Action)
    requires a.Invite? && Inv(env, s) && Enabled(env, s, a)
    ensures Moves(env, s, Step(env, s, a), a.device)
  {
    hide AgentOk, MemberOk, TokensOk, MessageOk, IssueOk, Inv, Moves;
    var d, t := a.device, Step(env, s, a);
    Parts(env, s, d);
    if CreateInvite(env, s.agents[d].state, a.secret).Refused? {
      SteadyMove(env, s, t, d);
    } else {
      InviteKeeps(env, d, s.agents[d], t.agents[d], a.secret);
      IssueMoves(env, s, d, t.agents[d], Current(t.agents[d].state).value, a.secret);
    }
  }

  lemma AskMoves(env: Env, s: Sys, a: Action)
    requires a.Ask? && Inv(env, s) && Enabled(env, s, a)
    ensures Moves(env, s, Step(env, s, a), a.device)
  {
    hide AgentOk, MemberOk, TokensOk, MessageOk, IssueOk, Inv, Moves, BeginJoin;
    var d, t := a.device, Step(env, s, a);
    Parts(env, s, d);
    if t != s {
      AskKeeps(env, d, s.agents[d], t.agents[d], a.endpoint, a.token, a.requestId);
    }
    SteadyMove(env, s, t, d);
  }

  lemma AbandonMoves(env: Env, s: Sys, a: Action)
    requires a.Abandon? && Inv(env, s) && Enabled(env, s, a)
    ensures Moves(env, s, Step(env, s, a), a.device)
  {
    hide AgentOk, MemberOk, TokensOk, MessageOk, IssueOk, Inv, Moves, AbandonJoin;
    var d, t := a.device, Step(env, s, a);
    Parts(env, s, d);
    AbandonKeeps(env, d, s.agents[d], t.agents[d], a.pending);
    SteadyMove(env, s, t, d);
  }

  lemma FinishMoves(env: Env, s: Sys, a: Action)
    requires a.Finish? && Inv(env, s) && Enabled(env, s, a)
    ensures Moves(env, s, Step(env, s, a), a.device)
  {
    hide AgentOk, MemberOk, TokensOk, IssueOk, MessageOk, Moves, FinishJoin;
    var d, t, p, join := a.device, Step(env, s, a), a.pending, a.message.join;
    Parts(env, s, d);
    FinishKeeps(env, d, s.agents[d], t.agents[d], p, join);
    if s.agents[d].state.cluster == t.agents[d].state.cluster {
      SteadyMove(env, s, t, d);
    } else {
      assert MessageOk(env, s, a.message);
      FinishJoins(env, s, t, d, p, a.message);
      QuietMove(env, s, t, d);
    }
  }

  /** The stored answer agrees with the coordinator that sent it. */
  lemma FinishJoins(env: Env, s: Sys, t: Sys, d: DeviceId, p: PendingJoin, m: Message)
    requires Only(s, t, d) && d in s.agents && MessageOk(env, s, m) && Answered(s, d, p, m)
    requires s.agents[d].state.cluster.None?
    requires t.agents[d].state == Saved(s.agents[d].state, FinishJoin(s.agents[d].state, p, m.join))
    requires Belongs(t.agents[d].state)
    ensures MemberOk(env, t, d)
  {
    var c := p.coordinatorDeviceId;
    if c in s.agents {
      assert c != d;
      CachedShows(env, m.join.roster, s.agents[c].state.cluster.value.members, d, "");
    }
  }

  lemma CacheMoves(env: Env, s: Sys, a: Action)
    requires a.Cache? && Inv(env, s) && Enabled(env, s, a)
    ensures Moves(env, s, Step(env, s, a), a.device)
  {
    hide AgentOk, MemberOk, TokensOk, IssueOk, MessageOk, Moves, StoreRoster;
    var d, t := a.device, Step(env, s, a);
    Parts(env, s, d);
    CacheKeeps(env, d, s.agents[d], t.agents[d], a.message.roster);
    assert MessageOk(env, s, a.message);
    CacheAgrees(env, s, t, d, a.message);
    QuietMove(env, s, t, d);
  }

  lemma CacheAgrees(env: Env, s: Sys, t: Sys, d: DeviceId, m: Message)
    requires Only(s, t, d) && d in s.agents && MessageOk(env, s, m) && MemberOk(env, s, d)
    requires Belongs(s.agents[d].state) && m.MemberRoster? && m.to == d
    requires m.from == s.agents[d].state.cluster.value.coordinatorDeviceId
    requires t.agents[d].state == Saved(s.agents[d].state, StoreRoster(s.agents[d].state, m.roster))
    ensures MemberOk(env, t, d)
  {
    var k := s.agents[d].state.cluster.value;
    var c := k.coordinatorDeviceId;
    if c in s.agents {
      assert c != d;
      CachedShows(env, m.roster.roster, s.agents[c].state.cluster.value.members, s.agents[d].state.deviceId,
        k.credential);
    }
  }

  lemma ServeMoves(env: Env, s: Sys, a: Action)
    requires a.Serve? && Inv(env, s) && Enabled(env, s, a)
    ensures Moves(env, s, Step(env, s, a), a.device)
  {
    hide AgentOk, MemberOk, TokensOk, IssueOk, MessageOk, RemoteMembers, Inv, Moves;
    var d, t := a.device, Step(env, s, a);
    Parts(env, s, d);
    if RemoteMembers(env, s.agents[d].state, a.authorization, a.peer).Done? {
      ServedRoster(env, t, d, a.authorization, a.peer);
    }
    SteadyMove(env, s, t, d);
  }

  lemma ServedRoster(env: Env, s: Sys, d: DeviceId, a: Authorization, peer: DeviceId)
    requires d in s.agents && AgentOk(env, d, s.agents[d]) && RemoteMembers(env, s.agents[d].state, a, peer).Done?
    ensures MessageOk(env, s, MemberRoster(d, peer, RemoteMembers(env, s.agents[d].state, a, peer).value))
  {
    var k := s.agents[d].state.cluster.value;
    var i := FirstMatch(env, k.members, a.deviceId, Digest(env, a.credential));
    assert AuthorizedMembers(env, k.members)[i].member.deviceId == peer;
  }

  // Accepting a member.

  /** The request id was accepted before. */
  predicate Retried(a: AgentState, rid: RequestId) {
    Coordinates(a) && FirstJoin(a.cluster.value.acceptedJoins, rid) < |a.cluster.value.acceptedJoins|
  }

  ghost predicate Accepts(env: Env, a: Agent, b: Agent, c: Action, reply: JoinReply)
    requires c.Accept?
  {
    var r := AcceptMember(env, a.state, c.token, c.member, c.requestId, c.peer, c.credential);
    && r.Done? && reply == r.value.1
    && b == a.(state := Saved(a.state, r), uses := a.uses + Consumed(a.state, r.value.0, c.token))
  }

  lemma RosterExtends(env: Env, d: DeviceId, k: StoredCluster, m: ClusterMember, rid: RequestId, credential: string)
    requires RosterOk(env, d, k) && !HasDevice(k.members, m.deviceId)
    requires forall i :: 0 <= i < |k.acceptedJoins| ==> k.acceptedJoins[i].requestId != rid
    ensures RosterOk(env, d, k.(members := k.members + [StoredMember(m, credential, Digest(env, credential))],
                                acceptedJoins := k.acceptedJoins + [AcceptedJoin(rid, m.deviceId, credential)],
                                inviteToken := None))
  {
    var l := k.(members := k.members + [StoredMember(m, credential, Digest(env, credential))],
                acceptedJoins := k.acceptedJoins + [AcceptedJoin(rid, m.deviceId, credential)],
                inviteToken := None);
    forall i | 0 <= i < |l.acceptedJoins| ensures Admitted(l, i) {
      if i < |k.acceptedJoins| {
        assert Admitted(k, i);
      }
    }
  }

  lemma FreshKeeps(env: Env, d: DeviceId, a: Agent, b: Agent, c: Action, reply: JoinReply)
    requires c.Accept? && AgentOk(env, d, a) && Accepts(env, a, b, c, reply) && !Retried(a.state, c.requestId)
    ensures AgentOk(env, d, b) && AgentGrows(a, b) && Coordinates(a.state) && Coordinates(b.state) && b.asked == a.asked
    ensures Current(a.state) == Some(c.token) && Current(b.state) == None && b.uses == a.uses + [c.token]
    ensures b.state.cluster.value.acceptedJoins ==
      a.state.cluster.value.acceptedJoins + [AcceptedJoin(c.requestId, c.peer, c.credential)]
  {
    RosterExtends(env, d, a.state.cluster.value, c.member, c.requestId, c.credential);
  }

  lemma RetryKeeps(env: Env, d: DeviceId, a: Agent, b: Agent, c: Action, reply: JoinReply)
    requires c.Accept? && AgentOk(env, d, a) && Accepts(env, a, b, c, reply) && Retried(a.state, c.requestId)
    ensures AgentOk(env, d, b) && b.state.cluster == a.state.cluster && b.uses == a.uses && b.asked == a.asked
  {
  }

  /** Either way the answer shows the device in a roster that carries its recorded credential. */
  lemma AcceptAnswers(env: Env, d: DeviceId, a: Agent, b: Agent, c: Action, reply: JoinReply)
    requires c.Accept? && AgentOk(env, d, a) && Accepts(env, a, b, c, reply)
    ensures RosterSent(env, b.state, c.peer, reply.summary, reply.roster)
    ensures AcceptedJoin(c.requestId, c.peer, reply.credential) in b.state.cluster.value.acceptedJoins
  {
    var k, l := a.state.cluster.value, b.state.cluster.value;
    var i := FirstJoin(k.acceptedJoins, c.requestId);
    assert l.acceptedJoins[i] == AcceptedJoin(c.requestId, c.peer, reply.credential);
    assert l.members[i + 1].member.deviceId == c.peer by {
      if i < |k.acceptedJoins| {
        assert Admitted(k, i);
      }
    }
    assert AuthorizedMembers(env, l.members)[i + 1].member.deviceId == c.peer;
  }

  lemma FreshTokens(env: Env, s: Sys, t: Sys, c: Action)
    requires c.Accept? && c.device in s.agents && c.device in t.agents && TokensOk(s, c.device) && Grows(s, t)
    requires AgentOk(env, c.device, s.agents[c.device])
    requires Asks(s, c.peer, c.token, c.requestId) && t.issued == s.issued
    requires var a, b := s.agents[c.device], t.agents[c.device];
      && Coordinates(a.state) && Coordinates(b.state) && Current(a.state) == Some(c.token) && Current(b.state) == None
      && b.uses == a.uses + [c.token] && b.asked == a.asked
      && b.state.cluster.value.acceptedJoins ==
         a.state.cluster.value.acceptedJoins + [AcceptedJoin(c.requestId, c.peer, c.credential)]
    ensures TokensOk(t, c.device)
  {
    var a, b := s.agents[c.device], t.agents[c.device];
    var js := b.state.cluster.value.acceptedJoins;
    forall i | 0 <= i < |b.uses| ensures UsedAsAsked(t, js[i], b.uses[i]) {
      assert i < |a.uses| ==> UsedAsAsked(s, a.state.cluster.value.acceptedJoins[i], a.uses[i]);
      assert UsedAsAsked(s, js[i], b.uses[i]);
      UsedGrows(s, t, js[i], b.uses[i]);
    }
    forall i | 0 <= i < |b.uses| ensures IssuedBy(t, b.uses[i], c.device) {
      assert i < |a.uses| ==> IssuedBy(s, a.uses[i], c.device);
    }
  }

  lemma NoMember(env: Env, s: Sys, d: DeviceId)
    requires d in s.agents && !Belongs(s.agents[d].state)
    ensures MemberOk(env, s, d)
  {
  }

  lemma AcceptMoves(env: Env, s: Sys, a: Action)
    requires a.Accept? && Inv(env, s) && Enabled(env, s, a)
    ensures Moves(env, s, Step(env, s, a), a.device)
  {
    hide AgentOk, MemberOk, TokensOk, IssueOk, MessageOk, Inv, AcceptMember, Consumed, Moves;
    var d, t := a.device, Step(env, s, a);
    Parts(env, s, d);
    var r := AcceptMember(env, s.agents[d].state, a.token, a.member, a.requestId, a.peer, a.credential);
    if r.Refused? {
      SteadyMove(env, s, t, d);
    } else {
      AcceptedMoves(env, s, t, a, r.value.1);
    }
  }

  lemma AcceptedMoves(env: Env, s: Sys, t: Sys, a: Action, reply: JoinReply)
    requires a.Accept? && Inv(env, s) && a.device in s.agents && Asks(s, a.peer, a.token, a.requestId)
    requires Only(s, t, a.device) && Accepts(env, s.agents[a.device], t.agents[a.device], a, reply)
    requires t.issued == s.issued && t.seen == s.seen + {a.token}
    requires t.network == s.network + {JoinAccepted(a.device, a.peer, a.requestId, reply)}
    ensures Moves(env, s, t, a.device)
  {
    hide AgentOk, MemberOk, TokensOk, IssueOk, RosterSent, Inv, Accepts;
    var d := a.device;
    Parts(env, s, d);
    AcceptAnswers(env, d, s.agents[d], t.agents[d], a, reply);
    if Retried(s.agents[d].state, a.requestId) {
      RetryKeeps(env, d, s.agents[d], t.agents[d], a, reply);
      SteadyMove(env, s, t, d);
    } else {
      FreshKeeps(env, d, s.agents[d], t.agents[d], a, reply);
      GrowsOnly(s, t, d);
      FreshTokens(env, s, t, a);
      NoMember(env, t, d);
    }
  }

  lemma ForgeGrows(env: Env, s: Sys, m: Message)
    requires Inv(env, s) && m.from !in s.agents
    ensures var t := s.(network := s.network + {m}); Grows(s, t) && Inv(env, t)
  {
    hide AgentOk, MemberOk, TokensOk, MessageOk, IssueOk;
    var t := s.(network := s.network + {m});
    assert forall e <- s.agents :: AgentGrows(s.agents[e], t.agents[e]);
    assert MessageOk(env, t, m) by {
      Outside(env, t, m);
    }
    forall d <- t.agents ensures AgentOk(env, d, t.agents[d]) && MemberOk(env, t, d) && TokensOk(t, d) {
      Parts(env, s, d);
      MemberGrows(env, s, t, d);
      TokensGrow(s, t, d);
    }
    forall x <- t.network ensures MessageOk(env, t, x) {
      if x in s.network {
        MessageGrows(env, s, t, x);
      }
    }
    forall x <- t.issued ensures IssueOk(env, t, x) {
      IssueGrows(env, s, t, x);
    }
  }

  lemma Outside(env: Env, s: Sys, m: Message)
    requires m.from !in s.agents
    ensures MessageOk(env, s, m)
  {
  }

  /** Every action of any agent or outsider keeps the invariant, and nothing shrinks. */
  lemma StepKeeps(env: Env, s: Sys, a: Action)
    requires Inv(env, s) && Enabled(env, s, a)
    ensures Inv(env, Step(env, s, a)) && Grows(s, Step(env, s, a))
  {
    hide Inv, Grows, EnabledAt, StepAt, MovedOk, MessageOk, IssueOk;
    var t := Step(env, s, a);
    match a {
      case Forge(m) => ForgeGrows(env, s, m);
      case Found(_, _, _, _, _, _, _) => FoundMoves(env, s, a);
      case Invite(_, _) => InviteMoves(env, s, a);
      case Ask(_, _, _, _) => AskMoves(env, s, a);
      case Accept(_, _, _, _, _, _) => AcceptMoves(env, s, a);
      case Finish(_, _, _) => FinishMoves(env, s, a);
      case Abandon(_, _) => AbandonMoves(env, s, a);
      case Serve(_, _, _) => ServeMoves(env, s, a);
      case Cache(_, _) => CacheMoves(env, s, a);
    }
    if !a.Forge? {
      Frame(env, s, t, a.device);
    }
  }

  lemma {:induction false} RunKeeps(env: Env, s: Sys, actions: seq<Action>, t: Sys)
    requires Inv(env, s) && Runs(env, s, actions, t)
    ensures Inv(env, t) && Grows(s, t)
    decreases |actions|
  {
    hide Inv, Grows, EnabledAt, Step;
    if actions == [] {
      GrowsRefl(s);
    } else {
      var u := Step(env, s, actions[0]);
      StepKeeps(env, s, actions[0]);
      RunKeeps(env, u, actions[1..], t);
      GrowsTransitive(s, u, t);
    }
  }

  lemma GrowsRefl(s: Sys)
    ensures Grows(s, s)
  {
  }

  /** In every state of every run the invariant holds. */
  lemma Reachable(env: Env, s: Sys, actions: seq<Action>, t: Sys)
    requires Initial(s) && Runs(env, s, actions, t)
    ensures Inv(env, t)
  {
    assert Inv(env, s) by {
      hide Runs;
      forall d <- s.agents ensures AgentOk(env, d, s.agents[d]) && MemberOk(env, s, d) && TokensOk(s, d) {
        assert Blank(d, s.agents[d]);
      }
    }
    RunKeeps(env, s, actions, t);
  }
}
