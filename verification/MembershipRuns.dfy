/** Any number of agents exchanging join and roster messages.

    Devices in `agents` follow the code of `Membership`; every other device may send anything, under
    its own authenticated identity. `network` only grows, so an answer may arrive late, twice or
    never; an agent that stops after being accepted is one that takes no further step.
    The remaining fields only record the past. */
module MembershipRuns {
  import opened Domain
  import opened Membership

  datatype Message =
    | JoinAccepted(from: DeviceId, to: DeviceId, requestId: RequestId, join: JoinReply)
    | MemberRoster(from: DeviceId, to: DeviceId, roster: RosterReply)

  /** An agent's persisted state, the joins it ever started, and the invitations it consumed as a
      coordinator, in order. */
  datatype Agent = Agent(state: AgentState, asked: set<PendingJoin>, uses: seq<string>)

  /** `seen` holds every invitation anyone created or presented, `issued` who created it. */
  datatype Sys = Sys(agents: map<DeviceId, Agent>, network: set<Message>, seen: set<string>,
                     issued: map<string, DeviceId>)

  datatype Action =
    | Found(device: DeviceId, endpoint: Endpoint, name: string, id: ClusterId, secret: string,
            credential: string, now: nat)
    | Invite(device: DeviceId, secret: string)
    | Ask(device: DeviceId, endpoint: Endpoint, token: string, requestId: RequestId)
    | Accept(device: DeviceId, peer: DeviceId, token: string, member: ClusterMember,
             requestId: RequestId, credential: string)
    | Finish(device: DeviceId, pending: PendingJoin, message: Message)
    | Abandon(device: DeviceId, pending: PendingJoin)
    | Serve(device: DeviceId, peer: DeviceId, authorization: Authorization)
    | Cache(device: DeviceId, message: Message)
    | Forge(message: Message)

  predicate Coordinates(a: AgentState) { a.cluster.Some? && a.cluster.value.role == Coordinator }
  predicate Belongs(a: AgentState) { a.cluster.Some? && a.cluster.value.role == Member }

  ghost predicate Initial(s: Sys) {
    && (forall d <- s.agents :: Blank(d, s.agents[d]))
    && s.network == {} && s.issued == map[]
  }

  ghost predicate Blank(d: DeviceId, a: Agent) {
    a.state.deviceId == d && a.state.cluster.None? && a.state.pending.None? && a.asked == {} && a.uses == []
  }

  /** An agent's own join requests are those it recorded. */
  ghost predicate Asks(s: Sys, peer: DeviceId, token: string, rid: RequestId) {
    peer in s.agents ==> exists p :: p in s.agents[peer].asked && p.inviteToken == token && p.requestId == rid
  }

  /** The message answers the request of `p`, from the device its invitation names. */
  ghost predicate Answered(s: Sys, d: DeviceId, p: PendingJoin, m: Message) {
    m in s.network && m.JoinAccepted? && m.to == d && m.from == p.coordinatorDeviceId && m.requestId == p.requestId
  }

  /** When a step may happen. Secrets and request ids are fresh when drawn; only a member asks
      its coordinator for the roster. */
  ghost predicate Enabled(env: Env, s: Sys, a: Action) {
    if a.Forge? then a.message.from !in s.agents
    else a.device in s.agents && EnabledAt(env, s, a, s.agents[a.device])
  }

  ghost predicate EnabledAt(env: Env, s: Sys, a: Action, me: Agent)
    requires !a.Forge?
  {
    match a
    case Found(d, _, _, id, secret, _, _) => env.encode(Invitation(id, d, secret)) !in s.seen
    case Invite(d, secret) => var made := CreateInvite(env, me.state, secret); made.Done? ==> made.value.1 !in s.seen
    case Ask(d, _, token, rid) => env.decode(token).Some? && forall p <- me.asked :: p.requestId != rid
    case Accept(d, peer, token, _, rid, _) => Asks(s, peer, token, rid)
    case Finish(d, p, m) => p in me.asked && Answered(s, d, p, m)
    case Abandon(d, p) => p in me.asked
    case Serve(_, _, _) => true
    case Cache(d, m) =>
      && Belongs(me.state) && m in s.network && m.MemberRoster? && m.to == d
      && m.from == me.state.cluster.value.coordinatorDeviceId
  }

  function Put(s: Sys, d: DeviceId, a: Agent): Sys {
    s.(agents := s.agents[d := a])
  }

  /** `d` created the invitation. */
  function Issue(s: Sys, d: DeviceId, token: string): Sys {
    s.(seen := s.seen + {token}, issued := s.issued[token := d])
  }

  /** A new accepted join consumes the invitation. */
  function Consumed(before: AgentState, after: AgentState, token: string): seq<string> {
    if before.cluster.Some? && after.cluster.Some?
       && |after.cluster.value.acceptedJoins| > |before.cluster.value.acceptedJoins|
    then [token] else []
  }

  function Step(env: Env, s: Sys, a: Action): Sys
    requires a.Forge? || a.device in s.agents
  {
    if a.Forge? then s.(network := s.network + {a.message}) else StepAt(env, s, a, s.agents[a.device])
  }

  function StepAt(env: Env, s: Sys, a: Action, me: Agent): Sys
    requires !a.Forge?
  {
    match a
    case Found(d, endpoint, name, id, secret, credential, now) =>
      var token := env.encode(Invitation(id, d, secret));
      var r := CreateCluster(env, me.state, endpoint, name, id, token, credential, now);
      if r.Refused? then s else Issue(Put(s, d, me.(state := Saved(me.state, r))), d, token)
    case Invite(d, secret) =>
      var r := CreateInvite(env, me.state, secret);
      if r.Refused? then s else Issue(Put(s, d, me.(state := Saved(me.state, r))), d, r.value.1)
    case Ask(d, endpoint, token, rid) =>
      if env.decode(token).None? then s
      else
        var r := BeginJoin(me.state, endpoint, token, env.decode(token).value, rid);
        if r.Refused? then s
        else Put(s, d, me.(state := Saved(me.state, r), asked := me.asked + {r.value.1})).(seen := s.seen + {token})
    case Accept(d, peer, token, m, rid, credential) =>
      var r := AcceptMember(env, me.state, token, m, rid, peer, credential);
      if r.Refused? then s.(seen := s.seen + {token})
      else
        Put(s, d, me.(state := Saved(me.state, r), uses := me.uses + Consumed(me.state, r.value.0, token)))
        .(seen := s.seen + {token}, network := s.network + {JoinAccepted(d, peer, rid, r.value.1)})
    case Finish(d, p, m) =>
      if m.JoinAccepted? then Put(s, d, me.(state := Saved(me.state, FinishJoin(me.state, p, m.join)))) else s
    case Abandon(d, p) => Put(s, d, me.(state := Saved(me.state, AbandonJoin(me.state, p))))
    case Serve(d, peer, authorization) =>
      var r := RemoteMembers(env, me.state, authorization, peer);
      if r.Refused? then s else s.(network := s.network + {MemberRoster(d, peer, r.value)})
    case Cache(d, m) =>
      if m.MemberRoster? then Put(s, d, me.(state := Saved(me.state, StoreRoster(me.state, m.roster)))) else s
  }

  /** The actions, each enabled when its turn comes, lead from `s` to `t`. */
  ghost predicate Runs(env: Env, s: Sys, actions: seq<Action>, t: Sys)
    decreases |actions|
  {
    if actions == [] then s == t
    else Enabled(env, s, actions[0]) && Runs(env, Step(env, s, actions[0]), actions[1..], t)
  }
}
