/** The records of one agent and the operations on them: creating a cluster, inviting, joining,
    accepting a member, serving and caching the roster, authorizing a peer.

    An operation is a function from the persisted state to a new one and an answer, or an error;
    `Update` makes it durable. Drawn identifiers and secrets, the clock and a peer's answer are
    parameters. */
module Membership {
  import opened Domain

  type Endpoint = string
  type ClusterId = nat
  type RequestId = nat

  datatype TransportError =
    | AlreadyInCluster | NotInCluster | NotCoordinator | InvalidInvite | Unauthorized | Conflict
    | InvalidMessage | PeerIdentityMismatch

  datatype Outcome<+T> = Done(value: T) | Refused(error: TransportError)

  datatype Role = Coordinator | Member
  datatype ClusterMember =
    ClusterMember(deviceId: DeviceId, deviceName: string, endpoint: Endpoint, joinedAt: nat)
  /** `digest` is empty in records written before digests existed. */
  datatype StoredMember = StoredMember(member: ClusterMember, credential: string, digest: string)
  datatype AuthorizedMember = AuthorizedMember(member: ClusterMember, digest: string)
  datatype AcceptedJoin = AcceptedJoin(requestId: RequestId, deviceId: DeviceId, credential: string)
  datatype ClusterSummary =
    ClusterSummary(id: ClusterId, name: string, coordinator: Endpoint, coordinatorDeviceId: DeviceId)
  datatype StoredCluster = StoredCluster(
    id: ClusterId, name: string, coordinator: Endpoint, coordinatorDeviceId: DeviceId, role: Role,
    credential: string, inviteToken: Option<string>, members: seq<StoredMember>,
    acceptedJoins: seq<AcceptedJoin>)
  {
    function Summary(): ClusterSummary {
      ClusterSummary(id, name, coordinator, coordinatorDeviceId)
    }
  }
  datatype PendingJoin = PendingJoin(
    coordinator: Endpoint, inviteToken: string, requestId: RequestId, clusterId: ClusterId,
    coordinatorDeviceId: DeviceId)
  datatype AgentState = AgentState(
    revision: nat, deviceId: DeviceId, deviceName: string, cluster: Option<StoredCluster>,
    pending: Option<PendingJoin>)

  datatype Invitation = Invitation(clusterId: ClusterId, coordinatorDeviceId: DeviceId, secret: string)
  datatype Authorization = Authorization(clusterId: ClusterId, deviceId: DeviceId, credential: string)

  /** Code this model does not open: the credential hash in hexadecimal, the text form of an
      invitation, and the checks on cluster names and announced members. */
  datatype Env = Env(
    hex: string -> string, encode: Invitation -> string, decode: string -> Option<Invitation>,
    cleanName: string -> Option<string>, reachable: ClusterMember -> bool)

  function Digest(env: Env, credential: string): string {
    "sha256:" + env.hex(credential)
  }

  function KnownDigest(env: Env, m: StoredMember): string {
    if m.digest == "" then Digest(env, m.credential) else m.digest
  }

  /** What a roster message shows of a member. */
  function Shown(env: Env, m: StoredMember): AuthorizedMember {
    AuthorizedMember(m.member, KnownDigest(env, m))
  }

  function AuthorizedMembers(env: Env, ms: seq<StoredMember>): seq<AuthorizedMember> {
    seq(|ms|, i requires 0 <= i < |ms| => Shown(env, ms[i]))
  }

  /** The first accepted join with this request id, or the length. */
  function FirstJoin(js: seq<AcceptedJoin>, rid: RequestId): (k: nat)
    ensures k <= |js| && (k < |js| ==> js[k].requestId == rid)
    ensures forall i :: 0 <= i < k ==> js[i].requestId != rid
  {
    if js == [] || js[0].requestId == rid then 0 else 1 + FirstJoin(js[1..], rid)
  }

  predicate Answers(env: Env, m: StoredMember, device: DeviceId, digest: string) {
    m.member.deviceId == device && KnownDigest(env, m) == digest
  }

  /** The first member of this device whose digest is the presented one, or the length. */
  function FirstMatch(env: Env, ms: seq<StoredMember>, device: DeviceId, digest: string): (k: nat)
    ensures k <= |ms| && (k < |ms| ==> Answers(env, ms[k], device, digest))
    ensures forall i :: 0 <= i < k ==> !Answers(env, ms[i], device, digest)
  {
    if ms == [] || Answers(env, ms[0], device, digest) then 0
    else 1 + FirstMatch(env, ms[1..], device, digest)
  }

  /** Decides a peer's request from one agent's own record of the cluster. */
  function AuthorizeInCluster(env: Env, k: StoredCluster, a: Authorization, peer: DeviceId): Outcome<ClusterMember> {
    if a.deviceId != peer || a.clusterId != k.id then Refused(Unauthorized)
    else
      var i := FirstMatch(env, k.members, a.deviceId, Digest(env, a.credential));
      if i < |k.members| then Done(k.members[i].member) else Refused(Unauthorized)
  }

  predicate HasDevice(ms: seq<StoredMember>, d: DeviceId) {
    exists i :: 0 <= i < |ms| && ms[i].member.deviceId == d
  }

  // The state transitions, each as the source hands it to the store.

  function CreateCluster(env: Env, s: AgentState, endpoint: Endpoint, name: string, id: ClusterId,
                         token: string, credential: string, now: nat): Outcome<(AgentState, ClusterSummary)>
  {
    if s.cluster.Some? then Refused(AlreadyInCluster)
    else if s.pending.Some? then Refused(TransportError.Conflict)
    else
      var me := StoredMember(ClusterMember(s.deviceId, s.deviceName, endpoint, now), credential,
        Digest(env, credential));
      var k := StoredCluster(id, name, endpoint, s.deviceId, Coordinator, credential, Some(token), [me], []);
      Done((s.(cluster := Some(k)), k.Summary()))
  }

  function CreateInvite(env: Env, s: AgentState, secret: string): Outcome<(AgentState, string)> {
    if s.cluster.None? then Refused(NotInCluster)
    else
      var k := s.cluster.value;
      if k.role != Coordinator then Refused(NotCoordinator)
      else
        var token := env.encode(Invitation(k.id, k.coordinatorDeviceId, secret));
        Done((s.(cluster := Some(k.(inviteToken := Some(token)))), token))
  }

  /** A join in progress is resumed only for the same coordinator and invitation. */
  function BeginJoin(s: AgentState, coordinator: Endpoint, token: string, inv: Invitation, rid: RequestId)
    : Outcome<(AgentState, PendingJoin)>
  {
    if s.cluster.Some? then Refused(AlreadyInCluster)
    else match s.pending
      case Some(p) =>
        if p.coordinator == coordinator && p.inviteToken == token then Done((s, p))
        else Refused(TransportError.Conflict)
      case None =>
        var p := PendingJoin(coordinator, token, rid, inv.clusterId, inv.coordinatorDeviceId);
        Done((s.(pending := Some(p)), p))
  }

  function AbandonJoin(s: AgentState, p: PendingJoin): Outcome<(AgentState, ())> {
    if s.pending.Some? && s.pending.value.requestId == p.requestId then Done((s.(pending := None), ()))
    else Done((s, ()))
  }

  datatype JoinReply =
    JoinReply(summary: ClusterSummary, credential: string, roster: seq<AuthorizedMember>)

  /** How the exchange with the coordinator ended: no usable answer, an error from the coordinator
      or a peer that is not the invited one, or an acceptance. */
  datatype JoinExchange = Lost(error: TransportError) | Turned(error: TransportError) | Replied(reply: JoinReply)

  predicate Pinned(p: PendingJoin, summary: ClusterSummary) {
    summary.id == p.clusterId && summary.coordinatorDeviceId == p.coordinatorDeviceId
  }

  /** The roster as a joining member first stores it: digests only. */
  function Unsecret(roster: seq<AuthorizedMember>): seq<StoredMember> {
    seq(|roster|, i requires 0 <= i < |roster| => StoredMember(roster[i].member, "", roster[i].digest))
  }

  function FinishJoin(s: AgentState, p: PendingJoin, reply: JoinReply): Outcome<(AgentState, ())> {
    if !Pinned(p, reply.summary) then Refused(PeerIdentityMismatch)
    else if s.cluster.Some? then
      if s.cluster.value.id == reply.summary.id then Done((s.(pending := None), ()))
      else Refused(AlreadyInCluster)
    else if s.pending.None? || s.pending.value.requestId != p.requestId then Refused(TransportError.Conflict)
    else
      var k := StoredCluster(reply.summary.id, reply.summary.name, reply.summary.coordinator,
                             reply.summary.coordinatorDeviceId, Member, reply.credential, None,
                             Unsecret(reply.roster), []);
      Done((s.(cluster := Some(k), pending := None), ()))
  }

  function AcceptMember(env: Env, s: AgentState, token: string, m: ClusterMember, rid: RequestId,
                        peer: DeviceId, credential: string): Outcome<(AgentState, JoinReply)>
  {
    if !env.reachable(m) then Refused(InvalidMessage)
    else if m.deviceId != peer then Refused(Unauthorized)
    else if s.cluster.None? then Refused(NotInCluster)
    else
      var k := s.cluster.value;
      var i := FirstJoin(k.acceptedJoins, rid);
      if k.role != Coordinator then Refused(NotCoordinator)
      else if i < |k.acceptedJoins| then
        if k.acceptedJoins[i].deviceId != m.deviceId then Refused(InvalidInvite)
        else Done((s, JoinReply(k.Summary(), k.acceptedJoins[i].credential, AuthorizedMembers(env, k.members))))
      else if k.inviteToken != Some(token) then Refused(InvalidInvite)
      else if HasDevice(k.members, m.deviceId) then Refused(AlreadyInCluster)
      else
        var members := k.members + [StoredMember(m, credential, Digest(env, credential))];
        var joins := k.acceptedJoins + [AcceptedJoin(rid, m.deviceId, credential)];
        Done((s.(cluster := Some(k.(members := members, acceptedJoins := joins, inviteToken := None))),
            JoinReply(k.Summary(), credential, AuthorizedMembers(env, members))))
  }

  datatype RosterReply = RosterReply(summary: ClusterSummary, roster: seq<AuthorizedMember>)

  function RemoteMembers(env: Env, s: AgentState, a: Authorization, peer: DeviceId): Outcome<RosterReply> {
    if s.cluster.None? then Refused(NotInCluster)
    else
      var k := s.cluster.value;
      if k.role != Coordinator then Refused(NotCoordinator)
      else match AuthorizeInCluster(env, k, a, peer)
        case Refused(e) => Refused(e)
        case Done(_) => Done(RosterReply(k.Summary(), AuthorizedMembers(env, k.members)))
  }

  /** The roster as a member caches it: its own credential beside its own entry. */
  function Cached(roster: seq<AuthorizedMember>, self: DeviceId, credential: string): seq<StoredMember> {
    seq(|roster|, i requires 0 <= i < |roster| =>
      StoredMember(roster[i].member, if roster[i].member.deviceId == self then credential else "", roster[i].digest))
  }

  function StoreRoster(s: AgentState, reply: RosterReply): Outcome<(AgentState, ())> {
    if s.cluster.None? then Refused(NotInCluster)
    else
      var k := s.cluster.value;
      if k.id != reply.summary.id || k.coordinatorDeviceId != reply.summary.coordinatorDeviceId
      then Refused(Unauthorized)
      else
        Done((s.(cluster := Some(k.(name := reply.summary.name, coordinator := reply.summary.coordinator,
                                  members := Cached(reply.roster, s.deviceId, k.credential)))), ()))
  }

  /** After a new invitation, a newcomer with an unknown request id gets in with that invitation and
      with no other. */
  lemma InviteReplaces(env: Env, s: AgentState, secret: string, token: string, m: ClusterMember, rid: RequestId,
                       credential: string)
    requires CreateInvite(env, s, secret).Done? && env.reachable(m)
    requires !HasDevice(s.cluster.value.members, m.deviceId)
    requires forall i :: 0 <= i < |s.cluster.value.acceptedJoins| ==> s.cluster.value.acceptedJoins[i].requestId != rid
    ensures
      var (s', current) := CreateInvite(env, s, secret).value;
      AcceptMember(env, s', token, m, rid, m.deviceId, credential).Done? <==> token == current
  {
  }

  /** What the store holds after an update: an operation that fails leaves no trace. */
  function Saved<T>(s: AgentState, r: Outcome<(AgentState, T)>): AgentState {
    match r
    case Refused(_) => s
    case Done(done) => done.0.(revision := SaturatingNext(done.0.revision))
  }

  const U64_MAX: nat := 0xFFFF_FFFF_FFFF_FFFF

  function SaturatingNext(n: nat): nat {
    if n >= U64_MAX then U64_MAX else n + 1
  }

  function Answer<T>(r: Outcome<(AgentState, T)>): Outcome<T> {
    match r
    case Refused(e) => Refused(e)
    case Done(done) => Done(done.1)
  }

  /** The persisted state of one agent. */
  class ClusterStore {
    var state: AgentState

    constructor (deviceId: DeviceId, deviceName: string)
      ensures state == AgentState(0, deviceId, deviceName, None, None)
    {
      state := AgentState(0, deviceId, deviceName, None, None);
    }

    /** Reads, edits and writes back in one exclusive step; an error writes nothing. */
    method Update<T>(operation: AgentState -> Outcome<(AgentState, T)>) returns (r: Outcome<T>)
      modifies this
      ensures r.Done? <==> operation(old(state)).Done?
      ensures r.Refused? ==> state == old(state) && r.error == operation(old(state)).error
      ensures r.Done? ==>
        var (next, answer) := operation(old(state)).value;
        && r.value == answer && state == next.(revision := state.revision)
        && (next.revision < 0xFFFF_FFFF_FFFF_FFFF ==> state.revision == next.revision + 1)
        && (next.revision >= 0xFFFF_FFFF_FFFF_FFFF ==> state.revision == 0xFFFF_FFFF_FFFF_FFFF)
      ensures state == Saved(old(state), operation(old(state))) && r == Answer(operation(old(state)))
    {
      var result := operation(state);
      match result {
        case Refused(e) => r := Refused(e);
        case Done(done) =>
          state := done.0.(revision := SaturatingNext(done.0.revision));
          r := Done(done.1);
      }
    }

    method Create(env: Env, endpoint: Endpoint, name: string, id: ClusterId, secret: string, credential: string,
                  now: nat)
      returns (r: Outcome<(ClusterSummary, string)>)
      modifies this
      ensures env.cleanName(name).None? ==> r == Refused(InvalidMessage) && state == old(state)
      ensures env.cleanName(name).Some? ==>
        var token := env.encode(Invitation(id, old(state).deviceId, secret));
        var done := CreateCluster(env, old(state), endpoint, env.cleanName(name).value, id, token, credential, now);
        && state == Saved(old(state), done)
        && r == (match Answer(done) case Done(summary) => Done((summary, token)) case Refused(e) => Refused(e))
    {
      if env.cleanName(name).None? {
        return Refused(InvalidMessage);
      }
      var clean := env.cleanName(name).value;
      var token := env.encode(Invitation(id, state.deviceId, secret));
      var created := Update(s => CreateCluster(env, s, endpoint, clean, id, token, credential, now));
      r := match created case Done(summary) => Done((summary, token)) case Refused(e) => Refused(e);
    }

    /** The first half of a join: the early answer of a device that already belongs, or the
        request to send. */
    method StartJoin(env: Env, coordinator: Endpoint, token: string, rid: RequestId)
      returns (joined: Option<ClusterSummary>, r: Outcome<PendingJoin>)
      modifies this
      ensures env.decode(token).None? ==> joined.None? && r == Refused(InvalidInvite) && state == old(state)
      ensures joined.Some? ==>
        && state == old(state) && state.cluster.Some?
        && joined.value == state.cluster.value.Summary()
      ensures joined.Some? <==>
        && env.decode(token).Some? && old(state).cluster.Some?
        && old(state).cluster.value.coordinator == coordinator
        && old(state).cluster.value.id == env.decode(token).value.clusterId
        && old(state).cluster.value.coordinatorDeviceId == env.decode(token).value.coordinatorDeviceId
      ensures joined.None? && env.decode(token).Some? ==>
        var done := BeginJoin(old(state), coordinator, token, env.decode(token).value, rid);
        state == Saved(old(state), done) && r == Answer(done)
    {
      joined := None;
      if env.decode(token).None? {
        return None, Refused(InvalidInvite);
      }
      var inv := env.decode(token).value;
      if state.cluster.Some? {
        var k := state.cluster.value;
        if k.coordinator == coordinator && k.coordinatorDeviceId == inv.coordinatorDeviceId && k.id == inv.clusterId {
          return Some(k.Summary()), Refused(AlreadyInCluster);
        }
        return None, Refused(AlreadyInCluster);
      }
      r := Update(s => BeginJoin(s, coordinator, token, inv, rid));
    }

    /** The second half of a join, once the exchange with the coordinator is over. */
    method CompleteJoin(p: PendingJoin, exchange: JoinExchange) returns (r: Outcome<ClusterSummary>)
      modifies this
      ensures exchange.Lost? ==> state == old(state) && r == Refused(exchange.error)
      ensures exchange.Turned? ==>
        && state == Saved(old(state), AbandonJoin(old(state), p))
        && r == Refused(exchange.error)
      ensures exchange.Replied? ==>
        var done := FinishJoin(old(state), p, exchange.reply);
        && state == Saved(old(state), done)
        && r == (match Answer(done) case Done(_) => Done(exchange.reply.summary) case Refused(e) => Refused(e))
    {
      match exchange {
        case Lost(e) => r := Refused(e);
        case Turned(e) =>
          var _ := Update(s => AbandonJoin(s, p));
          r := Refused(e);
        case Replied(reply) =>
          if !Pinned(p, reply.summary) {
            return Refused(PeerIdentityMismatch);
          }
          var finished := Update(s => FinishJoin(s, p, reply));
          r := match finished case Done(_) => Done(reply.summary) case Refused(e) => Refused(e);
      }
    }

    /** A coordinator's invitation is replaced by the new one and nothing else changes; anyone else
        is refused. `InviteReplaces` says what that means for a device that asks. */
    method Invite(env: Env, secret: string) returns (r: Outcome<string>)
      modifies this
      ensures old(state).cluster.None? ==> r == Refused(NotInCluster) && state == old(state)
      ensures old(state).cluster.Some? && old(state).cluster.value.role == Member ==>
        r == Refused(NotCoordinator) && state == old(state)
      ensures old(state).cluster.Some? && old(state).cluster.value.role == Coordinator ==>
        var k := old(state).cluster.value;
        && r == Done(env.encode(Invitation(k.id, k.coordinatorDeviceId, secret)))
        && state == old(state).(cluster := Some(k.(inviteToken := Some(r.value))),
                                revision := SaturatingNext(old(state).revision))
      ensures state == Saved(old(state), CreateInvite(env, old(state), secret))
      ensures r == Answer(CreateInvite(env, old(state), secret))
    {
      r := Update(s => CreateInvite(env, s, secret));
    }

    method Accept(env: Env, token: string, m: ClusterMember, rid: RequestId, peer: DeviceId, credential: string)
      returns (r: Outcome<JoinReply>)
      modifies this
      ensures var done := AcceptMember(env, old(state), token, m, rid, peer, credential);
        state == Saved(old(state), done) && r == Answer(done)
    {
      if !env.reachable(m) {
        return Refused(InvalidMessage);
      }
      if m.deviceId != peer {
        return Refused(Unauthorized);
      }
      r := Update(s => AcceptMember(env, s, token, m, rid, peer, credential));
    }

    /** A roster of the own cluster replaces the cached members and the cluster's name and address;
        the own credential is kept, beside the own entry only. Any other roster is refused. */
    method Refresh(reply: RosterReply) returns (r: Outcome<()>)
      modifies this
      ensures old(state).cluster.None? ==> r == Refused(NotInCluster) && state == old(state)
      ensures old(state).cluster.Some? ==>
        var k := old(state).cluster.value;
        (r.Done? <==> k.id == reply.summary.id && k.coordinatorDeviceId == reply.summary.coordinatorDeviceId)
      ensures old(state).cluster.Some? && r.Refused? ==> r.error == Unauthorized && state == old(state)
      ensures old(state).cluster.Some? && r.Done? ==>
        && state == old(state).(cluster := state.cluster, revision := SaturatingNext(old(state).revision))
        && state.cluster.Some?
        && var k, l := old(state).cluster.value, state.cluster.value;
          && l.Summary() == reply.summary && l.role == k.role && l.credential == k.credential
          && l.inviteToken == k.inviteToken && l.acceptedJoins == k.acceptedJoins
          && |l.members| == |reply.roster|
          && forall i :: 0 <= i < |l.members| ==>
            && l.members[i].member == reply.roster[i].member && l.members[i].digest == reply.roster[i].digest
            && l.members[i].credential == if l.members[i].member.deviceId == state.deviceId then k.credential else ""
      ensures state == Saved(old(state), StoreRoster(old(state), reply)) && r == Answer(StoreRoster(old(state), reply))
    {
      r := Update(s => StoreRoster(s, reply));
    }
  }
}
