/** The node's handlers as they run against Raft, call by call. */
module RaftNode {
  import opened Options
  import opened Cluster
  import opened Membership
  import opened Convergence
  import I = Interleaving

  /** The part of hashicorp/raft behind `raftInterface`. `answers` decides, call by call,
      which changes fail; `reachable` whether the configuration can be read. */
  class Raft {
    var servers: seq<Server>
    var trace: seq<Event>
    var leader: bool
    var reachable: bool
    const answers: seq<Reply>

    /** Raft never lists an ID twice. */
    ghost predicate Valid()
      reads this
    {
      Distinct(servers)
    }

    constructor (servers: seq<Server>, leader: bool, reachable: bool, answers: seq<Reply>)
      requires Distinct(servers)
      ensures Valid()
      ensures this.servers == servers && this.leader == leader && this.reachable == reachable
      ensures this.answers == answers && this.trace == []
    {
      this.servers, this.trace, this.leader, this.reachable, this.answers := servers, [], leader, reachable, answers;
    }

    ghost function State(): RaftState
      reads this
    {
      RaftState(servers, trace)
    }

    ghost function Snapshot(): Option<Config>
      reads this
    {
      if reachable then Some(View(servers)) else None
    }

    /** What a goroutine that begins now would plan. */
    ghost function Goroutine(self: Id, proc: I.Proc): seq<Action>
      reads this
    {
      I.Plan(self, proc, leader, reachable, servers)
    }

    method GetConfiguration() returns (ok: bool, configuration: seq<Server>)
      ensures ok == reachable
      ensures ok ==> configuration == servers
    {
      ok, configuration := reachable, if reachable then servers else [];
    }

    method AddVoter(id: Id, addr: Addr) returns (ok: bool)
      requires Valid()
      modifies this`servers, this`trace
      ensures Valid()
      ensures State() == Submit(old(State()), Call.AddVoter(id, addr), answers)
      ensures ok == Answer(answers, |old(trace)|).Committed?
    {
      var reply := Answer(answers, |trace|);
      trace := trace + [Event(Call.AddVoter(id, addr), reply)];
      if reply != Refused {
        PutView(servers, id, addr);
        servers := Put(servers, id, addr);
      }
      ok := reply.Committed?;
    }

    method RemoveServer(id: Id) returns (ok: bool)
      requires Valid()
      modifies this`servers, this`trace
      ensures Valid()
      ensures State() == Submit(old(State()), Call.RemoveServer(id), answers)
      ensures ok == Answer(answers, |old(trace)|).Committed?
    {
      var reply := Answer(answers, |trace|);
      trace := trace + [Event(Call.RemoveServer(id), reply)];
      if reply != Refused {
        DropView(servers, id);
        servers := Drop(servers, id);
      }
      ok := reply.Committed?;
    }
  }

  /** `gossip` is what the gossip function yields: nothing before gossip is up. */
  class Node {
    var raft: Raft?
    var selfID: Id
    var gossip: Option<seq<Member>>

    constructor (raft: Raft?, selfID: Id, gossip: Option<seq<Member>>)
      ensures this.raft == raft && this.selfID == selfID && this.gossip == gossip
    {
      this.raft, this.selfID, this.gossip := raft, selfID, gossip;
    }

    method ReconcileMembers()
      requires raft != null ==> raft.Valid()
      modifies raft
      ensures raft != null ==> raft.Valid()
      ensures raft != null && gossip.Some? && old(raft.leader && raft.reachable) ==>
                raft.State() == Issue(old(raft.State()), PassActions(selfID, gossip.value, old(raft.servers)), raft.answers)
      ensures raft != null && !(gossip.Some? && old(raft.leader && raft.reachable)) ==> raft.State() == old(raft.State())
      ensures raft != null && gossip.Some? ==>
                raft.State() == Issue(old(raft.State()), old(raft.Goroutine(selfID, I.PassDue(gossip.value))), raft.answers)
    {
      if raft == null || gossip.None? {
        return;
      }
      hide Issue, PassActions, Distinct;
      IssueNothing(raft.State(), raft.answers);
      ReconcileMembersWithRaft(raft, selfID, gossip.value);
    }

    /** The full pass: additions and replacements member by member, then the removal of
        every server gossip no longer lists, all decided from one snapshot. */
    method ReconcileMembersWithRaft(ra: Raft, self: Id, members: seq<Member>)
      requires ra.Valid()
      modifies ra`servers, ra`trace
      ensures ra.Valid()
      ensures old(ra.leader && ra.reachable) ==>
                ra.State() == Issue(old(ra.State()), PassActions(self, members, old(ra.servers)), ra.answers)
      ensures !old(ra.leader && ra.reachable) ==> ra.State() == old(ra.State())
      ensures old(ra.leader && ra.reachable) && UniqueIds(members) && AllCommit(ra.answers) ==>
                View(ra.servers) == Target(Goals(self, members), View(old(ra.servers)))
    {
      if !ra.leader {
        return;
      }
      var ok, servers := ra.GetConfiguration();
      if !ok {
        return;
      }
      ghost var start := ra.State();
      var raftServers := ServerMap(servers);
      var gossipMembers := AddOrReplace(ra, self, members, raftServers);
      RemoveStale(ra, self, gossipMembers, servers);
      IssueAppend(start, AllMemberActions(self, members, raftServers), StaleActions(self, gossipMembers, servers), ra.answers);
      if UniqueIds(members) && AllCommit(ra.answers) {
        PassReachesTarget(self, members, start, ra.answers);
      }
    }

    /** The first loop of a pass. */
    method ServerMap(servers: seq<Server>) returns (raftServers: map<Id, Addr>)
      ensures raftServers == View(servers)
    {
      raftServers := map[];
      for i := 0 to |servers|
        invariant raftServers == View(servers[..i])
      {
        assert servers[..i + 1][..i] == servers[..i];
        raftServers := raftServers[servers[i].id := servers[i].addr];
      }
      assert servers[..|servers|] == servers;
    }

    /** The loop over gossip members. */
    method AddOrReplace(ra: Raft, self: Id, members: seq<Member>, raftServers: map<Id, Addr>)
      returns (gossipMembers: set<Id>)
      requires ra.Valid()
      modifies ra`servers, ra`trace
      ensures ra.Valid() && gossipMembers == Ids(members)
      ensures ra.State() == Issue(old(ra.State()), AllMemberActions(self, members, raftServers), ra.answers)
    {
      hide Issue, Submit, Distinct;
      ghost var start := ra.State();
      ghost var plan: seq<Action> := [];
      IssueNothing(start, ra.answers);
      gossipMembers := {};
      for i := 0 to |members|
        invariant gossipMembers == Ids(members[..i])
        invariant plan == AllMemberActions(self, members[..i], raftServers)
        invariant ra.Valid() && ra.State() == Issue(start, plan, ra.answers)
      {
        var member := members[i];
        assert members[..i + 1] == members[..i] + [member];
        MemberActionsLast(self, members[..i], member, raftServers);
        gossipMembers := gossipMembers + {member.id};
        ghost var known := plan;
        plan := plan + MemberActions(self, member, raftServers);
        assert known + [] == known;
        if member.id == self || !member.bootstrapped || member.raftAddr == "" {
          continue;
        }
        var listed := member.id in raftServers;
        if listed && raftServers[member.id] == member.raftAddr {
          continue;
        }
        ghost var action := if listed then Replace(member.id, member.raftAddr, false) else Add(member.id, member.raftAddr);
        assert plan == known + [action];
        IssueLast(start, known, action, ra.answers);
        if listed {
          var removed := ra.RemoveServer(member.id);
          if !removed {
            continue;
          }
        }
        var added := ra.AddVoter(member.id, member.raftAddr);
      }
      assert members[..|members|] == members;
    }

    /** The loop over the servers of the snapshot. */
    method RemoveStale(ra: Raft, self: Id, gossipMembers: set<Id>, servers: seq<Server>)
      requires ra.Valid()
      modifies ra`servers, ra`trace
      ensures ra.Valid()
      ensures ra.State() == Issue(old(ra.State()), StaleActions(self, gossipMembers, servers), ra.answers)
    {
      hide Issue, Submit, Distinct;
      ghost var start := ra.State();
      ghost var plan: seq<Action> := [];
      IssueNothing(start, ra.answers);
      for i := 0 to |servers|
        invariant plan == StaleActions(self, gossipMembers, servers[..i])
        invariant ra.Valid() && ra.State() == Issue(start, plan, ra.answers)
      {
        var serverID := servers[i].id;
        assert servers[..i + 1] == servers[..i] + [servers[i]];
        StaleActionsLast(self, gossipMembers, servers[..i], servers[i]);
        if serverID == self || serverID in gossipMembers {
          continue;
        }
        IssueLast(start, plan, Remove(serverID), ra.answers);
        plan := plan + [Remove(serverID)];
        var removed := ra.RemoveServer(serverID);
      }
      assert servers[..|servers|] == servers;
    }

    method HandlePeerJoin(peer: Peer)
      requires raft != null ==> raft.Valid()
      modifies raft
      ensures raft != null ==> raft.Valid()
      ensures raft != null && old(raft.leader) ==>
                raft.State() == Issue(old(raft.State()),
                                      JoinActions(selfID, peer, gossip, old(raft.Snapshot())), raft.answers)
      ensures raft != null && !old(raft.leader) ==> raft.State() == old(raft.State())
      ensures raft != null ==>
                raft.State() == Issue(old(raft.State()), old(raft.Goroutine(selfID, I.JoinDue(peer, gossip))), raft.answers)
    {
      hide Issue, View, Distinct, Vouched;
      if raft != null {
        IssueNothing(raft.State(), raft.answers);
      }
      if raft == null || peer.id == selfID {
        return;
      }
      HandlePeerJoinWithRaft(raft, peer, gossip);
    }

    /** A joined peer is added at its address; one listed elsewhere is first removed, and
        added even if the removal is reported to have failed. */
    method HandlePeerJoinWithRaft(ra: Raft, peer: Peer, g: Option<seq<Member>>)
      requires ra.Valid()
      modifies ra`servers, ra`trace
      ensures ra.Valid()
      ensures old(ra.leader) ==>
                ra.State() == Issue(old(ra.State()), PeerActions(peer, g, old(ra.Snapshot())), ra.answers)
      ensures !old(ra.leader) ==> ra.State() == old(ra.State())
    {
      if !ra.leader {
        return;
      }
      ghost var start := ra.State();
      IssueNothing(start, ra.answers);
      if peer.raftAddr == "" {
        return;
      }
      var vouched := IsPeerBootstrappedWithGossip(peer.id, g);
      if !vouched {
        return;
      }
      hide Issue, Submit, Vouched, View, Distinct;
      var ok, servers := ra.GetConfiguration();
      ghost var known := View(servers);
      ghost var listed := false;
      if ok {
        var i := 0;
        while i < |servers|
          invariant i <= |servers|
          invariant forall j | 0 <= j < i :: servers[j].id != peer.id
          invariant ra.State() == start && ra.Valid() && !listed
        {
          if servers[i].id == peer.id {
            ViewOfDistinct(servers, i);
            if servers[i].addr == peer.raftAddr {
              return;
            }
            listed := true;
            var removed := ra.RemoveServer(servers[i].id);
            break;
          }
          i := i + 1;
        }
        if !listed && peer.id in known {
          var j := ViewListed(servers, peer.id);
        }
      }
      ghost var action := if listed then Replace(peer.id, peer.raftAddr, true) else Add(peer.id, peer.raftAddr);
      IssueOne(start, action, ra.answers);
      var added := ra.AddVoter(peer.id, peer.raftAddr);
    }

    method IsPeerBootstrappedWithGossip(peerID: Id, g: Option<seq<Member>>) returns (b: bool)
      ensures b == Vouched(peerID, g)
      ensures g.None? ==> b
      ensures g.Some? ==> (b <==> exists i | 0 <= i < |g.value| :: IsFirst(peerID, g.value, i) && g.value[i].bootstrapped)
      ensures g.Some? && UniqueIds(g.value) ==> (b <==> exists m | m in g.value :: m.id == peerID && m.bootstrapped)
    {
      if g.None? {
        return true;
      }
      FirstDecides(peerID, g.value);
      var members := g.value;
      for i := 0 to |members|
        invariant forall j | 0 <= j < i :: members[j].id != peerID
        invariant FirstBootstrapped(peerID, members) == FirstBootstrapped(peerID, members[i..])
      {
        if members[i].id == peerID {
          assert members[i..][0] == members[i];
          return members[i].bootstrapped;
        }
        assert members[i..][1..] == members[i + 1..];
      }
      return false;
    }

    method HandlePeerLeave(peer: Peer)
      requires raft != null ==> raft.Valid()
      modifies raft
      ensures raft != null ==> raft.Valid()
      ensures raft != null && old(raft.leader) ==>
                raft.State() == Issue(old(raft.State()), LeaveActions(selfID, peer.id), raft.answers)
      ensures raft != null && !old(raft.leader) ==> raft.State() == old(raft.State())
      ensures raft != null ==>
                raft.State() == Issue(old(raft.State()), old(raft.Goroutine(selfID, I.LeaveDue(peer.id))), raft.answers)
    {
      hide Issue, View, Distinct;
      if raft != null {
        IssueNothing(raft.State(), raft.answers);
      }
      if raft == null || !raft.leader || peer.id == selfID {
        return;
      }
      ghost var start := raft.State();
      IssueOne(start, Remove(peer.id), raft.answers);
      var removed := raft.RemoveServer(peer.id);
    }
  }
}
