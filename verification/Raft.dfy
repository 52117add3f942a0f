/** Leader election as far as it is written: servers that vote, over a network that may lose,
    duplicate and reorder messages. No server restarts. */
module Raft {
  import opened Basics

  datatype Role = Follower | Candidate | Leader

  /** `votedFor` is -1 when the server has not voted; `counter` is never reset. */
  datatype Server = Server(role: Role, term: nat, votedFor: int, counter: nat, total: nat)

  datatype VoteReply = VoteReply(term: nat, granted: bool)

  datatype AppendReply = AppendReply(term: nat, success: bool)

  // ----- what the handlers do to a server

  function MakeFollower(s: Server, term: nat): Server {
    s.(role := Follower, term := term)
  }

  function MakeCandidate(s: Server, me: nat): Server {
    Server(Candidate, s.term + 1, me, s.counter + 1, s.total)
  }

  /** A granted vote leaves the reply's term at zero, and so does a refusal in the same term. */
  function OnRequestVote(s: Server, term: nat, candidate: nat): (Server, VoteReply) {
    if term < s.term then (s, VoteReply(s.term, false))
    else if term == s.term && s.votedFor != -1 && s.votedFor != candidate then (s, VoteReply(0, false))
    else (s.(votedFor := candidate, term := term), VoteReply(0, true))
  }

  /** A heartbeat of a current leader makes a follower, which keeps its own term. */
  function OnAppendEntries(s: Server, term: nat): (Server, AppendReply) {
    if term < s.term then (s, AppendReply(s.term, false))
    else (MakeFollower(s, s.term), AppendReply(s.term, true))
  }

  function OnVoteReply(s: Server, r: VoteReply): Server {
    if r.term > s.term then MakeFollower(s, r.term)
    else if r.granted then
      s.(counter := s.counter + 1,
      role := if s.counter + 1 > s.total / 2 && s.role == Candidate then Leader else s.role)
    else s
  }

  function OnAppendReply(s: Server, r: AppendReply): Server {
    if r.term > s.term then MakeFollower(s, r.term) else s
  }

  /** Counts votes; more than half of the total is a majority. */
  class Votes {
    var counter: nat
    const total: nat

    constructor (total: nat)
      ensures counter == 0 && this.total == total
    {
      counter := 0;
      this.total := total;
    }

    method Vote()
      modifies this
      ensures counter == old(counter) + 1
    {
      counter := counter + 1;
    }

    method HasMajority() returns (b: bool)
      ensures b <==> 2 * counter > total
    {
      b := counter > total / 2;
    }
  }

  class Peer {
    const me: nat
    const votes: Votes
    var role: Role
    var currentTerm: nat
    var votedFor: int

    ghost function View(): Server
      reads this, votes
    {
      Server(role, currentTerm, votedFor, votes.counter, votes.total)
    }

    constructor (me: nat, peers: nat)
      ensures this.me == me && fresh(votes)
      ensures View() == Server(Follower, 0, -1, 0, peers)
    {
      this.me := me;
      votes := new Votes(peers);
      role, currentTerm, votedFor := Follower, 0, -1;
    }

    method RequestVote(term: nat, candidate: nat) returns (reply: VoteReply)
      modifies this
      ensures (View(), reply) == OnRequestVote(old(View()), term, candidate)
      ensures reply.granted <==>
              term > old(currentTerm) || (term == old(currentTerm) && old(votedFor) in {-1, candidate as int})
      ensures reply.granted ==> currentTerm == term && votedFor == candidate
      ensures !reply.granted ==> unchanged(this)
      ensures role == old(role) && votes.counter == old(votes.counter) && currentTerm >= old(currentTerm)
      ensures reply.term == if term < old(currentTerm) then old(currentTerm) else 0
    {
      if term < currentTerm {
        reply := VoteReply(currentTerm, false);
      } else if term == currentTerm && votedFor != -1 && votedFor != candidate {
        reply := VoteReply(0, false);
      } else {
        votedFor := candidate;
        currentTerm := term;
        reply := VoteReply(0, true);
      }
    }

    method BecomeFollower(term: nat)
      modifies this
      ensures View() == MakeFollower(old(View()), term)
      ensures role == Follower && currentTerm == term
    {
      role := Follower;
      currentTerm := term;
    }

    method AppendEntries(term: nat) returns (reply: AppendReply)
      modifies this
      ensures (View(), reply) == OnAppendEntries(old(View()), term)
      ensures reply.term == old(currentTerm) && (reply.success <==> term >= old(currentTerm))
      ensures reply.success ==> role == Follower
      ensures !reply.success ==> role == old(role)
      ensures currentTerm == old(currentTerm) && votedFor == old(votedFor) && votes.counter == old(votes.counter)
    {
      reply := AppendReply(currentTerm, false);
      if term < currentTerm {
        return;
      }
      reply := reply.(success := true);
      BecomeFollower(reply.term);
    }

    method BecomeCandidate()
      modifies this, votes
      ensures View() == MakeCandidate(old(View()), me)
      ensures role == Candidate && currentTerm == old(currentTerm) + 1 && votedFor == me
      ensures votes.counter == old(votes.counter) + 1
    {
      role := Candidate;
      currentTerm := currentTerm + 1;
      votes.Vote();
      votedFor := me;
    }

    method HandleVoteReply(reply: VoteReply)
      modifies this, votes
      ensures View() == OnVoteReply(old(View()), reply)
      ensures votedFor == old(votedFor)
      ensures reply.term > old(currentTerm) ==>
                role == Follower && currentTerm == reply.term && votes.counter == old(votes.counter)
      ensures reply.term <= old(currentTerm) ==>
                && currentTerm == old(currentTerm)
                && votes.counter == old(votes.counter) + (if reply.granted then 1 else 0)
                && role == if reply.granted && old(role) == Candidate && 2 * votes.counter > votes.total
                           then Leader else old(role)
    {
      if reply.term > currentTerm {
        BecomeFollower(reply.term);
      } else if reply.granted {
        votes.Vote();
        var majority := votes.HasMajority();
        if majority && role == Candidate {
          role := Leader;
        }
      }
    }

    method HandleAppendReply(reply: AppendReply)
      modifies this
      ensures View() == OnAppendReply(old(View()), reply)
      ensures votedFor == old(votedFor) && votes.counter == old(votes.counter)
      ensures reply.term > old(currentTerm) ==> role == Follower && currentTerm == reply.term
      ensures reply.term <= old(currentTerm) ==> role == old(role) && currentTerm == old(currentTerm)
    {
      if reply.term > currentTerm {
        BecomeFollower(reply.term);
      }
    }
  }

  // ----- the cluster

  datatype Message =
    | AskVote(to: nat, term: nat, candidate: nat)
    | Voted(to: nat, vote: VoteReply)
    | Heartbeat(to: nat, term: nat)
    | Beaten(to: nat, beat: AppendReply)

  /** A server has given its vote to a candidate in a term. */
  datatype Grant = Grant(server: nat, term: nat, candidate: nat)

  /** Messages stay in the network: delivering one again, late or never are all possible. */
  datatype Cluster = Cluster(servers: seq<Server>, net: set<Message>, grants: set<Grant>)

  /** Requests carry the term the sender has when it sends, which may be later than the term
      it became a candidate in. */
  datatype Event =
    | Timeout(i: nat)
    | SendAskVote(i: nat, to: nat)
    | SendHeartbeat(i: nat, to: nat)
    | Deliver(from: nat, m: Message)

  ghost predicate Start(c: Cluster) {
    && c.net == {} && c.grants == {}
    && forall i :: 0 <= i < |c.servers| ==> c.servers[i] == Server(Follower, 0, -1, 0, |c.servers|)
  }

  predicate Enabled(c: Cluster, e: Event) {
    var n := |c.servers|;
    match e
    case Timeout(i) => i < n
    case SendAskVote(i, to) => i < n && to < n && i != to
    case SendHeartbeat(i, to) => i < n && to < n && i != to
    case Deliver(from, m) => m in c.net && m.to < n && from < n
  }

  function Next(c: Cluster, e: Event): Cluster
    requires Enabled(c, e)
  {
    match e
    case Timeout(i) =>
      var s := MakeCandidate(c.servers[i], i);
      Cluster(c.servers[i := s], c.net, c.grants + {Grant(i, s.term, i)})
    case SendAskVote(i, to) => c.(net := c.net + {AskVote(to, c.servers[i].term, i)})
    case SendHeartbeat(i, to) => c.(net := c.net + {Heartbeat(to, c.servers[i].term)})
    case Deliver(from, m) =>
      var s := c.servers[m.to];
      match m
      case AskVote(to, term, candidate) =>
        var (s', r) := OnRequestVote(s, term, candidate);
        Cluster(c.servers[to := s'], c.net + {Voted(candidate, r)},
                if r.granted then c.grants + {Grant(to, term, candidate)} else c.grants)
      case Voted(to, vote) => c.(servers := c.servers[to := OnVoteReply(s, vote)])
      case Heartbeat(to, term) =>
        var (s', r) := OnAppendEntries(s, term);
        c.(servers := c.servers[to := s'], net := c.net + {Beaten(from, r)})
      case Beaten(to, beat) => c.(servers := c.servers[to := OnAppendReply(s, beat)])
  }

  ghost predicate Run(run: seq<Cluster>, events: seq<Event>) {
    && |run| == |events| + 1
    && Start(run[0])
    && forall i :: 0 <= i < |events| ==> Enabled(run[i], events[i]) && run[i + 1] == Next(run[i], events[i])
  }

  /** A vote is in no later term than its server's, and in that term it is the vote the
      server remembers. */
  ghost predicate GrantOk(servers: seq<Server>, g: Grant) {
    && g.server < |servers|
    && g.term <= servers[g.server].term
    && (g.term == servers[g.server].term ==> servers[g.server].votedFor == g.candidate)
  }

  ghost predicate Inv(c: Cluster) {
    forall g :: g in c.grants ==> GrantOk(c.servers, g)
  }

  /** No two votes of one server in one term are for different candidates. */
  ghost predicate OneVotePerTerm(grants: set<Grant>) {
    forall g, h :: g in grants && h in grants && g.server == h.server && g.term == h.term ==>
      g.candidate == h.candidate
  }

  /** The vote an event gives, if it gives one. */
  function NewGrant(c: Cluster, e: Event): Option<Grant>
    requires Enabled(c, e)
  {
    match e
    case Timeout(i) => Some(Grant(i, c.servers[i].term + 1, i))
    case Deliver(_, AskVote(to, term, candidate)) =>
      if OnRequestVote(c.servers[to], term, candidate).1.granted then Some(Grant(to, term, candidate)) else None
    case _ => None
  }

  lemma NextGrants(c: Cluster, e: Event)
    requires Enabled(c, e)
    ensures Next(c, e).grants == c.grants + if NewGrant(c, e).Some? then {NewGrant(c, e).value} else {}
  {
  }

  /** An old vote stays in order, whatever happens to its server. */
  lemma NextGrantOk(c: Cluster, e: Event, g: Grant)
    requires Enabled(c, e) && GrantOk(c.servers, g)
    ensures GrantOk(Next(c, e).servers, g)
  {
  }

  lemma NewGrantOk(c: Cluster, e: Event)
    requires Enabled(c, e) && NewGrant(c, e).Some?
    ensures var g := NewGrant(c, e).value; var servers := Next(c, e).servers;
            GrantOk(servers, g) && g.term == servers[g.server].term
  {
  }

  lemma NextInv(c: Cluster, e: Event)
    requires Inv(c) && OneVotePerTerm(c.grants) && Enabled(c, e)
    ensures Inv(Next(c, e)) && OneVotePerTerm(Next(c, e).grants)
  {
    NextGrants(c, e);
    var servers := Next(c, e).servers;
    forall g | g in c.grants ensures GrantOk(servers, g) { NextGrantOk(c, e, g); }
    if NewGrant(c, e).Some? {
      NewGrantOk(c, e);
      NewGrantAgrees(servers, c.grants, NewGrant(c, e).value);
    }
  }

  /** Two votes of one server that are both in order, one in its current term, agree. */
  lemma NewGrantAgrees(servers: seq<Server>, grants: set<Grant>, vote: Grant)
    requires OneVotePerTerm(grants) && GrantOk(servers, vote) && vote.term == servers[vote.server].term
    requires forall g :: g in grants ==> GrantOk(servers, g)
    ensures OneVotePerTerm(grants + {vote})
  {
  }

  lemma NextLater(c: Cluster, e: Event)
    requires Enabled(c, e)
    ensures Later(c, Next(c, e))
  {
  }

  lemma {:induction false} RunInv(run: seq<Cluster>, events: seq<Event>, j: nat)
    requires Run(run, events) && j < |run|
    ensures Inv(run[j]) && OneVotePerTerm(run[j].grants)
  {
    if j > 0 {
      RunInv(run, events, j - 1);
      NextInv(run[j - 1], events[j - 1]);
      assert run[j - 1 + 1] == Next(run[j - 1], events[j - 1]);
    }
  }

  /** What a later state of the cluster keeps of an earlier one. */
  ghost predicate Later(c: Cluster, d: Cluster) {
    && c.grants <= d.grants && |c.servers| == |d.servers|
    && forall s :: 0 <= s < |c.servers| ==> c.servers[s].term <= d.servers[s].term
  }

  lemma LaterTransitive(a: Cluster, b: Cluster, c: Cluster)
    requires Later(a, b) && Later(b, c)
    ensures Later(a, c)
  {
  }

  /** Over every run each server votes for at most one candidate per term, votes are never
      taken back, and terms never decrease. */
  lemma {:induction false} VoteOnce(run: seq<Cluster>, events: seq<Event>, i: nat, j: nat)
    requires Run(run, events) && i <= j < |run|
    ensures OneVotePerTerm(run[j].grants) && Later(run[i], run[j])
  {
    RunInv(run, events, j);
    if i < j {
      VoteOnce(run, events, i, j - 1);
      NextLater(run[j - 1], events[j - 1]);
      assert run[j - 1 + 1] == Next(run[j - 1], events[j - 1]);
      LaterTransitive(run[i], run[j - 1], run[j]);
    }
  }

  /** The servers that voted for a candidate in a term. */
  ghost function Voters(grants: set<Grant>, term: nat, candidate: nat): set<nat> {
    set g | g in grants && g.term == term && g.candidate == candidate :: g.server
  }

  /** Election safety over votes: in no run do two candidates hold, in one term, votes from
      more than half of the servers. */
  lemma ElectionSafety(run: seq<Cluster>, events: seq<Event>, i: nat, term: nat, a: nat, b: nat)
    requires Run(run, events) && i < |run|
    requires 2 * |Voters(run[i].grants, term, a)| > |run[i].servers|
    requires 2 * |Voters(run[i].grants, term, b)| > |run[i].servers|
    ensures a == b
  {
    RunInv(run, events, i);
    var va, vb, all := Voters(run[i].grants, term, a), Voters(run[i].grants, term, b), UpTo(|run[i].servers|);
    assert va <= all && vb <= all;
    CardinalityMonotone(va + vb, all);
    assert |va + vb| == |va| + |vb| - |va * vb|;
    assert va * vb != {};
    MeetingVote(run[i].grants, term, a, b);
  }

  /** A server in both sets of voters voted twice in the term. */
  lemma MeetingVote(grants: set<Grant>, term: nat, a: nat, b: nat)
    requires OneVotePerTerm(grants)
    requires Voters(grants, term, a) * Voters(grants, term, b) != {}
    ensures a == b
  {
    var s := Pick(Voters(grants, term, a) * Voters(grants, term, b));
    assert Grant(s, term, a) in grants && Grant(s, term, b) in grants;
  }

  // ----- stepping down

  /** The event is a heartbeat to server i that is not of an earlier term, or a reply to it of a
      later term. */
  predicate Deposes(c: Cluster, e: Event, i: nat)
    requires i < |c.servers|
  {
    e.Deliver? && e.m.to == i &&
    match e.m
    case AskVote(_, _, _) => false
    case Heartbeat(_, term) => term >= c.servers[i].term
    case Voted(_, vote) => vote.term > c.servers[i].term
    case Beaten(_, beat) => beat.term > c.servers[i].term
  }

  /** The term a reply brings. */
  function Brought(m: Message): nat {
    match m
    case Voted(_, vote) => vote.term
    case Beaten(_, beat) => beat.term
    case _ => 0
  }

  /** After a current heartbeat or a reply of a later term a server is a follower until it times
      out, so it is not promoted; its term is no earlier than the reply's. */
  lemma {:induction false} DeposedStaysFollower(run: seq<Cluster>, events: seq<Event>, k: nat, j: nat, i: nat)
    requires Run(run, events) && k < j < |run| && i < |run[k].servers| && Deposes(run[k], events[k], i)
    requires forall m :: k < m < j ==> events[m] != Timeout(i)
    ensures i < |run[j].servers| && run[j].servers[i].role == Follower
    ensures run[j].servers[i].term >= Brought(events[k].m) && run[j].servers[i].term >= run[k].servers[i].term
    ensures j == k + 1 && Brought(events[k].m) > run[k].servers[i].term ==>
              run[j].servers[i].term == Brought(events[k].m)
  {
    assert run[j - 1 + 1] == Next(run[j - 1], events[j - 1]);
    if j > k + 1 {
      DeposedStaysFollower(run, events, k, j - 1, i);
      NextLater(run[j - 1], events[j - 1]);
    }
  }

  /** The answer to a heartbeat carries the receiver's term and says whether it was accepted. */
  lemma HeartbeatAnswered(run: seq<Cluster>, events: seq<Event>, k: nat)
    requires Run(run, events) && k < |events| && events[k].Deliver? && events[k].m.Heartbeat?
    ensures var s, from := run[k].servers[events[k].m.to], events[k].from;
            Beaten(from, AppendReply(s.term, events[k].m.term >= s.term)) in run[k + 1].net
  {
  }
}
