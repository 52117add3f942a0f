/** When the leader role means an elected leader. The code does not ensure it: a server counts
    votes of earlier terms, and a leader that votes in a later term takes the term and keeps
    its role. Exactly when neither happens, every leader was voted for by more than half. */
module RaftLeader {
  import opened Basics
  import opened Raft

  /** Server i holds votes of more than half of the servers in its term. */
  ghost predicate Won(c: Cluster, i: nat)
    requires i < |c.servers|
  {
    2 * |Voters(c.grants, c.servers[i].term, i)| > |c.servers|
  }

  ghost predicate Elected(c: Cluster) {
    forall i :: 0 <= i < |c.servers| && c.servers[i].role == Leader ==> Won(c, i)
  }

  /** The event makes a candidate leader. */
  predicate Promotes(c: Cluster, e: Event)
    requires Enabled(c, e)
  {
    e.Deliver? && e.m.Voted? && c.servers[e.m.to].role == Candidate &&
    OnVoteReply(c.servers[e.m.to], e.m.vote).role == Leader
  }

  /** The event asks a leader for its vote in a later term, which it gives. */
  predicate Overtakes(c: Cluster, e: Event)
    requires Enabled(c, e)
  {
    e.Deliver? && e.m.AskVote? && c.servers[e.m.to].role == Leader && e.m.term > c.servers[e.m.to].term
  }

  /** A promotion comes with votes of more than half in the current term, and no leader is
      overtaken. */
  ghost predicate Honest(c: Cluster, e: Event)
    requires Enabled(c, e)
  {
    (Promotes(c, e) ==> Won(c, e.m.to)) && !Overtakes(c, e)
  }

  /** The count a promotion relies on, with the vote just received, is of votes given to the
      candidate in its current term. */
  ghost predicate FairCount(c: Cluster, e: Event)
    requires Enabled(c, e)
  {
    Promotes(c, e) ==>
      var s := c.servers[e.m.to];
      s.counter + 1 <= |Voters(c.grants, s.term, e.m.to)|
  }

  // ----- what every run keeps

  /** Nobody asks for a vote or holds one in a term it has not reached, or asks itself. */
  ghost predicate Reached(c: Cluster) {
    && (forall i :: 0 <= i < |c.servers| ==> c.servers[i].total == |c.servers|)
    && (forall m :: m in c.net && m.AskVote? ==> ReachedBy(c.servers, m.candidate, m.term) && m.to != m.candidate)
    && (forall g :: g in c.grants ==> ReachedBy(c.servers, g.candidate, g.term))
  }

  predicate ReachedBy(servers: seq<Server>, candidate: nat, term: nat) {
    candidate < |servers| && term <= servers[candidate].term
  }

  lemma NextReached(c: Cluster, e: Event)
    requires Reached(c) && Enabled(c, e)
    ensures Reached(Next(c, e))
  {
    var d := Next(c, e);
    NextLater(c, e);
    NextGrants(c, e);
    forall m | m in d.net && m.AskVote? ensures ReachedBy(d.servers, m.candidate, m.term) && m.to != m.candidate {
      assert m in c.net || (e.SendAskVote? && m == AskVote(e.to, c.servers[e.i].term, e.i));
    }
    forall g | g in d.grants ensures ReachedBy(d.servers, g.candidate, g.term) {
      assert g in c.grants || NewGrant(c, e) == Some(g);
    }
  }

  lemma {:induction false} RunReached(run: seq<Cluster>, events: seq<Event>, j: nat)
    requires Run(run, events) && j < |run|
    ensures Reached(run[j])
  {
    if j > 0 {
      RunReached(run, events, j - 1);
      NextReached(run[j - 1], events[j - 1]);
      assert run[j - 1 + 1] == Next(run[j - 1], events[j - 1]);
    }
  }

  /** A server that has won in a term has won in it ever after. */
  lemma WonStays(c: Cluster, d: Cluster, i: nat)
    requires Later(c, d) && i < |c.servers| && Won(c, i) && d.servers[i].term == c.servers[i].term
    ensures Won(d, i)
  {
    VotersGrow(c.grants, d.grants, c.servers[i].term, i);
  }

  lemma VotersGrow(g: set<Grant>, h: set<Grant>, term: nat, a: nat)
    requires g <= h
    ensures |Voters(g, term, a)| <= |Voters(h, term, a)|
  {
    CardinalityMonotone(Voters(g, term, a), Voters(h, term, a));
  }

  // ----- one step

  /** A leader after an event that overtakes nobody was leader in the same term, or is the
      one promoted. */
  lemma LeaderBefore(c: Cluster, e: Event, i: nat)
    requires Enabled(c, e) && !Overtakes(c, e) && i < |c.servers|
    ensures |Next(c, e).servers| == |c.servers|
    ensures Next(c, e).servers[i].role == Leader ==>
              && Next(c, e).servers[i].term == c.servers[i].term
              && (c.servers[i].role == Leader || (Promotes(c, e) && e.m.to == i))
  {
  }

  lemma NextElected(c: Cluster, e: Event)
    requires Enabled(c, e) && Elected(c) && Honest(c, e)
    ensures Elected(Next(c, e))
  {
    var d := Next(c, e);
    NextLater(c, e);
    forall i | 0 <= i < |d.servers| && d.servers[i].role == Leader ensures Won(d, i) {
      LeaderBefore(c, e, i);
      WonStays(c, d, i);
    }
  }

  /** An event that is not honest leaves a leader without a majority of votes in its term. */
  lemma NextNotElected(c: Cluster, e: Event)
    requires Reached(c) && Enabled(c, e) && !Honest(c, e)
    ensures !Elected(Next(c, e))
  {
    var d, i := Next(c, e), e.m.to;
    if Overtakes(c, e) {
      assert d.servers[i].role == Leader && d.servers[i].term == e.m.term;
      NextGrants(c, e);
      assert Voters(d.grants, e.m.term, i) == {};
      assert !Won(d, i);
    } else {
      assert d.servers[i].role == Leader && d.servers[i].term == c.servers[i].term && d.grants == c.grants;
      assert !Won(d, i);
    }
  }

  // ----- main results

  /** In a run every leader always holds votes of more than half of the servers in its term,
      if and only if every promotion comes with such votes and no leader is overtaken. */
  lemma {:induction false} LeadersElected(run: seq<Cluster>, events: seq<Event>, n: nat)
    requires Run(run, events) && n <= |events|
    ensures (forall j :: 0 <= j <= n ==> Elected(run[j])) <==> (forall j :: 0 <= j < n ==> Honest(run[j], events[j]))
  {
    if n > 0 {
      var c, e := run[n - 1], events[n - 1];
      assert run[n - 1 + 1] == Next(c, e);
      LeadersElected(run, events, n - 1);
      RunReached(run, events, n - 1);
      assert Elected(c) ==> (Elected(run[n]) <==> Honest(c, e)) by {
        if Honest(c, e) {
          if Elected(c) { NextElected(c, e); }
        } else {
          NextNotElected(c, e);
        }
      }
    }
  }

  lemma FairCountIsHonest(c: Cluster, e: Event)
    requires Reached(c) && Enabled(c, e) && FairCount(c, e) && !Overtakes(c, e)
    ensures Honest(c, e)
  {
  }

  /** One leader per term: in a run whose promotions count only votes of the current term and
      in which no leader is overtaken, two servers that are leader in one term, at the same
      or at different times, are the same. */
  lemma OneLeader(run: seq<Cluster>, events: seq<Event>, i: nat, j: nat, a: nat, b: nat)
    requires Run(run, events) && i <= j < |run|
    requires forall k :: 0 <= k < |events| ==> FairCount(run[k], events[k]) && !Overtakes(run[k], events[k])
    requires a < |run[i].servers| && b < |run[j].servers|
    requires run[i].servers[a].role == Leader && run[j].servers[b].role == Leader
    requires run[i].servers[a].term == run[j].servers[b].term
    ensures a == b
  {
    forall k | 0 <= k < |events| ensures Honest(run[k], events[k]) {
      RunReached(run, events, k);
      FairCountIsHonest(run[k], events[k]);
    }
    LeadersElected(run, events, |events|);
    assert Elected(run[i]) && Elected(run[j]);
    VoteOnce(run, events, i, j);
    var term := run[i].servers[a].term;
    VotersGrow(run[i].grants, run[j].grants, term, a);
    ElectionSafety(run, events, j, term, a, b);
  }

  // ----- one leader per term, from the events alone

  /** A server becomes candidate only before it has counted a vote, so only once. */
  predicate FreshCandidate(c: Cluster, e: Event)
    requires Enabled(c, e)
  {
    e.Timeout? ==> c.servers[e.i].counter == 0
  }

  /** Only candidates and leaders ask for votes. */
  predicate AsksInOffice(c: Cluster, e: Event)
    requires Enabled(c, e)
  {
    e.SendAskVote? ==> c.servers[e.i].role != Follower
  }

  /** A candidate or leader is not asked for its vote in a later term. */
  predicate Undisturbed(c: Cluster, e: Event)
    requires Enabled(c, e)
  {
    e.Deliver? && e.m.AskVote? && c.servers[e.m.to].role != Follower ==> e.m.term <= c.servers[e.m.to].term
  }

  /** The event brings server i a vote. */
  predicate BringsVote(e: Event, i: nat) {
    e.Deliver? && e.m.Voted? && e.m.to == i && e.m.vote.granted
  }

  /** How many of the first n events brought server i a vote. */
  function Received(events: seq<Event>, i: nat, n: nat): nat
    requires n <= |events|
  {
    if n == 0 then 0 else Received(events, i, n - 1) + if BringsVote(events[n - 1], i) then 1 else 0
  }

  /** The other servers that ever voted for server i. */
  ghost function Supporters(grants: set<Grant>, i: nat): set<nat> {
    set g | g in grants && g.candidate == i && g.server != i :: g.server
  }

  /** The server an event is delivered to. */
  function Recipient(e: Event): nat {
    if e.Deliver? then e.m.to else 0
  }

  /** Servers are candidates once, only they ask, and candidates and leaders are undisturbed. */
  predicate Calm(c: Cluster, e: Event)
    requires Enabled(c, e)
  {
    FreshCandidate(c, e) && AsksInOffice(c, e) && Undisturbed(c, e)
  }

  /** A server that has been brought n votes is brought another only if more others voted for it. */
  ghost predicate Backed(c: Cluster, e: Event, n: nat) {
    BringsVote(e, Recipient(e)) ==> n < |Supporters(c.grants, Recipient(e))|
  }

  /** A run of calm events in which no server is brought more votes than others gave it. */
  ghost predicate Orderly(run: seq<Cluster>, events: seq<Event>) {
    Run(run, events) && forall k :: 0 <= k < |events| ==>
      Calm(run[k], events[k]) && Backed(run[k], events[k], Received(events, Recipient(events[k]), k))
  }

  /** What server i asked for and was given is of the term it is candidate or leader in, and
      is nothing before it has counted a vote. */
  ghost predicate InTerm(c: Cluster, i: nat, term: nat) {
    i < |c.servers| ==>
      var s := c.servers[i];
      s.counter > 0 && (s.role != Follower ==> term == s.term)
  }

  ghost predicate Tidy(c: Cluster) {
    && (forall m :: m in c.net && m.AskVote? ==> InTerm(c, m.candidate, m.term))
    && (forall m :: m in c.net && m.Voted? && m.vote.granted ==> m.vote.term == 0)
    && (forall g :: g in c.grants ==> InTerm(c, g.candidate, g.term))
    && (forall i :: 0 <= i < |c.servers| && c.servers[i].role != Follower ==>
          c.servers[i].counter > 0 && Grant(i, c.servers[i].term, i) in c.grants)
  }

  /** What one undisturbed event does to a server. */
  lemma ServerStep(c: Cluster, e: Event, i: nat)
    requires Tidy(c) && Enabled(c, e) && FreshCandidate(c, e) && Undisturbed(c, e) && i < |c.servers|
    ensures |Next(c, e).servers| == |c.servers|
    ensures var s, s' := c.servers[i], Next(c, e).servers[i];
            && s.counter <= s'.counter
            && (e == Timeout(i) ==> s.counter == 0 && s'.counter == 1)
            && (s'.role != Follower ==> e == Timeout(i) || (s.role != Follower && s'.term == s.term))
  {
  }

  /** What server i asked for and was given stays of its term. */
  lemma InTermStays(c: Cluster, e: Event, i: nat, term: nat)
    requires Tidy(c) && Enabled(c, e) && FreshCandidate(c, e) && Undisturbed(c, e)
    requires InTerm(c, i, term)
    ensures InTerm(Next(c, e), i, term)
  {
    if i < |c.servers| {
      ServerStep(c, e, i);
    }
  }

  lemma AsksStep(c: Cluster, e: Event, m: Message)
    requires Tidy(c) && Enabled(c, e) && Calm(c, e)
    requires m in Next(c, e).net
    ensures m.AskVote? ==> InTerm(Next(c, e), m.candidate, m.term)
    ensures m.Voted? && m.vote.granted ==> m.vote.term == 0
  {
    if m.AskVote? && m in c.net {
      InTermStays(c, e, m.candidate, m.term);
    }
  }

  lemma GrantsStep(c: Cluster, e: Event, g: Grant)
    requires Tidy(c) && Enabled(c, e) && FreshCandidate(c, e) && Undisturbed(c, e) && g in Next(c, e).grants
    ensures InTerm(Next(c, e), g.candidate, g.term)
  {
    NextGrants(c, e);
    if g in c.grants {
      InTermStays(c, e, g.candidate, g.term);
    } else if e.Deliver? {
      InTermStays(c, e, e.m.candidate, e.m.term);
    }
  }

  lemma NextTidy(c: Cluster, e: Event)
    requires Tidy(c) && Enabled(c, e) && Calm(c, e)
    ensures Tidy(Next(c, e))
  {
    var d := Next(c, e);
    forall m | m in d.net
      ensures m.AskVote? ==> InTerm(d, m.candidate, m.term)
      ensures m.Voted? && m.vote.granted ==> m.vote.term == 0
    {
      AsksStep(c, e, m);
    }
    forall g | g in d.grants ensures InTerm(d, g.candidate, g.term) { GrantsStep(c, e, g); }
    NextGrants(c, e);
    forall i | 0 <= i < |d.servers| && d.servers[i].role != Follower
      ensures d.servers[i].counter > 0 && Grant(i, d.servers[i].term, i) in d.grants
    {
      ServerStep(c, e, i);
    }
  }

  lemma {:induction false} RunTidy(run: seq<Cluster>, events: seq<Event>, j: nat)
    requires Orderly(run, events) && j < |run|
    ensures Tidy(run[j])
  {
    if j > 0 {
      RunTidy(run, events, j - 1);
      assert run[j - 1 + 1] == Next(run[j - 1], events[j - 1]);
      assert Calm(run[j - 1], events[j - 1]);
      NextTidy(run[j - 1], events[j - 1]);
    }
  }

  /** A server has counted no more than its own vote and those it was brought. */
  lemma {:induction false} RunCounts(run: seq<Cluster>, events: seq<Event>, i: nat, j: nat)
    requires Orderly(run, events) && j < |run| && i < |run[j].servers|
    ensures run[j].servers[i].counter <= 1 + Received(events, i, j)
  {
    if j > 0 {
      assert run[j - 1 + 1] == Next(run[j - 1], events[j - 1]);
      assert Calm(run[j - 1], events[j - 1]);
      NextLater(run[j - 1], events[j - 1]);
      RunCounts(run, events, i, j - 1);
      CountStep(run[j - 1], events[j - 1], i);
    }
  }

  lemma CountStep(c: Cluster, e: Event, i: nat)
    requires Enabled(c, e) && FreshCandidate(c, e) && i < |c.servers|
    ensures |Next(c, e).servers| == |c.servers|
    ensures Next(c, e).servers[i].counter <= 1 || Next(c, e).servers[i].counter <=
            c.servers[i].counter + if BringsVote(e, i) then 1 else 0
  {
  }

  /** A candidate's supporters and itself are its voters of its term. */
  lemma SupportersVoted(c: Cluster, i: nat)
    requires Tidy(c) && i < |c.servers| && c.servers[i].role != Follower
    ensures |Supporters(c.grants, i)| + 1 <= |Voters(c.grants, c.servers[i].term, i)|
  {
    var sup, voters := Supporters(c.grants, i), Voters(c.grants, c.servers[i].term, i);
    forall v | v in sup + {i} ensures v in voters {
      if v in sup {
        var g :| g in c.grants && g.candidate == i && g.server == v;
        assert InTerm(c, i, g.term);
      } else {
        assert Grant(i, c.servers[i].term, i) in c.grants;
      }
    }
    CardinalityMonotone(sup + {i}, voters);
  }

  /** In an orderly run every promotion counts only votes of its term and no leader is
      overtaken. */
  lemma OrderlyIsFair(run: seq<Cluster>, events: seq<Event>, k: nat)
    requires Orderly(run, events) && k < |events|
    ensures FairCount(run[k], events[k]) && !Overtakes(run[k], events[k])
  {
    var c, e := run[k], events[k];
    RunTidy(run, events, k);
    if Promotes(c, e) {
      var i := e.m.to;
      assert BringsVote(e, i) && Backed(c, e, Received(events, i, k));
      RunCounts(run, events, i, k);
      SupportersVoted(c, i);
    }
  }

  /** One leader per term, from what servers and network do: in every orderly run two servers
      that are leader in one term, at the same or at different times, are the same. */
  lemma OrderlyOneLeader(run: seq<Cluster>, events: seq<Event>, i: nat, j: nat, a: nat, b: nat)
    requires Orderly(run, events) && i <= j < |run|
    requires a < |run[i].servers| && b < |run[j].servers|
    requires run[i].servers[a].role == Leader && run[j].servers[b].role == Leader
    requires run[i].servers[a].term == run[j].servers[b].term
    ensures a == b
  {
    forall k | 0 <= k < |events| ensures FairCount(run[k], events[k]) && !Overtakes(run[k], events[k]) {
      OrderlyIsFair(run, events, k);
    }
    OneLeader(run, events, i, j, a, b);
  }

  lemma {:induction false} ReceivedPrefix(events: seq<Event>, e: Event, i: nat, n: nat)
    requires n <= |events|
    ensures Received(events + [e], i, n) == Received(events, i, n)
  {
    if n > 0 {
      ReceivedPrefix(events, e, i, n - 1);
    }
  }

  lemma ExtendOrderly(run: seq<Cluster>, events: seq<Event>, e: Event, d: Cluster)
    requires Orderly(run, events) && Enabled(run[|events|], e) && Next(run[|events|], e) == d
    requires Calm(run[|events|], e) && Backed(run[|events|], e, Received(events, Recipient(e), |events|))
    ensures Orderly(run + [d], events + [e])
  {
    var run', events' := run + [d], events + [e];
    forall k | 0 <= k < |events'|
      ensures Enabled(run'[k], events'[k]) && run'[k + 1] == Next(run'[k], events'[k]) && Calm(run'[k], events'[k])
      ensures Backed(run'[k], events'[k], Received(events', Recipient(events'[k]), k))
    {
      ReceivedPrefix(events, e, Recipient(events'[k]), k);
      if k < |events| {
        assert Calm(run[k], events[k]) && run[k + 1] == Next(run[k], events[k]);
      }
    }
  }

  /** Orderly runs do elect leaders. */
  lemma OrderlyElects() returns (run: seq<Cluster>, events: seq<Event>)
    ensures Orderly(run, events) && |run[|events|].servers| == 3 && run[|events|].servers[0].role == Leader
  {
    var idle, s0, s1 := Server(Follower, 0, -1, 0, 3), Server(Candidate, 1, 0, 1, 3), Server(Follower, 1, 0, 0, 3);
    var ask, vote, own, other := AskVote(1, 1, 0), Voted(0, VoteReply(0, true)), Grant(0, 1, 0), Grant(1, 1, 0);
    var a, b := Cluster([idle, idle, idle], {}, {}), Cluster([s0, idle, idle], {}, {own});
    var c, d := Cluster([s0, idle, idle], {ask}, {own}), Cluster([s0, s1, idle], {ask, vote}, {own, other});
    ExtendOrderly([a], [], Timeout(0), b);
    ExtendOrderly([a] + [b], [] + [Timeout(0)], SendAskVote(0, 1), c);
    ExtendOrderly([a] + [b] + [c], [] + [Timeout(0)] + [SendAskVote(0, 1)], Deliver(0, ask), d);
    run, events := [a] + [b] + [c] + [d], [] + [Timeout(0)] + [SendAskVote(0, 1)] + [Deliver(0, ask)];
    assert Supporters(d.grants, 0) == {1};
    assert Received(events, 0, 1) == 0;
    assert Received(events, 0, 2) == 0;
    assert Received(events, 0, 3) == 0;
    var last := Cluster([Server(Leader, 1, 0, 2, 3), s1, idle], {ask, vote}, {own, other});
    ExtendOrderly(run, events, Deliver(1, vote), last);
    run, events := run + [last], events + [Deliver(1, vote)];
  }

  // ----- runs with two leaders in one term

  ghost predicate TwoLeaders(c: Cluster) {
    exists a, b :: 0 <= a < b < |c.servers| && c.servers[a].role == Leader && c.servers[b].role == Leader
                   && c.servers[a].term == c.servers[b].term
  }

  /** What a run is to respect: promotions count only votes of the current term, no leader is
      overtaken, no server is a candidate after it has counted a vote. */
  datatype Guards = Guards(fair: bool, steady: bool, once: bool)

  ghost predicate Respects(g: Guards, c: Cluster, e: Event)
    requires Enabled(c, e)
  {
    && (g.fair ==> FairCount(c, e)) && (g.steady ==> !Overtakes(c, e))
    && (g.once ==> FreshCandidate(c, e))
  }

  ghost predicate Kept(run: seq<Cluster>, events: seq<Event>, g: Guards) {
    Run(run, events) && forall k :: 0 <= k < |events| ==> Respects(g, run[k], events[k])
  }

  lemma Extend(run: seq<Cluster>, events: seq<Event>, g: Guards, e: Event, d: Cluster)
    returns (run': seq<Cluster>, events': seq<Event>)
    requires Kept(run, events, g)
    requires Enabled(run[|events|], e) && Next(run[|events|], e) == d && Respects(g, run[|events|], e)
    ensures Kept(run', events', g) && run'[|events'|] == d
    ensures |run'[0].servers| == |run[0].servers|
  {
    run', events' := run + [d], events + [e];
    forall k | 0 <= k < |events'|
      ensures Enabled(run'[k], events'[k]) && run'[k + 1] == Next(run'[k], events'[k])
      ensures Respects(g, run'[k], events'[k])
    {
      if k < |events| {
        assert Enabled(run[k], events[k]) && run[k + 1] == Next(run[k], events[k]);
      }
    }
  }

  const YES := VoteReply(0, true)

  /** A server of a cluster of three. */
  function S(role: Role, term: nat, votedFor: int, counter: nat): Server {
    Server(role, term, votedFor, counter, 3)
  }

  lemma Fresh() returns (run: seq<Cluster>, events: seq<Event>)
    ensures Kept(run, events, Guards(true, true, true)) && |run[0].servers| == 3
    ensures var idle := S(Follower, 0, -1, 0); run[|events|] == Cluster([idle, idle, idle], {}, {})
  {
    var idle := S(Follower, 0, -1, 0);
    run, events := [Cluster([idle, idle, idle], {}, {})], [];
  }

  /** Server 1 votes for server 0 in term 1. */
  lemma FirstVote() returns (run: seq<Cluster>, events: seq<Event>)
    ensures Kept(run, events, Guards(true, true, true)) && |run[0].servers| == 3
    ensures run[|events|] == Cluster([S(Candidate, 1, 0, 1), S(Follower, 1, 0, 0), S(Follower, 0, -1, 0)],
                                     {AskVote(1, 1, 0), Voted(0, YES)}, {Grant(0, 1, 0), Grant(1, 1, 0)})
  {
    var idle, s0, s1 := S(Follower, 0, -1, 0), S(Candidate, 1, 0, 1), S(Follower, 1, 0, 0);
    var ask, own, g := AskVote(1, 1, 0), Grant(0, 1, 0), Guards(true, true, true);
    run, events := Fresh();
    run, events := Extend(run, events, g, Timeout(0), Cluster([s0, idle, idle], {}, {own}));
    run, events := Extend(run, events, g, SendAskVote(0, 1), Cluster([s0, idle, idle], {ask}, {own}));
    run, events := Extend(run, events, g, Deliver(0, ask),
                          Cluster([s0, s1, idle], {ask, Voted(0, YES)}, {own, Grant(1, 1, 0)}));
  }

  /** A vote of term 1 that arrives in term 2 is counted there: server 0 becomes leader of
      term 2 with its own vote only, beside server 1, which was elected. No leader is
      overtaken. */
  lemma CarriedOverVote() returns (run: seq<Cluster>, events: seq<Event>)
    ensures Kept(run, events, Guards(false, true, false)) && |run[0].servers| == 3 && TwoLeaders(run[|events|])
  {
    var g := Guards(false, true, false);
    run, events := FirstVote();
    var net, grants := {AskVote(1, 1, 0), Voted(0, YES)}, {Grant(0, 1, 0), Grant(1, 1, 0)};
    var s0, s1, s2 := S(Candidate, 2, 0, 2), S(Candidate, 2, 1, 1), S(Follower, 0, -1, 0);
    grants := grants + {Grant(0, 2, 0)};
    run, events := Extend(run, events, g, Timeout(0), Cluster([s0, S(Follower, 1, 0, 0), s2], net, grants));
    grants := grants + {Grant(1, 2, 1)};
    run, events := Extend(run, events, g, Timeout(1), Cluster([s0, s1, s2], net, grants));
    net := net + {AskVote(2, 2, 1)};
    run, events := Extend(run, events, g, SendAskVote(1, 2), Cluster([s0, s1, s2], net, grants));
    net, grants, s2 := net + {Voted(1, YES)}, grants + {Grant(2, 2, 1)}, S(Follower, 2, 1, 0);
    run, events := Extend(run, events, g, Deliver(1, AskVote(2, 2, 1)), Cluster([s0, s1, s2], net, grants));
    s1 := S(Leader, 2, 1, 2);
    run, events := Extend(run, events, g, Deliver(2, Voted(1, YES)), Cluster([s0, s1, s2], net, grants));
    s0 := S(Leader, 2, 0, 3);
    run, events := Extend(run, events, g, Deliver(1, Voted(0, YES)), Cluster([s0, s1, s2], net, grants));
    assert run[|events|].servers[0].role == Leader && run[|events|].servers[1].role == Leader;
  }

  /** A leader that votes for a candidate of a later term takes that term and stays leader in
      it, beside the candidate it helps to elect. Every promotion counts only votes of its
      term. */
  lemma OvertakenLeader() returns (run: seq<Cluster>, events: seq<Event>)
    ensures Kept(run, events, Guards(true, false, true)) && |run[0].servers| == 3 && TwoLeaders(run[|events|])
  {
    var g := Guards(true, false, true);
    run, events := FirstVote();
    var net, grants := {AskVote(1, 1, 0), Voted(0, YES)}, {Grant(0, 1, 0), Grant(1, 1, 0)};
    var s0, s1, s2 := S(Leader, 1, 0, 2), S(Follower, 1, 0, 0), S(Follower, 0, -1, 0);
    assert Voters(grants, 1, 0) == {0, 1};
    run, events := Extend(run, events, g, Deliver(1, Voted(0, YES)), Cluster([s0, s1, s2], net, grants));
    s1, grants := S(Candidate, 2, 1, 1), grants + {Grant(1, 2, 1)};
    run, events := Extend(run, events, g, Timeout(1), Cluster([s0, s1, s2], net, grants));
    net := net + {AskVote(0, 2, 1)};
    run, events := Extend(run, events, g, SendAskVote(1, 0), Cluster([s0, s1, s2], net, grants));
    s0, net, grants := S(Leader, 2, 1, 2), net + {Voted(1, YES)}, grants + {Grant(0, 2, 1)};
    run, events := Extend(run, events, g, Deliver(1, AskVote(0, 2, 1)), Cluster([s0, s1, s2], net, grants));
    s1 := S(Leader, 2, 1, 2);
    assert Voters(grants, 2, 1) == {0, 1};
    run, events := Extend(run, events, g, Deliver(0, Voted(1, YES)), Cluster([s0, s1, s2], net, grants));
    assert run[|events|].servers[0].role == Leader && run[|events|].servers[1].role == Leader;
  }

  /** A candidate that votes for a candidate of a later term takes that term, stays candidate,
      and is promoted there on a vote of the earlier term, beside the candidate it helps to
      elect. Nobody is a candidate twice and no leader is overtaken. */
  lemma VotingCandidate() returns (run: seq<Cluster>, events: seq<Event>)
    ensures Kept(run, events, Guards(false, true, true)) && |run[0].servers| == 3 && TwoLeaders(run[|events|])
  {
    var g := Guards(false, true, true);
    run, events := FirstVote();
    var net, grants := {AskVote(1, 1, 0), Voted(0, YES)}, {Grant(0, 1, 0), Grant(1, 1, 0)};
    var s0, s1, s2 := S(Candidate, 1, 0, 1), S(Candidate, 2, 1, 1), S(Follower, 0, -1, 0);
    grants := grants + {Grant(1, 2, 1)};
    run, events := Extend(run, events, g, Timeout(1), Cluster([s0, s1, s2], net, grants));
    net := net + {AskVote(0, 2, 1)};
    run, events := Extend(run, events, g, SendAskVote(1, 0), Cluster([s0, s1, s2], net, grants));
    s0, net, grants := S(Candidate, 2, 1, 1), net + {Voted(1, YES)}, grants + {Grant(0, 2, 1)};
    run, events := Extend(run, events, g, Deliver(1, AskVote(0, 2, 1)), Cluster([s0, s1, s2], net, grants));
    s0 := S(Leader, 2, 1, 2);
    run, events := Extend(run, events, g, Deliver(1, Voted(0, YES)), Cluster([s0, s1, s2], net, grants));
    s1 := S(Leader, 2, 1, 2);
    run, events := Extend(run, events, g, Deliver(0, Voted(1, YES)), Cluster([s0, s1, s2], net, grants));
    assert run[|events|].servers[0].role == Leader && run[|events|].servers[1].role == Leader;
  }
}
