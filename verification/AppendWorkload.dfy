/** Many clients appending to one shared list with Get and a versioned Put: no acknowledged
    append is lost, whatever the network drops, and the harness's final check passes. */
module AppendWorkload {
  import opened KvStore
  import opened Clerks
  import opened Basics

  /** An appended pair: which client, and the number of its iteration. */
  datatype Entry = Entry(id: nat, n: nat)

  /** JSON encoding of the list, taken as an inverse pair. */
  datatype Codec = Codec(enc: seq<Entry> -> string, dec: string -> seq<Entry>)

  ghost predicate Inverse(j: Codec) {
    forall es :: j.dec(j.enc(es)) == es
  }

  const KEY := "k"

  datatype Pc = Reading | Writing(version: nat, es: seq<Entry>)

  /** A client in iteration i; `ok` and `maybe` record the iterations that ended each way. */
  datatype Client = Client(i: nat, nok: nat, nmaybe: nat, pc: Pc, ok: set<nat>, maybe: set<nat>)

  /** What a client was told: the version of the list it read, or the result of the append of
      an iteration. */
  datatype Outcome = Looked(client: nat, version: nat) | Did(client: nat, n: nat, err: Err)

  /** `log` lists what the clients were told and steers nothing. */
  datatype State = State(kv: Clerks.State, clients: seq<Client>, log: seq<Outcome>)

  function Wants(j: Codec, w: State, c: nat): Call
    requires c < |w.clients|
  {
    match w.clients[c].pc
    case Reading => Get(KEY)
    case Writing(v, es) => Put(KEY, j.enc(es + [Entry(c, w.clients[c].i)]), v)
  }

  function After(j: Codec, p: Client, r: Reply): Client {
    match p.pc
    case Reading => p.(pc := Writing(r.version, j.dec(r.value)))
    case Writing(_, _) =>
      if r.err == OK then Client(p.i + 1, p.nok + 1, p.nmaybe, Reading, p.ok + {p.i}, p.maybe)
      else if r.err == ErrMaybe then Client(p.i + 1, p.nok, p.nmaybe + 1, Reading, p.ok, p.maybe + {p.i})
      else p.(pc := Reading)
  }

  /** The list starts empty at version 1. */
  ghost predicate Start(j: Codec, w: State) {
    && w.kv.store == map[KEY := ValueVersion(j.enc([]), 1)]
    && |w.kv.clerks| == |w.clients| && w.log == []
    && forall c :: 0 <= c < |w.clients| ==>
        w.kv.clerks[c].Idle? && w.clients[c] == Client(0, 0, 0, Reading, {}, {})
  }

  ghost predicate Allowed(j: Codec, w: State, e: Event) {
    && |w.kv.clerks| == |w.clients|
    && Enabled(w.kv, e)
    && (e.Invoke? ==> e.call == Wants(j, w, e.c))
  }

  function Step(j: Codec, w: State, e: Event): State
    requires |w.kv.clerks| == |w.clients| && Enabled(w.kv, e)
  {
    var kv' := Next(w.kv, e);
    if e.Return? then
      var p, r := w.clients[e.c], Result(w.kv.clerks[e.c]);
      State.State(kv', w.clients[e.c := After(j, p, r)],
                  w.log + [if p.pc.Writing? then Did(e.c, p.i, r.err) else Looked(e.c, r.version)])
    else w.(kv := kv')
  }

  ghost predicate Run(j: Codec, run: seq<State>, events: seq<Event>) {
    && |run| == |events| + 1
    && Start(j, run[0])
    && forall i :: 0 <= i < |events| ==> Allowed(j, run[i], events[i]) && run[i + 1] == Step(j, run[i], events[i])
  }

  // ----- the list

  function List(j: Codec, w: State): seq<Entry> {
    j.dec(Lookup(w.kv.store, KEY).value)
  }

  /** Each client's numbers strictly increase along the list. */
  ghost predicate Increasing(es: seq<Entry>) {
    forall a, b :: 0 <= a < b < |es| && es[a].id == es[b].id ==> es[a].n < es[b].n
  }

  ghost predicate Landed(w: State, c: nat)
    requires c < |w.kv.clerks|
  {
    w.kv.clerks[c].Busy? && w.kv.clerks[c].landed
  }

  ghost predicate ListOk(j: Codec, w: State) {
    var cur, es := Lookup(w.kv.store, KEY), List(j, w);
    && KEY in w.kv.store && cur.value == j.enc(es) && |es| + 1 == cur.version
    && Increasing(es)
    && (forall a :: 0 <= a < |es| ==> es[a].id < |w.clients|)
  }

  ghost predicate CallOk(j: Codec, w: State, c: nat)
    requires c < |w.clients| == |w.kv.clerks|
  {
    var p, k, cur := w.clients[c], w.kv.clerks[c], Lookup(w.kv.store, KEY);
    && (k.Busy? ==> k.call == Wants(j, w, c))
    && (p.pc.Writing? ==> p.pc.version <= cur.version && (p.pc.version == cur.version ==> p.pc.es == List(j, w)))
  }

  /** What the list holds of one client's appends. */
  ghost predicate EntriesOk(j: Codec, w: State, c: nat)
    requires c < |w.clients| == |w.kv.clerks|
  {
    var p, es := w.clients[c], List(j, w);
    && (forall a :: 0 <= a < |es| && es[a].id == c ==> es[a].n < p.i || (es[a].n == p.i && Landed(w, c)))
    && (Landed(w, c) ==> Entry(c, p.i) in es)
    && (forall n :: n in p.ok ==> Entry(c, n) in es)
  }

  ghost predicate CountsOk(p: Client) {
    && (forall n: nat :: n < p.i <==> n in p.ok || n in p.maybe)
    && p.ok !! p.maybe && |p.ok| == p.nok && |p.maybe| == p.nmaybe
  }

  ghost predicate ClientsOk(j: Codec, w: State)
    requires |w.kv.clerks| == |w.clients|
  {
    forall c :: 0 <= c < |w.clients| ==> CallOk(j, w, c) && EntriesOk(j, w, c) && CountsOk(w.clients[c])
  }

  ghost predicate Inv(j: Codec, w: State) {
    |w.kv.clerks| == |w.clients| && Clerks.Inv(w.kv) && ListOk(j, w) && ClientsOk(j, w)
  }

  /** A write that lands extends the list by the pair of its client. */
  lemma LandingAppends(j: Codec, w: State, e: Event)
    requires Inverse(j) && Inv(j, w) && Allowed(j, w, e) && e.Execute?
    requires Lands(w.kv.store, w.kv.clerks[e.c].call)
    ensures w.clients[e.c].pc.Writing? && !Landed(w, e.c)
    ensures List(j, Step(j, w, e)) == List(j, w) + [Entry(e.c, w.clients[e.c].i)]
    ensures ListOk(j, Step(j, w, e))
  {
    assert CallOk(j, w, e.c) && EntriesOk(j, w, e.c);
    assert ClerkOk(w.kv.store, w.kv.clerks[e.c]);
    var es, w' := List(j, w), Step(j, w, e);
    assert j.dec(j.enc(es + [Entry(e.c, w.clients[e.c].i)])) == es + [Entry(e.c, w.clients[e.c].i)];
    var es' := List(j, w');
    forall a, b | 0 <= a < b < |es'| && es'[a].id == es'[b].id
      ensures es'[a].n < es'[b].n
    {
      assert es'[a] == es[a];
      if b < |es| {
        assert es'[b] == es[b];
      }
    }
  }

  lemma StepCallOk(j: Codec, w: State, e: Event, c: nat)
    requires Inverse(j) && Inv(j, w) && Allowed(j, w, e) && c < |w.clients|
    ensures CallOk(j, Step(j, w, e), c)
  {
    assert CallOk(j, w, c) && ClerkOk(w.kv.store, w.kv.clerks[c]);
  }

  /** An append of one client keeps what the list holds of every client. */
  lemma LandingEntriesOk(j: Codec, w: State, e: Event, c: nat)
    requires Inverse(j) && Inv(j, w) && Allowed(j, w, e) && c < |w.clients|
    requires e.Execute? && Lands(w.kv.store, w.kv.clerks[e.c].call)
    ensures EntriesOk(j, Step(j, w, e), c)
  {
    assert EntriesOk(j, w, c);
    LandingAppends(j, w, e);
    var es, w' := List(j, w), Step(j, w, e);
    var es' := List(j, w');
    assert es'[|es|] == Entry(e.c, w.clients[e.c].i);
    forall a | 0 <= a < |es'| && es'[a].id == c
      ensures es'[a].n < w'.clients[c].i || (es'[a].n == w'.clients[c].i && Landed(w', c))
    {
      if a < |es| { assert es'[a] == es[a]; }
    }
  }

  lemma StepEntriesOk(j: Codec, w: State, e: Event, c: nat)
    requires Inverse(j) && Inv(j, w) && Allowed(j, w, e) && c < |w.clients|
    ensures EntriesOk(j, Step(j, w, e), c)
  {
    if e.Execute? && Lands(w.kv.store, w.kv.clerks[e.c].call) {
      LandingEntriesOk(j, w, e, c);
    } else {
      assert CallOk(j, w, c) && EntriesOk(j, w, c) && ClerkOk(w.kv.store, w.kv.clerks[c]);
      assert Step(j, w, e).kv.store == w.kv.store;
      if e.Return? && e.c == c {
        ReturnEntriesOk(j, w, e);
      }
    }
  }

  lemma ReturnEntriesOk(j: Codec, w: State, e: Event)
    requires Inv(j, w) && Allowed(j, w, e) && e.Return?
    ensures EntriesOk(j, Step(j, w, e), e.c)
  {
    assert CallOk(j, w, e.c) && EntriesOk(j, w, e.c) && ClerkOk(w.kv.store, w.kv.clerks[e.c]);
  }

  lemma AfterCountsOk(j: Codec, p: Client, r: Reply)
    requires CountsOk(p)
    ensures CountsOk(After(j, p, r))
  {
  }

  lemma StepInv(j: Codec, w: State, e: Event)
    requires Inverse(j) && Inv(j, w) && Allowed(j, w, e)
    ensures Inv(j, Step(j, w, e))
  {
    var w' := Step(j, w, e);
    Clerks.NextInv(w.kv, e);
    if e.Execute? && Lands(w.kv.store, w.kv.clerks[e.c].call) {
      LandingAppends(j, w, e);
    }
    forall c | 0 <= c < |w'.clients|
      ensures CallOk(j, w', c) && EntriesOk(j, w', c) && CountsOk(w'.clients[c])
    {
      StepCallOk(j, w, e, c);
      StepEntriesOk(j, w, e, c);
      assert CountsOk(w.clients[c]);
      if e.Return? {
        AfterCountsOk(j, w.clients[e.c], Clerks.Result(w.kv.clerks[e.c]));
      }
    }
  }

  lemma {:induction false} RunInv(j: Codec, run: seq<State>, events: seq<Event>, i: nat)
    requires Inverse(j) && Run(j, run, events) && i < |run|
    ensures Inv(j, run[i])
  {
    if i == 0 {
      assert j.dec(j.enc([])) == [];
    } else {
      RunInv(j, run, events, i - 1);
      StepInv(j, run[i - 1], events[i - 1]);
      assert run[i - 1 + 1] == Step(j, run[i - 1], events[i - 1]);
    }
  }

  // ----- the harness's check

  datatype ClntRes = ClntRes(nok: nat, nmaybe: nat)

  function Count(es: seq<Entry>, c: nat): nat {
    if es == [] then 0 else Count(es[..|es| - 1], c) + if es[|es| - 1].id == c then 1 else 0
  }

  /** One more than the last number client c has in the list. */
  function Expect(es: seq<Entry>, c: nat): nat {
    if es == [] then 0
    else if es[|es| - 1].id == c then es[|es| - 1].n + 1
    else Expect(es[..|es| - 1], c)
  }

  function Numbers(es: seq<Entry>, c: nat): (ns: set<nat>)
    ensures forall n :: n in ns <==> Entry(c, n) in es
  {
    if es == [] then {}
    else
      assert es == es[..|es| - 1] + [es[|es| - 1]];
      Numbers(es[..|es| - 1], c) + if es[|es| - 1].id == c then {es[|es| - 1].n} else {}
  }

  /** In an increasing list a client's numbers are below what comes next, and distinct. */
  lemma {:induction false} NumbersBelow(es: seq<Entry>, c: nat)
    requires Increasing(es)
    ensures forall n :: n in Numbers(es, c) ==> n < Expect(es, c)
    ensures Expect(es, c) > 0 ==> Expect(es, c) - 1 in Numbers(es, c)
  {
    if es != [] {
      FrontIncreasing(es);
      if es[|es| - 1].id != c {
        NumbersBelow(es[..|es| - 1], c);
      }
    }
  }

  lemma {:induction false} NumbersCount(es: seq<Entry>, c: nat)
    requires Increasing(es)
    ensures |Numbers(es, c)| == Count(es, c)
  {
    if es != [] {
      FrontIncreasing(es);
      NumbersCount(es[..|es| - 1], c);
    }
  }

  lemma FrontIncreasing(es: seq<Entry>)
    requires es != [] && Increasing(es)
    ensures var front, last := es[..|es| - 1], es[|es| - 1];
            && Increasing(front)
            && forall n :: n in Numbers(front, last.id) ==> n < last.n
  {
    var front, last := es[..|es| - 1], es[|es| - 1];
    forall n | n in Numbers(front, last.id) ensures n < last.n {
      var a :| 0 <= a < |front| && front[a] == Entry(last.id, n);
      assert es[a] == front[a];
    }
  }

  /** What the check asks for, without its loop. */
  ghost predicate Passes(es: seq<Entry>, rs: seq<ClntRes>, version: nat) {
    && Increasing(es) && |es| + 1 == version
    && forall c :: 0 <= c < |rs| ==>
        && Expect(es, c) - Count(es, c) <= rs[c].nmaybe
        && Expect(es, c) <= rs[c].nok + rs[c].nmaybe
  }

  lemma IncreasingSnoc(es: seq<Entry>, k: nat)
    requires k < |es| && Increasing(es[..k])
    ensures Increasing(es[..k + 1]) <==> Expect(es[..k], es[k].id) <= es[k].n
    ensures Increasing(es) ==> Increasing(es[..k + 1])
  {
    var front, c := es[..k], es[k].id;
    NumbersBelow(front, c);
    assert es[..k + 1] == front + [es[k]];
    if Expect(front, c) <= es[k].n {
      forall a | 0 <= a < k && es[a].id == c ensures es[a].n < es[k].n {
        assert front[a] == Entry(c, es[a].n);
        assert es[a].n in Numbers(front, c);
      }
    } else {
      var a :| 0 <= a < k && front[a] == Entry(c, Expect(front, c) - 1);
      assert es[..k + 1][a].n >= es[..k + 1][k].n;
    }
  }

  lemma CountSnoc(es: seq<Entry>, k: nat, c: nat)
    requires k < |es|
    ensures Expect(es[..k + 1], c) == if c == es[k].id then es[k].n + 1 else Expect(es[..k], c)
    ensures Count(es[..k + 1], c) == Count(es[..k], c) + if c == es[k].id then 1 else 0
  {
    assert es[..k + 1][..k] == es[..k];
  }

  method CheckAppends(es: seq<Entry>, rs: seq<ClntRes>, version: nat) returns (ok: bool)
    requires forall a :: 0 <= a < |es| ==> es[a].id < |rs|
    ensures ok <==> Passes(es, rs, version)
  {
    var next: map<nat, nat> := map[];
    var skipped: map<nat, nat> := map[];
    for i := 0 to |rs|
      invariant forall c: nat :: (c < i <==> c in next) && (c < i <==> c in skipped)
      invariant forall c :: 0 <= c < i ==> next[c] == skipped[c] == 0
    {
      next := next[i := 0];
      skipped := skipped[i := 0];
    }
    for k := 0 to |es|
      invariant forall c: nat :: c < |rs| <==> c in next
      invariant forall c: nat :: c < |rs| <==> c in skipped
      invariant Increasing(es[..k])
      invariant forall c :: 0 <= c < |rs| ==> next[c] == Expect(es[..k], c)
      invariant forall c :: 0 <= c < |rs| ==> skipped[c] == Expect(es[..k], c) - Count(es[..k], c)
    {
      var e := es[k];
      IncreasingSnoc(es, k);
      forall c: nat
        ensures Expect(es[..k + 1], c) == if c == e.id then e.n + 1 else Expect(es[..k], c)
        ensures Count(es[..k + 1], c) == Count(es[..k], c) + if c == e.id then 1 else 0
      {
        CountSnoc(es, k, c);
      }
      if next[e.id] > e.n {
        assert es[..|es|] == es;
        return false;
      } else if next[e.id] == e.n {
        next := next[e.id := e.n + 1];
      } else {
        skipped := skipped[e.id := skipped[e.id] + (e.n - next[e.id])];
        next := next[e.id := e.n + 1];
      }
    }
    assert es[..|es|] == es;
    if |es| + 1 != version {
      return false;
    }
    for c := 0 to |rs|
      invariant forall d :: 0 <= d < c ==>
          skipped[d] <= rs[d].nmaybe && next[d] <= rs[d].nok + rs[d].nmaybe
    {
      if skipped[c] > rs[c].nmaybe || next[c] > rs[c].nok + rs[c].nmaybe {
        return false;
      }
    }
    return true;
  }

  /** The numbers missing from the list are among the uncertain ones. */
  lemma SkippedAreMaybe(es: seq<Entry>, c: nat, p: Client)
    requires Increasing(es) && CountsOk(p)
    requires forall a :: 0 <= a < |es| && es[a].id == c ==> es[a].n <= p.i
    requires forall n :: n in p.ok ==> Entry(c, n) in es
    ensures Expect(es, c) - Count(es, c) <= p.nmaybe
  {
    ExpectWithin(es, c, p.i + 1);
    NumbersBelow(es, c);
    NumbersCount(es, c);
    MissingAreMaybe(Numbers(es, c), Expect(es, c), p);
  }

  lemma MissingAreMaybe(ns: set<nat>, next: nat, p: Client)
    requires CountsOk(p) && p.ok <= ns && next <= p.i + 1
    requires (forall n :: n in ns ==> n < next) && (next > 0 ==> next - 1 in ns)
    ensures next - |ns| <= p.nmaybe
  {
    SizeOfRest(UpTo(next), ns, p.maybe);
  }

  lemma SizeOfRest(all: set<nat>, ns: set<nat>, rest: set<nat>)
    requires ns <= all && forall n :: n in all && n !in ns ==> n in rest
    ensures |all| - |ns| <= |rest|
  {
    assert all - ns <= rest;
    CardinalityMonotone(all - ns, rest);
    assert all == (all - ns) + ns;
  }

  lemma TotalOf(p: Client)
    requires CountsOk(p)
    ensures p.i == p.nok + p.nmaybe
  {
    assert UpTo(p.i) == p.ok + p.maybe;
  }

  lemma ExpectWithin(es: seq<Entry>, c: nat, i: nat)
    requires Increasing(es) && forall a :: 0 <= a < |es| && es[a].id == c ==> es[a].n < i
    ensures Expect(es, c) <= i
  {
    NumbersBelow(es, c);
    if Expect(es, c) > 0 {
      assert Entry(c, Expect(es, c) - 1) in es;
    }
  }

  ghost predicate OnceIn(x: Entry, es: seq<Entry>) {
    exists a :: 0 <= a < |es| && es[a] == x && forall b :: 0 <= b < |es| && es[b] == x ==> b == a
  }

  /** No lost update: at every point of every run the list has one entry per version after
      the first, each client's numbers increase, every acknowledged append is in the list
      exactly once, and a client has skipped no more numbers than it has uncertain appends. */
  lemma NoLostUpdate(j: Codec, run: seq<State>, events: seq<Event>, i: nat)
    requires Inverse(j) && Run(j, run, events) && i < |run|
    ensures var es := List(j, run[i]);
            |es| + 1 == Lookup(run[i].kv.store, KEY).version && Increasing(es)
    ensures forall c, n :: 0 <= c < |run[i].clients| && n in run[i].clients[c].ok ==>
              OnceIn(Entry(c, n), List(j, run[i]))
    ensures forall c :: 0 <= c < |run[i].clients| ==>
              Expect(List(j, run[i]), c) - Count(List(j, run[i]), c) <= run[i].clients[c].nmaybe
  {
    RunInv(j, run, events, i);
    var w, es := run[i], List(j, run[i]);
    forall c, n | 0 <= c < |w.clients| && n in w.clients[c].ok ensures OnceIn(Entry(c, n), es) {
      assert EntriesOk(j, w, c);
      var a :| 0 <= a < |es| && es[a] == Entry(c, n);
      assert forall b :: 0 <= b < |es| && es[b] == Entry(c, n) ==> b == a;
    }
    forall c | 0 <= c < |w.clients| ensures Expect(es, c) - Count(es, c) <= w.clients[c].nmaybe {
      assert EntriesOk(j, w, c) && CountsOk(w.clients[c]);
      SkippedAreMaybe(es, c, w.clients[c]);
    }
  }

  /** When no call is under way, the harness's check accepts the list and the clients' counts. */
  lemma FinalCheckPasses(j: Codec, run: seq<State>, events: seq<Event>, rs: seq<ClntRes>)
    requires Inverse(j) && Run(j, run, events)
    requires var w := run[|events|];
             |w.kv.clerks| == |w.clients| && |rs| == |w.clients| &&
             forall c :: 0 <= c < |rs| ==>
               w.kv.clerks[c].Idle? && rs[c] == ClntRes(w.clients[c].nok, w.clients[c].nmaybe)
    ensures var w := run[|events|];
            Passes(List(j, w), rs, Lookup(w.kv.store, KEY).version)
  {
    RunInv(j, run, events, |events|);
    NoLostUpdate(j, run, events, |events|);
    var w := run[|events|];
    forall c | 0 <= c < |rs| ensures Expect(List(j, w), c) <= rs[c].nok + rs[c].nmaybe {
      assert EntriesOk(j, w, c) && CountsOk(w.clients[c]);
      ExpectWithin(List(j, w), c, w.clients[c].i);
      TotalOf(w.clients[c]);
    }
  }

  // ----- what the clients count

  /** A client's iterations ended as their last append returned: those that ended OK or as
      maybe returned that, the one under way has returned neither. */
  ghost predicate Tallied(w: State, c: nat)
    requires c < |w.clients|
  {
    forall n: nat ::
      && (n in w.clients[c].ok <==> Did(c, n, OK) in w.log)
      && (n in w.clients[c].maybe <==> Did(c, n, ErrMaybe) in w.log)
      && (n < w.clients[c].i ==> n in w.clients[c].ok || n in w.clients[c].maybe)
  }

  lemma StepTallied(j: Codec, w: State, e: Event, c: nat)
    requires |w.kv.clerks| == |w.clients| && Enabled(w.kv, e) && c < |w.clients| && Tallied(w, c)
    ensures |Step(j, w, e).clients| == |w.clients| && Tallied(Step(j, w, e), c)
  {
  }

  /** At every point of every run a client has counted as OK exactly the iterations whose append
      returned OK, and as maybe exactly those whose append returned ErrMaybe, and it moves on
      for no other reason. */
  lemma {:induction false} CountsAreReturns(j: Codec, run: seq<State>, events: seq<Event>, i: nat, c: nat)
    requires Run(j, run, events) && i < |run| && c < |run[i].clients|
    ensures Tallied(run[i], c)
  {
    if i > 0 {
      assert run[i - 1 + 1] == Step(j, run[i - 1], events[i - 1]);
      CountsAreReturns(j, run, events, i - 1, c);
      StepTallied(j, run[i - 1], events[i - 1], c);
    }
  }

  /** What a client was told last. */
  function LastTold(log: seq<Outcome>, c: nat): Option<Outcome> {
    if log == [] then None
    else if log[|log| - 1].client == c then Some(log[|log| - 1])
    else LastTold(log[..|log| - 1], c)
  }

  lemma LastToldSnoc(log: seq<Outcome>, o: Outcome, c: nat)
    ensures LastTold(log + [o], c) == if o.client == c then Some(o) else LastTold(log, c)
  {
    assert (log + [o])[..|log|] == log;
  }

  /** In every run a client appends at the version it has just read, and reads before every
      append: the next call is an append exactly if the last thing it was told is a version. */
  lemma {:induction false} ReadsBeforeAppend(j: Codec, run: seq<State>, events: seq<Event>, i: nat, c: nat)
    requires Run(j, run, events) && i < |run| && c < |run[i].clients|
    ensures var pc, last := run[i].clients[c].pc, LastTold(run[i].log, c);
            if pc.Writing? then last == Some(Looked(c, pc.version)) else last.None? || last.value.Did?
  {
    if i > 0 {
      assert run[i - 1 + 1] == Step(j, run[i - 1], events[i - 1]);
      ReadsBeforeAppend(j, run, events, i - 1, c);
      if events[i - 1].Return? {
        LastToldSnoc(run[i - 1].log, run[i].log[|run[i - 1].log|], c);
      }
    }
  }

  // ----- a client by itself

  /** The only client, with nothing lost, reads and appends at the current version. */
  ghost predicate Alone(w: State) {
    && |w.kv.clerks| == |w.clients| == 1
    && (forall o :: o in w.log && o.Did? ==> o.err == OK)
    && var p, k, cur := w.clients[0], w.kv.clerks[0], Lookup(w.kv.store, KEY);
       && (k.Busy? ==> !k.retry)
       && (p.pc.Reading? && k.Busy? && k.answer.Some? ==> k.answer.value.version == cur.version)
       && (p.pc.Writing? ==>
             if k.Busy? && k.answer.Some? then k.answer.value.err == OK else p.pc.version == cur.version)
  }

  lemma AloneStep(j: Codec, w: State, e: Event)
    requires Alone(w) && Inv(j, w) && Allowed(j, w, e) && !e.Fail?
    ensures Alone(Step(j, w, e))
  {
    assert CallOk(j, w, 0) && e.c == 0;
  }

  /** A client that is by itself on a network that loses nothing is never refused: every append
      that returned returned OK. */
  lemma {:induction false} SoleClientNeverRefused(j: Codec, run: seq<State>, events: seq<Event>, i: nat)
    requires Inverse(j) && Run(j, run, events) && i < |run| && |run[0].clients| == 1
    requires forall k :: 0 <= k < |events| ==> !events[k].Fail?
    ensures Alone(run[i])
  {
    if i > 0 {
      assert run[i - 1 + 1] == Step(j, run[i - 1], events[i - 1]);
      SoleClientNeverRefused(j, run, events, i - 1);
      RunInv(j, run, events, i - 1);
      AloneStep(j, run[i - 1], events[i - 1]);
    }
  }
}
