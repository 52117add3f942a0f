/** Many clients putting to one key, each until its Put ends in OK or ErrMaybe: the server's
    version counts the applied Puts, and the harness's totals bracket it. */
module PutWorkload {
  import opened Basics
  import opened KvStore
  import opened Clerks

  const KEY := "k0"

  datatype Pc = Putting | Reading(err: Err)

  /** A client of OneClientPut; `applied` records how many of its Puts have written. */
  datatype Client = Client(version: nat, nok: nat, nmaybe: nat, pc: Pc, applied: nat)

  /** What a client was told: the result of a Put at a version, or what it read back after a
      Put at a version that ended with the given code. */
  datatype Outcome =
    | Did(client: nat, version: nat, err: Err)
    | Saw(client: nat, version: nat, err: Err, reply: Reply)

  /** `lossless` says that no message has been lost so far; `log` lists what the clients were
      told and steers nothing. */
  datatype State = State(kv: Clerks.State, clients: seq<Client>, lossless: bool, log: seq<Outcome>)

  /** The encoding of the pair a client writes: its number and the version it puts at. */
  type Codec = (nat, nat) -> string

  function Wants(enc: Codec, w: State, c: nat): Call
    requires c < |w.clients|
  {
    if w.clients[c].pc == Putting then Put(KEY, enc(c, w.clients[c].version), w.clients[c].version) else Get(KEY)
  }

  function After(p: Client, r: Reply): Client {
    match p.pc
    case Putting => p.(pc := Reading(r.err))
    case Reading(err) =>
      Client(r.version, p.nok + B(err == OK), p.nmaybe + B(err == ErrMaybe), Putting, p.applied)
  }

  /** What a client asks of what it is told, and would otherwise give up on: a Put ends with one
      of three codes, and reading back finds the key, and at the next version after an OK the
      client's own value. */
  ghost predicate Expected(enc: Codec, o: Outcome) {
    match o
    case Did(_, _, err) => err in {OK, ErrVersion, ErrMaybe}
    case Saw(c, v, err, r) => r.err == OK && (err == OK && r.version == v + 1 ==> r.value == enc(c, v))
  }

  ghost predicate Start(w: State) {
    && w.kv.store == map[] && |w.kv.clerks| == |w.clients| && w.lossless && w.log == []
    && forall c :: 0 <= c < |w.clients| ==> w.kv.clerks[c].Idle? && w.clients[c] == Client(0, 0, 0, Putting, 0)
  }

  ghost predicate Allowed(enc: Codec, w: State, e: Event) {
    && |w.kv.clerks| == |w.clients|
    && Enabled(w.kv, e)
    && (e.Invoke? ==> e.call == Wants(enc, w, e.c))
  }

  function Step(enc: Codec, w: State, e: Event): State
    requires |w.kv.clerks| == |w.clients| && Enabled(w.kv, e)
  {
    var p, w' := w.clients[e.c], w.(kv := Next(w.kv, e));
    if e.Execute? && Lands(w.kv.store, w.kv.clerks[e.c].call) then
      w'.(clients := w.clients[e.c := p.(applied := p.applied + 1)])
    else if e.Fail? then w'.(lossless := false)
    else if e.Return? then
      var r := Result(w.kv.clerks[e.c]);
      w'.(clients := w.clients[e.c := After(p, r)],
      log := w.log + [if p.pc == Putting then Did(e.c, p.version, r.err) else Saw(e.c, p.version, p.pc.err, r)])
    else w'
  }

  ghost predicate Run(enc: Codec, run: seq<State>, events: seq<Event>) {
    && |run| == |events| + 1
    && Start(run[0])
    && forall i :: 0 <= i < |events| ==> Allowed(enc, run[i], events[i]) && run[i + 1] == Step(enc, run[i], events[i])
  }

  // ----- the invariant

  function AppliedOf(clients: seq<Client>): seq<int> {
    seq(|clients|, i requires 0 <= i < |clients| => clients[i].applied)
  }

  function OksOf(clients: seq<Client>): seq<int> {
    seq(|clients|, i requires 0 <= i < |clients| => clients[i].nok)
  }

  function MaybesOf(clients: seq<Client>): seq<int> {
    seq(|clients|, i requires 0 <= i < |clients| => clients[i].nmaybe)
  }

  /** Every client is between two Puts. */
  ghost predicate Quiet(w: State) {
    |w.kv.clerks| == |w.clients| &&
    forall c :: 0 <= c < |w.clients| ==> w.kv.clerks[c].Idle? && w.clients[c].pc == Putting
  }

  function B(b: bool): nat { if b then 1 else 0 }

  /** The Puts applied for a client are those it counted as OK, some of those it counted as
      maybe, and the one it is about to count. */
  ghost predicate CountsOk(w: State, c: nat)
    requires c < |w.clients| == |w.kv.clerks|
  {
    var p, k := w.clients[c], w.kv.clerks[c];
    var sure := p.nok + B(k.Busy? && k.landed) + B(p.pc == Reading(OK));
    && sure <= p.applied <= sure + p.nmaybe + B(p.pc == Reading(ErrMaybe))
    && (w.lossless ==> p.applied == sure && p.pc != Reading(ErrMaybe) && (k.Busy? ==> !k.retry))
  }

  /** A Put that is known to have landed moved the key past its version, and while the key is
      one version further its value is the one put. */
  ghost predicate CallOk(enc: Codec, w: State, c: nat)
    requires c < |w.clients| == |w.kv.clerks|
  {
    var p, k, cur := w.clients[c], w.kv.clerks[c], Lookup(w.kv.store, KEY);
    && (k.Busy? ==> k.call == Wants(enc, w, c))
    && ((p.pc == Putting && p.version == 0) || KEY in w.kv.store)
    && ((k.Busy? && k.landed) || p.pc == Reading(OK) ==>
          p.version < cur.version && (p.version + 1 == cur.version ==> cur.value == enc(c, p.version)))
    && (k.Busy? && k.answer.Some? && k.call.Get? && p.pc == Reading(OK) ==>
          var r := k.answer.value;
          p.version < r.version && (p.version + 1 == r.version ==> r.value == enc(c, p.version)))
    && (k.Busy? && k.answer.Some? ==> if k.call.Get? then k.answer.value.err == OK else k.answer.value.err != ErrNoKey)
  }

  ghost predicate Inv(enc: Codec, w: State) {
    && |w.kv.clerks| == |w.clients| && Clerks.Inv(w.kv)
    && Lookup(w.kv.store, KEY).version == Sum(AppliedOf(w.clients))
    && forall c :: 0 <= c < |w.clients| ==> CountsOk(w, c) && CallOk(enc, w, c)
  }

  lemma ReturnCountsOk(enc: Codec, w: State, e: Event)
    requires Inv(enc, w) && Allowed(enc, w, e) && e.Return?
    ensures CountsOk(Step(enc, w, e), e.c)
  {
    assert CountsOk(w, e.c) && CallOk(enc, w, e.c) && ClerkOk(w.kv.store, w.kv.clerks[e.c]);
  }

  lemma StepCountsOk(enc: Codec, w: State, e: Event, c: nat)
    requires Inv(enc, w) && Allowed(enc, w, e) && c < |w.clients|
    ensures CountsOk(Step(enc, w, e), c)
  {
    if e.Return? && e.c == c {
      ReturnCountsOk(enc, w, e);
    } else {
      assert CountsOk(w, c) && CallOk(enc, w, c) && ClerkOk(w.kv.store, w.kv.clerks[c]);
    }
  }

  lemma ExecuteCallOk(enc: Codec, w: State, e: Event, c: nat)
    requires Inv(enc, w) && Allowed(enc, w, e) && c < |w.clients| && e.Execute?
    ensures CallOk(enc, Step(enc, w, e), c)
  {
    assert CallOk(enc, w, c) && ClerkOk(w.kv.store, w.kv.clerks[c]);
    assert CallOk(enc, w, e.c);
    ServeMonotone(w.kv.store, w.kv.clerks[e.c].call, KEY);
    if c == e.c {
      ExecuteOwnCallOk(enc, w, e);
    }
  }

  lemma ExecuteOwnCallOk(enc: Codec, w: State, e: Event)
    requires Inv(enc, w) && Allowed(enc, w, e) && e.Execute?
    ensures CallOk(enc, Step(enc, w, e), e.c)
  {
    assert CallOk(enc, w, e.c) && ClerkOk(w.kv.store, w.kv.clerks[e.c]);
  }

  lemma StepCallOk(enc: Codec, w: State, e: Event, c: nat)
    requires Inv(enc, w) && Allowed(enc, w, e) && c < |w.clients|
    ensures CallOk(enc, Step(enc, w, e), c)
  {
    if e.Execute? {
      ExecuteCallOk(enc, w, e, c);
    } else {
      assert CallOk(enc, w, c) && ClerkOk(w.kv.store, w.kv.clerks[c]);
    }
  }

  lemma StepTotal(enc: Codec, w: State, e: Event)
    requires Inv(enc, w) && Allowed(enc, w, e)
    ensures var w' := Step(enc, w, e);
            Lookup(w'.kv.store, KEY).version == Sum(AppliedOf(w'.clients))
  {
    var w' := Step(enc, w, e);
    assert CallOk(enc, w, e.c);
    if e.Execute? && Lands(w.kv.store, w.kv.clerks[e.c].call) {
      SumUpdate(AppliedOf(w.clients), e.c, w.clients[e.c].applied + 1);
      assert AppliedOf(w'.clients) == AppliedOf(w.clients)[e.c := w.clients[e.c].applied + 1];
    } else {
      assert AppliedOf(w'.clients) == AppliedOf(w.clients);
    }
  }

  lemma StepInv(enc: Codec, w: State, e: Event)
    requires Inv(enc, w) && Allowed(enc, w, e)
    ensures Inv(enc, Step(enc, w, e))
  {
    Clerks.NextInv(w.kv, e);
    StepTotal(enc, w, e);
    var w' := Step(enc, w, e);
    assert CallOk(enc, w, e.c) && ClerkOk(w.kv.store, w.kv.clerks[e.c]);
    forall c | 0 <= c < |w'.clients| ensures CountsOk(w', c) && CallOk(enc, w', c) {
      StepCountsOk(enc, w, e, c);
      StepCallOk(enc, w, e, c);
    }
  }

  lemma {:induction false} RunInv(enc: Codec, run: seq<State>, events: seq<Event>, i: nat)
    requires Run(enc, run, events) && i < |run|
    ensures Inv(enc, run[i])
  {
    if i == 0 {
      SumZero(AppliedOf(run[0].clients));
    } else {
      RunInv(enc, run, events, i - 1);
      StepInv(enc, run[i - 1], events[i - 1]);
      assert run[i - 1 + 1] == Step(enc, run[i - 1], events[i - 1]);
    }
  }

  // ----- main results

  /** Put accounting: at every point the version is the number of applied Puts and no client
      has reason to give up, and between Puts the totals bracket the version, exactly if
      nothing was lost. */
  lemma PutAccounting(enc: Codec, run: seq<State>, events: seq<Event>, i: nat)
    requires Run(enc, run, events) && i < |run|
    ensures var w := run[i]; Lookup(w.kv.store, KEY).version == Sum(AppliedOf(w.clients))
    ensures forall o :: o in run[i].log ==> Expected(enc, o)
    ensures var w := run[i]; var v := Lookup(w.kv.store, KEY).version;
            Quiet(w) ==>
              && Sum(OksOf(w.clients)) <= v <= Sum(OksOf(w.clients)) + Sum(MaybesOf(w.clients))
              && (w.lossless ==> v == Sum(OksOf(w.clients)))
  {
    RunInv(enc, run, events, i);
    ToldAsExpected(enc, run, events, i);
    if Quiet(run[i]) {
      QuietTotals(enc, run[i]);
    }
  }

  lemma QuietTotals(enc: Codec, w: State)
    requires Inv(enc, w) && Quiet(w)
    ensures var v := Sum(AppliedOf(w.clients));
            && Sum(OksOf(w.clients)) <= v <= Sum(OksOf(w.clients)) + Sum(MaybesOf(w.clients))
            && (w.lossless ==> v == Sum(OksOf(w.clients)))
  {
    var applied, oks, maybes := AppliedOf(w.clients), OksOf(w.clients), MaybesOf(w.clients);
    forall c | 0 <= c < |w.clients|
      ensures oks[c] <= applied[c] <= oks[c] + maybes[c] && (w.lossless ==> applied[c] == oks[c])
    {
      assert CountsOk(w, c);
    }
    var both := seq(|oks|, i requires 0 <= i < |oks| => oks[i] + maybes[i]);
    SumAdd(oks, maybes, both);
    SumMonotone(oks, applied);
    SumMonotone(applied, both);
    if w.lossless {
      assert applied == oks;
    }
  }

  /** What the harness asks of the version read at the end. */
  predicate Accepts(version: nat, oks: seq<int>, maybes: seq<int>, reliable: bool) {
    if reliable then version == Sum(oks) else version <= Sum(oks) + Sum(maybes)
  }

  /** Between Puts the harness accepts the version and the clients' counts, on a reliable
      network too if nothing was lost. */
  lemma FinalCheckPasses(enc: Codec, run: seq<State>, events: seq<Event>, i: nat, reliable: bool)
    requires Run(enc, run, events) && i < |run| && Quiet(run[i]) && (reliable ==> run[i].lossless)
    ensures var w := run[i];
            Accepts(Lookup(w.kv.store, KEY).version, OksOf(w.clients), MaybesOf(w.clients), reliable)
  {
    PutAccounting(enc, run, events, i);
  }

  /** The harness's check of the totals against the version read at the end. */
  method CheckPutConcurrent(version: nat, oks: seq<int>, maybes: seq<int>, reliable: bool) returns (ok: bool)
    requires |oks| == |maybes|
    ensures ok <==> Accepts(version, oks, maybes, reliable)
  {
    var nok, nmaybe := 0, 0;
    for c := 0 to |oks|
      invariant nok == Sum(oks[..c]) && nmaybe == Sum(maybes[..c])
    {
      assert oks[..c + 1][..c] == oks[..c] && maybes[..c + 1][..c] == maybes[..c];
      nok := nok + oks[c];
      nmaybe := nmaybe + maybes[c];
    }
    assert oks[..|oks|] == oks && maybes[..|maybes|] == maybes;
    ok := if reliable then version == nok else version <= nok + nmaybe;
  }

  // ----- what the clients count

  /** How many Puts of a client returned a given code. */
  function Returned(log: seq<Outcome>, c: nat, err: Err): nat {
    if log == [] then 0
    else
      var last := log[|log| - 1];
      Returned(log[..|log| - 1], c, err) + B(last.Did? && last.client == c && last.err == err)
  }

  lemma ReturnedSnoc(log: seq<Outcome>, o: Outcome, c: nat, err: Err)
    ensures Returned(log + [o], c, err) == Returned(log, c, err) + B(o.Did? && o.client == c && o.err == err)
  {
    assert (log + [o])[..|log|] == log;
  }

  /** How many times a client has read back. */
  function Seen(log: seq<Outcome>, c: nat): nat {
    if log == [] then 0 else Seen(log[..|log| - 1], c) + B(log[|log| - 1].Saw? && log[|log| - 1].client == c)
  }

  function Done(log: seq<Outcome>, c: nat): nat {
    Returned(log, c, OK) + Returned(log, c, ErrVersion) + Returned(log, c, ErrMaybe) + Returned(log, c, ErrNoKey)
  }

  /** A client has counted every OK and every ErrMaybe but the one it is reading back after, and
      has read back after every other Put. */
  ghost predicate Tallied(log: seq<Outcome>, p: Client, c: nat) {
    && Returned(log, c, OK) == p.nok + B(p.pc == Reading(OK))
    && Returned(log, c, ErrMaybe) == p.nmaybe + B(p.pc == Reading(ErrMaybe))
    && Done(log, c) == Seen(log, c) + B(p.pc.Reading?)
  }

  lemma LogSnoc(log: seq<Outcome>, o: Outcome, c: nat)
    ensures Seen(log + [o], c) == Seen(log, c) + B(o.Saw? && o.client == c)
    ensures Done(log + [o], c) == Done(log, c) + B(o.Did? && o.client == c)
  {
    assert (log + [o])[..|log|] == log;
    ReturnedSnoc(log, o, c, OK);
    ReturnedSnoc(log, o, c, ErrVersion);
    ReturnedSnoc(log, o, c, ErrMaybe);
    ReturnedSnoc(log, o, c, ErrNoKey);
  }

  lemma AfterTallied(log: seq<Outcome>, p: Client, c: nat, r: Reply)
    requires Tallied(log, p, c)
    ensures var o := if p.pc == Putting then Did(c, p.version, r.err) else Saw(c, p.version, p.pc.err, r);
            Tallied(log + [o], After(p, r), c)
  {
    var o := if p.pc == Putting then Did(c, p.version, r.err) else Saw(c, p.version, p.pc.err, r);
    LogSnoc(log, o, c);
    ReturnedSnoc(log, o, c, OK);
    ReturnedSnoc(log, o, c, ErrMaybe);
  }

  lemma OtherTallied(log: seq<Outcome>, p: Client, c: nat, o: Outcome)
    requires Tallied(log, p, c) && o.client != c
    ensures Tallied(log + [o], p, c)
  {
    LogSnoc(log, o, c);
    ReturnedSnoc(log, o, c, OK);
    ReturnedSnoc(log, o, c, ErrMaybe);
  }

  lemma StepTallied(enc: Codec, w: State, e: Event, c: nat)
    requires |w.kv.clerks| == |w.clients| && Enabled(w.kv, e) && c < |w.clients| && Tallied(w.log, w.clients[c], c)
    ensures |Step(enc, w, e).clients| == |w.clients| && Tallied(Step(enc, w, e).log, Step(enc, w, e).clients[c], c)
  {
    if e.Return? {
      if e.c == c {
        AfterTallied(w.log, w.clients[c], c, Result(w.kv.clerks[c]));
      } else {
        OtherTallied(w.log, w.clients[c], c, Step(enc, w, e).log[|w.log|]);
      }
    }
  }

  /** At every point of every run a client between Puts has counted as OK exactly the Puts that
      returned OK, as maybe exactly those that returned ErrMaybe, and has read back once
      after each. */
  lemma {:induction false} CountsAreReturns(enc: Codec, run: seq<State>, events: seq<Event>, i: nat, c: nat)
    requires Run(enc, run, events) && i < |run| && c < |run[i].clients|
    ensures Tallied(run[i].log, run[i].clients[c], c)
  {
    if i > 0 {
      assert run[i - 1 + 1] == Step(enc, run[i - 1], events[i - 1]);
      CountsAreReturns(enc, run, events, i - 1, c);
      StepTallied(enc, run[i - 1], events[i - 1], c);
    }
  }

  // ----- what the clients are told

  lemma ToldStep(enc: Codec, w: State, e: Event)
    requires Inv(enc, w) && Allowed(enc, w, e) && forall o :: o in w.log ==> Expected(enc, o)
    ensures forall o :: o in Step(enc, w, e).log ==> Expected(enc, o)
  {
    assert CallOk(enc, w, e.c) && ClerkOk(w.kv.store, w.kv.clerks[e.c]);
  }

  /** In every run everything the clients are told is what they expect. */
  lemma {:induction false} ToldAsExpected(enc: Codec, run: seq<State>, events: seq<Event>, i: nat)
    requires Run(enc, run, events) && i < |run|
    ensures forall o :: o in run[i].log ==> Expected(enc, o)
  {
    if i > 0 {
      assert run[i - 1 + 1] == Step(enc, run[i - 1], events[i - 1]);
      ToldAsExpected(enc, run, events, i - 1);
      RunInv(enc, run, events, i - 1);
      ToldStep(enc, run[i - 1], events[i - 1]);
    }
  }

  // ----- a client by itself

  /** The only client, with nothing lost, puts and reads at the current version. */
  ghost predicate Alone(w: State) {
    && |w.kv.clerks| == |w.clients| == 1 && w.lossless
    && (forall o :: o in w.log && o.Did? ==> o.err == OK)
    && var p, k, cur := w.clients[0], w.kv.clerks[0], Lookup(w.kv.store, KEY);
       && (k.Busy? ==> !k.retry)
       && (p.pc == Putting ==>
             if k.Busy? && k.answer.Some? then k.answer.value.err == OK else p.version == cur.version)
       && (p.pc.Reading? ==> p.pc.err == OK && (k.Busy? && k.answer.Some? ==> k.answer.value.version == cur.version))
  }

  lemma AloneStep(enc: Codec, w: State, e: Event)
    requires Alone(w) && Inv(enc, w) && Allowed(enc, w, e) && !e.Fail?
    ensures Alone(Step(enc, w, e))
  {
    assert CallOk(enc, w, 0) && e.c == 0;
  }

  /** A client that is by itself on a network that loses nothing is never refused: every Put
      that returned returned OK. */
  lemma {:induction false} SoleClientNeverRefused(enc: Codec, run: seq<State>, events: seq<Event>, i: nat)
    requires Run(enc, run, events) && i < |run| && |run[0].clients| == 1
    requires forall k :: 0 <= k < |events| ==> !events[k].Fail?
    ensures Alone(run[i])
  {
    if i > 0 {
      SoleClientNeverRefused(enc, run, events, i - 1);
      RunInv(enc, run, events, i - 1);
      assert Allowed(enc, run[i - 1], events[i - 1]) && !events[i - 1].Fail?;
      AloneStep(enc, run[i - 1], events[i - 1]);
      assert run[i - 1 + 1] == Step(enc, run[i - 1], events[i - 1]);
    } else {
      AloneAtStart(run[0]);
    }
  }

  lemma AloneAtStart(w: State)
    requires Start(w) && |w.clients| == 1
    ensures Alone(w)
  {
    assert w.kv.clerks[0].Idle? && w.clients[0] == Client(0, 0, 0, Putting, 0);
  }
}
