/** Every run of the clerks is linearizable with respect to the sequential model, and a Put's
    result says how often it was applied. Histories record what happened and steer nothing. */
module Linearizability {
  import opened Basics
  import opened KvStore
  import opened Clerks
  import KvModel

  datatype Returned = Returned(at: nat, reply: Reply)

  /** One operation: when it was invoked (clock and number of executions so far), how many
      attempts were lost, when and with what it returned, and the execution it takes effect
      at: the one that wrote, or the latest one while none has written. */
  datatype Op = Op(client: nat, call: Call, invoked: nat, base: nat, lost: nat,
                   returned: Option<Returned>, point: Option<nat>)

  /** One execution of a handler at the server. */
  datatype Exec = Exec(op: nat, call: Call, at: nat, reply: Reply, landed: bool)

  datatype History = History(s: State, now: nat, ops: seq<Op>, current: seq<nat>, execs: seq<Exec>)

  ghost predicate Start(h: History) {
    && h.s.store == map[]
    && (forall c :: 0 <= c < |h.s.clerks| ==> h.s.clerks[c].Idle?)
    && h.ops == [] && h.execs == [] && |h.current| == |h.s.clerks|
  }

  ghost predicate Linked(h: History) {
    && |h.current| == |h.s.clerks|
    && forall c :: 0 <= c < |h.s.clerks| && h.s.clerks[c].Busy? ==> h.current[c] < |h.ops|
  }

  function Record(h: History, e: Event): History
    requires Linked(h) && Enabled(h.s, e)
  {
    var s' := Next(h.s, e);
    match e
    case Invoke(c, call) =>
      History(s', h.now + 1, h.ops + [Op(c, call, h.now, |h.execs|, 0, None, None)], h.current[c := |h.ops|], h.execs)
    case Execute(c) =>
      var id, k := h.current[c], h.s.clerks[c];
      var x := Exec(id, k.call, h.now, ReplyTo(h.s.store, k.call), Lands(h.s.store, k.call));
      var op := if k.landed then h.ops[id] else h.ops[id].(point := Some(|h.execs|));
      History(s', h.now + 1, h.ops[id := op], h.current, h.execs + [x])
    case Fail(c) =>
      var id := h.current[c];
      History(s', h.now + 1, h.ops[id := h.ops[id].(lost := h.ops[id].lost + 1)], h.current, h.execs)
    case Return(c) =>
      var id := h.current[c];
      var op := h.ops[id].(returned := Some(Returned(h.now, Result(h.s.clerks[c]))));
      History(s', h.now + 1, h.ops[id := op], h.current, h.execs)
  }

  /** A run: from the start, one event after another. */
  ghost predicate Run(run: seq<History>, events: seq<Event>) {
    && |run| == |events| + 1
    && Start(run[0])
    && forall i :: 0 <= i < |events| ==>
        Linked(run[i]) && Enabled(run[i].s, events[i]) && run[i + 1] == Record(run[i], events[i])
  }

  /** The store that a sequence of executions leaves behind. */
  function Replay(execs: seq<Exec>): Store {
    if execs == [] then map[] else StoreAfter(Replay(execs[..|execs| - 1]), execs[|execs| - 1].call)
  }

  // ----- what every reachable history satisfies

  /** An execution answered from the store left by the executions before it, and only the
      execution its operation takes effect at has written. */
  ghost predicate ExecOk(h: History, k: nat)
    requires k < |h.execs|
  {
    var x, before := h.execs[k], Replay(h.execs[..k]);
    && x.op < |h.ops| && x.call == h.ops[x.op].call
    && x.reply == ReplyTo(before, x.call) && x.landed == Lands(before, x.call)
    && (x.landed ==> h.ops[x.op].point == Some(k))
  }

  ghost predicate ExecsOk(h: History) {
    && h.s.store == Replay(h.execs)
    && (forall k :: 0 <= k < |h.execs| ==> ExecOk(h, k))
    && (forall k :: 0 <= k < |h.execs| ==> h.execs[k].at < h.now)
    && (forall j, k :: 0 <= j < k < |h.execs| ==> h.execs[j].at < h.execs[k].at)
  }

  /** A result means what the execution at the point of its operation did. */
  ghost predicate Justified(op: Op, reply: Reply, x: Exec) {
    if op.call.Get? then reply == x.reply
    else
      && (op.lost == 0 ==> reply.err == x.reply.err)
      && (reply.err == ErrVersion ==> op.lost == 0)
      && (reply.err == ErrMaybe ==> op.lost > 0)
      && (reply.err == OK ==> x.landed)
      && (reply.err == ErrVersion ==> !x.landed && x.reply.err == ErrVersion)
      && (reply.err == ErrMaybe ==> x.landed || x.reply.err == ErrVersion)
      && (reply.err == ErrNoKey ==> !x.landed)
  }

  ghost predicate OpOk(h: History, op: Op, id: nat) {
    && op.invoked < h.now && op.base <= |h.execs|
    && (op.returned.Some? ==> op.point.Some? && op.returned.value.at < h.now)
    && (op.point.Some? ==>
          var k := op.point.value;
          && op.base <= k < |h.execs| && h.execs[k].op == id && op.invoked < h.execs[k].at
          && (op.returned.Some? ==>
                h.execs[k].at < op.returned.value.at && Justified(op, op.returned.value.reply, h.execs[k])))
  }

  ghost predicate ClientOk(h: History, c: nat)
    requires Linked(h) && c < |h.s.clerks|
  {
    var k := h.s.clerks[c];
    k.Busy? ==>
      var op := h.ops[h.current[c]];
      && op.client == c && op.call == k.call && op.returned.None? && (k.retry <==> op.lost > 0)
      && (k.landed ==> op.point.Some?)
      && (k.answer.Some? ==> op.point.Some?)
      && (op.point.Some? && op.point.value < |h.execs| ==>
            var x := h.execs[op.point.value];
            && k.landed == x.landed
            && (k.answer.Some? && !k.landed ==> k.answer.value == x.reply))
  }

  ghost predicate Inv(h: History) {
    && Clerks.Inv(h.s) && Linked(h) && ExecsOk(h)
    && (forall id :: 0 <= id < |h.ops| ==> OpOk(h, h.ops[id], id))
    && (forall c :: 0 <= c < |h.s.clerks| ==> ClientOk(h, c))
  }

  lemma ExecuteExecsOk(h: History, e: Event)
    requires Inv(h) && Enabled(h.s, e) && e.Execute?
    ensures ExecsOk(Record(h, e))
  {
    var h' := Record(h, e);
    var n := |h.execs|;
    assert h'.execs[..n] == h.execs;
    assert ClientOk(h, e.c) && ClerkOk(h.s.store, h.s.clerks[e.c]);
    forall k | 0 <= k < |h'.execs|
      ensures ExecOk(h', k)
    {
      if k < n {
        assert ExecOk(h, k);
        assert h'.execs[k] == h.execs[k] && h'.execs[..k] == h.execs[..k];
      }
    }
  }

  lemma RecordExecsOk(h: History, e: Event)
    requires Inv(h) && Enabled(h.s, e)
    ensures ExecsOk(Record(h, e))
  {
    if e.Execute? {
      ExecuteExecsOk(h, e);
    } else {
      var h' := Record(h, e);
      forall k | 0 <= k < |h'.execs| ensures ExecOk(h', k) { assert ExecOk(h, k); }
    }
  }

  lemma ReturnJustified(h: History, c: nat)
    requires Inv(h) && Enabled(h.s, Return(c))
    ensures var op := h.ops[h.current[c]];
            && op.point.Some? && op.point.value < |h.execs|
            && Justified(op, Result(h.s.clerks[c]), h.execs[op.point.value])
  {
    var op := h.ops[h.current[c]];
    assert ClientOk(h, c) && ClerkOk(h.s.store, h.s.clerks[c]) && OpOk(h, op, h.current[c]);
    assert ExecOk(h, op.point.value);
  }

  lemma RecordOpOk(h: History, e: Event, id: nat)
    requires Inv(h) && Enabled(h.s, e) && id < |Record(h, e).ops|
    ensures OpOk(Record(h, e), Record(h, e).ops[id], id)
  {
    var h' := Record(h, e);
    if id < |h.ops| {
      assert OpOk(h, h.ops[id], id);
      if !e.Invoke? && h.current[e.c] == id {
        assert ClientOk(h, e.c) && ClerkOk(h.s.store, h.s.clerks[e.c]);
        if e.Return? { ReturnJustified(h, e.c); }
      }
    }
  }

  lemma RecordClientOk(h: History, e: Event, c: nat)
    requires Inv(h) && Enabled(h.s, e) && c < |h.s.clerks|
    ensures Linked(Record(h, e)) && ClientOk(Record(h, e), c)
  {
    var h' := Record(h, e);
    assert ClientOk(h, c) && ClientOk(h, e.c);
    assert ClerkOk(h.s.store, h.s.clerks[e.c]);
    if h.s.clerks[c].Busy? {
      assert OpOk(h, h.ops[h.current[c]], h.current[c]);
    }
  }

  lemma RecordInv(h: History, e: Event)
    requires Inv(h) && Enabled(h.s, e)
    ensures Inv(Record(h, e))
  {
    var h' := Record(h, e);
    NextInv(h.s, e);
    RecordExecsOk(h, e);
    forall id | 0 <= id < |h'.ops| ensures OpOk(h', h'.ops[id], id) { RecordOpOk(h, e, id); }
    RecordLinked(h, e);
    forall c | 0 <= c < |h'.s.clerks| ensures ClientOk(h', c) { RecordClientOk(h, e, c); }
  }

  lemma RecordLinked(h: History, e: Event)
    requires Linked(h) && Enabled(h.s, e)
    ensures Linked(Record(h, e))
  {
  }

  lemma {:induction false} RunInv(run: seq<History>, events: seq<Event>, i: nat)
    requires Run(run, events) && i < |run|
    ensures Inv(run[i])
  {
    if i > 0 {
      RunInv(run, events, i - 1);
      RecordInv(run[i - 1], events[i - 1]);
      assert run[i - 1 + 1] == Record(run[i - 1], events[i - 1]);
    }
  }

  // ----- the linearization

  /** A Put that returned ErrNoKey is not part of the history the model is asked about. */
  predicate Refused(op: Op) {
    op.call.Put? && op.returned.Some? && op.returned.value.reply.err == ErrNoKey
  }

  /** The operations placed in the order: completed ones, and pending Puts that have written. */
  ghost predicate Placed(h: History, id: nat) {
    id < |h.ops| && !Refused(h.ops[id]) &&
    (h.ops[id].returned.Some? ||
     exists k :: 0 <= k < |h.execs| && h.execs[k].op == id && h.execs[k].landed)
  }

  /** Whether execution k is where its operation takes effect. */
  predicate Chosen(h: History, k: nat)
    requires k < |h.execs|
  {
    var x := h.execs[k];
    x.op < |h.ops| && h.ops[x.op].point == Some(k) && !Refused(h.ops[x.op]) &&
    (x.landed || h.ops[x.op].returned.Some?)
  }

  /** The chosen executions among the first n, as indices. */
  function Points(h: History, n: nat): (ks: seq<nat>)
    requires n <= |h.execs|
    ensures forall i :: 0 <= i < |ks| ==> ks[i] < n && Chosen(h, ks[i])
    ensures forall i, j :: 0 <= i < j < |ks| ==> ks[i] < ks[j]
    ensures forall k :: 0 <= k < n && Chosen(h, k) ==> k in ks
  {
    if n == 0 then []
    else if Chosen(h, n - 1) then Points(h, n - 1) + [n - 1]
    else Points(h, n - 1)
  }

  /** The operations in the order of the executions they take effect at. */
  function Order(h: History, n: nat): (order: seq<nat>)
    requires n <= |h.execs|
    ensures |order| == |Points(h, n)|
    ensures forall i :: 0 <= i < |order| ==> order[i] == h.execs[Points(h, n)[i]].op
  {
    seq(|Points(h, n)|, i requires 0 <= i < |Points(h, n)| => h.execs[Points(h, n)[i]].op)
  }

  /** The operation as the model sees it; a Put still pending may yet return ErrMaybe. */
  function EntryOf(h: History, id: nat): KvModel.Entry {
    if id < |h.ops| then
      KvModel.Entry(h.ops[id].call,
                    if h.ops[id].returned.Some? then h.ops[id].returned.value.reply else Reply("", 0, ErrMaybe))
    else KvModel.Entry(Get(""), Reply("", 0, OK))
  }

  function Entries(h: History, order: seq<nat>): seq<KvModel.Entry> {
    seq(|order|, i requires 0 <= i < |order| => EntryOf(h, order[i]))
  }

  /** An order of the placed operations that respects real time and that the sequential
      model accepts, key by key. */
  ghost predicate Linearization(h: History, order: seq<nat>) {
    && (forall i :: 0 <= i < |order| ==> order[i] < |h.ops|)
    && (forall i, j :: 0 <= i < j < |order| ==> order[i] != order[j])
    && (forall id: nat :: id in order <==> Placed(h, id))
    && (forall i, j :: 0 <= i < j < |order| ==>
          !(h.ops[order[j]].returned.Some? && h.ops[order[j]].returned.value.at < h.ops[order[i]].invoked))
    && (forall key :: KvModel.Run(KvModel.ForKey(Entries(h, order), key)).Some?)
  }

  /** The model accepts an operation at its point, and moves as the store moves. */
  lemma ModelStepAtPoint(h: History, k: nat)
    requires Inv(h) && k < |h.execs| && Chosen(h, k)
    requires Written(Replay(h.execs[..k]))
    ensures var x := h.execs[k];
            var before := Replay(h.execs[..k]);
            var vv, vv' := Lookup(before, x.call.key), Lookup(StoreAfter(before, x.call), x.call.key);
            var st, e := KvModel.KvState(vv.value, vv.version), EntryOf(h, x.op);
            && e.call == x.call && KvModel.ExactGet(st, e)
            && KvModel.Step(st, e) == (true, KvModel.KvState(vv'.value, vv'.version))
  {
    assert ExecOk(h, k);
    assert OpOk(h, h.ops[h.execs[k].op], h.execs[k].op);
  }

  /** After the first n executions the model has accepted the operations of the key placed
      so far, and its state is what the store holds. */
  ghost predicate Follows(h: History, key: string, n: nat)
    requires n <= |h.execs|
  {
    var vv := Lookup(Replay(h.execs[..n]), key);
    && Written(Replay(h.execs[..n]))
    && KvModel.Run(KvModel.ForKey(Entries(h, Order(h, n)), key)) == Some(KvModel.KvState(vv.value, vv.version))
  }

  lemma FollowsAtStart(h: History, key: string)
    ensures Follows(h, key, 0)
  {
    assert h.execs[..0] == [] && Entries(h, Order(h, 0)) == [];
  }

  /** An execution at which no operation takes effect changes neither the store nor the model. */
  lemma FollowsPassed(h: History, key: string, k: nat)
    requires Inv(h) && k < |h.execs| && Follows(h, key, k) && !Chosen(h, k)
    ensures Follows(h, key, k + 1)
  {
    assert h.execs[..k + 1][..k] == h.execs[..k];
    assert ExecOk(h, k);
    EntriesSnoc(h, k);
    assert Entries(h, Order(h, k + 1)) == Entries(h, Order(h, k));
    assert OpOk(h, h.ops[h.execs[k].op], h.execs[k].op);
    assert Replay(h.execs[..k + 1]) == Replay(h.execs[..k]);
  }

  lemma FollowsChosen(h: History, key: string, k: nat)
    requires Inv(h) && k < |h.execs| && Follows(h, key, k) && Chosen(h, k)
    ensures Follows(h, key, k + 1)
  {
    assert h.execs[..k + 1][..k] == h.execs[..k];
    EntriesSnoc(h, k);
    ModelStepAtPoint(h, k);
    ModelStepsOn(Entries(h, Order(h, k)), EntryOf(h, h.execs[k].op), Replay(h.execs[..k]), h.execs[k].call, key);
  }

  /** One more operation, accepted from what the store holds of its key, on any history the
      model has followed the store through. */
  lemma ModelStepsOn(entries: seq<KvModel.Entry>, e: KvModel.Entry, store: Store, call: Call, key: string)
    requires Written(store) && KvModel.Run(KvModel.ForKey(entries, key)) == Some(KvModel.StateOf(store, key))
    requires e.call == call && KvModel.ExactGet(KvModel.StateOf(store, call.key), e)
    requires var st, st' := KvModel.StateOf(store, call.key), KvModel.StateOf(StoreAfter(store, call), call.key);
             KvModel.Step(st, e) == (true, st')
    ensures Written(StoreAfter(store, call))
    ensures KvModel.Run(KvModel.ForKey(entries + [e], key)) == Some(KvModel.StateOf(StoreAfter(store, call), key))
  {
    ServeMonotone(store, call, key);
    RunSnoc(entries, e, key);
  }

  /** The model's state for a key follows the store through the executions. */
  lemma {:induction false} ModelFollowsStore(h: History, key: string, n: nat)
    requires Inv(h) && n <= |h.execs|
    ensures Follows(h, key, n)
  {
    if n == 0 {
      FollowsAtStart(h, key);
    } else {
      ModelFollowsStore(h, key, n - 1);
      if Chosen(h, n - 1) { FollowsChosen(h, key, n - 1); } else { FollowsPassed(h, key, n - 1); }
    }
  }

  lemma EntriesSnoc(h: History, k: nat)
    requires k < |h.execs|
    ensures Entries(h, Order(h, k + 1)) ==
            Entries(h, Order(h, k)) + if Chosen(h, k) then [EntryOf(h, h.execs[k].op)] else []
  {
    assert Order(h, k + 1) == Order(h, k) + if Chosen(h, k) then [h.execs[k].op] else [];
  }

  lemma RunSnoc(h: seq<KvModel.Entry>, e: KvModel.Entry, key: string)
    ensures KvModel.ForKey(h + [e], key) == KvModel.ForKey(h, key) + if e.call.key == key then [e] else []
    ensures e.call.key == key && KvModel.Run(KvModel.ForKey(h, key)).Some? ==>
              var st := KvModel.Run(KvModel.ForKey(h, key)).value;
              KvModel.Run(KvModel.ForKey(h + [e], key)) ==
              if KvModel.Step(st, e).0 && KvModel.ExactGet(st, e) then Some(KvModel.Step(st, e).1) else None
  {
    assert (h + [e])[..|h|] == h;
    var mine := KvModel.ForKey(h, key);
    assert (mine + [e])[..|mine|] == mine;
  }

  lemma PlacedIffOrdered(h: History, id: nat)
    requires Inv(h)
    ensures id in Order(h, |h.execs|) <==> Placed(h, id)
  {
    var ks, order := Points(h, |h.execs|), Order(h, |h.execs|);
    if id in order {
      var i :| 0 <= i < |order| && order[i] == id;
      assert Chosen(h, ks[i]);
    }
    if Placed(h, id) {
      assert OpOk(h, h.ops[id], id);
      if h.ops[id].returned.None? {
        var j :| 0 <= j < |h.execs| && h.execs[j].op == id && h.execs[j].landed;
        assert ExecOk(h, j);
      }
      var k: nat := h.ops[id].point.value;
      assert Chosen(h, k);
      var i :| 0 <= i < |ks| && ks[i] == k;
      assert order[i] == id;
    }
  }

  /** Linearizability: the operations of every run can be ordered, each at a moment between
      its call and its return, so that the sequential model accepts them. */
  lemma Linearizable(run: seq<History>, events: seq<Event>)
    requires Run(run, events)
    ensures var h := run[|events|]; Linearization(h, Order(h, |h.execs|))
  {
    RunInv(run, events, |events|);
    var h := run[|events|];
    var n := |h.execs|;
    var ks, order := Points(h, n), Order(h, n);
    assert h.execs[..n] == h.execs;
    forall i, j | 0 <= i < j < |order|
      ensures order[i] != order[j]
      ensures !(h.ops[order[j]].returned.Some? && h.ops[order[j]].returned.value.at < h.ops[order[i]].invoked)
    {
      assert Chosen(h, ks[i]) && Chosen(h, ks[j]);
      assert OpOk(h, h.ops[order[i]], order[i]) && OpOk(h, h.ops[order[j]], order[j]);
    }
    forall id: nat ensures id in order <==> Placed(h, id) { PlacedIffOrdered(h, id); }
    forall key ensures KvModel.Run(KvModel.ForKey(Entries(h, order), key)).Some? { ModelFollowsStore(h, key, n); }
  }

  // ----- what a Put's result means

  /** How many executions of an operation have written. */
  function Applied(execs: seq<Exec>, id: nat): nat {
    if execs == [] then 0
    else Applied(execs[..|execs| - 1], id) + (if execs[|execs| - 1].op == id && execs[|execs| - 1].landed then 1 else 0)
  }

  lemma {:induction false} AppliedAt(h: History, id: nat, n: nat)
    requires ExecsOk(h) && id < |h.ops| && n <= |h.execs|
    ensures Applied(h.execs[..n], id) ==
            if h.ops[id].point.Some? && h.ops[id].point.value < n
               && h.execs[h.ops[id].point.value].op == id && h.execs[h.ops[id].point.value].landed then 1 else 0
  {
    if n > 0 {
      AppliedAt(h, id, n - 1);
      assert ExecOk(h, n - 1);
      assert h.execs[..n][..n - 1] == h.execs[..n - 1];
    }
  }

  /** A key that nobody writes between two executions keeps its value and version. */
  lemma {:induction false} Unwritten(h: History, key: string, i: nat, j: nat)
    requires ExecsOk(h) && i <= j <= |h.execs|
    requires forall k :: i <= k < j && h.execs[k].call.key == key ==> !h.execs[k].landed
    ensures Lookup(Replay(h.execs[..i]), key) == Lookup(Replay(h.execs[..j]), key)
  {
    if i < j {
      Unwritten(h, key, i, j - 1);
      assert ExecOk(h, j - 1);
      assert h.execs[..j][..j - 1] == h.execs[..j - 1];
    }
  }

  /** Only this operation wrote the key from its call to the execution it takes effect at. */
  ghost predicate SoleWriter(h: History, id: nat)
    requires id < |h.ops| && h.ops[id].point.Some? && h.ops[id].point.value < |h.execs|
  {
    forall k | h.ops[id].base <= k < h.ops[id].point.value ::
      h.execs[k].landed && h.execs[k].call.key == h.ops[id].call.key ==> h.execs[k].op == id
  }

  /** The version the Put asked for was the key's version when it was called. */
  ghost predicate CurrentAtCall(h: History, id: nat)
    requires id < |h.ops| && h.ops[id].base <= |h.execs| && h.ops[id].call.Put?
  {
    Lookup(Replay(h.execs[..h.ops[id].base]), h.ops[id].call.key).version == h.ops[id].call.version
  }

  /** A Put is applied at most once however often it is resent. OK means exactly once,
      ErrVersion and ErrNoKey mean never, and ErrMaybe, which is only returned after a lost
      attempt, means exactly once when the version was current at the call and no other
      client wrote the key. A call that lost no attempt says OK exactly if it was applied. */
  lemma PutOutcome(run: seq<History>, events: seq<Event>, id: nat)
    requires Run(run, events)
    requires var h := run[|events|]; id < |h.ops| && h.ops[id].call.Put?
    ensures var h := run[|events|];
            Applied(h.execs, id) <= 1
    ensures var h := run[|events|];
            h.ops[id].returned.Some? ==>
              && h.ops[id].point.Some? && h.ops[id].base <= h.ops[id].point.value < |h.execs|
              && match h.ops[id].returned.value.reply.err
                 case OK => Applied(h.execs, id) == 1
                 case ErrVersion => Applied(h.execs, id) == 0
                 case ErrNoKey => Applied(h.execs, id) == 0
                 case ErrMaybe =>
                   h.ops[id].lost > 0 && (CurrentAtCall(h, id) && SoleWriter(h, id) ==> Applied(h.execs, id) == 1)
    ensures var h := run[|events|];
            h.ops[id].returned.Some? && h.ops[id].lost == 0 ==>
              (h.ops[id].returned.value.reply.err == OK <==> Applied(h.execs, id) == 1)
  {
    RunInv(run, events, |events|);
    var h := run[|events|];
    assert OpOk(h, h.ops[id], id);
    assert h.execs[..|h.execs|] == h.execs;
    AppliedAt(h, id, |h.execs|);
    var op := h.ops[id];
    if op.returned.Some? {
      assert ExecOk(h, op.point.value);
      if op.returned.value.reply.err == ErrMaybe && CurrentAtCall(h, id) && SoleWriter(h, id)
         && !h.execs[op.point.value].landed {
        forall k | op.base <= k < op.point.value && h.execs[k].call.key == op.call.key
          ensures !h.execs[k].landed
        {
          assert ExecOk(h, k);
        }
        Unwritten(h, op.call.key, op.base, op.point.value);
        assert false;
      }
    }
  }
}
