/** Which answer a clerk gives: the server's reply to the last attempt it made, with a late
    version mismatch of a Put turned into ErrMaybe. */
module ClerkAnswers {
  import opened Basics
  import opened KvStore
  import opened Clerks
  import opened Linearizability

  /** The last execution of an operation. */
  function LastExec(execs: seq<Exec>, id: nat): (r: Option<nat>)
    ensures r.Some? ==> r.value < |execs| && execs[r.value].op == id
    ensures forall k :: 0 <= k < |execs| && execs[k].op == id ==> r.Some? && k <= r.value
  {
    if execs == [] then None
    else if execs[|execs| - 1].op == id then Some(|execs| - 1)
    else
      var r := LastExec(execs[..|execs| - 1], id);
      assert forall k :: 0 <= k < |execs| - 1 ==> execs[..|execs| - 1][k] == execs[k];
      r
  }

  lemma LastExecSnoc(execs: seq<Exec>, x: Exec, id: nat)
    ensures LastExec(execs + [x], id) == if x.op == id then Some(|execs|) else LastExec(execs, id)
  {
    assert (execs + [x])[..|execs|] == execs;
  }

  /** The answer that is due when the server's last reply was r and `lost` attempts were lost. */
  ghost predicate Due(op: Op, answer: Reply, r: Reply) {
    if op.call.Get? then answer == r
    else
      && (answer.err == OK <==> r.err == OK)
      && (answer.err == ErrNoKey <==> r.err == ErrNoKey)
      && (answer.err == ErrVersion <==> r.err == ErrVersion && op.lost == 0)
      && (answer.err == ErrMaybe <==> r.err == ErrVersion && op.lost > 0)
  }

  /** A clerk that has an answer has that of the last execution of its operation. */
  ghost predicate Fresh(h: History, c: nat)
    requires Linked(h) && c < |h.s.clerks|
  {
    var k := h.s.clerks[c];
    k.Busy? && k.answer.Some? ==>
      var last := LastExec(h.execs, h.current[c]);
      last.Some? && k.answer.value == h.execs[last.value].reply
  }

  ghost predicate Told(h: History, id: nat)
    requires id < |h.ops|
  {
    h.ops[id].returned.Some? ==>
      var last := LastExec(h.execs, id);
      last.Some? && Due(h.ops[id], h.ops[id].returned.value.reply, h.execs[last.value].reply)
  }

  ghost predicate AnswersOk(h: History) {
    && Linked(h)
    && (forall c :: 0 <= c < |h.s.clerks| ==> Fresh(h, c))
    && (forall id :: 0 <= id < |h.ops| ==> Told(h, id))
  }

  /** Clerks under way have different operations. */
  lemma OwnOperation(h: History, c: nat, d: nat)
    requires Linearizability.Inv(h) && c < |h.s.clerks| && d < |h.s.clerks|
    requires h.s.clerks[c].Busy? && h.s.clerks[d].Busy? && h.current[c] == h.current[d]
    ensures c == d
  {
    assert ClientOk(h, c) && ClientOk(h, d);
  }

  lemma RecordFresh(h: History, e: Event, c: nat)
    requires Linearizability.Inv(h) && AnswersOk(h) && Enabled(h.s, e) && c < |h.s.clerks|
    ensures Linked(Record(h, e)) && Fresh(Record(h, e), c)
  {
    RecordLinked(h, e);
    assert Fresh(h, c);
    if e.Execute? {
      var x := Record(h, e).execs[|h.execs|];
      LastExecSnoc(h.execs, x, h.current[c]);
      if h.s.clerks[c].Busy? && h.current[c] == h.current[e.c] {
        OwnOperation(h, c, e.c);
      }
    }
  }

  /** The answer a clerk returns is due. */
  lemma ReturnIsDue(h: History, c: nat)
    requires Linearizability.Inv(h) && AnswersOk(h) && Enabled(h.s, Return(c))
    ensures var last := LastExec(h.execs, h.current[c]);
            last.Some? && Due(h.ops[h.current[c]], Result(h.s.clerks[c]), h.execs[last.value].reply)
  {
    assert Fresh(h, c) && ClientOk(h, c) && ClerkOk(h.s.store, h.s.clerks[c]);
  }

  /** An operation that has returned stays as it is, and is not executed any more. */
  lemma ToldStays(h: History, e: Event, id: nat)
    requires Linearizability.Inv(h) && Enabled(h.s, e) && id < |h.ops| && h.ops[id].returned.Some?
    ensures id < |Record(h, e).ops| && Record(h, e).ops[id] == h.ops[id]
    ensures LastExec(Record(h, e).execs, id) == LastExec(h.execs, id) && h.execs <= Record(h, e).execs
  {
    if !e.Invoke? {
      assert ClientOk(h, e.c);
      if e.Execute? {
        LastExecSnoc(h.execs, Record(h, e).execs[|h.execs|], id);
      }
    }
  }

  lemma RecordTold(h: History, e: Event, id: nat)
    requires Linearizability.Inv(h) && AnswersOk(h) && Enabled(h.s, e) && id < |Record(h, e).ops|
    ensures Told(Record(h, e), id)
  {
    if id < |h.ops| && h.ops[id].returned.Some? {
      assert Told(h, id);
      ToldStays(h, e, id);
    } else {
      ToldAtReturn(h, e, id);
    }
  }

  lemma ToldAtReturn(h: History, e: Event, id: nat)
    requires Linearizability.Inv(h) && AnswersOk(h) && Enabled(h.s, e) && id < |Record(h, e).ops|
    requires id < |h.ops| ==> h.ops[id].returned.None?
    ensures Told(Record(h, e), id)
  {
    var h' := Record(h, e);
    if h'.ops[id].returned.Some? {
      assert e.Return? && h.current[e.c] == id && h'.execs == h.execs;
      ReturnIsDue(h, e.c);
      assert h'.ops[id].lost == h.ops[id].lost && h'.ops[id].call == h.ops[id].call;
    }
  }

  lemma {:induction false} RunAnswers(run: seq<History>, events: seq<Event>, i: nat)
    requires Run(run, events) && i < |run|
    ensures AnswersOk(run[i])
  {
    if i > 0 {
      var h, e := run[i - 1], events[i - 1];
      Linearizability.RunInv(run, events, i - 1);
      RunAnswers(run, events, i - 1);
      assert run[i - 1 + 1] == Record(h, e);
      RecordLinked(h, e);
      forall c | 0 <= c < |run[i].s.clerks| ensures Fresh(run[i], c) { RecordFresh(h, e, c); }
      forall id | 0 <= id < |run[i].ops| ensures Told(run[i], id) { RecordTold(h, e, id); }
    }
  }

  /** In every run a returned call was executed, and its answer is exactly what the server said
      the last time: a Get gives that reply, a Put OK or ErrNoKey if the server did, and for
      a version mismatch ErrVersion if no attempt was lost and ErrMaybe if one was. */
  lemma AnswerIsDue(run: seq<History>, events: seq<Event>, i: nat, id: nat)
    requires Run(run, events) && i < |run| && id < |run[i].ops| && run[i].ops[id].returned.Some?
    ensures var h := run[i];
            var last := LastExec(h.execs, id);
            last.Some? && Due(h.ops[id], h.ops[id].returned.value.reply, h.execs[last.value].reply)
  {
    RunAnswers(run, events, i);
    assert Told(run[i], id);
  }
}
