/** The sequential model that histories of the key/value service are checked against. */
module KvModel {
  import opened Basics
  import opened KvStore

  datatype KvState = KvState(value: string, version: nat)

  /** A completed operation: what was asked and what came back. */
  datatype Entry = Entry(call: Call, reply: Reply)

  function Init(): KvState {
    KvState("", 0)
  }

  /** Whether the model accepts an operation in a state, and the state it then moves to. */
  function Step(st: KvState, e: Entry): (bool, KvState) {
    match e.call
    case Get(_) => (e.reply.value == st.value, st)
    case Put(_, value, version) =>
      if st.version == version then
        (e.reply.err == OK || e.reply.err == ErrMaybe, KvState(value, st.version + 1))
      else
        (e.reply.err == ErrVersion || e.reply.err == ErrMaybe, st)
  }

  /** What the model leaves open about a Get: its version and its error. */
  predicate ExactGet(st: KvState, e: Entry) {
    e.call.Get? ==> e.reply.version == st.version && e.reply.err == if st.version == 0 then ErrNoKey else OK
  }

  /** Runs one key's operations in order; None when some step is rejected. */
  function Run(h: seq<Entry>): Option<KvState> {
    if h == [] then Some(Init())
    else
      match Run(h[..|h| - 1])
      case None => None
      case Some(st) =>
        var e := h[|h| - 1];
        if Step(st, e).0 && ExactGet(st, e) then Some(Step(st, e).1) else None
  }

  /** The operations of one key, in their order. */
  function ForKey(h: seq<Entry>, key: string): seq<Entry> {
    if h == [] then []
    else
      var front := ForKey(h[..|h| - 1], key);
      if h[|h| - 1].call.key == key then front + [h[|h| - 1]] else front
  }

  /** The model's state for a key of a store. */
  function StateOf(store: Store, key: string): KvState {
    KvState(Lookup(store, key).value, Lookup(store, key).version)
  }

  /** The model against the server: it accepts a Get exactly if the value is the one the server
      would give, and a Put exactly if the error is ErrMaybe or the server's, where it takes a
      missing key for a version mismatch. It moves as the store moves. */
  lemma StepMatchesServer(store: Store, e: Entry)
    requires Written(store)
    ensures Step(StateOf(store, e.call.key), e).1 == StateOf(StoreAfter(store, e.call), e.call.key)
    ensures var r := ReplyTo(store, e.call);
            Step(StateOf(store, e.call.key), e).0 <==>
              if e.call.Get? then e.reply.value == r.value
              else e.reply.err == ErrMaybe || e.reply.err == if r.err == ErrNoKey then ErrVersion else r.err
    ensures e.call.Get? && Step(StateOf(store, e.call.key), e).0 ==>
              (ExactGet(StateOf(store, e.call.key), e) <==> e.reply == ReplyTo(store, e.call))
  {
  }

  /** Splitting a history by key. */
  method Partition(history: seq<Entry>) returns (m: map<string, seq<Entry>>)
    ensures forall key :: key in m <==> exists i :: 0 <= i < |history| && history[i].call.key == key
    ensures forall key :: key in m ==> m[key] == ForKey(history, key)
  {
    m := map[];
    for i := 0 to |history|
      invariant forall key :: key in m <==> exists j :: 0 <= j < i && history[j].call.key == key
      invariant forall key :: key in m ==> m[key] == ForKey(history[..i], key)
      invariant forall key :: key !in m ==> ForKey(history[..i], key) == []
    {
      var v := history[i];
      assert history[..i + 1][..i] == history[..i];
      var key := v.call.key;
      m := m[key := (if key in m then m[key] else []) + [v]];
    }
    assert history[..|history|] == history;
  }
}
