/** Multiplexing calls over one connection: callers, the reader that matches replies to calls
    by tag, and closing, in every interleaving. */
module Demux {
  import opened Basics

  const TAGS := 0x1_0000_0000

  /** The outstanding calls by tag, and whether new ones are refused. */
  datatype Table<T> = Table(closed: bool, calls: map<nat, T>)

  function AfterClose<T>(t: Table<T>): Table<T> {
    t.(closed := true)
  }

  function AfterPut<T>(t: Table<T>, tag: nat, ch: T): Table<T> {
    if t.closed then t else t.(calls := t.calls[tag := ch])
  }

  function AfterRemove<T>(t: Table<T>, tag: nat): Table<T> {
    t.(calls := t.calls - {tag})
  }

  /** The map of outstanding calls, indexed by tag. `T` is the reply channel. */
  class CallMap<T> {
    var closed: bool
    var calls: map<nat, T>

    ghost function View(): Table<T>
      reads this
    {
      Table(closed, calls)
    }

    constructor ()
      ensures View() == Table(false, map[])
    {
      closed, calls := false, map[];
    }

    method Close()
      modifies this
      ensures View() == AfterClose(old(View()))
    {
      closed := true;
    }

    method Put(tag: nat, ch: T) returns (ok: bool)
      modifies this
      ensures View() == AfterPut(old(View()), tag, ch)
      ensures ok == !old(closed) && (ok ==> tag in calls && calls[tag] == ch)
    {
      ok := !closed;
      if ok {
        calls := calls[tag := ch];
      }
    }

    method Remove(tag: nat) returns (ch: Option<T>)
      modifies this
      ensures View() == AfterRemove(old(View()), tag)
      ensures ch == if tag in old(calls) then Some(old(calls)[tag]) else None
    {
      if tag in calls {
        ch := Some(calls[tag]);
        calls := calls - {tag};
      } else {
        ch := None;
      }
    }

    /** The outstanding tags, in any order, each once. */
    method Outstanding() returns (ts: seq<nat>)
      ensures Enumerates(ts, calls.Keys)
    {
      ts := [];
      var rest := calls.Keys;
      while rest != {}
        invariant rest <= calls.Keys
        invariant forall t :: t in ts <==> t in calls.Keys && t !in rest
        invariant forall i, j :: 0 <= i < j < |ts| ==> ts[i] != ts[j]
        decreases rest
      {
        var t := Choose(rest);
        ts := ts + [t];
        rest := rest - {t};
      }
    }
  }

  ghost predicate Enumerates(ts: seq<nat>, s: set<nat>) {
    && (forall t :: t in ts <==> t in s)
    && (forall i, j :: 0 <= i < j < |ts| ==> ts[i] != ts[j])
  }

  // ----- the client

  /** A caller: before it takes a tag, before it registers, refused because the map is closed,
      registered, listening on its channel, or answered (with the tag the reply came for, and
      whether it is the server's). */
  datatype Caller = Start | Tagged(tag: nat) | Refused(tag: nat) | Registered(tag: nat)
                  | Listening(tag: nat) | Answered(tag: nat, replyTag: nat, ok: bool)

  /** The reader: waiting for a message, sending a reply on a call's channel, past the read
      error, past closing the map, failing the calls it found outstanding, or done. */
  datatype Reader = Reading | Sending(tag: nat, c: nat) | Errored | Closed
                  | Failing(todo: seq<nat>) | FailSending(tag: nat, c: nat, todo: seq<nat>) | Finished

  /** `issued` counts tags handed out, the initial message's included; `wire` holds the tags
      of requests the server may still answer; `read` those of replies read, and steers
      nothing; `fatal` means a reply matched no call. */
  datatype State = State(nextTag: nat, issued: nat, table: Table<nat>, callers: seq<Caller>,
                         reader: Reader, wire: set<nat>, read: set<nat>, fatal: bool)

  datatype Event =
    | TakeTag(c: nat) | Register(c: nat) | Write(c: nat, delivered: bool)
    | CloseMap | ReadReply(tag: nat) | ReadError | ReaderCloses | FindOutstanding(todo: seq<nat>)
    | FailNext | Receive

  ghost predicate Initial(d: State) {
    && d.nextTag == 1 && d.issued == 1 && d.table == Table(false, map[])
    && d.reader == Reading && d.wire == {} && d.read == {} && !d.fatal
    && forall c :: 0 <= c < |d.callers| ==> d.callers[c] == Start
  }

  ghost predicate Enabled(d: State, e: Event) {
    !d.fatal &&
    match e
    case TakeTag(c) => c < |d.callers| && d.callers[c] == Start
    case Register(c) => c < |d.callers| && d.callers[c].Tagged?
    case Write(c, _) => c < |d.callers| && d.callers[c].Registered?
    case CloseMap => true
    case ReadReply(tag) => d.reader == Reading && tag in d.wire
    case ReadError => d.reader == Reading
    case ReaderCloses => d.reader == Errored
    case FindOutstanding(todo) => d.reader == Closed && Enumerates(todo, d.table.calls.Keys)
    case FailNext => d.reader.Failing?
    case Receive =>
      (d.reader.Sending? || d.reader.FailSending?) && d.reader.c < |d.callers| && d.callers[d.reader.c].Listening?
  }

  ghost function Next(d: State, e: Event): State
    requires Enabled(d, e)
  {
    match e
    case TakeTag(c) =>
      d.(nextTag := (d.nextTag + 1) % TAGS, issued := d.issued + 1, callers := d.callers[c := Tagged(d.nextTag)])
    case Register(c) =>
      var t := d.callers[c].tag;
      d.(table := AfterPut(d.table, t, c),
      callers := d.callers[c := if d.table.closed then Refused(t) else Registered(t)])
    case Write(c, delivered) =>
      var t := d.callers[c].tag;
      d.(callers := d.callers[c := Listening(t)], wire := if delivered then d.wire + {t} else d.wire)
    case CloseMap => d.(table := AfterClose(d.table))
    case ReadReply(tag) =>
      if tag in d.table.calls then
        d.(wire := d.wire - {tag}, read := d.read + {tag}, table := AfterRemove(d.table, tag),
        reader := Sending(tag, d.table.calls[tag]))
      else d.(fatal := true)
    case ReadError => d.(reader := Errored)
    case ReaderCloses => d.(table := AfterClose(d.table), reader := Closed)
    case FindOutstanding(todo) => d.(reader := Failing(todo))
    case FailNext =>
      var todo := d.reader.todo;
      if todo == [] then d.(reader := Finished)
      else if todo[0] in d.table.calls then
        d.(table := AfterRemove(d.table, todo[0]), reader := FailSending(todo[0], d.table.calls[todo[0]], todo[1..]))
      else d.(fatal := true)
    case Receive =>
      var r := d.reader;
      d.(callers := d.callers[r.c := Answered(d.callers[r.c].tag, r.tag, r.Sending?)],
      reader := if r.Sending? then Reading else Failing(r.todo))
  }

  ghost predicate Run(run: seq<State>, events: seq<Event>) {
    && |run| == |events| + 1
    && Initial(run[0])
    && forall i :: 0 <= i < |events| ==> Enabled(run[i], events[i]) && run[i + 1] == Next(run[i], events[i])
  }

  // ----- the invariant

  /** A call that is registered and has not been answered. */
  predicate Pending(k: Caller) {
    k.Registered? || k.Listening?
  }

  ghost predicate TagsOk(d: State) {
    && 1 <= d.issued <= TAGS && d.nextTag == d.issued % TAGS
    && (forall c :: 0 <= c < |d.callers| && !d.callers[c].Start? ==> d.callers[c].tag < d.issued)
    && (forall t :: t in d.read ==> t < d.issued)
    && (forall b, c :: 0 <= b < c < |d.callers| && !d.callers[b].Start? && !d.callers[c].Start? ==>
          d.callers[b].tag != d.callers[c].tag)
  }

  /** The reader is on its way to answer caller c for tag t. */
  predicate Serving(r: Reader, t: nat, c: nat) {
    (r.Sending? || r.FailSending?) && r.tag == t && r.c == c
  }

  /** A call in the map is that of a pending caller. */
  ghost predicate EntryOk(d: State, t: nat) {
    t in d.table.calls ==>
      d.table.calls[t] < |d.callers| && Pending(d.callers[d.table.calls[t]]) && d.callers[d.table.calls[t]].tag == t
  }

  /** A pending caller is in the map or about to be answered. */
  ghost predicate CallerOk(d: State, c: nat)
    requires c < |d.callers|
  {
    var k := d.callers[c];
    && (Pending(k) ==> (k.tag in d.table.calls && d.table.calls[k.tag] == c) || Serving(d.reader, k.tag, c))
    && (k.Answered? ==> k.replyTag == k.tag && (k.ok <==> k.tag in d.read))
    && (k.Tagged? ==> k.tag !in d.read)
    && (k.Refused? ==> d.table.closed && k.tag !in d.read)
    && (Pending(k) ==> (k.tag in d.read <==> d.reader.Sending? && Serving(d.reader, k.tag, c)))
  }

  ghost predicate CallsOk(d: State) {
    && (forall t :: t in d.table.calls ==> EntryOk(d, t))
    && (forall c :: 0 <= c < |d.callers| ==> CallerOk(d, c))
  }

  /** A request the server may still answer belongs to a listening caller. */
  ghost predicate WireOk(d: State) {
    forall t :: t in d.wire ==>
      t in d.table.calls && d.table.calls[t] < |d.callers| && d.callers[d.table.calls[t]].Listening?
  }

  ghost predicate ReaderOk(d: State) {
    match d.reader
    case Reading => WireOk(d)
    case Sending(tag, c) =>
      c < |d.callers| && d.callers[c] == Listening(tag) && tag !in d.table.calls && WireOk(d)
    case Errored => true
    case Closed => d.table.closed
    case Failing(todo) => d.table.closed && Enumerates(todo, d.table.calls.Keys)
    case FailSending(tag, c, todo) =>
      d.table.closed && c < |d.callers| && Pending(d.callers[c]) && d.callers[c].tag == tag && tag !in d.table.calls
      && Enumerates(todo, d.table.calls.Keys)
    case Finished => d.table.closed && d.table.calls == map[]
  }

  ghost predicate Inv(d: State) {
    !d.fatal && TagsOk(d) && CallsOk(d) && ReaderOk(d)
  }

  lemma NextTagsOk(d: State, e: Event)
    requires Inv(d) && Enabled(d, e) && Next(d, e).issued <= TAGS
    ensures TagsOk(Next(d, e))
  {
  }

  lemma NextEntryOk(d: State, e: Event, t: nat)
    requires Inv(d) && Enabled(d, e) && Next(d, e).issued <= TAGS
    ensures EntryOk(Next(d, e), t)
  {
    assert t in d.table.calls ==> EntryOk(d, t);
  }

  lemma NextCallerOk(d: State, e: Event, c: nat)
    requires Inv(d) && Enabled(d, e) && Next(d, e).issued <= TAGS && c < |d.callers|
    ensures |Next(d, e).callers| == |d.callers| && CallerOk(Next(d, e), c)
  {
    assert CallerOk(d, c);
    if e.Register? {
      assert CallerOk(d, e.c);
    }
  }

  lemma NextCallsOk(d: State, e: Event)
    requires Inv(d) && Enabled(d, e) && Next(d, e).issued <= TAGS
    ensures CallsOk(Next(d, e)) && !Next(d, e).fatal
  {
    var d' := Next(d, e);
    forall t | t in d'.table.calls ensures EntryOk(d', t) { NextEntryOk(d, e, t); }
    forall c | 0 <= c < |d'.callers| ensures CallerOk(d', c) { NextCallerOk(d, e, c); }
    if e.FailNext? && d.reader.todo != [] {
      EnumeratesRest(d.reader.todo, d.table.calls.Keys);
    }
  }

  lemma EnumeratesRest(todo: seq<nat>, s: set<nat>)
    requires Enumerates(todo, s) && todo != []
    ensures todo[0] in s && Enumerates(todo[1..], s - {todo[0]})
  {
    assert todo == [todo[0]] + todo[1..];
    assert todo[0] in todo;
  }

  lemma NextWireOk(d: State, e: Event)
    requires Inv(d) && WireOk(d) && Enabled(d, e) && Next(d, e).issued <= TAGS
    requires d.reader.Reading? || d.reader.Sending?
    ensures WireOk(Next(d, e))
  {
    var d' := Next(d, e);
    forall t | t in d'.wire
      ensures t in d'.table.calls && d'.table.calls[t] < |d'.callers| && d'.callers[d'.table.calls[t]].Listening?
    {
      assert t in d.table.calls ==> EntryOk(d, t);
      if e.Write? {
        assert CallerOk(d, e.c);
      }
    }
  }

  lemma NextReaderOk(d: State, e: Event)
    requires Inv(d) && Enabled(d, e) && Next(d, e).issued <= TAGS
    ensures ReaderOk(Next(d, e))
  {
    var d' := Next(d, e);
    if d.reader.Reading? || d.reader.Sending? {
      NextWireOk(d, e);
      assert e.ReadReply? ==> EntryOk(d, e.tag);
    }
    if e.FailNext? {
      if d.reader.todo == [] {
        assert d.table.calls == map[];
      } else {
        EnumeratesRest(d.reader.todo, d.table.calls.Keys);
        assert (d.table.calls - {d.reader.todo[0]}).Keys == d.table.calls.Keys - {d.reader.todo[0]};
      }
    }
  }

  lemma {:induction false} RunInv(run: seq<State>, events: seq<Event>, i: nat)
    requires Run(run, events) && i < |run| && run[i].issued <= TAGS
    ensures Inv(run[i])
  {
    if i > 0 {
      var d, e := run[i - 1], events[i - 1];
      assert run[i - 1 + 1] == Next(d, e);
      RunInv(run, events, i - 1);
      NextTagsOk(d, e);
      NextCallsOk(d, e);
      NextReaderOk(d, e);
    }
  }

  /** After closing, the map stays closed and never holds a call it did not hold then. */
  lemma {:induction false} ClosedForGood(run: seq<State>, events: seq<Event>, i: nat, j: nat)
    requires Run(run, events) && i <= j < |run| && run[i].table.closed
    ensures run[j].table.closed && run[j].table.calls.Keys <= run[i].table.calls.Keys
  {
    if i < j {
      ClosedForGood(run, events, i, j - 1);
      assert run[j - 1 + 1] == Next(run[j - 1], events[j - 1]);
    }
  }

  /** With no more tags handed out than there are: every reply read matches a call, an
      answered call got the reply for its own tag, the server's exactly if that was read, only
      a closed map refuses a call, the reader only ever sends to a call that is still to
      listen, and once the reader has finished no registered call is left. */
  lemma NoCallerLost(run: seq<State>, events: seq<Event>, i: nat)
    requires Run(run, events) && i < |run| && run[i].issued <= TAGS
    ensures var d := run[i];
            && !d.fatal
            && (forall c :: 0 <= c < |d.callers| && d.callers[c].Answered? ==>
                  d.callers[c].replyTag == d.callers[c].tag && (d.callers[c].ok <==> d.callers[c].tag in d.read))
            && (forall c :: 0 <= c < |d.callers| && d.callers[c].Refused? ==> d.table.closed)
            && (d.reader.Sending? || d.reader.FailSending? ==>
                  && d.reader.c < |d.callers| && Pending(d.callers[d.reader.c])
                  && d.callers[d.reader.c].tag == d.reader.tag)
            && (d.reader == Finished ==> forall c :: 0 <= c < |d.callers| ==> !Pending(d.callers[c]))
  {
    RunInv(run, events, i);
    var d := run[i];
    forall c | 0 <= c < |d.callers|
      ensures d.callers[c].Answered? ==>
                d.callers[c].replyTag == d.callers[c].tag && (d.callers[c].ok <==> d.callers[c].tag in d.read)
      ensures d.callers[c].Refused? ==> d.table.closed
      ensures d.reader == Finished ==> !Pending(d.callers[c])
    {
      assert CallerOk(d, c);
    }
  }
}
