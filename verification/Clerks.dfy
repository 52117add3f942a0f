/** Any number of clerks calling one server over a network that may lose requests and replies.
    An attempt is executed at most once, and its Call returns before the clerk resends. */
module Clerks {
  import opened Basics
  import opened KvStore

  /** What one clerk is doing. `answer` is the server's reply to the attempt under way, once
      executed; `landed` records whether any attempt of the call has written. */
  datatype Clerk = Idle | Busy(call: Call, retry: bool, landed: bool, answer: Option<Reply>)

  datatype State = State(store: Store, clerks: seq<Clerk>)

  /** Execute: the server runs the handler. Fail: Call returns false, because the request or
      the reply was lost, and the clerk resends. Return: the reply reaches the caller. */
  datatype Event = Invoke(c: nat, call: Call) | Execute(c: nat) | Fail(c: nat) | Return(c: nat)

  predicate Enabled(s: State, e: Event) {
    e.c < |s.clerks| &&
    match e
    case Invoke(c, _) => s.clerks[c].Idle?
    case Execute(c) => s.clerks[c].Busy? && s.clerks[c].answer.None?
    case Fail(c) => s.clerks[c].Busy?
    case Return(c) => s.clerks[c].Busy? && s.clerks[c].answer.Some?
  }

  /** The result handed to the caller: a late version mismatch becomes ErrMaybe. */
  function Result(k: Clerk): Reply
    requires k.Busy? && k.answer.Some?
  {
    var r := k.answer.value;
    if k.call.Put? && k.retry && r.err == ErrVersion then r.(err := ErrMaybe) else r
  }

  function Next(s: State, e: Event): State
    requires Enabled(s, e)
  {
    match e
    case Invoke(c, call) => s.(clerks := s.clerks[c := Busy(call, false, false, None)])
    case Execute(c) =>
      var k := s.clerks[c];
      State(StoreAfter(s.store, k.call),
            s.clerks[c := Busy(k.call, k.retry, k.landed || Lands(s.store, k.call), Some(ReplyTo(s.store, k.call)))])
    case Fail(c) => s.(clerks := s.clerks[c := s.clerks[c].(retry := true, answer := None)])
    case Return(c) => s.(clerks := s.clerks[c := Idle])
  }

  /** What is always known about a call under way. */
  ghost predicate ClerkOk(store: Store, k: Clerk) {
    k.Busy? ==>
      var cur := Lookup(store, k.call.key);
      && (k.landed ==> k.call.Put? && k.call.version < cur.version)
      && (!k.retry && k.answer.None? ==> !k.landed)
      && (k.answer.Some? && k.call.Get? ==>
            && k.answer.value.version <= cur.version
            && (k.answer.value.version == cur.version ==> k.answer.value.value == cur.value)
            && (k.answer.value.err == ErrNoKey <==> k.answer.value.version == 0))
      && (k.answer.Some? && k.call.Put? ==>
            && k.answer.value.err in {OK, ErrVersion, ErrNoKey}
            && (k.answer.value.err == OK ==> k.landed)
            && (k.answer.value.err == ErrNoKey ==> !k.landed && k.call.version != 0)
            && (k.answer.value.err == ErrVersion && !k.retry ==> !k.landed)
            && (k.answer.value.err != ErrNoKey ==> k.call.key in store))
  }

  ghost predicate Inv(s: State) {
    Written(s.store) && forall c :: 0 <= c < |s.clerks| ==> ClerkOk(s.store, s.clerks[c])
  }

  /** Another call's execution leaves what is known about a clerk true. */
  lemma ClerkOkServed(store: Store, call: Call, k: Clerk)
    requires ClerkOk(store, k)
    ensures ClerkOk(StoreAfter(store, call), k)
  {
    if k.Busy? {
      ServeMonotone(store, call, k.call.key);
    }
  }

  lemma NextInv(s: State, e: Event)
    requires Inv(s) && Enabled(s, e)
    ensures Inv(Next(s, e))
  {
    var s' := Next(s, e);
    if e.Execute? {
      var k := s.clerks[e.c];
      ServeMonotone(s.store, k.call, k.call.key);
      forall d | 0 <= d < |s.clerks|
        ensures ClerkOk(s'.store, s'.clerks[d])
      {
        ClerkOkServed(s.store, k.call, s.clerks[d]);
      }
    }
  }
}
