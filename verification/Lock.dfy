/** The lock built on the key/value clerk: any number of Lock objects, of any names, over the
    lossy network, next to clients that write other keys. */
module Lock {
  import opened Text
  import opened Basics
  import opened KvStore
  import opened Clerks

  /** Where one Lock object is: outside, in Acquire before its Get or its Put, between the
      return of Acquire and the call of Release, in Release before its Get or its Put. */
  datatype Prog = Out | AcqGet | AcqPut(version: nat) | Holding | RelGet | RelPut(version: nat)

  /** Lock object c has the name names[c] and drives clerk c; further clerks belong to other
      clients. `released` counts returns of Release, `unlocked` the release writes that landed. */
  datatype State = State(kv: Clerks.State, names: seq<string>, progs: seq<Prog>,
                         released: seq<nat>, unlocked: seq<nat>)

  datatype Event = CallAcquire(c: nat) | CallRelease(c: nat) | Net(e: Clerks.Event)

  /** The id the global counter gives to the c-th Lock object. */
  function Id(c: nat): string { Itoa(c + 1) }

  function Held(c: nat): string { "1" + "-" + Id(c) }

  function Freed(c: nat): string { "0" + "-" + Id(c) }

  /** The id in a lock value and whether the value says locked. */
  function Parse(value: string): (string, bool) {
    var parts := Split(value, '-');
    if |parts| > 1 then (parts[1], parts[0] == "1") else ("", false)
  }

  /** The test that lets Acquire go on to its Put. */
  predicate MayTry(value: string, id: string) {
    Parse(value).0 == "" || Parse(value).0 == id || !Parse(value).1
  }

  /** The call a program makes next. */
  function Wants(l: State, c: nat): Option<Call>
    requires c < |l.names| == |l.progs|
  {
    match l.progs[c]
    case Out => None
    case Holding => None
    case AcqGet => Some(Get(l.names[c]))
    case RelGet => Some(Get(l.names[c]))
    case AcqPut(v) => Some(Put(l.names[c], Held(c), v))
    case RelPut(v) => Some(Put(l.names[c], Freed(c), v))
  }

  /** Where a program goes with the result of its call. */
  function After(p: Prog, id: string, r: Reply): Prog {
    match p
    case AcqGet => if MayTry(r.value, id) then AcqPut(r.version) else AcqGet
    case AcqPut(_) => if r.err == OK then Holding else AcqGet
    case RelGet => if r.err != ErrNoKey && Parse(r.value).0 != "" then RelPut(r.version) else Out
    case RelPut(_) => Out
    case _ => p
  }

  ghost predicate Shape(l: State) {
    |l.names| == |l.progs| == |l.released| == |l.unlocked| <= |l.kv.clerks|
  }

  ghost predicate Start(l: State) {
    && Shape(l)
    && Written(l.kv.store)
    && (forall c :: 0 <= c < |l.kv.clerks| ==> l.kv.clerks[c].Idle?)
    && (forall c :: 0 <= c < |l.names| ==>
          l.names[c] !in l.kv.store && l.progs[c] == Out && l.released[c] == l.unlocked[c] == 0)
  }

  ghost predicate Enabled(l: State, e: Event)
    requires Shape(l)
  {
    match e
    case CallAcquire(c) => c < |l.progs| && l.progs[c] == Out
    case CallRelease(c) => c < |l.progs| && l.progs[c] == Holding
    case Net(n) =>
      && Clerks.Enabled(l.kv, n)
      && (n.Invoke? ==>
            if n.c < |l.progs| then Wants(l, n.c) == Some(n.call)
            else n.call.Put? ==> n.call.key !in l.names)
  }

  function Next(l: State, e: Event): State
    requires Shape(l) && Enabled(l, e)
  {
    match e
    case CallAcquire(c) => l.(progs := l.progs[c := AcqGet])
    case CallRelease(c) => l.(progs := l.progs[c := RelGet])
    case Net(n) =>
      var l' := l.(kv := Clerks.Next(l.kv, n));
      if n.c >= |l.progs| then l'
      else if n.Execute? && l.progs[n.c].RelPut? && Lands(l.kv.store, l.kv.clerks[n.c].call) then
        l'.(unlocked := l.unlocked[n.c := l.unlocked[n.c] + 1])
      else if n.Return? then
        var p := After(l.progs[n.c], Id(n.c), Result(l.kv.clerks[n.c]));
        l'.(progs := l.progs[n.c := p],
        released := if p == Out then l.released[n.c := l.released[n.c] + 1] else l.released)
      else l'
  }

  /** A run of the Lock objects with the given names. */
  ghost predicate Run(names: seq<string>, run: seq<State>, events: seq<Event>) {
    && |run| == |events| + 1
    && Start(run[0])
    && (forall i :: 0 <= i < |run| ==> Shape(run[i]) && run[i].names == names)
    && (forall i :: 0 <= i < |events| ==> Enabled(run[i], events[i]) && run[i + 1] == Next(run[i], events[i]))
  }

  // ----- lock values

  lemma ParseTagged(tag: string, c: nat)
    requires tag == "0" || tag == "1"
    ensures Parse(tag + "-" + Id(c)) == (Id(c), tag == "1")
    ensures Id(c) != ""
  {
    ItoaPlain(c + 1);
    SplitPair(tag, Id(c));
  }

  /** Distinct Lock objects write distinct values. */
  lemma HeldInjective(c: nat, d: nat)
    requires Held(c) == Held(d) || Id(c) == Id(d)
    ensures c == d
  {
    assert Held(c)[2..] == Id(c) && Held(d)[2..] == Id(d);
    ItoaInjective(c + 1, d + 1);
  }

  /** A value that says another object holds the lock stops Acquire. */
  lemma HeldStopsOthers(c: nat, d: nat)
    requires c != d
    ensures Held(d) != Held(c) && !MayTry(Held(d), Id(c))
  {
    ParseTagged("1", d);
    if Held(c) == Held(d) || Id(c) == Id(d) {
      HeldInjective(c, d);
    }
  }

  /** Exactly which lock values let an object go on to its Put: none, a freed one, its own. */
  lemma MayTryIff(c: nat, d: nat)
    ensures MayTry("", Id(c)) && MayTry(Freed(d), Id(c))
    ensures MayTry(Held(d), Id(c)) <==> c == d
  {
    ParseTagged("0", d);
    ParseTagged("1", d);
    if c != d {
      HeldStopsOthers(c, d);
    }
  }

  // ----- the invariant

  function Current(l: State, c: nat): ValueVersion
    requires c < |l.names|
  {
    Lookup(l.kv.store, l.names[c])
  }

  predicate Unlanded(k: Clerk) {
    k.Idle? || !k.landed
  }

  /** A write of c is standing: Acquire's write has landed and Release's has not. */
  ghost predicate Owner(l: State, c: nat)
    requires Shape(l) && c < |l.progs|
  {
    var p, k := l.progs[c], l.kv.clerks[c];
    p == Holding || p == RelGet || (p.RelPut? && Unlanded(k)) || (p.AcqPut? && !Unlanded(k))
  }

  ghost predicate ProgOk(l: State, c: nat)
    requires Shape(l) && c < |l.progs|
  {
    var p, k, cur := l.progs[c], l.kv.clerks[c], Current(l, c);
    && (k.Busy? ==> Wants(l, c) == Some(k.call))
    && (Owner(l, c) ==> cur.value == Held(c))
    && (p.AcqPut? ==> p.version <= cur.version && (p.version == cur.version ==> MayTry(cur.value, Id(c))))
    && (p.RelGet? && k.Busy? && k.answer.Some? ==> k.answer.value.version == cur.version)
    && (p.RelPut? && Unlanded(k) ==> p.version == cur.version && (k.Busy? ==> k.answer.None?))
    && l.unlocked[c] == l.released[c] + if p.RelPut? && !Unlanded(k) then 1 else 0
  }

  ghost predicate Inv(l: State) {
    && Shape(l) && Clerks.Inv(l.kv)
    && (forall c :: 0 <= c < |l.progs| ==> ProgOk(l, c))
    && (forall c :: |l.progs| <= c < |l.kv.clerks| && l.kv.clerks[c].Busy? && l.kv.clerks[c].call.Put? ==>
          l.kv.clerks[c].call.key !in l.names)
  }

  /** While d owns the lock nobody else's write to it lands. */
  lemma OwnerExcludes(l: State, c: nat, d: nat)
    requires Inv(l) && d < |l.progs| && c < |l.kv.clerks| && c != d
    requires Current(l, d).value == Held(d)
    requires l.kv.clerks[c].Busy? && Lands(l.kv.store, l.kv.clerks[c].call)
    ensures l.kv.clerks[c].call.key != l.names[d]
  {
    if c < |l.progs| {
      assert ProgOk(l, c);
      assert ClerkOk(l.kv.store, l.kv.clerks[c]);
      HeldStopsOthers(c, d);
    }
  }

  /** Another object's owner keeps its value and version. */
  lemma OwnerKept(l: State, c: nat, d: nat)
    requires Inv(l) && d < |l.progs| && c < |l.kv.clerks| && c != d && l.kv.clerks[c].Busy?
    ensures Owner(l, d) ==> Lookup(StoreAfter(l.kv.store, l.kv.clerks[c].call), l.names[d]) == Current(l, d)
  {
    assert ProgOk(l, d);
    if Owner(l, d) && Lands(l.kv.store, l.kv.clerks[c].call) {
      OwnerExcludes(l, c, d);
    }
  }

  lemma ExecuteOther(l: State, e: Event, d: nat)
    requires Inv(l) && Enabled(l, e) && e.Net? && e.e.Execute? && d < |l.progs| && e.e.c != d
    ensures Shape(Next(l, e)) && ProgOk(Next(l, e), d)
  {
    assert ProgOk(l, d);
    ServeMonotone(l.kv.store, l.kv.clerks[e.e.c].call, l.names[d]);
    OwnerKept(l, e.e.c, d);
  }

  lemma ExecuteSelf(l: State, e: Event)
    requires Inv(l) && Enabled(l, e) && e.Net? && e.e.Execute? && e.e.c < |l.progs|
    ensures Shape(Next(l, e)) && ProgOk(Next(l, e), e.e.c)
  {
    assert ProgOk(l, e.e.c);
    assert ClerkOk(l.kv.store, l.kv.clerks[e.e.c]);
  }

  lemma ReturnSelf(l: State, e: Event)
    requires Inv(l) && Enabled(l, e) && e.Net? && e.e.Return? && e.e.c < |l.progs|
    ensures Shape(Next(l, e)) && ProgOk(Next(l, e), e.e.c)
  {
    var c := e.e.c;
    assert ProgOk(l, c);
    assert ClerkOk(l.kv.store, l.kv.clerks[c]);
    ParseTagged("1", c);
  }

  lemma NextProgOk(l: State, e: Event, d: nat)
    requires Inv(l) && Enabled(l, e) && d < |l.progs|
    ensures Shape(Next(l, e)) && ProgOk(Next(l, e), d)
  {
    if e.Net? && e.e.Execute? {
      if e.e.c == d { ExecuteSelf(l, e); } else { ExecuteOther(l, e, d); }
    } else if e.Net? && e.e.Return? && e.e.c == d {
      ReturnSelf(l, e);
    } else {
      QuietProgOk(l, e, d);
    }
  }

  /** The other events leave the store alone, and at most start or resend d's call. */
  lemma QuietProgOk(l: State, e: Event, d: nat)
    requires Inv(l) && Enabled(l, e) && d < |l.progs|
    requires e.Net? ==> !e.e.Execute? && !(e.e.Return? && e.e.c == d)
    ensures Shape(Next(l, e)) && ProgOk(Next(l, e), d)
  {
    assert ProgOk(l, d);
  }

  lemma NextInv(l: State, e: Event)
    requires Inv(l) && Enabled(l, e)
    ensures Inv(Next(l, e))
  {
    if e.Net? {
      Clerks.NextInv(l.kv, e.e);
    }
    forall d | 0 <= d < |l.progs| ensures Shape(Next(l, e)) && ProgOk(Next(l, e), d) { NextProgOk(l, e, d); }
  }

  lemma {:induction false} RunInv(names: seq<string>, run: seq<State>, events: seq<Event>, i: nat)
    requires Run(names, run, events) && i < |run|
    ensures Inv(run[i])
  {
    if i > 0 {
      RunInv(names, run, events, i - 1);
      NextInv(run[i - 1], events[i - 1]);
      assert run[i - 1 + 1] == Next(run[i - 1], events[i - 1]);
    }
  }

  // ----- main results

  /** Mutual exclusion: at no point of any run are two Lock objects of one name both between
      the return of Acquire and the call of Release. */
  lemma MutualExclusion(names: seq<string>, run: seq<State>, events: seq<Event>, i: nat, c: nat, d: nat)
    requires Run(names, run, events) && i < |run|
    requires c < |names| && d < |names| && names[c] == names[d]
    requires run[i].progs[c] == Holding && run[i].progs[d] == Holding
    ensures c == d
  {
    RunInv(names, run, events, i);
    assert ProgOk(run[i], c) && ProgOk(run[i], d);
    HeldInjective(c, d);
  }

  /** The event at which the release write of c reaches the store. */
  ghost predicate Unlocks(l: State, e: Event, c: nat)
    requires Shape(l) && c < |l.progs|
  {
    e == Net(Execute(c)) && l.progs[c].RelPut?
  }

  /** Reservation: once a write of Acquire has landed, whatever its Put reported, the lock
      stays with that object, and no other object of the name holds it, until the object's
      own release write. */
  lemma {:induction false} Reservation(names: seq<string>, run: seq<State>, events: seq<Event>, i: nat, j: nat, c: nat)
    requires Run(names, run, events) && i <= j < |run|
    requires c < |names| && Current(run[i], c).value == Held(c)
    requires forall m :: i <= m < j ==> !Unlocks(run[m], events[m], c)
    ensures Current(run[j], c).value == Held(c)
    ensures forall d :: 0 <= d < |names| && d != c && names[d] == names[c] ==> !Owner(run[j], d)
  {
    RunInv(names, run, events, j);
    if i < j {
      Reservation(names, run, events, i, j - 1, c);
      RunInv(names, run, events, j - 1);
      assert run[j - 1 + 1] == Next(run[j - 1], events[j - 1]);
      HeldStays(run[j - 1], events[j - 1], c);
    }
    OthersOut(run[j], c);
  }

  /** Only the object's own release write takes its value away. */
  lemma HeldStays(l: State, e: Event, c: nat)
    requires Inv(l) && Enabled(l, e) && c < |l.names| && Current(l, c).value == Held(c) && !Unlocks(l, e, c)
    ensures Next(l, e).names == l.names && Current(Next(l, e), c).value == Held(c)
  {
    if e.Net? && e.e.Execute? && Lands(l.kv.store, l.kv.clerks[e.e.c].call) {
      if e.e.c == c {
        assert ProgOk(l, c);
      } else {
        OwnerExcludes(l, e.e.c, c);
      }
    }
  }

  lemma OthersOut(l: State, c: nat)
    requires Inv(l) && c < |l.names| && Current(l, c).value == Held(c)
    ensures forall d :: 0 <= d < |l.names| && d != c && l.names[d] == l.names[c] ==> !Owner(l, d)
  {
    forall d | 0 <= d < |l.names| && d != c && l.names[d] == l.names[c] ensures !Owner(l, d) {
      assert ProgOk(l, d);
      HeldStopsOthers(c, d);
    }
  }

  /** Release: whatever code its Put reports, a Release has landed its write exactly once when
      it returns; the only other landed release write is one of a Release still under way. */
  lemma ReleaseLandsOnce(names: seq<string>, run: seq<State>, events: seq<Event>, i: nat, c: nat)
    requires Run(names, run, events) && i < |run|
    requires c < |names|
    ensures run[i].unlocked[c] == run[i].released[c] ||
            (run[i].progs[c].RelPut? && run[i].unlocked[c] == run[i].released[c] + 1)
    ensures run[i].progs[c] in {Out, AcqGet, Holding, RelGet} ==> run[i].unlocked[c] == run[i].released[c]
  {
    RunInv(names, run, events, i);
    assert ProgOk(run[i], c);
  }

  // ----- what a lock value can be, and progress

  /** A lock holds nothing, or what one of its objects wrote to it. */
  ghost predicate ValueOk(l: State, c: nat)
    requires c < |l.names|
  {
    l.names[c] !in l.kv.store || exists d :: 0 <= d < |l.names| && l.names[d] == l.names[c]
                                             && (Current(l, c).value == Held(d) || Current(l, c).value == Freed(d))
  }

  lemma NextValueOk(l: State, e: Event, c: nat)
    requires Inv(l) && Enabled(l, e) && c < |l.names| && ValueOk(l, c)
    ensures c < |Next(l, e).names| && ValueOk(Next(l, e), c)
  {
    var l' := Next(l, e);
    if e.Net? && e.e.Execute? && Lands(l.kv.store, l.kv.clerks[e.e.c].call)
       && l.kv.clerks[e.e.c].call.key == l.names[c] {
      assert e.e.c < |l.progs| && ProgOk(l, e.e.c);
      assert Current(l', c).value == Held(e.e.c) || Current(l', c).value == Freed(e.e.c);
    } else if l.names[c] in l.kv.store {
      var d :| 0 <= d < |l.names| && l.names[d] == l.names[c]
               && (Current(l, c).value == Held(d) || Current(l, c).value == Freed(d));
      assert Current(l', c) == Current(l, c);
    }
  }

  lemma {:induction false} RunValueOk(names: seq<string>, run: seq<State>, events: seq<Event>, i: nat, c: nat)
    requires Run(names, run, events) && i < |run| && c < |names|
    ensures ValueOk(run[i], c)
  {
    if i > 0 {
      RunInv(names, run, events, i - 1);
      RunValueOk(names, run, events, i - 1, c);
      NextValueOk(run[i - 1], events[i - 1], c);
      assert run[i - 1 + 1] == Next(run[i - 1], events[i - 1]);
    }
  }

  /** The state after events that are enabled one after another. */
  ghost predicate Leads(l: State, events: seq<Event>, l': State)
    decreases |events|
  {
    if events == [] then l' == l
    else Shape(l) && Enabled(l, events[0]) && Leads(Next(l, events[0]), events[1..], l')
  }

  /** A call that is sent, executed and answered without loss. */
  function Answered(c: nat, call: Call): seq<Event> {
    [Net(Invoke(c, call)), Net(Execute(c)), Net(Return(c))]
  }

  /** What an object's call does when nothing is lost and nobody comes between. */
  lemma OneCall(l: State, c: nat, call: Call) returns (l': State)
    requires Shape(l) && c < |l.progs| && l.kv.clerks[c].Idle? && Wants(l, c) == Some(call)
    ensures Leads(l, Answered(c, call), l') && Shape(l') && l'.names == l.names
    ensures l'.kv.clerks == l.kv.clerks && l'.kv.store == StoreAfter(l.kv.store, call)
    ensures l'.progs == l.progs[c := After(l.progs[c], Id(c), ReplyTo(l.kv.store, call))]
  {
    var events := Answered(c, call);
    var a := Next(l, events[0]);
    var b := Next(a, events[1]);
    l' := Next(b, events[2]);
    assert events[1..][0] == events[1] && events[1..][1..][0] == events[2] && events[1..][1..][1..] == [];
    assert l'.kv.clerks == l.kv.clerks;
    assert Leads(l', [], l') && Leads(b, events[1..][1..], l') && Leads(a, events[1..], l');
  }

  lemma FreeMayBeTried(l: State, c: nat)
    requires c < |l.names| && ValueOk(l, c)
    requires forall d :: 0 <= d < |l.names| && d != c ==> Current(l, c).value != Held(d)
    ensures MayTry(Current(l, c).value, Id(c))
  {
    if l.names[c] in l.kv.store {
      var d :| 0 <= d < |l.names| && l.names[d] == l.names[c]
               && (Current(l, c).value == Held(d) || Current(l, c).value == Freed(d));
      MayTryIff(c, d);
    } else {
      MayTryIff(c, c);
    }
  }

  /** A free lock can be taken: from every reachable state in which an object is about to look
      at the lock and no other object's held value stands, its Get and then its Put lead to
      holding the lock when nothing is lost and nobody comes between. */
  lemma FreeLockIsTaken(names: seq<string>, run: seq<State>, events: seq<Event>, i: nat, c: nat)
    returns (m: State, l': State)
    requires Run(names, run, events) && i < |run| && c < |names|
    requires run[i].progs[c] == AcqGet && run[i].kv.clerks[c].Idle?
    requires forall d :: 0 <= d < |names| && d != c ==> Current(run[i], c).value != Held(d)
    ensures Leads(run[i], Answered(c, Get(names[c])), m)
    ensures Leads(m, Answered(c, Put(names[c], Held(c), Current(run[i], c).version)), l')
    ensures |l'.progs| == |names| && l'.progs[c] == Holding
    ensures |l'.names| == |names| && Current(l', c).value == "1-" + Itoa(c + 1)
  {
    RunValueOk(names, run, events, i, c);
    FreeMayBeTried(run[i], c);
    m := OneCall(run[i], c, Get(names[c]));
    l' := OneCall(m, c, Put(names[c], Held(c), Current(run[i], c).version));
  }

  /** A holder can release: from every reachable state in which an object holds the lock,
      calling Release, its Get and then its Put lead out and leave the freed value, when
      nothing is lost and nobody comes between. */
  lemma HolderReleases(names: seq<string>, run: seq<State>, events: seq<Event>, i: nat, c: nat)
    returns (m: State, l': State)
    requires Run(names, run, events) && i < |run| && c < |names| && run[i].progs[c] == Holding
    ensures Enabled(run[i], CallRelease(c)) && Leads(Next(run[i], CallRelease(c)), Answered(c, Get(names[c])), m)
    ensures Leads(m, Answered(c, Put(names[c], Freed(c), Current(run[i], c).version)), l')
    ensures |l'.progs| == |names| && l'.progs[c] == Out
    ensures |l'.names| == |names| && Current(l', c).value == "0-" + Itoa(c + 1)
  {
    RunInv(names, run, events, i);
    assert ProgOk(run[i], c);
    ParseTagged("1", c);
    m := OneCall(Next(run[i], CallRelease(c)), c, Get(names[c]));
    l' := OneCall(m, c, Put(names[c], Freed(c), Current(run[i], c).version));
  }
}
