/** The versioned key/value server: a compare-and-set on a per-key version.
    Versions are unbounded here; the program's are 64-bit. */
module KvStore {

  datatype Err = OK | ErrNoKey | ErrVersion | ErrMaybe

  datatype ValueVersion = ValueVersion(value: string, version: nat)

  type Store = map<string, ValueVersion>

  datatype Call = Get(key: string) | Put(key: string, value: string, version: nat)

  /** A Put's reply carries only its error; the other fields stay at their zero values. */
  datatype Reply = Reply(value: string, version: nat, err: Err)

  /** What a key holds; a key that was never written reads as the empty string at version 0. */
  function Lookup(store: Store, key: string): ValueVersion {
    if key in store then store[key] else ValueVersion("", 0)
  }

  /** The version check that decides whether a call writes. */
  predicate Lands(store: Store, call: Call) {
    call.Put? && Lookup(store, call.key).version == call.version
  }

  function StoreAfter(store: Store, call: Call): Store {
    if Lands(store, call) then store[call.key := ValueVersion(call.value, call.version + 1)] else store
  }

  function ReplyTo(store: Store, call: Call): Reply {
    match call
    case Get(key) =>
      var vv := Lookup(store, key);
      Reply(vv.value, vv.version, if key in store then OK else ErrNoKey)
    case Put(key, _, _) =>
      Reply("", 0, if Lands(store, call) then OK else if key in store then ErrVersion else ErrNoKey)
  }

  /** Every stored key has been written at least once. */
  ghost predicate Written(store: Store) {
    forall k :: k in store ==> store[k].version >= 1
  }

  /** Versions never go back, and a key keeps its value for as long as it keeps its version. */
  lemma ServeMonotone(store: Store, call: Call, key: string)
    ensures Lookup(store, key).version <= Lookup(StoreAfter(store, call), key).version
    ensures Lookup(store, key).version == Lookup(StoreAfter(store, call), key).version
            ==> Lookup(store, key) == Lookup(StoreAfter(store, call), key)
    ensures Written(store) ==> Written(StoreAfter(store, call))
  {
  }

  class KVServer {
    var store: Store

    ghost predicate Valid()
      reads this
    {
      Written(store)
    }

    constructor ()
      ensures Valid() && store == map[]
    {
      store := map[];
    }

    method Get(key: string) returns (reply: Reply)
      ensures reply == ReplyTo(store, Call.Get(key))
      ensures reply.err == OK <==> key in store
      ensures reply.err == OK ==> store[key] == ValueVersion(reply.value, reply.version)
      ensures reply.err != OK ==> reply == Reply("", 0, ErrNoKey)
    {
      if key !in store {
        reply := Reply("", 0, ErrNoKey);
      } else {
        var vv := store[key];
        reply := Reply(vv.value, vv.version, OK);
      }
    }

    method Put(key: string, value: string, version: nat) returns (reply: Reply)
      requires Valid()
      modifies this
      ensures Valid()
      ensures store == StoreAfter(old(store), Call.Put(key, value, version))
      ensures reply == ReplyTo(old(store), Call.Put(key, value, version))
      ensures reply.err == OK <==> store != old(store)
      ensures reply.err == OK ==> key in store && store[key] == ValueVersion(value, version + 1)
      ensures reply.err == OK <==> version == if key in old(store) then old(store)[key].version else 0
      ensures reply.err == ErrVersion <==> key in old(store) && version != old(store)[key].version
      ensures reply.err == ErrNoKey <==> key !in old(store) && version != 0
      ensures forall k :: k != key ==> Lookup(store, k) == old(Lookup(store, k)) && (k in store <==> k in old(store))
    {
      if key in store {
        if version == store[key].version {
          store := store[key := ValueVersion(value, version + 1)];
          reply := Reply("", 0, OK);
        } else {
          reply := Reply("", 0, ErrVersion);
        }
      } else if version == 0 {
        store := store[key := ValueVersion(value, 1)];
        reply := Reply("", 0, OK);
      } else {
        reply := Reply("", 0, ErrNoKey);
      }
    }
  }
}
