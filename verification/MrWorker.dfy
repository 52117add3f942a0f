/** What a worker computes: bucketing, grouping, reducing, and the names of its files. */
module MrWorker {
  import opened Basics
  import opened Text
  import opened MrData

  // ----- file names

  /** "mr-<task id>-<bucket>.json" */
  function BucketName(task: string, i: nat): string {
    "mr-" + task + "-" + (Itoa(i) + ".json")
  }

  /** "mr-out-<bucket>" */
  function OutName(i: nat): string {
    "mr-out" + "-" + Itoa(i)
  }

  /** filepath.Glob's matching of a name in one directory: a star stands for any text, every
      other character for itself. */
  ghost predicate Matches(pattern: string, name: string) {
    if pattern == "" then name == ""
    else if pattern[0] == '*' then exists k :: 0 <= k <= |name| && Matches(pattern[1..], name[k..])
    else name != "" && name[0] == pattern[0] && Matches(pattern[1..], name[1..])
  }

  lemma {:induction false} MatchesPlain(pattern: string, name: string)
    requires '*' !in pattern
    ensures Matches(pattern, name) <==> name == pattern
  {
    if pattern != "" && name != "" {
      MatchesPlain(pattern[1..], name[1..]);
      assert pattern == [pattern[0]] + pattern[1..] && name == [name[0]] + name[1..];
    }
  }

  /** A pattern with one star selects what starts and ends as it does. */
  lemma {:induction false} MatchesStar(a: string, b: string, name: string)
    requires '*' !in a && '*' !in b
    ensures Matches(a + "*" + b, name) <==> exists star: string :: name == a + star + b
    decreases |a|
  {
    var pattern := a + "*" + b;
    if a == "" {
      assert pattern[1..] == b;
      forall k | 0 <= k <= |name| ensures Matches(b, name[k..]) <==> name[k..] == b { MatchesPlain(b, name[k..]); }
      if Matches(pattern, name) {
        var k :| 0 <= k <= |name| && Matches(pattern[1..], name[k..]);
        assert name == a + name[..k] + b;
      }
      if star: string :| name == a + star + b {
        assert name[|star|..] == b;
      }
    } else {
      assert pattern[1..] == a[1..] + "*" + b;
      if name != "" && name[0] == a[0] {
        MatchesStar(a[1..], b, name[1..]);
        if Matches(pattern, name) {
          var star: string :| name[1..] == a[1..] + star + b;
          assert name == a + star + b;
        }
        if star: string :| name == a + star + b {
          assert name[1..] == a[1..] + star + b;
        }
      }
    }
  }

  /** The pattern of reduce i selects bucket names of bucket i. */
  lemma PatternSelects(i: nat, name: string)
    ensures Matches("mr-*-" + Itoa(i) + ".json", name) <==> GlobMatches(i, name)
  {
    ItoaPlain(i);
    var b := "-" + (Itoa(i) + ".json");
    assert "mr-*-" + Itoa(i) + ".json" == "mr-" + "*" + b;
    NoStar(i);
    MatchesStar("mr-", b, name);
    forall star: string ensures "mr-" + star + b == BucketName(star, i) {}
  }

  lemma NoStar(i: nat)
    ensures '*' !in "-" + (Itoa(i) + ".json")
  {
    ItoaPlain(i);
  }

  /** The names the pattern "mr-*-<i>.json" selects; the star matches any text. */
  ghost predicate GlobMatches(i: nat, name: string) {
    exists star: string :: name == BucketName(star, i)
  }

  /** The pattern of reduce i selects a bucket file exactly when it is of bucket i. */
  lemma GlobSelectsBucket(i: nat, task: string, j: nat)
    ensures GlobMatches(i, BucketName(task, j)) <==> i == j
  {
    if GlobMatches(i, BucketName(task, j)) {
      var star: string :| BucketName(task, j) == BucketName(star, i);
      BucketNameInjective(task, j, star, i);
    }
  }

  /** A bucket file's name tells the task and the bucket. */
  lemma BucketNameInjective(a: string, i: nat, b: string, j: nat)
    requires BucketName(a, i) == BucketName(b, j)
    ensures a == b && i == j
  {
    var x, y := Itoa(i), Itoa(j);
    var p, q := "mr-" + a + "-" + x, "mr-" + b + "-" + y;
    assert BucketName(a, i) == p + ".json" && BucketName(b, j) == q + ".json";
    assert p == BucketName(a, i)[..|p|] && q == BucketName(b, j)[..|q|];
    ItoaPlain(i);
    ItoaPlain(j);
    LastDash("mr-" + a, x, "mr-" + b, y);
    assert a == ("mr-" + a)[3..] && b == ("mr-" + b)[3..];
    ItoaInjective(i, j);
  }

  /** Output files are told apart from each other and from bucket files. */
  lemma OutNameApart(i: nat, j: nat, task: string, k: nat)
    ensures OutName(i) == OutName(j) ==> i == j
    ensures OutName(i) != BucketName(task, k)
  {
    ItoaPlain(i);
    ItoaPlain(j);
    if OutName(i) == OutName(j) {
      LastDash("mr-out", Itoa(i), "mr-out", Itoa(j));
      ItoaInjective(i, j);
    }
    var s := BucketName(task, k);
    assert s[|s| - 5] == '.';
    var o := OutName(i);
    assert forall m :: 0 <= m < |o| ==> o[m] != '.';
  }

  /** "mr-out-*" selects the output files and no bucket file. */
  lemma OutputsSelected(i: nat, task: nat, k: nat)
    ensures Matches("mr-out-*", OutName(i)) && !Matches("mr-out-*", BucketName(Itoa(task), k))
    ensures exists star: string :: OutName(i) == "mr-out-" + star + "" && Atoi(star) == i
  {
    assert "mr-out-*" == "mr-out-" + "*" + "";
    MatchesStar("mr-out-", "", OutName(i));
    MatchesStar("mr-out-", "", BucketName(Itoa(task), k));
    assert OutName(i) == "mr-out-" + Itoa(i) + "";
    AtoiItoa(i);
    ItoaPlain(task);
    var name := BucketName(Itoa(task), k);
    forall star: string ensures name != "mr-out-" + star + "" {
      assert ("mr-out-" + star + "")[3] == 'o';
      assert name[3] == (Itoa(task) + "-" + (Itoa(k) + ".json"))[0];
    }
  }

  // ----- map side

  /** Each pair goes to the bucket its key hashes to, in order; nothing is lost or moved. */
  method SplitIntoBuckets(kvs: seq<KV>, hash: string -> nat, nBuckets: nat) returns (buckets: seq<seq<KV>>)
    requires nBuckets > 0
    ensures |buckets| == nBuckets
    ensures forall i :: 0 <= i < nBuckets ==> buckets[i] == Bucket(kvs, hash, nBuckets, i)
    ensures forall i :: 0 <= i < nBuckets ==> IsBucket(buckets[i], multiset(kvs), hash, nBuckets, i)
    ensures forall i, kv :: 0 <= i < nBuckets && kv in buckets[i] ==> hash(kv.key) % nBuckets == i
  {
    buckets := seq(nBuckets, _ => []);
    for m := 0 to |kvs|
      invariant |buckets| == nBuckets
      invariant forall i :: 0 <= i < nBuckets ==> buckets[i] == Bucket(kvs[..m], hash, nBuckets, i)
    {
      var kv := kvs[m];
      assert kvs[..m + 1][..m] == kvs[..m];
      var idx := Slot(hash, nBuckets, kv.key);
      buckets := buckets[idx := buckets[idx] + [kv]];
    }
    assert kvs[..|kvs|] == kvs;
    forall i | 0 <= i < nBuckets ensures IsBucket(buckets[i], multiset(kvs), hash, nBuckets, i) {
      BucketIsBucket(kvs, hash, nBuckets, i);
    }
    forall i, kv | 0 <= i < nBuckets && kv in buckets[i] ensures hash(kv.key) % nBuckets == i {
      assert multiset(buckets[i])[kv] > 0;
    }
  }

  // ----- reduce side

  method GroupValuesByKey(kvs: seq<KV>) returns (groups: map<string, seq<string>>)
    ensures forall k :: k in groups <==> HasKey(kvs, k)
    ensures forall k :: k in groups ==> groups[k] == Values(kvs, k)
  {
    groups := map[];
    for m := 0 to |kvs|
      invariant forall k :: k in groups <==> HasKey(kvs[..m], k)
      invariant forall k :: k in groups ==> groups[k] == Values(kvs[..m], k)
      invariant forall k :: k !in groups ==> Values(kvs[..m], k) == []
    {
      var kv := kvs[m];
      assert kvs[..m + 1] == kvs[..m] + [kv] && kvs[..m + 1][..m] == kvs[..m];
      HasKeySnoc(kvs[..m], kv);
      if kv.key in groups {
        groups := groups[kv.key := groups[kv.key] + [kv.value]];
      } else {
        groups := groups[kv.key := [kv.value]];
      }
    }
    assert kvs[..|kvs|] == kvs;
  }

  /** Reducing the groups in any order gives the lines of the pairs they were made from. */
  method ReduceValuesByKey(reducef: Reducer, groups: map<string, seq<string>>, ghost kvs: seq<KV>)
    returns (output: seq<string>)
    requires forall k :: k in groups <==> HasKey(kvs, k)
    requires forall k :: k in groups ==> groups[k] == Values(kvs, k)
    ensures multiset(output) == Lines(reducef, kvs)
  {
    output := [];
    var rest := groups.Keys;
    ghost var keys := [];
    while rest != {}
      invariant rest <= groups.Keys && Distinct(keys)
      invariant forall k :: k in keys <==> k in groups && k !in rest
      invariant output == LinesFor(reducef, kvs, keys)
      decreases rest
    {
      var key := Choose(rest);
      LinesForConcat(reducef, kvs, keys, [key]);
      output := output + [Line(key, reducef(key, multiset(groups[key])))];
      keys := keys + [key];
      rest := rest - {key};
    }
    EnumeratedLines(reducef, kvs, keys);
  }

  /** The reduce computation: group, then reduce. */
  method ReduceAll(reducef: Reducer, kvs: seq<KV>) returns (output: seq<string>)
    ensures multiset(output) == Lines(reducef, kvs)
  {
    var groups := GroupValuesByKey(kvs);
    output := ReduceValuesByKey(reducef, groups, kvs);
  }

  // ----- the hash

  /** One byte of FNV-1a: exclusive or first, then times the prime. */
  function Mix(h: bv32, b: bv8): bv32 {
    (h ^ (b as bv32)) * 0x0100_0193
  }

  /** The 32-bit FNV-1a hash. */
  function Fnv1a(bytes: seq<bv8>): bv32 {
    if bytes == [] then 0x811c_9dc5 else Mix(Fnv1a(bytes[..|bytes| - 1]), bytes[|bytes| - 1])
  }

  /** The bytes of a key of one-byte characters. */
  function BytesOf(key: string): seq<bv8> {
    seq(|key|, i requires 0 <= i < |key| => (key[i] as int % 256) as bv8)
  }

  lemma HashSnoc(bytes: seq<bv8>, b: bv8)
    ensures Fnv1a(bytes + [b]) == Mix(Fnv1a(bytes), b)
  {
    assert (bytes + [b])[..|bytes|] == bytes;
  }

  lemma Mixes()
    ensures Mix(0x811c_9dc5, 0x61) == 0xe40c_292c && Mix(0x811c_9dc5, 0x66) == 0xe30c_2799
    ensures Mix(0xe30c_2799, 0x6f) == 0x6222_e842 && Mix(0x6222_e842, 0x6f) == 0xa9f3_7ed7
    ensures Mix(0xa9f3_7ed7, 0x62) == 0x3f50_76ef && Mix(0x3f50_76ef, 0x61) == 0x39aa_a18a
    ensures Mix(0x39aa_a18a, 0x72) == 0xbf9c_f968
  {
  }

  /** The published test values of the 32-bit FNV-1a hash for "", "a" and "foobar". */
  lemma Fnv1aKnownValues()
    ensures Fnv1a([]) == 0x811c_9dc5 && Fnv1a([0x61]) == 0xe40c_292c
    ensures Fnv1a([0x66, 0x6f, 0x6f, 0x62, 0x61, 0x72]) == 0xbf9c_f968
  {
    Mixes();
    var e: seq<bv8> := [];
    HashSnoc(e, 0x61);
    HashSnoc(e, 0x66);
    HashSnoc(e + [0x66], 0x6f);
    HashSnoc(e + [0x66] + [0x6f], 0x6f);
    HashSnoc(e + [0x66] + [0x6f] + [0x6f], 0x62);
    HashSnoc(e + [0x66] + [0x6f] + [0x6f] + [0x62], 0x61);
    HashSnoc(e + [0x66] + [0x6f] + [0x6f] + [0x62] + [0x61], 0x72);
    assert e + [0x61] == [0x61];
    assert e + [0x66] + [0x6f] + [0x6f] + [0x62] + [0x61] + [0x72] == [0x66, 0x6f, 0x6f, 0x62, 0x61, 0x72];
  }

  /** A 32-bit number with its top bit dropped. */
  function Low31(n: nat): (r: nat)
    requires n < 0x1_0000_0000
    ensures r < 0x8000_0000 && (r == n || r + 0x8000_0000 == n)
  {
    n % 0x8000_0000
  }

  function Number(h: bv32): (n: nat)
    ensures n < 0x1_0000_0000
  {
    h as int
  }

  /** The hash of a key with its top bit dropped. */
  function IHash(key: string): (h: nat)
    ensures h < 0x8000_0000
    ensures var n := Number(Fnv1a(BytesOf(key))); h == n || h + 0x8000_0000 == n
  {
    Low31(Number(Fnv1a(BytesOf(key))))
  }
}
