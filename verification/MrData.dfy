/** Keys, values and output lines, independent of the order the pairs come in. Map and Reduce
    are the application's: Map fixes the multiset of pairs of a file, and Reduce depends on the
    key and the multiset of its values. */
module MrData {
  import opened Text

  datatype KV = KV(key: string, value: string)

  type Reducer = (string, multiset<string>) -> string

  /** The values of one key, in order. */
  function Values(kvs: seq<KV>, k: string): seq<string> {
    if kvs == [] then []
    else Values(kvs[..|kvs| - 1], k) + if kvs[|kvs| - 1].key == k then [kvs[|kvs| - 1].value] else []
  }

  predicate HasKey(kvs: seq<KV>, k: string) {
    exists i :: 0 <= i < |kvs| && kvs[i].key == k
  }

  ghost predicate Distinct<T>(s: seq<T>) {
    forall i, j :: 0 <= i < j < |s| ==> s[i] != s[j]
  }

  /** The keys, each once, in order of first appearance. */
  function Keys(kvs: seq<KV>): (ks: seq<string>)
    ensures Distinct(ks)
    ensures forall k :: k in ks <==> HasKey(kvs, k)
  {
    if kvs == [] then []
    else
      var front, last := kvs[..|kvs| - 1], kvs[|kvs| - 1];
      assert kvs == front + [last];
      HasKeySnoc(front, last);
      if last.key in Keys(front) then Keys(front) else Keys(front) + [last.key]
  }

  lemma HasKeySnoc(kvs: seq<KV>, kv: KV)
    ensures forall k :: HasKey(kvs + [kv], k) <==> HasKey(kvs, k) || kv.key == k
  {
    forall k ensures HasKey(kvs + [kv], k) <==> HasKey(kvs, k) || kv.key == k {
      if HasKey(kvs, k) {
        var i :| 0 <= i < |kvs| && kvs[i].key == k;
        assert (kvs + [kv])[i].key == k;
      }
      if kv.key == k {
        assert (kvs + [kv])[|kvs|].key == k;
      }
      if HasKey(kvs + [kv], k) && kv.key != k {
        var i :| 0 <= i < |kvs| + 1 && (kvs + [kv])[i].key == k;
        assert kvs[i].key == k;
      }
    }
  }

  /** A line of output: the key, a space, the result. */
  function Line(k: string, result: string): string {
    k + " " + result + "\n"
  }

  /** A line can be read back: the key up to the first space, the result up to the newline. */
  lemma LineReadsBack(k: string, result: string)
    requires ' ' !in k
    ensures Split(Line(k, result), ' ')[0] == k
    ensures Line(k, result)[|k|] == ' ' && Line(k, result)[|k| + 1..] == result + "\n"
  {
    SplitFirst(k, ' ', result + "\n");
    assert Line(k, result) == k + [' '] + (result + "\n");
  }

  /** Lines of keys without spaces are different for different keys or results. */
  lemma LineInjective(k: string, result: string, k': string, result': string)
    requires ' ' !in k && ' ' !in k' && Line(k, result) == Line(k', result')
    ensures k == k' && result == result'
  {
    LineReadsBack(k, result);
    LineReadsBack(k', result');
    assert (result + "\n")[..|result|] == result && (result' + "\n")[..|result'|] == result';
  }

  function LinesFor(reducef: Reducer, kvs: seq<KV>, ks: seq<string>): seq<string> {
    seq(|ks|, i requires 0 <= i < |ks| => Line(ks[i], reducef(ks[i], multiset(Values(kvs, ks[i])))))
  }

  /** The output for a list of pairs: one line per key. */
  function Lines(reducef: Reducer, kvs: seq<KV>): multiset<string> {
    multiset(LinesFor(reducef, kvs, Keys(kvs)))
  }

  // ----- order does not matter

  lemma {:induction false} ValuesCount(kvs: seq<KV>, k: string, v: string)
    ensures multiset(Values(kvs, k))[v] == multiset(kvs)[KV(k, v)]
  {
    if kvs != [] {
      ValuesCount(kvs[..|kvs| - 1], k, v);
      assert kvs == kvs[..|kvs| - 1] + [kvs[|kvs| - 1]];
    }
  }

  lemma {:induction false} DistinctCount<T>(s: seq<T>, x: T)
    requires Distinct(s)
    ensures multiset(s)[x] == if x in s then 1 else 0
  {
    if s != [] {
      var front, last := s[..|s| - 1], s[|s| - 1];
      assert s == front + [last];
      DistinctCount(front, x);
    }
  }

  lemma DistinctSame<T>(a: seq<T>, b: seq<T>)
    requires Distinct(a) && Distinct(b) && forall x :: x in a <==> x in b
    ensures multiset(a) == multiset(b)
  {
    forall x ensures multiset(a)[x] == multiset(b)[x] {
      DistinctCount(a, x);
      DistinctCount(b, x);
    }
  }

  lemma LinesForConcat(reducef: Reducer, kvs: seq<KV>, a: seq<string>, b: seq<string>)
    ensures LinesFor(reducef, kvs, a + b) == LinesFor(reducef, kvs, a) + LinesFor(reducef, kvs, b)
  {
  }

  /** Taking a key out of the list takes its line out of the lines. */
  lemma LinesForExtract(reducef: Reducer, kvs: seq<KV>, l: seq<string>, x: string, r: seq<string>)
    ensures multiset(LinesFor(reducef, kvs, l + [x] + r)) ==
            multiset(LinesFor(reducef, kvs, l + r)) + multiset(LinesFor(reducef, kvs, [x]))
  {
    LinesForConcat(reducef, kvs, l, [x]);
    LinesForConcat(reducef, kvs, l + [x], r);
    LinesForConcat(reducef, kvs, l, r);
  }

  lemma Occurs<T>(x: T, a: seq<T>, b: seq<T>) returns (i: nat)
    requires multiset(a + [x]) == multiset(b)
    ensures i < |b| && b == b[..i] + [x] + b[i + 1..]
    ensures multiset(a) == multiset(b[..i] + b[i + 1..])
  {
    assert multiset(a + [x])[x] > 0;
    assert x in b;
    i :| 0 <= i < |b| && b[i] == x;
    assert b == b[..i] + [x] + b[i + 1..];
    var rest := b[..i] + b[i + 1..];
    assert multiset(b) == multiset(rest) + multiset{x};
    assert multiset(b) - multiset{x} == multiset(rest);
    assert multiset(a + [x]) - multiset{x} == multiset(a);
  }

  lemma {:induction false} LinesForPermuted(reducef: Reducer, kvs: seq<KV>, a: seq<string>, b: seq<string>)
    requires multiset(a) == multiset(b)
    ensures multiset(LinesFor(reducef, kvs, a)) == multiset(LinesFor(reducef, kvs, b))
    decreases |a|
  {
    if a == [] {
      assert |multiset(b)| == 0;
    } else {
      var front, x := a[..|a| - 1], a[|a| - 1];
      assert a == front + [x] && a == front + [x] + [] && front + [] == front;
      var i := Occurs(x, front, b);
      LinesForPermuted(reducef, kvs, front, b[..i] + b[i + 1..]);
      LinesForExtract(reducef, kvs, front, x, []);
      LinesForExtract(reducef, kvs, b[..i], x, b[i + 1..]);
    }
  }

  /** Any enumeration of the keys gives the same lines. */
  lemma EnumeratedLines(reducef: Reducer, kvs: seq<KV>, ks: seq<string>)
    requires Distinct(ks) && forall k :: k in ks <==> HasKey(kvs, k)
    ensures multiset(LinesFor(reducef, kvs, ks)) == Lines(reducef, kvs)
  {
    DistinctSame(ks, Keys(kvs));
    LinesForPermuted(reducef, kvs, ks, Keys(kvs));
  }

  /** Pairs that agree on a key give the same line for it. */
  lemma SameLines(reducef: Reducer, a: seq<KV>, b: seq<KV>, ks: seq<string>)
    requires forall k, v :: k in ks ==> multiset(a)[KV(k, v)] == multiset(b)[KV(k, v)]
    ensures LinesFor(reducef, a, ks) == LinesFor(reducef, b, ks)
  {
    forall i | 0 <= i < |ks| ensures multiset(Values(a, ks[i])) == multiset(Values(b, ks[i])) {
      forall v ensures multiset(Values(a, ks[i]))[v] == multiset(Values(b, ks[i]))[v] {
        ValuesCount(a, ks[i], v);
        ValuesCount(b, ks[i], v);
      }
    }
  }

  lemma HasKeyCount(kvs: seq<KV>, k: string)
    ensures HasKey(kvs, k) <==> exists v :: multiset(kvs)[KV(k, v)] > 0
  {
    if HasKey(kvs, k) {
      var i :| 0 <= i < |kvs| && kvs[i].key == k;
      assert KV(k, kvs[i].value) in kvs;
      assert multiset(kvs)[KV(k, kvs[i].value)] > 0;
    }
    if v :| multiset(kvs)[KV(k, v)] > 0 {
      assert KV(k, v) in kvs;
    }
  }

  // ----- buckets

  /** The bucket a key falls in. */
  function Slot(hash: string -> nat, n: nat, k: string): (i: nat)
    requires n > 0
    ensures i < n
  {
    hash(k) % n
  }

  /** The pairs whose key hashes to bucket i. */
  function Bucket(kvs: seq<KV>, hash: string -> nat, n: nat, i: nat): seq<KV>
    requires n > 0
  {
    if kvs == [] then []
    else
      var last := kvs[|kvs| - 1];
      Bucket(kvs[..|kvs| - 1], hash, n, i) + if Slot(hash, n, last.key) == i then [last] else []
  }

  /** A list of pairs is, in some order, the part of a multiset that hashes to bucket i. */
  ghost predicate IsBucket(kvs: seq<KV>, total: multiset<KV>, hash: string -> nat, n: nat, i: nat)
    requires n > 0
  {
    forall kv: KV {:trigger multiset(kvs)[kv]} {:trigger total[kv]} ::
      multiset(kvs)[kv] == if Slot(hash, n, kv.key) == i then total[kv] else 0
  }

  lemma {:induction false} BucketCount(kvs: seq<KV>, hash: string -> nat, n: nat, i: nat, kv: KV)
    requires n > 0
    ensures multiset(Bucket(kvs, hash, n, i))[kv] == if Slot(hash, n, kv.key) == i then multiset(kvs)[kv] else 0
  {
    if kvs != [] {
      BucketCount(kvs[..|kvs| - 1], hash, n, i, kv);
      assert kvs == kvs[..|kvs| - 1] + [kvs[|kvs| - 1]];
    }
  }

  lemma BucketIsBucket(kvs: seq<KV>, hash: string -> nat, n: nat, i: nat)
    requires n > 0
    ensures IsBucket(Bucket(kvs, hash, n, i), multiset(kvs), hash, n, i)
  {
    forall kv
      ensures multiset(Bucket(kvs, hash, n, i))[kv] == if Slot(hash, n, kv.key) == i then multiset(kvs)[kv] else 0
    {
      BucketCount(kvs, hash, n, i, kv);
    }
  }

  /** The lines of the first i outputs together. */
  function Together(outs: seq<seq<string>>, i: nat): multiset<string>
    requires i <= |outs|
  {
    if i == 0 then multiset{} else Together(outs, i - 1) + multiset(outs[i - 1])
  }

  ghost predicate IsOutput(out: seq<string>, kvs: seq<KV>, all: seq<KV>,
                           reducef: Reducer, hash: string -> nat, n: nat, i: nat)
    requires n > 0
  {
    IsBucket(kvs, multiset(all), hash, n, i) && multiset(out) == Lines(reducef, kvs)
  }

  /** The keys of the first i parts. */
  function KeysOf(parts: seq<seq<KV>>, i: nat): seq<string>
    requires i <= |parts|
  {
    if i == 0 then [] else KeysOf(parts, i - 1) + Keys(parts[i - 1])
  }

  /** The keys of the first i buckets, each once, give the lines of the first i outputs. */
  lemma {:induction false} BucketLines(outs: seq<seq<string>>, parts: seq<seq<KV>>, all: seq<KV>,
                                       reducef: Reducer, hash: string -> nat, n: nat, i: nat)
    requires n > 0 && i <= |outs| == |parts|
    requires forall j :: 0 <= j < i ==> IsOutput(outs[j], parts[j], all, reducef, hash, n, j)
    ensures Distinct(KeysOf(parts, i))
    ensures forall k :: k in KeysOf(parts, i) <==> HasKey(all, k) && Slot(hash, n, k) < i
    ensures multiset(LinesFor(reducef, all, KeysOf(parts, i))) == Together(outs, i)
  {
    if i > 0 {
      BucketLines(outs, parts, all, reducef, hash, n, i - 1);
      OneMoreBucket(KeysOf(parts, i - 1), outs[i - 1], parts[i - 1], all, reducef, hash, n, i - 1);
    }
  }

  lemma OneMoreBucket(front: seq<string>, out: seq<string>, part: seq<KV>, all: seq<KV>,
                      reducef: Reducer, hash: string -> nat, n: nat, i: nat)
    requires n > 0 && IsOutput(out, part, all, reducef, hash, n, i)
    requires Distinct(front) && forall k :: k in front <==> HasKey(all, k) && Slot(hash, n, k) < i
    ensures Distinct(front + Keys(part))
    ensures forall k :: k in front + Keys(part) <==> HasKey(all, k) && Slot(hash, n, k) < i + 1
    ensures multiset(LinesFor(reducef, all, front + Keys(part))) ==
            multiset(LinesFor(reducef, all, front)) + multiset(out)
  {
    BucketKeys(part, all, hash, n, i);
    DistinctConcat(front, Keys(part));
    SameLines(reducef, part, all, Keys(part));
    LinesForConcat(reducef, all, front, Keys(part));
  }

  lemma DistinctConcat<T>(a: seq<T>, b: seq<T>)
    requires Distinct(a) && Distinct(b) && forall x :: !(x in a && x in b)
    ensures Distinct(a + b)
  {
    forall i, j | 0 <= i < j < |a + b| ensures (a + b)[i] != (a + b)[j] {
      if i < |a| <= j {
        assert a[i] in a && b[j - |a|] in b;
      }
    }
  }

  lemma BucketKeys(part: seq<KV>, all: seq<KV>, hash: string -> nat, n: nat, i: nat)
    requires n > 0 && IsBucket(part, multiset(all), hash, n, i)
    ensures forall k :: HasKey(part, k) <==> HasKey(all, k) && Slot(hash, n, k) == i
    ensures forall k, v :: HasKey(part, k) ==> multiset(part)[KV(k, v)] == multiset(all)[KV(k, v)]
  {
    forall k ensures HasKey(part, k) <==> HasKey(all, k) && Slot(hash, n, k) == i {
      HasKeyCount(part, k);
      HasKeyCount(all, k);
    }
  }

  /** Bucketed reduction refines the sequential result: if each output holds the lines of its
      bucket, the outputs together hold exactly the lines of all the pairs. */
  lemma BucketedRefinesSequential(outs: seq<seq<string>>, parts: seq<seq<KV>>, all: seq<KV>,
                                  reducef: Reducer, hash: string -> nat, n: nat)
    requires n > 0 && |outs| == |parts| == n
    requires forall j :: 0 <= j < n ==> IsOutput(outs[j], parts[j], all, reducef, hash, n, j)
    ensures Together(outs, n) == Lines(reducef, all)
  {
    BucketLines(outs, parts, all, reducef, hash, n, n);
    EnumeratedLines(reducef, all, KeysOf(parts, n));
  }
}
