/** The sequential program: sort all pairs by key, then scan runs of equal keys. */
module MrSequential {
  import opened MrData

  /** Byte order on strings. */
  predicate Le(a: string, b: string) {
    a == "" || (b != "" && (a[0] < b[0] || (a[0] == b[0] && Le(a[1..], b[1..]))))
  }

  lemma {:induction false} LeAntisymmetric(a: string, b: string)
    requires Le(a, b) && Le(b, a)
    ensures a == b
  {
    if a != "" && b != "" {
      LeAntisymmetric(a[1..], b[1..]);
      assert a == [a[0]] + a[1..] && b == [b[0]] + b[1..];
    }
  }

  /** The strings agree up to position i, where the first has the smaller character. */
  ghost predicate FirstLess(a: string, b: string, i: nat) {
    i < |a| && i < |b| && a[..i] == b[..i] && a[i] < b[i]
  }

  lemma FirstLessTail(a: string, b: string, i: nat)
    requires a != "" && b != "" && a[0] == b[0]
    ensures FirstLess(a, b, i + 1) <==> FirstLess(a[1..], b[1..], i)
  {
    if i + 1 <= |a| && i + 1 <= |b| {
      assert a[..i + 1] == [a[0]] + a[1..][..i] && b[..i + 1] == [b[0]] + b[1..][..i];
    }
  }

  /** The order is that of Go's strings: a prefix comes first, otherwise the first difference
      decides. */
  lemma {:induction false} LeIsByteOrder(a: string, b: string)
    ensures Le(a, b) <==> a <= b || exists i: nat :: FirstLess(a, b, i)
  {
    if a != "" && b != "" {
      if a[0] == b[0] {
        LeIsByteOrder(a[1..], b[1..]);
        assert a <= b <==> a[1..] <= b[1..] by {
          assert a == [a[0]] + a[1..] && b == [b[0]] + b[1..];
        }
        if i: nat :| FirstLess(a, b, i) { FirstLessTail(a, b, i - 1); }
        if i: nat :| FirstLess(a[1..], b[1..], i) { FirstLessTail(a, b, i); }
      } else {
        assert a[0] < b[0] ==> FirstLess(a, b, 0);
        if i: nat :| FirstLess(a, b, i) {
          assert i > 0 ==> a[..i][0] == b[..i][0];
        }
      }
    }
  }

  ghost predicate SortedByKey(kvs: seq<KV>) {
    forall i, j :: 0 <= i < j < |kvs| ==> Le(kvs[i].key, kvs[j].key)
  }

  /** Nothing before position i has a key found at i or later. */
  ghost predicate Boundary(kvs: seq<KV>, i: nat) {
    forall a, b :: 0 <= a < i <= b < |kvs| ==> kvs[a].key != kvs[b].key
  }

  /** Where a run of equal keys ends in a sorted list, all later keys are new. */
  lemma RunEnds(kvs: seq<KV>, i: nat, j: nat)
    requires SortedByKey(kvs) && Boundary(kvs, i) && i < j <= |kvs|
    requires forall m :: i <= m < j ==> kvs[m].key == kvs[i].key
    requires j < |kvs| ==> kvs[j].key != kvs[i].key
    ensures Boundary(kvs, j)
  {
    forall a, b | 0 <= a < j <= b < |kvs|
      ensures kvs[a].key != kvs[b].key
    {
      if i <= a && kvs[a].key == kvs[b].key {
        assert Le(kvs[i].key, kvs[j].key) && (b == j || Le(kvs[j].key, kvs[b].key));
        LeAntisymmetric(kvs[i].key, kvs[j].key);
      }
    }
  }

  lemma {:induction false} NoValues(kvs: seq<KV>, k: string, i: nat, j: nat)
    requires i <= j <= |kvs| && forall m :: i <= m < j ==> kvs[m].key != k
    ensures Values(kvs[..j], k) == Values(kvs[..i], k)
  {
    if i < j {
      NoValues(kvs, k, i, j - 1);
      assert kvs[..j][..j - 1] == kvs[..j - 1];
    }
  }

  /** The values of the run from i to j are all the values of its key. */
  method CollectRun(kvs: seq<KV>, i: nat, j: nat) returns (values: seq<string>)
    requires i < j <= |kvs| && Boundary(kvs, i) && Boundary(kvs, j)
    requires forall m :: i <= m < j ==> kvs[m].key == kvs[i].key
    ensures values == Values(kvs, kvs[i].key)
  {
    ghost var key := kvs[i].key;
    values := [];
    NoValues(kvs, key, 0, i);
    for k := i to j
      invariant values == Values(kvs[..k], key)
    {
      assert kvs[..k + 1][..k] == kvs[..k];
      values := values + [kvs[k].value];
    }
    NoValues(kvs, key, j, |kvs|);
    assert kvs[..|kvs|] == kvs;
  }

  /** The keys before a boundary gain the key of the next run. */
  lemma {:induction false} RunKeys(kvs: seq<KV>, i: nat, j: nat)
    requires i < j <= |kvs| && Boundary(kvs, i)
    requires forall m :: i <= m < j ==> kvs[m].key == kvs[i].key
    ensures Keys(kvs[..j]) == Keys(kvs[..i]) + [kvs[i].key]
    decreases j
  {
    var front := kvs[..j - 1];
    assert kvs[..j][..j - 1] == front && kvs[..j][j - 1] == kvs[j - 1];
    if i < j - 1 {
      RunKeys(kvs, i, j - 1);
    }
  }

  ghost predicate InOrder(keys: seq<string>) {
    forall a, b :: 0 <= a < b < |keys| ==> Le(keys[a], keys[b])
  }

  lemma InOrderSnoc(keys: seq<string>, key: string)
    requires InOrder(keys) && forall a :: 0 <= a < |keys| ==> Le(keys[a], key)
    ensures InOrder(keys + [key])
  {
  }

  lemma KeysBefore(kvs: seq<KV>, n: nat, a: nat)
    requires SortedByKey(kvs) && n < |kvs| && a < |Keys(kvs[..n])|
    ensures Le(Keys(kvs[..n])[a], kvs[n].key)
  {
    var front, k := kvs[..n], Keys(kvs[..n])[a];
    assert HasKey(front, k);
    var m :| 0 <= m < |front| && front[m].key == k;
    assert kvs[m].key == k;
  }

  /** The keys of a sorted list come in order. */
  lemma {:induction false} KeysSorted(kvs: seq<KV>, n: nat)
    requires SortedByKey(kvs) && n <= |kvs|
    ensures InOrder(Keys(kvs[..n]))
  {
    if n > 0 {
      KeysSorted(kvs, n - 1);
      var keys := Keys(kvs[..n - 1]);
      forall a | 0 <= a < |keys| ensures Le(keys[a], kvs[n - 1].key) { KeysBefore(kvs, n - 1, a); }
      InOrderSnoc(keys, kvs[n - 1].key);
      assert kvs[..n][..n - 1] == kvs[..n - 1];
    }
  }

  /** The scan of the sorted pairs writes one line per key, in the order of the keys. */
  method Scan(reducef: Reducer, intermediate: seq<KV>) returns (output: seq<string>)
    requires SortedByKey(intermediate)
    ensures output == LinesFor(reducef, intermediate, Keys(intermediate))
    ensures InOrder(Keys(intermediate))
    ensures multiset(output) == Lines(reducef, intermediate)
  {
    output := [];
    var i := 0;
    while i < |intermediate|
      invariant 0 <= i <= |intermediate| && Boundary(intermediate, i)
      invariant output == LinesFor(reducef, intermediate, Keys(intermediate[..i]))
    {
      var j := i + 1;
      while j < |intermediate| && intermediate[j].key == intermediate[i].key
        invariant i < j <= |intermediate|
        invariant forall m :: i <= m < j ==> intermediate[m].key == intermediate[i].key
      {
        j := j + 1;
      }
      RunEnds(intermediate, i, j);
      var values := CollectRun(intermediate, i, j);
      var key := intermediate[i].key;
      RunKeys(intermediate, i, j);
      LinesForConcat(reducef, intermediate, Keys(intermediate[..i]), [key]);
      output := output + [Line(key, reducef(key, multiset(values)))];
      i := j;
    }
    assert intermediate[..|intermediate|] == intermediate;
    KeysSorted(intermediate, |intermediate|);
  }

  /** The whole program: the pairs of all files, one file after another, sorted and scanned. */
  method Sequential(reducef: Reducer, mapped: seq<seq<KV>>, sorted: seq<KV>) returns (output: seq<string>)
    requires SortedByKey(sorted) && multiset(sorted) == multiset(Flatten(mapped))
    ensures output == LinesFor(reducef, sorted, Keys(sorted))
    ensures InOrder(Keys(sorted))
    ensures multiset(output) == Lines(reducef, Flatten(mapped))
  {
    output := Scan(reducef, sorted);
    LinesDependOnMultiset(reducef, sorted, Flatten(mapped));
  }

  function Flatten(parts: seq<seq<KV>>): seq<KV> {
    if parts == [] then [] else Flatten(parts[..|parts| - 1]) + parts[|parts| - 1]
  }

  /** Two orders of the same pairs give the same lines. */
  lemma LinesDependOnMultiset(reducef: Reducer, a: seq<KV>, b: seq<KV>)
    requires multiset(a) == multiset(b)
    ensures Lines(reducef, a) == Lines(reducef, b)
  {
    forall k ensures HasKey(a, k) <==> HasKey(b, k) {
      HasKeyCount(a, k);
      HasKeyCount(b, k);
    }
    SameLines(reducef, a, b, Keys(a));
    EnumeratedLines(reducef, b, Keys(a));
  }
}
