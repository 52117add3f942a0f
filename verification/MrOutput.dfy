/** What the output of the job is, in every trace that reaches the done phase, and exactly when
    it is made of all the pairs. */
module MrOutput {
  import opened Basics
  import opened Text
  import opened MrData
  import opened MrWorker
  import opened MrSystem
  import opened MrCorrectness
  import C = MrCoordinator
  import Seq = MrSequential

  // ----- who wrote an output last

  /** Step k writes output j. */
  ghost predicate Writes(run: seq<Sys>, steps: seq<Step>, k: nat, j: nat) {
    && k < |steps| && k < |run| && steps[k].WriteOut? && steps[k].w < |run[k].workers|
    && run[k].workers[steps[k].w].Reading? && run[k].workers[steps[k].w].t < |run[k].job.tasks|
    && run[k].job.tasks[run[k].workers[steps[k].w].t].idx == j
  }

  /** The last step before n that writes output j. */
  ghost function LastWrite(run: seq<Sys>, steps: seq<Step>, j: nat, n: nat): (r: Option<nat>)
    ensures r.Some? ==> r.value < n && Writes(run, steps, r.value, j)
    ensures forall k: nat :: (r.Some? ==> r.value < k) && k < n ==> !Writes(run, steps, k, j)
  {
    if n == 0 then None
    else if Writes(run, steps, n - 1, j) then Some(n - 1)
    else LastWrite(run, steps, j, n - 1)
  }

  ghost function Any(): Accept {
    (lines: seq<string>, j: nat) => true
  }

  /** The lines were written to output j before step n. */
  ghost function WrittenBefore(run: seq<Sys>, steps: seq<Step>, n: nat): Accept {
    (lines: seq<string>, j: nat) =>
      exists k: nat :: k < n && Writes(run, steps, k, j) && steps[k].lines == lines
  }

  /** An attempt writes the output of its own bucket. */
  lemma OwnAt(p: Program, run: seq<Sys>, steps: seq<Step>, k: nat)
    requires Trace(p, run, steps) && k < |steps| && steps[k].WriteOut?
    ensures var t := run[k].workers[steps[k].w].t;
            |p.files| <= t < |p.files| + p.n && run[k].job.tasks[t].idx == t - |p.files|
  {
    TraceInv(p, Any(), run, steps, k);
    ActorIsOk(p, Any(), run[k], steps[k]);
  }

  /** An output holds what was written to it last. */
  lemma {:induction false} HoldsLastWrite(p: Program, run: seq<Sys>, steps: seq<Step>, j: nat, n: nat)
    requires Trace(p, run, steps) && n < |run| && LastWrite(run, steps, j, n).Some?
    ensures OutFile(j) in run[n].files
    ensures run[n].files[OutFile(j)] == Text(steps[LastWrite(run, steps, j, n).value].lines)
  {
    var s, e := run[n - 1], steps[n - 1];
    assert run[n - 1 + 1] == Next(p, s, e);
    if !Writes(run, steps, n - 1, j) {
      HoldsLastWrite(p, run, steps, j, n - 1);
      TraceInv(p, Any(), run, steps, n - 1);
      ActorIsOk(p, Any(), s, e);
      OutFileStays(p, Any(), s, e, j);
      if e.WriteOut? {
        OwnAt(p, run, steps, n - 1);
      }
    }
  }

  /** When the job is done every output has been written. */
  lemma DoneWritten(p: Program, run: seq<Sys>, steps: seq<Step>, i: nat, j: nat)
    requires Trace(p, run, steps) && i < |run| && run[i].job.phase == C.DonePhase && j < p.n
    ensures LastWrite(run, steps, j, i).Some?
  {
    var ok := WrittenBefore(run, steps, i);
    forall k | 0 <= k < i ensures Accepted(p, ok, run[k], steps[k]) {
      if steps[k].WriteOut? {
        OwnAt(p, run, steps, k);
        assert Writes(run, steps, k, run[k].workers[steps[k].w].t - |p.files|);
      }
    }
    TraceInv(p, ok, run, steps, i);
    DoneOutputs(p, ok, run[i], j);
  }

  // ----- what the last writer had read

  /** The attempt that wrote output j last, as it was when it wrote. */
  ghost function LastWriter(run: seq<Sys>, steps: seq<Step>, i: nat, j: nat): (w: Worker)
    requires LastWrite(run, steps, j, i).Some?
    ensures w.Reading?
  {
    var k := LastWrite(run, steps, j, i).value;
    run[k].workers[steps[k].w]
  }

  lemma WroteWhatItRead(p: Program, s: Sys, e: Step)
    requires Inv(p, Any(), s) && Possible(p, s, e) && e.WriteOut?
    ensures var k := s.workers[e.w];
            && |p.files| <= k.t && HasRead(p, k.names, |k.names|, k.kvs, k.t - |p.files|)
            && multiset(e.lines) == Lines(p.reducef, k.kvs)
  {
    assert WorkerOk(p, Any(), s, s.workers[e.w]);
  }

  /** In every trace an attempt that writes its output writes the lines of the pairs in the
      files it listed, and those are its whole bucket if and only if the listing covered it. */
  lemma WritesWhatItListed(p: Program, run: seq<Sys>, steps: seq<Step>, i: nat)
    requires Trace(p, run, steps) && i < |steps| && steps[i].WriteOut?
    ensures var k := run[i].workers[steps[i].w];
            && |p.files| <= k.t && HasRead(p, k.names, |k.names|, k.kvs, k.t - |p.files|)
            && multiset(steps[i].lines) == Lines(p.reducef, k.kvs)
            && (IsBucket(k.kvs, Total(p), p.hash, p.n, k.t - |p.files|) <==> Covers(p, k.names, k.t - |p.files|))
  {
    TraceInv(p, Any(), run, steps, i);
    var k := run[i].workers[steps[i].w];
    WroteWhatItRead(p, run[i], steps[i]);
    ReadWhole(p, k.names, k.kvs, k.t - |p.files|);
  }

  /** When the job is done, output j holds the lines of the pairs its last writer had read,
      and those are the whole bucket if and only if the last writer's listing covered it. */
  lemma DoneOutput(p: Program, run: seq<Sys>, steps: seq<Step>, i: nat, j: nat)
    requires Trace(p, run, steps) && i < |run| && run[i].job.phase == C.DonePhase && j < p.n
    ensures LastWrite(run, steps, j, i).Some? && OutFile(j) in run[i].files && run[i].files[OutFile(j)].Text?
    ensures var w := LastWriter(run, steps, i, j);
            && multiset(run[i].files[OutFile(j)].lines) == Lines(p.reducef, w.kvs)
            && HasRead(p, w.names, |w.names|, w.kvs, j)
            && (IsBucket(w.kvs, Total(p), p.hash, p.n, j) <==> Covers(p, w.names, j))
  {
    DoneWritten(p, run, steps, i, j);
    HoldsLastWrite(p, run, steps, j, i);
    var k := LastWrite(run, steps, j, i).value;
    WritesWhatItListed(p, run, steps, k);
    OwnAt(p, run, steps, k);
  }

  // ----- the whole job

  /** The contents of the output files. */
  ghost function Outputs(p: Program, s: Sys): seq<seq<string>> {
    seq(p.n, j requires 0 <= j =>
        if OutFile(j) in s.files && s.files[OutFile(j)].Text? then s.files[OutFile(j)].lines else [])
  }

  /** The pairs the last writer of each output had read. */
  ghost function ReadParts(p: Program, run: seq<Sys>, steps: seq<Step>, i: nat): seq<seq<KV>> {
    seq(p.n, j requires 0 <= j =>
        if LastWrite(run, steps, j, i).Some? then LastWriter(run, steps, i, j).kvs else [])
  }

  /** The pairs the output of the job is made of. */
  ghost function PairsRead(p: Program, run: seq<Sys>, steps: seq<Step>, i: nat): seq<KV> {
    Seq.Flatten(ReadParts(p, run, steps, i))
  }

  /** Every output was last written by an attempt whose listing missed no pair. */
  ghost predicate LastWritersCover(p: Program, run: seq<Sys>, steps: seq<Step>, i: nat)
    requires p.n > 0
  {
    forall j: nat :: j < p.n && LastWrite(run, steps, j, i).Some? ==>
      Covers(p, LastWriter(run, steps, i, j).names, j)
  }

  /** All pairs of the list hash to bucket j. */
  ghost predicate Within(kvs: seq<KV>, hash: string -> nat, n: nat, j: nat)
    requires n > 0
  {
    forall kv: KV {:trigger multiset(kvs)[kv]} :: Slot(hash, n, kv.key) != j ==> multiset(kvs)[kv] == 0
  }

  lemma {:induction false} FlattenCount(parts: seq<seq<KV>>, hash: string -> nat, n: nat, kv: KV)
    requires n > 0 && forall j :: 0 <= j < |parts| ==> Within(parts[j], hash, n, j)
    ensures multiset(Seq.Flatten(parts))[kv] == CountAt(parts, Slot(hash, n, kv.key), kv)
  {
    if parts != [] {
      var m := |parts| - 1;
      FlattenCount(parts[..m], hash, n, kv);
      CountConcat(Seq.Flatten(parts[..m]), parts[m], kv);
      OnlyAtSlot(parts, hash, n, kv);
    }
  }

  /** How often the pair is in part j. */
  ghost function CountAt(parts: seq<seq<KV>>, j: nat, kv: KV): nat {
    if j < |parts| then multiset(parts[j])[kv] else 0
  }

  lemma OnlyAtSlot(parts: seq<seq<KV>>, hash: string -> nat, n: nat, kv: KV)
    requires n > 0 && parts != [] && Within(parts[|parts| - 1], hash, n, |parts| - 1)
    ensures var m, j := |parts| - 1, Slot(hash, n, kv.key);
            CountAt(parts, j, kv) == CountAt(parts[..m], j, kv) + multiset(parts[m])[kv]
  {
  }

  lemma CountConcat(a: seq<KV>, b: seq<KV>, kv: KV)
    ensures multiset(a + b)[kv] == multiset(a)[kv] + multiset(b)[kv]
  {
  }

  /** Parts that lie in their buckets are the buckets of their concatenation, and together they
      are a given multiset if and only if each is its bucket of it. */
  lemma PartsAreBuckets(parts: seq<seq<KV>>, total: multiset<KV>, hash: string -> nat, n: nat)
    requires n > 0 && |parts| == n && forall j :: 0 <= j < n ==> Within(parts[j], hash, n, j)
    ensures forall j :: 0 <= j < n ==> IsBucket(parts[j], multiset(Seq.Flatten(parts)), hash, n, j)
    ensures multiset(Seq.Flatten(parts)) == total <==> forall j :: 0 <= j < n ==> IsBucket(parts[j], total, hash, n, j)
  {
    var all := multiset(Seq.Flatten(parts));
    forall kv: KV ensures all[kv] == multiset(parts[Slot(hash, n, kv.key)])[kv] { FlattenCount(parts, hash, n, kv); }
    forall j | 0 <= j < n ensures IsBucket(parts[j], all, hash, n, j) { assert Within(parts[j], hash, n, j); }
    if forall j :: 0 <= j < n ==> IsBucket(parts[j], total, hash, n, j) {
      forall kv: KV ensures all[kv] == total[kv] {
        assert IsBucket(parts[Slot(hash, n, kv.key)], total, hash, n, Slot(hash, n, kv.key));
      }
    }
  }

  lemma PartsWithin(p: Program, run: seq<Sys>, steps: seq<Step>, i: nat, j: nat)
    requires Trace(p, run, steps) && i < |run| && run[i].job.phase == C.DonePhase && j < p.n
    ensures Within(ReadParts(p, run, steps, i)[j], p.hash, p.n, j)
  {
    DoneOutput(p, run, steps, i, j);
  }

  /** In every trace that reaches the done phase, the lines of all output files together are
      those of the pairs the last writers had read. */
  lemma OutputOfPairsRead(p: Program, run: seq<Sys>, steps: seq<Step>, i: nat)
    requires Trace(p, run, steps) && i < |run| && run[i].job.phase == C.DonePhase
    ensures Together(Outputs(p, run[i]), p.n) == Lines(p.reducef, PairsRead(p, run, steps, i))
  {
    var outs, parts := Outputs(p, run[i]), ReadParts(p, run, steps, i);
    forall j | 0 <= j < p.n
      ensures Within(parts[j], p.hash, p.n, j) && multiset(outs[j]) == Lines(p.reducef, parts[j])
    {
      PartsWithin(p, run, steps, i, j);
      DoneOutput(p, run, steps, i, j);
    }
    PartsAreBuckets(parts, Total(p), p.hash, p.n);
    BucketedRefinesSequential(outs, parts, Seq.Flatten(parts), p.reducef, p.hash, p.n);
  }

  /** Nothing is lost and nothing is counted twice, if and only if every output was last
      written by an attempt whose listing missed no pair. */
  lemma AllPairsReadIff(p: Program, run: seq<Sys>, steps: seq<Step>, i: nat)
    requires Trace(p, run, steps) && i < |run| && run[i].job.phase == C.DonePhase
    ensures multiset(PairsRead(p, run, steps, i)) == Total(p) <==> LastWritersCover(p, run, steps, i)
  {
    var parts := ReadParts(p, run, steps, i);
    forall j: nat | j < p.n
      ensures Within(parts[j], p.hash, p.n, j) && LastWrite(run, steps, j, i).Some?
      ensures IsBucket(parts[j], Total(p), p.hash, p.n, j) <==> Covers(p, LastWriter(run, steps, i, j).names, j)
    {
      PartsWithin(p, run, steps, i, j);
      DoneOutput(p, run, steps, i, j);
    }
    PartsAreBuckets(parts, Total(p), p.hash, p.n);
  }

  /** The sequential program's pairs are all the pairs. */
  lemma {:induction false} FlattenTotal(p: Program, mapped: seq<seq<KV>>)
    requires |mapped| <= |p.files|
    requires forall t :: 0 <= t < |mapped| ==> multiset(mapped[t]) == p.mapf(p.files[t])
    ensures multiset(Seq.Flatten(mapped)) == MappedAll(p, Range(|mapped|))
  {
    if mapped != [] {
      FlattenTotal(p, mapped[..|mapped| - 1]);
      MappedSnoc(p, Range(|mapped| - 1), |mapped| - 1);
    }
  }

  /** What Map makes of each file, in some order. */
  ghost predicate MapsTo(p: Program, mapped: seq<seq<KV>>) {
    |mapped| == |p.files| && forall t :: 0 <= t < |mapped| ==> multiset(mapped[t]) == p.mapf(p.files[t])
  }

  /** End to end: in every trace that reaches the done phase with every output last written by
      an attempt whose listing missed no pair, the lines of all output files together are,
      as a multiset, the lines the sequential program writes for the same files, in
      whatever order Map lists the pairs there. */
  lemma EndToEnd(p: Program, run: seq<Sys>, steps: seq<Step>, i: nat, mapped: seq<seq<KV>>)
    requires Trace(p, run, steps) && i < |run| && run[i].job.phase == C.DonePhase && MapsTo(p, mapped)
    requires LastWritersCover(p, run, steps, i)
    ensures Together(Outputs(p, run[i]), p.n) == Lines(p.reducef, Seq.Flatten(mapped))
  {
    OutputOfPairsRead(p, run, steps, i);
    AllPairsReadIff(p, run, steps, i);
    FlattenTotal(p, mapped);
    Seq.LinesDependOnMultiset(p.reducef, PairsRead(p, run, steps, i), Seq.Flatten(mapped));
  }

  // ----- exactly when

  /** A Reduce that tells one list of values of one key from all others. */
  function Telling(key: string, values: multiset<string>): Reducer {
    (k: string, vs: multiset<string>) => if k == key && vs == values then "1" else "0"
  }

  lemma LineEnds(a: string, x: char, b: string, y: char)
    requires Line(a, [x]) == Line(b, [y])
    ensures x == y && a == b
  {
    var l, m := Line(a, [x]), Line(b, [y]);
    assert l[|l| - 2] == x && m[|m| - 2] == y;
    assert l[..|a|] == a && m[..|b|] == b;
  }

  /** A list with a pair that another holds less often gives another line under some Reduce. */
  lemma MissedPairShows(a: seq<KV>, b: seq<KV>, kv: KV)
    requires multiset(a)[kv] > multiset(b)[kv]
    ensures var r := Telling(kv.key, multiset(Values(a, kv.key))); Lines(r, a) != Lines(r, b)
  {
    var values := multiset(Values(a, kv.key));
    var r, l := Telling(kv.key, values), Line(kv.key, "1");
    HasKeyCount(a, kv.key);
    assert HasKey(a, kv.key) && kv.key in Keys(a);
    var i :| 0 <= i < |Keys(a)| && Keys(a)[i] == kv.key;
    assert LinesFor(r, a, Keys(a))[i] == l;
    assert l in Lines(r, a);
    ValuesCount(a, kv.key, kv.value);
    ValuesCount(b, kv.key, kv.value);
    forall j | 0 <= j < |Keys(b)| ensures LinesFor(r, b, Keys(b))[j] != l {
      var k := Keys(b)[j];
      var vs := multiset(Values(b, k));
      assert LinesFor(r, b, Keys(b))[j] == Line(k, r(k, vs));
      if Line(k, r(k, vs)) == l {
        LineEnds(k, r(k, vs)[0], kv.key, '1');
      }
    }
    assert l !in LinesFor(r, b, Keys(b));
  }

  /** Two lists of pairs give the same lines under every Reduce exactly if they are the same
      pairs. */
  lemma SamePairsIffSameLines(a: seq<KV>, b: seq<KV>)
    ensures multiset(a) == multiset(b) <==> forall r: Reducer :: Lines(r, a) == Lines(r, b)
  {
    if multiset(a) == multiset(b) {
      forall r: Reducer ensures Lines(r, a) == Lines(r, b) { Seq.LinesDependOnMultiset(r, a, b); }
    } else if exists kv: KV :: multiset(a)[kv] > multiset(b)[kv] {
      var kv: KV :| multiset(a)[kv] > multiset(b)[kv];
      MissedPairShows(a, b, kv);
    } else {
      var kv: KV :| multiset(a)[kv] != multiset(b)[kv];
      MissedPairShows(b, a, kv);
    }
  }

  /** The output of a finished job is made of pairs that give the sequential program's lines
      under every Reduce, if and only if every output was last written by an attempt whose
      listing missed no pair. */
  lemma RightIff(p: Program, run: seq<Sys>, steps: seq<Step>, i: nat, mapped: seq<seq<KV>>)
    requires Trace(p, run, steps) && i < |run| && run[i].job.phase == C.DonePhase && MapsTo(p, mapped)
    ensures Together(Outputs(p, run[i]), p.n) == Lines(p.reducef, PairsRead(p, run, steps, i))
    ensures (forall r: Reducer :: Lines(r, PairsRead(p, run, steps, i)) == Lines(r, Seq.Flatten(mapped))) <==>
            LastWritersCover(p, run, steps, i)
  {
    OutputOfPairsRead(p, run, steps, i);
    AllPairsReadIff(p, run, steps, i);
    FlattenTotal(p, mapped);
    SamePairsIffSameLines(PairsRead(p, run, steps, i), Seq.Flatten(mapped));
  }

  // ----- when every listing finds all its input

  /** An attempt looks for its input before anybody has begun to delete it. */
  ghost predicate Early(p: Program, s: Sys, e: Step)
    requires Shape(p, s)
  {
    e.Glob? && e.w < |s.workers| && s.workers[e.w].ReduceHeld? && |p.files| <= s.workers[e.w].t < |p.files| + p.n ==>
      !Consumed(p, s, s.workers[e.w].t - |p.files|)
  }

  /** A listing made before anybody has begun to delete holds bucket i of every map task. */
  lemma EarlyCovers(p: Program, ok: Accept, s: Sys, names: seq<FileName>, i: nat)
    requires Inv(p, ok, s) && C.AllDone(s.job.tasks, C.MapTask) && i < p.n && !Consumed(p, s, i)
    requires Listing(s.files, names, "mr-*-" + Itoa(i) + ".json")
    ensures forall t: nat :: t < |p.files| ==> BucketFile(t, i) in names
  {
    forall t: nat | t < |p.files| ensures BucketFile(t, i) in names {
      InputPresent(p, ok, s, t, i);
      GlobSelects(BucketFile(t, i), i);
    }
  }

  lemma EarlyFindsAll(p: Program, ok: Accept, s: Sys, e: Step)
    requires Inv(p, ok, s) && Possible(p, s, e) && Early(p, s, e)
    ensures FindsAll(p, s, e)
  {
    if e.Glob? {
      assert WorkerOk(p, ok, s, s.workers[e.w]);
      TaskSays(p, s, s.workers[e.w].t);
      EarlyCovers(p, ok, s, e.names, s.workers[e.w].t - |p.files|);
    }
  }

  /** If no attempt looks for its input after somebody began to delete it, every listing misses
      no pair. */
  lemma EarlyRun(p: Program, run: seq<Sys>, steps: seq<Step>)
    requires Trace(p, run, steps) && forall i :: 0 <= i < |steps| ==> Early(p, run[i], steps[i])
    ensures Run(p, run, steps)
  {
    forall i | 0 <= i < |steps| ensures FindsAll(p, run[i], steps[i]) {
      TraceInv(p, Any(), run, steps, i);
      EarlyFindsAll(p, Any(), run[i], steps[i]);
    }
  }

  /** A reading attempt listed every file with a pair of its bucket. */
  ghost predicate ReaderCovers(p: Program, w: Worker)
    requires p.n > 0
  {
    w.Reading? && w.t >= |p.files| ==> Covers(p, w.names, w.t - |p.files|)
  }

  lemma ReaderStep(p: Program, s: Sys, e: Step, v: nat)
    requires Shape(p, s) && Possible(p, s, e) && FindsAll(p, s, e) && v < |s.workers| && ReaderCovers(p, s.workers[v])
    ensures |Next(p, s, e).workers| == |s.workers| && ReaderCovers(p, Next(p, s, e).workers[v])
  {
  }

  lemma {:induction false} RunReaders(p: Program, run: seq<Sys>, steps: seq<Step>, i: nat)
    requires Run(p, run, steps) && i < |run|
    ensures forall v :: 0 <= v < |run[i].workers| ==> ReaderCovers(p, run[i].workers[v])
  {
    if i > 0 {
      var s, e := run[i - 1], steps[i - 1];
      assert run[i - 1 + 1] == Next(p, s, e);
      RunReaders(p, run, steps, i - 1);
      WorkersCount(p, s, e);
      forall v | 0 <= v < |run[i].workers| ensures ReaderCovers(p, run[i].workers[v]) { ReaderStep(p, s, e, v); }
    }
  }

  lemma WorkersCount(p: Program, s: Sys, e: Step)
    requires Shape(p, s) && Possible(p, s, e)
    ensures |Next(p, s, e).workers| == |s.workers|
  {
  }

  /** If every listing misses no pair, every last writer's does. */
  lemma RunCovers(p: Program, run: seq<Sys>, steps: seq<Step>, i: nat)
    requires Run(p, run, steps) && i < |run|
    ensures LastWritersCover(p, run, steps, i)
  {
    forall j: nat | j < p.n && LastWrite(run, steps, j, i).Some?
      ensures Covers(p, LastWriter(run, steps, i, j).names, j)
    {
      var k := LastWrite(run, steps, j, i).value;
      RunReaders(p, run, steps, k);
      OwnAt(p, run, steps, k);
    }
  }

  /** The program as it is built, with keys spread over buckets by their hash: a job in which
      no attempt looks for its input after another began to delete it writes the lines of
      the sequential program. */
  lemma JobMatchesSequential(files: seq<string>, mapf: string -> multiset<KV>, reducef: Reducer, n: nat,
                             run: seq<Sys>, steps: seq<Step>, i: nat, mapped: seq<seq<KV>>)
    requires var p := Program(files, mapf, reducef, IHash, n);
             && Trace(p, run, steps) && (forall k :: 0 <= k < |steps| ==> Early(p, run[k], steps[k]))
             && i < |run| && run[i].job.phase == C.DonePhase && MapsTo(p, mapped)
    ensures Together(Outputs(Program(files, mapf, reducef, IHash, n), run[i]), n) == Lines(reducef, Seq.Flatten(mapped))
  {
    var p := Program(files, mapf, reducef, IHash, n);
    EarlyRun(p, run, steps);
    RunCovers(p, run, steps, i);
    EndToEnd(p, run, steps, i, mapped);
  }
}
