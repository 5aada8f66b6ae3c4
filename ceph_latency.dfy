/** `CephLatencyPlugin.get_stats`: list the cluster's pools, run a write
    benchmark on each, and report four latency lines per pool whose benchmark
    gave output. */
module CephLatency {
  import opened CephCommon
  import opened PyText

  /** One entry of the pool listing, with what its own benchmark command gave
      (the pipeline's output text, or a failure). */
  datatype Probe = Probe(pool: string, bench: Cmd<string>)

  /** The metric filled from line k of a benchmark output. */
  const MetricNames: seq<string> := ["avg_latency", "stddev_latency", "max_latency", "min_latency"]

  /** The benchmark command line of each probe, in order. */
  function BenchCommands(cluster: string, probes: seq<Probe>): (cmds: seq<Command>)
    ensures |cmds| == |probes|
    ensures forall i :: 0 <= i < |probes| ==> cmds[i] == RadosBench(cluster, probes[i].pool)
  {
    if probes == [] then []
    else BenchCommands(cluster, probes[..|probes| - 1]) + [RadosBench(cluster, probes[|probes| - 1].pool)]
  }

  /** `latency_data` after the benchmark loop: each pool whose benchmark gave
      output, mapped to that output (a later success for the same name
      overwrites an earlier one). */
  function Collected(probes: seq<Probe>): (latency: map<string, string>)
    ensures |latency| <= |probes|
  {
    if probes == [] then map[]
    else
      var last := probes[|probes| - 1];
      var prev := Collected(probes[..|probes| - 1]);
      if last.bench.Ok? then prev[last.pool := last.bench.out] else prev
  }

  /** One order in which the second loop can visit `latency_data`: pools in
      order of first insertion. Python 2 iterates a dict in hash order, which
      is not specified; `BuildResult` is proved for every order listing
      exactly the keys, so the outcome does not depend on this choice. */
  function InsertionOrder(probes: seq<Probe>): (order: seq<string>)
    ensures forall p :: p in order <==> p in Collected(probes)
  {
    if probes == [] then []
    else
      var last := probes[|probes| - 1];
      var prev := probes[..|probes| - 1];
      if last.bench.Ok? && last.pool !in Collected(prev) then InsertionOrder(prev) + [last.pool]
      else InsertionOrder(prev)
  }

  /** What the benchmark loop logs for a probe that gave nothing. */
  function FailureEntry(p: Probe): LogEntry
    requires !p.bench.Ok?
  {
    if p.bench.Failed? then BenchFailed(p.pool) else BenchNone(p.pool)
  }

  /** The benchmark loop's log. */
  function Failures(probes: seq<Probe>): (log: seq<LogEntry>)
    ensures |log| <= |probes|
    ensures forall k :: 0 <= k < |log| ==> log[k].BenchFailed? || log[k].BenchNone?
  {
    if probes == [] then []
    else
      var last := probes[|probes| - 1];
      var prev := Failures(probes[..|probes| - 1]);
      if last.bench.Ok? then prev else prev + [FailureEntry(last)]
  }

  /** The output has the four lines the plugin reads. */
  predicate Complete(output: string)
  {
    |Split(output, '\n')| >= 4
  }

  /** The entry of one pool: line k of its output under `MetricNames[k]`, as text. */
  function PoolMetrics(output: string): map<string, Value>
    requires Complete(output)
  {
    var results := Split(output, '\n');
    map["avg_latency" := Text(results[0]), "stddev_latency" := Text(results[1]),
        "max_latency" := Text(results[2]), "min_latency" := Text(results[3])]
  }

  /** A pool entry has exactly the four metric names as keys, and metric k is
      line k of the output, kept as text. */
  lemma PoolMetricsLines(output: string)
    requires Complete(output)
    ensures PoolMetrics(output).Keys == set name | name in MetricNames
    ensures forall k :: 0 <= k < 4 ==> PoolMetrics(output)[MetricNames[k]] == Text(Split(output, '\n')[k])
  {
  }

  /** The second half of `get_stats`: nothing when no benchmark succeeded, an
      `IndexError` when some output is short, otherwise one entry per pool. */
  function Assemble(cluster: string, latency: map<string, string>): (o: Outcome)
    ensures o == Returned(None) <==> |latency| == 0
    ensures o.Threw? ==> o.error == IndexError
    ensures o.Returned? && o.stats.Some? ==>
      o.stats.value.Keys == {ClusterKey(cluster)} && o.stats.value[ClusterKey(cluster)].Keys == latency.Keys
  {
    if |latency| == 0 then Returned(None)
    else if !AllComplete(latency) then Threw(IndexError)
    else Returned(Some(map[ClusterKey(cluster) := PoolEntries(latency)]))
  }

  predicate AllComplete(latency: map<string, string>)
  {
    forall p :: p in latency ==> Complete(latency[p])
  }

  /** `data[ceph_cluster]` once every pool is filed. */
  function PoolEntries(latency: map<string, string>): (entries: map<string, map<string, Value>>)
    requires AllComplete(latency)
    ensures entries.Keys == latency.Keys
    ensures forall p :: p in latency ==> entries[p] == PoolMetrics(latency[p])
  {
    map p | p in latency :: PoolMetrics(latency[p])
  }

  /** A map that files every pool's metrics under its name is `PoolEntries`. */
  lemma EntriesArePoolEntries(latency: map<string, string>, pools: map<string, map<string, Value>>)
    requires pools.Keys == latency.Keys
    requires forall p :: p in pools ==> Complete(latency[p]) && pools[p] == PoolMetrics(latency[p])
    ensures AllComplete(latency) && pools == PoolEntries(latency)
  {
  }

  /** One collection cycle, as a function of what the commands gave. */
  function LatencyCycle(cluster: string, listing: Cmd<seq<Probe>>): (c: Cycle)
    ensures !listing.Ok? ==> c.outcome == Returned(None) && c.commands == [PoolList(cluster)]
    ensures listing.Ok? ==>
      && |c.commands| == |listing.out| + 1
      && c.commands[0] == PoolList(cluster)
      && forall i :: 0 <= i < |listing.out| ==> c.commands[i + 1] == RadosBench(cluster, listing.out[i].pool)
  {
    match listing
    case Failed => Cycle(Returned(None), [PoolList(cluster)], [PoolListFailed])
    case NoOutput => Cycle(Returned(None), [PoolList(cluster)], [PoolListNone])
    case Ok(probes) =>
      Cycle(Assemble(cluster, Collected(probes)),
            [PoolList(cluster)] + BenchCommands(cluster, probes),
            Failures(probes))
  }

  /** Probe `i` gave the output that `latency_data` keeps for its pool: its
      benchmark succeeded and no later probe of the same pool did. */
  predicate Reported(probes: seq<Probe>, i: int)
    requires 0 <= i < |probes|
  {
    && probes[i].bench.Ok?
    && forall j :: i < j < |probes| && probes[j].pool == probes[i].pool ==> !probes[j].bench.Ok?
  }

  /** `latency_data` holds a pool exactly when some benchmark of it succeeded. */
  lemma {:induction false} CollectedPools(probes: seq<Probe>, pool: string)
    ensures pool in Collected(probes) <==>
      exists i :: 0 <= i < |probes| && probes[i].pool == pool && probes[i].bench.Ok?
  {
    if probes != [] {
      var n := |probes| - 1;
      var prev := probes[..n];
      CollectedPools(prev, pool);
      if exists i :: 0 <= i < n && prev[i].pool == pool && prev[i].bench.Ok? {
        var i :| 0 <= i < n && prev[i].pool == pool && prev[i].bench.Ok?;
        assert probes[i] == prev[i];
      }
      if exists i :: 0 <= i < |probes| && probes[i].pool == pool && probes[i].bench.Ok? {
        var i :| 0 <= i < |probes| && probes[i].pool == pool && probes[i].bench.Ok?;
        if i < n {
          assert prev[i] == probes[i];
        }
      }
    }
  }

  /** The reported probe's output is what `latency_data` keeps for its pool. */
  lemma {:induction false} ReportedIsCollected(probes: seq<Probe>, i: int)
    requires 0 <= i < |probes| && Reported(probes, i)
    ensures probes[i].pool in Collected(probes)
    ensures Collected(probes)[probes[i].pool] == probes[i].bench.out
  {
    var n := |probes| - 1;
    if i < n {
      var prev := probes[..n];
      assert Reported(prev, i);
      ReportedIsCollected(prev, i);
    }
  }

  /** Whatever `latency_data` keeps for a pool came from a reported probe. */
  lemma {:induction false} CollectedIsReported(probes: seq<Probe>, pool: string)
    requires pool in Collected(probes)
    ensures exists i :: 0 <= i < |probes| && probes[i].pool == pool && Reported(probes, i)
  {
    var n := |probes| - 1;
    if probes[n].bench.Ok? && probes[n].pool == pool {
      assert Reported(probes, n);
    } else {
      var prev := probes[..n];
      assert pool in Collected(prev);
      CollectedIsReported(prev, pool);
      var i :| 0 <= i < n && prev[i].pool == pool && Reported(prev, i);
      assert Reported(probes, i);
    }
  }

  /** In a listing without repeated names (Ceph pool names are unique), a
      pool's output is reported exactly when its benchmark succeeded. */
  lemma UniquePoolsAreReportedWhenOk(probes: seq<Probe>, i: int)
    requires forall j, k :: 0 <= j < k < |probes| ==> probes[j].pool != probes[k].pool
    requires 0 <= i < |probes|
    ensures Reported(probes, i) <==> probes[i].bench.Ok?
  {
  }

  /** The cycle returns nothing exactly when no benchmark succeeded (in
      particular when no pool is listed); every listed pool is still tried. */
  lemma NothingWithoutSuccess(cluster: string, probes: seq<Probe>)
    ensures LatencyCycle(cluster, Ok(probes)).outcome == Returned(None) <==>
      forall i :: 0 <= i < |probes| ==> !probes[i].bench.Ok?
  {
    if forall i :: 0 <= i < |probes| ==> !probes[i].bench.Ok? {
      forall pool ensures pool !in Collected(probes) {
        CollectedPools(probes, pool);
      }
      assert Collected(probes) == map[];
    } else {
      var i :| 0 <= i < |probes| && probes[i].bench.Ok?;
      CollectedPools(probes, probes[i].pool);
    }
  }

  /** A pool whose benchmark succeeded is never lost: the cycle either files
      it under the cluster key or raises `IndexError` for a short output. */
  lemma SuccessIsFiled(cluster: string, probes: seq<Probe>, i: int)
    requires 0 <= i < |probes| && probes[i].bench.Ok?
    ensures
      var o := LatencyCycle(cluster, Ok(probes)).outcome;
      || o == Threw(IndexError)
      || (o.Returned? && o.stats.Some? && probes[i].pool in o.stats.value[ClusterKey(cluster)])
  {
    CollectedPools(probes, probes[i].pool);
  }

  /** A result holds just the cluster key, and under it exactly the pools
      whose benchmark succeeded. */
  lemma ReportedPools(cluster: string, listing: Cmd<seq<Probe>>, s: Stats)
    requires LatencyCycle(cluster, listing).outcome == Returned(Some(s))
    ensures listing.Ok?
    ensures s.Keys == {ClusterKey(cluster)}
    ensures forall pool :: pool in s[ClusterKey(cluster)] <==>
      exists i :: 0 <= i < |listing.out| && listing.out[i].pool == pool && listing.out[i].bench.Ok?
  {
    var latency := Collected(listing.out);
    assert s == map[ClusterKey(cluster) := PoolEntries(latency)];
    forall pool
      ensures pool in s[ClusterKey(cluster)] <==>
        exists i :: 0 <= i < |listing.out| && listing.out[i].pool == pool && listing.out[i].bench.Ok?
    {
      CollectedPools(listing.out, pool);
    }
  }

  /** Each reported pool is filed with exactly the four metrics, metric k
      being line k of the output of its last successful benchmark. */
  lemma ReportedMetrics(cluster: string, probes: seq<Probe>, s: Stats, i: int)
    requires LatencyCycle(cluster, Ok(probes)).outcome == Returned(Some(s))
    requires 0 <= i < |probes| && Reported(probes, i)
    ensures Complete(probes[i].bench.out)
    ensures probes[i].pool in s[ClusterKey(cluster)]
    ensures s[ClusterKey(cluster)][probes[i].pool].Keys == set name | name in MetricNames
    ensures forall k :: 0 <= k < 4 ==>
      s[ClusterKey(cluster)][probes[i].pool][MetricNames[k]] == Text(Split(probes[i].bench.out, '\n')[k])
  {
    var latency := Collected(probes);
    ReportedIsCollected(probes, i);
    var output := probes[i].bench.out;
    assert latency[probes[i].pool] == output;
    assert s[ClusterKey(cluster)] == PoolEntries(latency);
    assert s[ClusterKey(cluster)][probes[i].pool] == PoolMetrics(output);
    PoolMetricsLines(output);
  }

  /** The cycle raises `IndexError` exactly when an output it kept has fewer
      than three newlines, i.e. fewer than four lines; it never raises
      anything else. */
  lemma ShortOutputRaises(cluster: string, probes: seq<Probe>)
    ensures !LatencyCycle(cluster, Ok(probes)).outcome.Threw? ||
            LatencyCycle(cluster, Ok(probes)).outcome.error == IndexError
    ensures LatencyCycle(cluster, Ok(probes)).outcome.Threw? <==>
      exists i :: 0 <= i < |probes| && Reported(probes, i) && Occurrences(probes[i].bench.out, '\n') < 3
  {
    var latency := Collected(probes);
    if LatencyCycle(cluster, Ok(probes)).outcome.Threw? {
      var pool :| pool in latency && !Complete(latency[pool]);
      CollectedIsReported(probes, pool);
      var i :| 0 <= i < |probes| && probes[i].pool == pool && Reported(probes, i);
      ReportedIsCollected(probes, i);
      SplitLength(probes[i].bench.out, '\n');
    }
    if exists i :: 0 <= i < |probes| && Reported(probes, i) && Occurrences(probes[i].bench.out, '\n') < 3 {
      var i :| 0 <= i < |probes| && Reported(probes, i) && Occurrences(probes[i].bench.out, '\n') < 3;
      ReportedIsCollected(probes, i);
      SplitLength(probes[i].bench.out, '\n');
      assert !Complete(latency[probes[i].pool]);
    }
  }

  /** The log names every pool whose benchmark gave nothing, with how it
      failed, and nothing else. */
  lemma {:induction false} FailuresAreLogged(probes: seq<Probe>)
    ensures forall i :: 0 <= i < |probes| && !probes[i].bench.Ok? ==> FailureEntry(probes[i]) in Failures(probes)
    ensures forall e :: e in Failures(probes) ==>
      exists i :: 0 <= i < |probes| && !probes[i].bench.Ok? && e == FailureEntry(probes[i])
  {
    if probes != [] {
      var n := |probes| - 1;
      var prev := probes[..n];
      FailuresAreLogged(prev);
      assert forall i :: 0 <= i < n ==> prev[i] == probes[i];
    }
  }

  /** Two pools that both report "1.2\n0.3\n2.0\n0.5" each get avg 1.2,
      stddev 0.3, max 2.0 and min 0.5 under "ceph-<cluster>". */
  lemma TwoPoolExample(cluster: string)
    ensures
      var c := LatencyCycle(cluster, Ok(ExampleProbes()));
      && c.outcome.Returned? && c.outcome.stats.Some?
      && c.outcome.stats.value[ClusterKey(cluster)].Keys == {"rbd", "cephfs_data"}
      && c.outcome.stats.value[ClusterKey(cluster)]["rbd"] == ExampleEntry()
      && c.outcome.stats.value[ClusterKey(cluster)]["cephfs_data"] == ExampleEntry()
  {
    var latency := ExampleCollected();
    assert AllComplete(latency) by {
      ExampleSplit();
    }
    ExampleEntries(latency);
  }

  function ExampleProbes(): seq<Probe>
  {
    [Probe("rbd", Ok("1.2\n0.3\n2.0\n0.5")), Probe("cephfs_data", Ok("1.2\n0.3\n2.0\n0.5"))]
  }

  lemma ExampleCollected() returns (latency: map<string, string>)
    ensures latency == Collected(ExampleProbes())
    ensures latency == map["rbd" := "1.2\n0.3\n2.0\n0.5", "cephfs_data" := "1.2\n0.3\n2.0\n0.5"]
  {
    var probes := ExampleProbes();
    assert probes[..1][..0] == [];
    latency := Collected(probes);
  }

  lemma ExampleEntries(latency: map<string, string>)
    requires latency == map["rbd" := "1.2\n0.3\n2.0\n0.5", "cephfs_data" := "1.2\n0.3\n2.0\n0.5"]
    requires AllComplete(latency)
    ensures PoolEntries(latency).Keys == {"rbd", "cephfs_data"}
    ensures PoolEntries(latency)["rbd"] == ExampleEntry()
    ensures PoolEntries(latency)["cephfs_data"] == ExampleEntry()
  {
    ExampleSplit();
  }

  function ExampleEntry(): map<string, Value>
  {
    map["avg_latency" := Text("1.2"), "stddev_latency" := Text("0.3"),
        "max_latency" := Text("2.0"), "min_latency" := Text("0.5")]
  }

  lemma ExampleSplit()
    ensures Split("1.2\n0.3\n2.0\n0.5", '\n') == ["1.2", "0.3", "2.0", "0.5"]
    ensures PoolMetrics("1.2\n0.3\n2.0\n0.5") == ExampleEntry()
  {
    SplitJoin(["1.2", "0.3", "2.0", "0.5"], '\n');
    assert Join(["1.2", "0.3", "2.0", "0.5"], '\n') == "1.2\n0.3\n2.0\n0.5";
  }

  /** The benchmark loop of `get_stats`: one command per listed pool, in order;
      a pool that gives no output is logged and skipped. */
  method RunBenchmarks(cluster: string, pools: seq<Probe>)
    returns (latency: map<string, string>, order: seq<string>, commands: seq<Command>, log: seq<LogEntry>)
    ensures latency == Collected(pools) && order == InsertionOrder(pools)
    ensures commands == BenchCommands(cluster, pools) && log == Failures(pools)
  {
    latency, order, commands, log := map[], [], [], [];
    var i := 0;
    while i < |pools|
      invariant 0 <= i <= |pools|
      invariant latency == Collected(pools[..i])
      invariant order == InsertionOrder(pools[..i])
      invariant log == Failures(pools[..i])
      invariant commands == BenchCommands(cluster, pools[..i])
    {
      assert pools[..i + 1][..i] == pools[..i];
      var pool := pools[i].pool;
      commands := commands + [RadosBench(cluster, pool)];
      match pools[i].bench {
        case Failed =>
          log := log + [BenchFailed(pool)];
        case NoOutput =>
          log := log + [BenchNone(pool)];
        case Ok(output) =>
          if pool !in latency {
            order := order + [pool];
          }
          latency := latency[pool := output];
      }
      i := i + 1;
    }
    assert pools[..i] == pools;
  }

  /** The end of `get_stats`: return nothing when `latency` is empty, else
      visit the pools in `order` and file the four lines of each under the
      cluster key, raising `IndexError` at the first short output. */
  method BuildResult(cluster: string, latency: map<string, string>, order: seq<string>) returns (o: Outcome)
    requires forall p :: p in order <==> p in latency
    ensures o == Assemble(cluster, latency)
  {
    if |latency| == 0 {
      return Returned(None);
    }
    // `pools` stands for the dict `data[ceph_cluster]` that the loop fills in place.
    var pools: map<string, map<string, Value>> := map[];
    var j := 0;
    while j < |order|
      invariant 0 <= j <= |order|
      invariant pools.Keys == set k | 0 <= k < j :: order[k]
      invariant forall p :: p in pools ==> p in latency && Complete(latency[p]) && pools[p] == PoolMetrics(latency[p])
    {
      var pool := order[j];
      var results := Split(latency[pool], '\n');
      if |results| < 4 {
        return Threw(IndexError);
      }
      pools := pools[pool := PoolMetrics(latency[pool])];
      j := j + 1;
    }
    assert forall p :: p in latency ==> p in pools by {
      forall p | p in latency ensures p in pools {
        var k :| 0 <= k < |order| && order[k] == p;
      }
    }
    EntriesArePoolEntries(latency, pools);
    return Returned(Some(map[ClusterKey(cluster) := pools]));
  }

  /** `get_stats`: list the pools, benchmark them, build the result. */
  method GetStats(cluster: string, listing: Cmd<seq<Probe>>) returns (c: Cycle)
    ensures c == LatencyCycle(cluster, listing)
  {
    var commands := [PoolList(cluster)];
    match listing {
      case Failed =>
        c := Cycle(Returned(None), commands, [PoolListFailed]);
      case NoOutput =>
        c := Cycle(Returned(None), commands, [PoolListNone]);
      case Ok(pools) =>
        var latency, order, benchCommands, log := RunBenchmarks(cluster, pools);
        var outcome := BuildResult(cluster, latency, order);
        c := Cycle(outcome, commands + benchCommands, log);
    }
  }
}
