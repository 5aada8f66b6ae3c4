/** `CephMonPlugin.get_stats`: the number of monitors, the size of their
    quorum, and the cluster health as three 0/1 flags. */
module CephMonitor {
  import opened CephCommon
  import opened PyText

  /** The parsed `ceph mon dump` output: the `mons` and `quorum` arrays. */
  datatype MonMap = MonMap(mons: seq<string>, quorum: seq<int>)

  /** The parsed `ceph status` output, reduced to `health.status`. */
  datatype HealthReport = HealthReport(status: string)

  const Instance: string := "mon"

  /** The five metrics, all 0 before the commands run. */
  const MetricNames: set<string> := {"number", "quorum", "health", "warn", "error"}

  /** `data` before the commands run. */
  function Template(cluster: string): Stats
  {
    map[ClusterKey(cluster) := map[Instance := map[
      "number" := Num(0), "quorum" := Num(0), "health" := Num(0), "warn" := Num(0), "error" := Num(0)]]]
  }

  /** `1 if status.lower() == state else 0`. */
  function HealthFlag(status: string, state: string): (flag: int)
    ensures flag == 0 || flag == 1
  {
    if Lower(status) == state then 1 else 0
  }

  /** `data` after the in-place assignments of the five metrics. */
  function MonStats(cluster: string, m: MonMap, h: HealthReport): (s: Stats)
    ensures ClusterKey(cluster) in s && Instance in s[ClusterKey(cluster)]
    ensures
      var mon := s[ClusterKey(cluster)][Instance];
      && "number" in mon && mon["number"] == Num(|m.mons|)
      && "quorum" in mon && mon["quorum"] == Num(|m.quorum|)
      && "health" in mon && mon["health"] == Num(HealthFlag(h.status, "health_ok"))
      && "warn" in mon && mon["warn"] == Num(HealthFlag(h.status, "health_warn"))
      && "error" in mon && mon["error"] == Num(HealthFlag(h.status, "health_err"))
  {
    var key := ClusterKey(cluster);
    var data := Template(cluster);
    var data := Assign(data, key, Instance, "number", Num(|m.mons|));
    var data := Assign(data, key, Instance, "quorum", Num(|m.quorum|));
    var data := Assign(data, key, Instance, "health", Num(HealthFlag(h.status, "health_ok")));
    var data := Assign(data, key, Instance, "warn", Num(HealthFlag(h.status, "health_warn")));
    Assign(data, key, Instance, "error", Num(HealthFlag(h.status, "health_err")))
  }

  /** One collection cycle. Both commands run inside one `try`: `status` runs
      only after `mon dump` succeeded, and a failure of either ends the cycle
      with nothing. A `None` output is not a failure: `mon dump`'s is logged,
      then `json.loads(None)` raises. */
  function MonCycle(cluster: string, dump: Cmd<MonMap>, health: Cmd<HealthReport>): (c: Cycle)
    ensures dump.Failed? ==> c.commands == [MonDump(cluster)]
    ensures !dump.Failed? ==> c.commands == [MonDump(cluster), Status(cluster)]
    ensures (dump.Failed? || health.Failed?) <==> c.outcome == Returned(None)
    ensures c.outcome.Returned? && c.outcome.stats.Some? <==> dump.Ok? && health.Ok?
    ensures dump.NoOutput? && !health.Failed? ==> c.outcome == Threw(TypeError) && c.log == [MonDumpNone]
  {
    if dump.Failed? then Cycle(Returned(None), [MonDump(cluster)], [MonCommandFailed])
    else
      var commands := [MonDump(cluster), Status(cluster)];
      if health.Failed? then Cycle(Returned(None), commands, [MonCommandFailed])
      else
        var log := if dump.NoOutput? then [MonDumpNone] else [];
        if dump.NoOutput? || health.NoOutput? then Cycle(Threw(TypeError), commands, log)
        else Cycle(Returned(Some(MonStats(cluster, dump.out, health.out))), commands, log)
  }

  /** The three flags: `health`, `warn` and `error` are 1 exactly when the
      status equals HEALTH_OK, HEALTH_WARN or HEALTH_ERR ignoring case, at
      most one of them is 1, and all are 0 for any other status. */
  lemma HealthFlagsExclusive(status: string)
    ensures HealthFlag(status, "health_ok") == 1 <==> EqualIgnoringCase(status, "HEALTH_OK")
    ensures HealthFlag(status, "health_warn") == 1 <==> EqualIgnoringCase(status, "HEALTH_WARN")
    ensures HealthFlag(status, "health_err") == 1 <==> EqualIgnoringCase(status, "HEALTH_ERR")
    ensures HealthFlag(status, "health_ok") + HealthFlag(status, "health_warn") + HealthFlag(status, "health_err") <= 1
    ensures !EqualIgnoringCase(status, "HEALTH_OK") && !EqualIgnoringCase(status, "HEALTH_WARN")
            && !EqualIgnoringCase(status, "HEALTH_ERR") ==>
            HealthFlag(status, "health_ok") == HealthFlag(status, "health_warn") == HealthFlag(status, "health_err") == 0
  {
    KnownStatesLowered();
    LowerEqualIff(status, "HEALTH_OK");
    LowerEqualIff(status, "HEALTH_WARN");
    LowerEqualIff(status, "HEALTH_ERR");
  }

  /** The three states the plugin compares against are the lower-cased
      Ceph health states. */
  lemma KnownStatesLowered()
    ensures Lower("HEALTH_OK") == "health_ok"
    ensures Lower("HEALTH_WARN") == "health_warn"
    ensures Lower("HEALTH_ERR") == "health_err"
  {
    LowerHealthOk();
    LowerHealthWarn();
    LowerHealthErr();
  }

  lemma LowerHealthOk()
    ensures Lower("HEALTH_OK") == "health_ok"
  {
    LowerHealthPrefix();
    LowerAt("OK");
    assert LowerChar('O') == 'o' && LowerChar('K') == 'k';
    LowerConcat("HEALTH_", "OK");
    assert "HEALTH_" + "OK" == "HEALTH_OK";
  }

  lemma LowerHealthWarn()
    ensures Lower("HEALTH_WARN") == "health_warn"
  {
    LowerHealthPrefix();
    LowerAt("WARN");
    assert LowerChar('W') == 'w' && LowerChar('A') == 'a' && LowerChar('R') == 'r' && LowerChar('N') == 'n';
    LowerConcat("HEALTH_", "WARN");
    assert "HEALTH_" + "WARN" == "HEALTH_WARN";
  }

  lemma LowerHealthErr()
    ensures Lower("HEALTH_ERR") == "health_err"
  {
    LowerHealthPrefix();
    LowerAt("ERR");
    assert LowerChar('E') == 'e' && LowerChar('R') == 'r';
    LowerConcat("HEALTH_", "ERR");
    assert "HEALTH_" + "ERR" == "HEALTH_ERR";
  }

  lemma LowerHealthPrefix()
    ensures Lower("HEALTH_") == "health_"
  {
    LowerAt("HEALTH_");
    assert LowerChar('H') == 'h' && LowerChar('E') == 'e' && LowerChar('A') == 'a' && LowerChar('L') == 'l';
    assert LowerChar('T') == 't' && LowerChar('_') == '_';
  }

  /** Statuses that differ only in case give the same flags. */
  lemma HealthFlagsIgnoreCase(s: string, t: string, state: string)
    requires EqualIgnoringCase(s, t)
    ensures HealthFlag(s, state) == HealthFlag(t, state)
  {
    LowerEqualIff(s, t);
  }

  /** On success the result has the shape of the zeroed template: only
      `"ceph-<cluster>"`, under it only `mon`, under that exactly the five
      metrics. */
  lemma MonResultShape(cluster: string, m: MonMap, h: HealthReport)
    ensures
      var s := MonStats(cluster, m, h);
      var key := ClusterKey(cluster);
      && s.Keys == Template(cluster).Keys == {key}
      && s[key].Keys == Template(cluster)[key].Keys == {Instance}
      && s[key][Instance].Keys == Template(cluster)[key][Instance].Keys == MetricNames
  {
    var key := ClusterKey(cluster);
    var t: Stats := Template(cluster);
    assert Shaped(t, key) by {
      assert t[key][Instance].Keys == MetricNames;
    }
    var d1 := Assign(t, key, Instance, "number", Num(|m.mons|));
    AssignKeepsShape(t, key, "number", Num(|m.mons|));
    var d2 := Assign(d1, key, Instance, "quorum", Num(|m.quorum|));
    AssignKeepsShape(d1, key, "quorum", Num(|m.quorum|));
    var d3 := Assign(d2, key, Instance, "health", Num(HealthFlag(h.status, "health_ok")));
    AssignKeepsShape(d2, key, "health", Num(HealthFlag(h.status, "health_ok")));
    var d4 := Assign(d3, key, Instance, "warn", Num(HealthFlag(h.status, "health_warn")));
    AssignKeepsShape(d3, key, "warn", Num(HealthFlag(h.status, "health_warn")));
    var d5 := Assign(d4, key, Instance, "error", Num(HealthFlag(h.status, "health_err")));
    AssignKeepsShape(d4, key, "error", Num(HealthFlag(h.status, "health_err")));
  }

  /** `data` has only `key`, under it only `mon`, under that the five metrics. */
  predicate Shaped(data: Stats, key: string)
  {
    && data.Keys == {key}
    && data[key].Keys == {Instance}
    && data[key][Instance].Keys == MetricNames
  }

  /** Setting one of the five metrics keeps the shape. */
  lemma AssignKeepsShape(data: Stats, key: string, metric: string, v: Value)
    requires Shaped(data, key) && metric in MetricNames
    ensures Shaped(Assign(data, key, Instance, metric, v), key)
  {
  }

  /** Monitors a, b and c with a and b in quorum, status HEALTH_WARN:
      number 3, quorum 2, health 0, warn 1, error 0. */
  lemma WarnExample(cluster: string)
    ensures
      var s := MonStats(cluster, MonMap(["a", "b", "c"], [0, 1]), HealthReport("HEALTH_WARN"));
      var mon := s[ClusterKey(cluster)][Instance];
      && mon["number"] == Num(3) && mon["quorum"] == Num(2)
      && mon["health"] == Num(0) && mon["warn"] == Num(1) && mon["error"] == Num(0)
  {
    HealthFlagsExclusive("HEALTH_WARN");
  }
}
