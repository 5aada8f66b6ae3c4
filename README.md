# Ceph plugins for collectd — the `get_stats` of each plugin

Three collectd plugins poll a Ceph cluster and hand collectd a nested result
`{"ceph-<cluster>": {instance: {metric: value}}}`, or nothing:

- the **latency** plugin lists the cluster's pools (`ceph osd pool ls`), runs a
  10-second `rados bench` write on each under `timeout 30s`, one after the
  other, and reports
  `avg_latency`, `stddev_latency`, `max_latency` and `min_latency` for each pool
  whose benchmark gave output. These are lines 0 to 3 of that output, kept as text;
- the **monitor** plugin runs `ceph mon dump` and then `ceph status`, and
  reports `mon` with `number` (monitors), `quorum` (monitors in quorum) and three
  0/1 flags `health`, `warn` and `error`. A flag is 1 when the lower-cased
  health status is `health_ok`, `health_warn` or `health_err`;
- the **mds** plugin runs `ceph mds dump` and reports `mds` with `number`, the
  count of entries in its `info` object.

The model gives each shell command's result to the plugin as an input
(`CephCommon.Cmd`). A result is one of three things: the call raised
(`Failed`), it returned `None` (`NoOutput`), or it returned this
already-parsed output (`Ok`). For the latency plugin, each listed pool comes
with its own benchmark result (`CephLatency.Probe`). A cycle's observable
behaviour is a `CephCommon.Cycle` with three parts:

- how `get_stats` ended: it returned `None`, it returned a result, or an
  exception escaped it;
- the commands it ran, in order;
- what it logged through `collectd.error`, in order.

Modules:

- `CephCommon` (common.dfy) holds what the plugins share: the result and
  command types, the cluster key `"ceph-" + cluster`, and the in-place leaf
  assignment `data[key][inst][metric] = v`.
- `PyText` (pytext.dfy) models Python's `str.split('\n')` and `str.lower()`.
- `CephLatency` (ceph_latency.dfy) is imperative, like its source. `GetStats`
  runs the benchmark loop (`RunBenchmarks`) and then the loop that fills
  `data` (`BuildResult`). Each loop is proved against the specification
  function `LatencyCycle`, and the lemmas state the plugin's rules about
  `LatencyCycle`.
- `CephMonitor` (ceph_monitor.dfy) and `CephMds` (ceph_mds.dfy) model a
  zero-filled template that five assignments (or one) update in place. They
  are written as pure functions, with lemmas.

Behaviour kept as the code has it:

- In the mds plugin, and for `mon dump` in the monitor plugin, a `None`
  command output is only logged. `json.loads(None)` is then called and raises
  `TypeError`, so `get_stats` ends with an exception and not with `None`
  (`Threw(TypeError)` here). A `None` output of the monitor plugin's `status`
  command is not logged at all; it raises the same `TypeError`. The latency
  plugin returns or skips after logging instead.
- In the latency plugin, an empty benchmark output `""` is not `None`: it is
  kept, and since it has fewer than four lines, filling its metrics raises
  `IndexError`. Any kept output with fewer than four lines raises
  `IndexError`, and that exception discards the whole result.
- If a pool name is listed twice, both benchmarks run. The pool's entry is
  the output of the last benchmark that succeeded.
- If the `status` command raises after `mon dump` returned `None`, the cycle
  returns `None`. It logs the same "failed to ceph mon dump" message as a
  `mon dump` failure.

## Model

| member | source | states |
|---|---|---|
| `CephCommon.ClusterKey` | plugins/ceph_latency_plugin.py:43-48 | the outer key is `"ceph-"` followed by the cluster name, and nothing else |
| `CephCommon.ClusterKeyInjective` | plugins/ceph_monitor_plugin.py:48 | two clusters with the same key are the same cluster, so their results never share a key |
| `CephCommon.CommandLine` | plugins/ceph_latency_plugin.py:52-71 | every command names the plugin's cluster: the pool listing, `mon dump`, `status` and `mds dump` end with `--cluster <cluster>`, and the benchmark starts `timeout 30s rados --cluster <cluster>` |
| `CephCommon.Assign` | plugins/ceph_mds_plugin.py:65 | `data[key][inst][metric] = v` sets that one leaf and keeps every other key and leaf of the dict |
| `PyText.Split` | plugins/ceph_latency_plugin.py:89-92 | `split('\n')` always yields at least one piece, so `results[0]` never fails |
| `PyText.SplitLength` | plugins/ceph_latency_plugin.py:89 | `split('\n')` yields one piece more than the text has newlines |
| `PyText.SplitPiecesHaveNoSeparator` | plugins/ceph_latency_plugin.py:89 | no piece of `split('\n')` contains a newline |
| `PyText.JoinSplit` | plugins/ceph_latency_plugin.py:89 | joining the pieces with `'\n'` gives back the benchmark output |
| `PyText.SplitJoin` | plugins/ceph_latency_plugin.py:89 | splitting newline-free lines joined by `'\n'` gives back exactly those lines |
| `PyText.Lower` | plugins/ceph_monitor_plugin.py:76 | `lower()` keeps the length of the status |
| `PyText.LowerAt` | plugins/ceph_monitor_plugin.py:76-78 | `lower()` lower-cases character by character |
| `PyText.LowerEqualIff` | plugins/ceph_monitor_plugin.py:76-78 | two texts have the same `lower()` exactly when they are equal ignoring case, in both directions |
| `PyText.LowerConcat` | plugins/ceph_monitor_plugin.py:76-78 | `lower()` of a concatenation is the concatenation of the `lower()`s |
| `PyText.LowerIdempotent` | plugins/ceph_monitor_plugin.py:76-78 | lower-casing an already lower-cased status changes nothing |
| `CephLatency.BenchCommands` | plugins/ceph_latency_plugin.py:68-71 | one `rados bench` command per listed pool, in listing order, naming that pool and the cluster |
| `CephLatency.Collected` | plugins/ceph_latency_plugin.py:66-81 | `latency_data` gets at most one entry per benchmark run |
| `CephLatency.Failures` | plugins/ceph_latency_plugin.py:69-79 | the benchmark loop logs at most one entry per benchmark, and only benchmark failures |
| `CephLatency.InsertionOrder` | plugins/ceph_latency_plugin.py:81-87 | the pools the second loop visits are exactly the keys of `latency_data` |
| `CephLatency.PoolMetricsLines` | plugins/ceph_latency_plugin.py:89-95 | a pool entry has exactly the four keys, and `avg`, `stddev`, `max` and `min` are lines 0, 1, 2 and 3 of the output, as text |
| `CephLatency.Assemble` | plugins/ceph_latency_plugin.py:83-97 | the end of the cycle returns `None` exactly when `latency_data` is empty, raises only `IndexError`, and otherwise returns only the cluster key with exactly the pools of `latency_data` under it |
| `CephLatency.LatencyCycle` | plugins/ceph_latency_plugin.py:52-71 | a failed or `None` pool listing returns nothing after running only the listing command; otherwise every listed pool is benchmarked, in order |
| `CephLatency.CollectedPools` | plugins/ceph_latency_plugin.py:68-81 | `latency_data` holds a pool exactly when some benchmark of it succeeded; failed and `None` benchmarks are skipped |
| `CephLatency.ReportedIsCollected` | plugins/ceph_latency_plugin.py:81 | the output kept for a pool is that of its last successful benchmark |
| `CephLatency.CollectedIsReported` | plugins/ceph_latency_plugin.py:81 | whatever is kept for a pool came from its last successful benchmark |
| `CephLatency.UniquePoolsAreReportedWhenOk` | plugins/ceph_latency_plugin.py:68-81 | with unique pool names, a pool's output is kept exactly when its benchmark succeeded |
| `CephLatency.NothingWithoutSuccess` | plugins/ceph_latency_plugin.py:66-97 | the cycle returns nothing exactly when no benchmark succeeded (including an empty pool list), in both directions |
| `CephLatency.SuccessIsFiled` | plugins/ceph_latency_plugin.py:79-97 | a pool whose benchmark succeeded is filed under the cluster key, unless the cycle raises `IndexError` |
| `CephLatency.ReportedPools` | plugins/ceph_latency_plugin.py:81-91 | a result holds only the cluster key, and under it exactly the pools whose benchmark succeeded |
| `CephLatency.ReportedMetrics` | plugins/ceph_latency_plugin.py:87-95 | each reported pool has exactly the four metrics, metric k being line k of its last successful output |
| `CephLatency.ShortOutputRaises` | plugins/ceph_latency_plugin.py:89-95 | the cycle raises exactly when a kept output has fewer than three newlines, and then only `IndexError` |
| `CephLatency.FailuresAreLogged` | plugins/ceph_latency_plugin.py:69-79 | every failed or `None` benchmark is logged with its pool and how it failed, and nothing else is logged by the loop |
| `CephLatency.TwoPoolExample` | plugins/ceph_latency_plugin.py:87-97 | pools `rbd` and `cephfs_data` both giving `1.2\n0.3\n2.0\n0.5` report avg 1.2, stddev 0.3, max 2.0, min 0.5 each |
| `CephLatency.RunBenchmarks` | plugins/ceph_latency_plugin.py:66-81 | the benchmark loop leaves `latency_data`, its key order, the commands and the log as the specification functions give them |
| `CephLatency.BuildResult` | plugins/ceph_latency_plugin.py:83-97 | the second loop returns nothing for an empty `latency_data`, raises on a short output, and otherwise returns every pool's entry under the cluster key |
| `CephLatency.GetStats` | plugins/ceph_latency_plugin.py:45-97 | the whole cycle, run step by step, equals `LatencyCycle` |
| `CephMonitor.HealthFlag` | plugins/ceph_monitor_plugin.py:76-78 | a health flag is always 0 or 1 |
| `CephMonitor.MonStats` | plugins/ceph_monitor_plugin.py:50-78 | `number` and `quorum` are the lengths of `mons` and `quorum`; `health`, `warn` and `error` are the flags of the status against `health_ok`, `health_warn` and `health_err` |
| `CephMonitor.MonCycle` | plugins/ceph_monitor_plugin.py:45-80 | `status` runs only after `mon dump` did not raise; either raising gives nothing; a `None` `mon dump` is logged and then raises `TypeError`; a result needs both outputs |
| `CephMonitor.HealthFlagsExclusive` | plugins/ceph_monitor_plugin.py:76-78 | `health`, `warn`, `error` are 1 exactly when the status is HEALTH_OK, HEALTH_WARN, HEALTH_ERR ignoring case; at most one is 1; all are 0 for any other status |
| `CephMonitor.KnownStatesLowered` | plugins/ceph_monitor_plugin.py:76-78 | the compared strings are the lower-cased Ceph health states |
| `CephMonitor.HealthFlagsIgnoreCase` | plugins/ceph_monitor_plugin.py:76-78 | statuses equal ignoring case give the same flags |
| `CephMonitor.MonResultShape` | plugins/ceph_monitor_plugin.py:50-78 | a result has the template's shape: only the cluster key, only `mon`, exactly the five metrics |
| `CephMonitor.AssignKeepsShape` | plugins/ceph_monitor_plugin.py:68-78 | assigning one of the five metrics adds no key |
| `CephMonitor.WarnExample` | plugins/ceph_monitor_plugin.py:68-78 | mons a, b, c with quorum of two and HEALTH_WARN give number 3, quorum 2, health 0, warn 1, error 0 |
| `CephMds.MdsStats` | plugins/ceph_mds_plugin.py:50-65 | the result has only the cluster key, only `mds`, only `number`, and `number` is the entry count of `info` |
| `CephMds.MdsCycle` | plugins/ceph_mds_plugin.py:45-68 | the one command is `ceph mds dump --format json --cluster <cluster>`; its failure is logged and gives nothing; a `None` output is logged and then raises `TypeError`; a parsed output logs nothing |
| `CephMds.MdsResult` | plugins/ceph_mds_plugin.py:50-65 | a result is exactly `{"ceph-<cluster>": {"mds": {"number": n}}}` with n the entry count of `info`, 0 when it is empty |

## Left out

- Running the commands: `subprocess.check_output` with `shell=True`, the `timeout 30s` limit, the `grep | awk` pipeline and its ×1000 unit conversion. Their results are inputs; the command text is kept in `CephCommon.CommandLine`.
- `json.loads`: outputs arrive parsed. Malformed JSON, a listing that is not an array of strings, and a missing key (`mons`, `quorum`, `info`, `health.status`), which would raise `KeyError`, are not modelled.
- `collectd.error` is a `LogEntry` value. The exception text and `traceback.format_exc()` it prints are not kept.
- `base.Base` is not part of this model. That covers configuration, `read_callback`, the poll interval, flattening the result and dispatching values to collectd, and so what happens to an exception escaping `get_stats`.
- The module-level `try` around plugin construction, and `register_config`/`register_read`, are host registration.
- Dict order: results are Dafny maps, which have no order. Python 2 iterates `latency_data` in hash order, which is unspecified. `BuildResult` is proved for every visiting order that lists exactly the pools, and any short output raises the same `IndexError`, so the order is not observable. `GetStats` passes it the order of first insertion.
- Text is Python 2 `str`. Under Python 3, `check_output` returns bytes and `split('\n')` would raise `TypeError`.
- PyText.Lower: lower-cases ASCII letters only. Python's `unicode.lower()` also maps other characters (the Kelvin sign becomes `k`), so a non-ASCII status equal to `health_ok` after full Unicode lowering gets flag 0 here.
- Idempotence of a cycle holds by construction: every cycle is a function of the command results, and there is no state between cycles. No lemma states it.
