/** Values shared by the three collectd plugins for Ceph: what a shell command
    gave a plugin, what `get_stats` returns, and the key every result is filed
    under. */
module CephCommon {

  datatype Option<+T> = None | Some(value: T)

  /** A leaf of the result: a count or 0/1 flag, or the raw text of a
      benchmark line (the latency plugin never converts it to a number). */
  datatype Value = Num(n: int) | Text(s: string)

  /** `{cluster_key: {instance: {metric: value}}}`, the dict `get_stats` returns. */
  type Stats = map<string, map<string, map<string, Value>>>

  /** What one `subprocess.check_output` call gave the plugin, after `json.loads`
      where the plugin parses it: the call raised (non-zero exit, spawn
      failure), it returned `None`, or it returned this output. */
  datatype Cmd<+T> = Failed | NoOutput | Ok(out: T)

  /** The exceptions that can escape a `get_stats` call. */
  datatype PyError =
    | TypeError   // `json.loads(None)`
    | IndexError  // a benchmark output with fewer than four lines

  /** How a `get_stats` call ends: it returns `None` or a result, or it raises. */
  datatype Outcome = Returned(stats: Option<Stats>) | Threw(error: PyError)

  /** One `collectd.error` call; the exception text and traceback are not kept. */
  datatype LogEntry =
    | PoolListFailed
    | PoolListNone
    | BenchFailed(pool: string)
    | BenchNone(pool: string)
    | MonCommandFailed
    | MonDumpNone
    | MdsDumpFailed
    | MdsDumpNone

  /** A shell command a plugin runs; `CommandLine` gives its text. Every
      command names the plugin's cluster with `--cluster`. */
  datatype Command =
    | PoolList(cluster: string)
    | RadosBench(cluster: string, pool: string)
    | MonDump(cluster: string)
    | Status(cluster: string)
    | MdsDump(cluster: string)

  function CommandLine(cmd: Command): (line: string)
    ensures cmd.RadosBench? ==>
      && |line| > 18 + |ClusterOption(cmd.cluster)|
      && line[..18] == "timeout 30s rados "
      && line[18..18 + |ClusterOption(cmd.cluster)|] == ClusterOption(cmd.cluster)
    ensures !cmd.RadosBench? ==>
      && |line| >= |ClusterOption(cmd.cluster)|
      && line[|line| - |ClusterOption(cmd.cluster)|..] == ClusterOption(cmd.cluster)
  {
    match cmd
    case PoolList(c) => Suffixed("ceph osd pool ls -f json ", ClusterOption(c))
    case RadosBench(c, p) =>
      var rest := " -p " + p + " bench 10 write -t 1 -b 65536 2>/dev/null | grep -i latency | awk '{print 1000*$3}'";
      var line := "timeout 30s rados " + ClusterOption(c) + rest;
      assert line[..18] == "timeout 30s rados ";
      assert line[18..18 + |ClusterOption(c)|] == ClusterOption(c);
      line
    case MonDump(c) => Suffixed("ceph mon dump --format json ", ClusterOption(c))
    case Status(c) => Suffixed("ceph status --format json ", ClusterOption(c))
    case MdsDump(c) => Suffixed("ceph mds dump --format json ", ClusterOption(c))
  }

  /** `--cluster <cluster>`, the option every command carries. */
  function ClusterOption(cluster: string): string
  {
    "--cluster " + cluster
  }

  /** `head + tail`, which ends with `tail`. */
  function Suffixed(head: string, tail: string): (line: string)
    ensures |line| == |head| + |tail| && line[|head|..] == tail
  {
    head + tail
  }

  /** Everything one collection cycle does that can be observed: its outcome,
      the commands it ran, in order, and what it logged, in order. */
  datatype Cycle = Cycle(outcome: Outcome, commands: seq<Command>, log: seq<LogEntry>)

  const Prefix: string := "ceph"

  /** `"%s-%s" % (self.prefix, self.cluster)`: the outer key of every result. */
  function ClusterKey(cluster: string): (key: string)
    ensures |key| == |cluster| + 5
    ensures key[..5] == "ceph-" && key[5..] == cluster
  {
    Prefix + "-" + cluster
  }

  /** Two clusters never share a key, so their metrics cannot collide. */
  lemma ClusterKeyInjective(a: string, b: string)
    requires ClusterKey(a) == ClusterKey(b)
    ensures a == b
  {
    assert a == ClusterKey(a)[5..];
  }

  /** `data[key][inst][metric] = v` on a dict whose first two levels exist:
      only that leaf changes, and no key other than `metric` appears. */
  function Assign(data: Stats, key: string, inst: string, metric: string, v: Value): (r: Stats)
    requires key in data && inst in data[key]
    ensures r.Keys == data.Keys && r[key].Keys == data[key].Keys
    ensures r[key][inst].Keys == data[key][inst].Keys + {metric}
    ensures r[key][inst][metric] == v
    ensures forall k :: k in data && k != key ==> r[k] == data[k]
    ensures forall i :: i in data[key] && i != inst ==> r[key][i] == data[key][i]
    ensures forall m :: m in data[key][inst] && m != metric ==> r[key][inst][m] == data[key][inst][m]
  {
    data[key := data[key][inst := data[key][inst][metric := v]]]
  }
}
