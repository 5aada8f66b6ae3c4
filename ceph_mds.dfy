/** `CephMdsPlugin.get_stats`: the number of metadata servers the cluster
    reports. */
module CephMds {
  import opened CephCommon

  /** One entry of the `info` object of `ceph mds dump`; the plugin only counts them. */
  datatype MdsInfo = MdsInfo(name: string, state: string)

  /** The parsed `ceph mds dump` output, reduced to its `info` object
      (keyed by daemon id). */
  datatype MdsMap = MdsMap(info: map<string, MdsInfo>)

  const Instance: string := "mds"

  /** `data` before the command runs. */
  function Template(cluster: string): Stats
  {
    map[ClusterKey(cluster) := map[Instance := map["number" := Num(0)]]]
  }

  /** `data` after `number` is set to `len(json_data['info'])`. */
  function MdsStats(cluster: string, m: MdsMap): (s: Stats)
    ensures s.Keys == {ClusterKey(cluster)} && s[ClusterKey(cluster)].Keys == {Instance}
    ensures s[ClusterKey(cluster)][Instance].Keys == {"number"}
    ensures s[ClusterKey(cluster)][Instance]["number"] == Num(|m.info|)
  {
    Assign(Template(cluster), ClusterKey(cluster), Instance, "number", Num(|m.info|))
  }

  /** One collection cycle: the one command runs every time; if it raises the
      cycle returns nothing, a `None` output is logged and then
      `json.loads(None)` raises, otherwise the count is returned. */
  function MdsCycle(cluster: string, dump: Cmd<MdsMap>): (c: Cycle)
    ensures c.commands == [MdsDump(cluster)]
    ensures CommandLine(c.commands[0]) == "ceph mds dump --format json --cluster " + cluster
    ensures dump.Failed? <==> c.outcome == Returned(None)
    ensures dump.NoOutput? <==> c.outcome.Threw?
    ensures dump.Failed? ==> c.log == [MdsDumpFailed]
    ensures dump.NoOutput? ==> c.outcome == Threw(TypeError) && c.log == [MdsDumpNone]
    ensures dump.Ok? ==> c.log == []
  {
    match dump
    case Failed => Cycle(Returned(None), [MdsDump(cluster)], [MdsDumpFailed])
    case NoOutput => Cycle(Threw(TypeError), [MdsDump(cluster)], [MdsDumpNone])
    case Ok(m) => Cycle(Returned(Some(MdsStats(cluster, m))), [MdsDump(cluster)], [])
  }

  /** On success the result is exactly `{"ceph-<cluster>": {"mds": {"number": n}}}`
      with n the number of entries of `info` (0 when it is empty). */
  lemma MdsResult(cluster: string, m: MdsMap)
    ensures MdsCycle(cluster, Ok(m)).outcome == Returned(Some(map[ClusterKey(cluster) := map["mds" := map["number" := Num(|m.info|)]]]))
    ensures m.info == map[] ==> MdsStats(cluster, m) == Template(cluster)
  {
    var key := ClusterKey(cluster);
    var s: Stats := MdsStats(cluster, m);
    var inner := map["number" := Num(|m.info|)];
    assert s[key][Instance].Keys == inner.Keys;
    assert s[key][Instance] == inner;
    assert s[key].Keys == {Instance};
    assert s[key] == map[Instance := inner];
    assert s.Keys == {key};
    assert s == map[key := map[Instance := inner]];
    assert MdsCycle(cluster, Ok(m)).outcome == Returned(Some(s));
  }
}
