/** The records the exporter decodes from the Mesos master (master_poller.go) and the values its
    metric vectors hold. */
module MesosTypes {

  datatype Option<+T> = None | Some(value: T)

  newtype int64 = x: int | -0x8000_0000_0000_0000 <= x < 0x8000_0000_0000_0000

  /** A float64 decoded from JSON. The exporter only copies such numbers into metrics and never
      computes with them, so the model keeps nothing but the 64-bit pattern. */
  datatype Float64 = Float64(bits: bv64)

  const Zero := Float64(0)

  /** The value a child of a gauge or counter vector is set to: a copied float64, or the
      float64 conversion of an int64 (kept symbolic, since no arithmetic is done on it). */
  datatype Reading = Float(value: Float64) | FromInt64(n: int64)

  datatype Resources = Resources(cpus: Float64, disk: Float64, mem: Float64, ports: string)

  datatype Task = Task(id: string, name: string)

  datatype Framework = Framework(
    active: bool,
    id: string,
    name: string,
    tasks: seq<Task>,
    usedResources: Resources)

  /** Go's zero value `Framework{}`. */
  const EmptyFramework := Framework(false, "", "", [], Resources(Zero, Zero, Zero, ""))

  /** A slave as the master reports it; `pid` has the form `name@host:port`. */
  datatype Slave = Slave(pid: string, resources: Resources)

  /** The state one Mesos master reports at /master/state.json. */
  datatype Master = Master(
    failedTasks: Float64,
    finishedTasks: Float64,
    frameworks: seq<Framework>,
    leader: string,
    lostTasks: Float64,
    killedTasks: Float64,
    stagedTasks: Float64,
    startedTasks: Float64,
    slaves: seq<Slave>)

  /** The index of the first occurrence of `c` in `s`: where `strings.Split` cuts, as `HostPart`
      needs it. */
  function IndexOf(s: string, c: char): (i: nat)
    requires c in s
    ensures i < |s| && s[i] == c && c !in s[..i]
  {
    if s[0] == c then 0 else 1 + IndexOf(s[1..], c)
  }

  /** `strings.Split(s, "@")[1]`: the second piece of the split, that is the text after the first
      '@' of `s` up to the next '@' or the end. Indexing the split result panics in Go when `s`
      has no '@'. */
  function HostPart(s: string): (host: string)
    requires '@' in s
    ensures '@' !in host
    ensures var rest := s[IndexOf(s, '@') + 1..];
      && |host| <= |rest|
      && host == rest[..|host|]
      && (|host| == |rest| || rest[|host|] == '@')
  {
    var rest := s[IndexOf(s, '@') + 1..];
    if '@' in rest then rest[..IndexOf(rest, '@')] else rest
  }

  /** Slave.address: the `host:port` part of the pid, where the slave's HTTP API listens. */
  function Address(slave: Slave): (address: string)
    requires '@' in slave.pid
    ensures '@' !in address
    ensures var rest := slave.pid[IndexOf(slave.pid, '@') + 1..];
      && |address| <= |rest|
      && address == rest[..|address|]
      && (|address| == |rest| || rest[|address|] == '@')
  {
    HostPart(slave.pid)
  }

  /** The host a master names as leader in its `leader` field, or None where the field has no
      '@' (the place where the source's `leaderParts[1]` panics). */
  function LeaderHost(leader: string): (host: Option<string>)
    ensures host.Some? <==> '@' in leader
  {
    if '@' in leader then Some(HostPart(leader)) else None
  }

  /** The second piece of `name@host` is `host` when neither part has an '@'. */
  lemma HostPartOf(name: string, host: string)
    requires '@' !in name && '@' !in host
    ensures HostPart(name + "@" + host) == host
  {
    var s := name + "@" + host;
    assert s[|name|] == '@';
    assert s[..|name|] == name;
    assert IndexOf(s, '@') == |name|;
    assert s[|name| + 1..] == host;
    var h := HostPart(s);
    assert |h| == |host|;
    assert h == host[..|host|] == host;
  }

  /** A slave whose pid is `name@host` is addressed at `host`. */
  lemma AddressOf(name: string, host: string, resources: Resources)
    requires '@' !in name && '@' !in host
    ensures Address(Slave(name + "@" + host, resources)) == host
  {
    HostPartOf(name, host);
  }

  /** A leader string built as `name@host` names `host`, whatever the name before the '@'. */
  lemma LeaderHostOf(name: string, host: string)
    requires '@' !in name && '@' !in host
    ensures LeaderHost(name + "@" + host) == Some(host)
  {
    HostPartOf(name, host);
  }
}
