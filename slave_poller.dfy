/** slave_poller.go: one poller per Mesos slave. Each tick it reads the slave's
    /monitor/statistics.json, names every sampled executor through the framework registry, sets
    five label-keyed series per named executor and retires the series of executors that are no
    longer reported. A failed fetch unregisters the five vectors and ends the poller. */
module SlavePolling {
  import opened MesosTypes
  import opened Registry

  datatype Statistics = Statistics(
    cpusLimit: Float64,
    cpusSystemTimeSecs: Float64,
    cpusUserTimeSecs: Float64,
    memLimitBytes: int64,
    memRssBytes: int64,
    timestamp: Float64)

  /** One entry of a slave's /monitor/statistics.json. */
  datatype MonitoredTask = MonitoredTask(executorId: string, frameworkId: string, statistics: Statistics)

  /** The names cached for an executor when it is first resolved. */
  datatype TaskMetric = TaskMetric(frameworkName: string, taskName: string)

  /** The label values of every per-task series: executor_id, framework, task. */
  type Labels = (string, string, string)

  function LabelsOf(executorId: string, metric: TaskMetric): Labels {
    (executorId, metric.frameworkName, metric.taskName)
  }

  /** The URL a slave's statistics are read from. */
  function StatsUrl(slave: Slave): (url: string)
    requires '@' in slave.pid
    ensures |url| == 7 + |Address(slave)| + 24
    ensures url[..7] == "http://" && url[|url| - 24..] == "/monitor/statistics.json"
    ensures url[7..|url| - 24] == Address(slave)
  {
    "http://" + Address(slave) + "/monitor/statistics.json"
  }

  /** A slave whose pid is `name@host` is polled at `http://host/monitor/statistics.json`. */
  lemma StatsUrlOf(name: string, host: string, resources: Resources)
    requires '@' !in name && '@' !in host
    ensures StatsUrl(Slave(name + "@" + host, resources)) == "http://" + host + "/monitor/statistics.json"
  {
    AddressOf(name, host, resources);
  }

  /** findTaskName, over the task list of the framework: the name of the first task whose id is
      the executor id, or "" when there is none. A task that matches but has an empty name gives
      the same "" as no match at all. */
  function FindTaskName(executorId: string, tasks: seq<Task>): (name: string)
    ensures (forall i :: 0 <= i < |tasks| ==> tasks[i].id != executorId) ==> name == ""
    ensures forall i ::
      (0 <= i < |tasks| && tasks[i].id == executorId && forall j :: 0 <= j < i ==> tasks[j].id != executorId)
      ==> name == tasks[i].name
  {
    if tasks == [] then ""
    else if tasks[0].id == executorId then tasks[0].name
    else FindTaskName(executorId, tasks[1..])
  }

  /** The five per-task vectors of a slave poller, each a map from label tuple to the value of
      its child: cpus_limit, cpus_system_time_seconds, cpus_user_time_seconds, mem_limit_bytes
      and mem_rss_bytes. */
  datatype TaskVectors = TaskVectors(
    cpusLimit: map<Labels, Reading>,
    cpusSystemTime: map<Labels, Reading>,
    cpusUserTime: map<Labels, Reading>,
    memLimit: map<Labels, Reading>,
    memRss: map<Labels, Reading>)
  {
    /** The five vectors have children for the same label tuples. */
    predicate Aligned() {
      && cpusSystemTime.Keys == cpusLimit.Keys
      && cpusUserTime.Keys == cpusLimit.Keys
      && memLimit.Keys == cpusLimit.Keys
      && memRss.Keys == cpusLimit.Keys
    }

    function Keys(): set<Labels> {
      cpusLimit.Keys
    }

    /** The children for `labels` hold the five values of `stats`. */
    predicate Holds(labels: Labels, stats: Statistics) {
      && labels in cpusLimit && cpusLimit[labels] == Float(stats.cpusLimit)
      && labels in cpusSystemTime && cpusSystemTime[labels] == Float(stats.cpusSystemTimeSecs)
      && labels in cpusUserTime && cpusUserTime[labels] == Float(stats.cpusUserTimeSecs)
      && labels in memLimit && memLimit[labels] == FromInt64(stats.memLimitBytes)
      && labels in memRss && memRss[labels] == FromInt64(stats.memRssBytes)
    }

    /** The children for `labels` are the same in this and in `other`. */
    predicate SameAt(other: TaskVectors, labels: Labels) {
      && (labels in cpusLimit <==> labels in other.cpusLimit)
      && (labels in cpusLimit ==> cpusLimit[labels] == other.cpusLimit[labels])
      && (labels in cpusSystemTime <==> labels in other.cpusSystemTime)
      && (labels in cpusSystemTime ==> cpusSystemTime[labels] == other.cpusSystemTime[labels])
      && (labels in cpusUserTime <==> labels in other.cpusUserTime)
      && (labels in cpusUserTime ==> cpusUserTime[labels] == other.cpusUserTime[labels])
      && (labels in memLimit <==> labels in other.memLimit)
      && (labels in memLimit ==> memLimit[labels] == other.memLimit[labels])
      && (labels in memRss <==> labels in other.memRss)
      && (labels in memRss ==> memRss[labels] == other.memRss[labels])
    }

    /** `WithLabelValues(labels...).Set(...)` on each of the five vectors (slave_poller.go:204-212). */
    function Publish(labels: Labels, stats: Statistics): (v: TaskVectors)
      ensures v.Holds(labels, stats)
      ensures forall l :: l != labels ==> v.SameAt(this, l)
      ensures Aligned() ==> v.Aligned() && v.Keys() == Keys() + {labels}
    {
      TaskVectors(
        cpusLimit[labels := Float(stats.cpusLimit)],
        cpusSystemTime[labels := Float(stats.cpusSystemTimeSecs)],
        cpusUserTime[labels := Float(stats.cpusUserTimeSecs)],
        memLimit[labels := FromInt64(stats.memLimitBytes)],
        memRss[labels := FromInt64(stats.memRssBytes)])
    }

    /** `DeleteLabelValues` of every tuple in `gone` on each of the five vectors. */
    function Delete(gone: set<Labels>): (v: TaskVectors)
      ensures forall l :: l in gone ==> l !in v.Keys()
      ensures forall l :: l !in gone ==> v.SameAt(this, l)
      ensures Aligned() ==> v.Aligned() && v.Keys() == Keys() - gone
    {
      TaskVectors(cpusLimit - gone, cpusSystemTime - gone, cpusUserTime - gone, memLimit - gone, memRss - gone)
    }
  }

  const NoVectors := TaskVectors(map[], map[], map[], map[], map[])

  /** The executor ids of a statistics list. */
  function Ids(items: seq<MonitoredTask>): (ids: set<string>)
    ensures forall i :: 0 <= i < |items| ==> items[i].executorId in ids
    ensures forall e :: e in ids ==> exists i :: 0 <= i < |items| && items[i].executorId == e
  {
    if items == [] then {} else Ids(items[..|items| - 1]) + {items[|items| - 1].executorId}
  }

  /** A sample of an executor not yet known can be named: its framework is registered and lists
      a task with a non-empty name for the executor. */
  predicate Resolves(registry: map<string, Framework>, item: MonitoredTask) {
    item.frameworkId in registry && FindTaskName(item.executorId, registry[item.frameworkId].tasks) != ""
  }

  /** The names cached for a sample that resolves. */
  function MetricFor(registry: map<string, Framework>, item: MonitoredTask): TaskMetric
    requires item.frameworkId in registry
  {
    TaskMetric(registry[item.frameworkId].name, FindTaskName(item.executorId, registry[item.frameworkId].tasks))
  }

  /** The poller's state part-way through one tick: knownTasks, the five vectors and the
      availableTasks set built so far. */
  datatype Pass = Pass(known: map<string, TaskMetric>, vectors: TaskVectors, available: set<string>)

  /** One sample of the loop at slave_poller.go:165-213. */
  function Step(p: Pass, registry: map<string, Framework>, item: MonitoredTask): Pass {
    var available := p.available + {item.executorId};
    if item.executorId in p.known then
      Pass(p.known, p.vectors.Publish(LabelsOf(item.executorId, p.known[item.executorId]), item.statistics), available)
    else if Resolves(registry, item) then
      var metric := MetricFor(registry, item);
      Pass(p.known[item.executorId := metric], p.vectors.Publish(LabelsOf(item.executorId, metric), item.statistics), available)
    else
      Pass(p.known, p.vectors, available)
  }

  /** The loop over all samples, in order. */
  function Scrape(p: Pass, registry: map<string, Framework>, items: seq<MonitoredTask>): Pass {
    if items == [] then p
    else Step(Scrape(p, registry, items[..|items| - 1]), registry, items[|items| - 1])
  }

  /** The label tuples the removal loop deletes: those of known executors not reported. */
  function Retired(known: map<string, TaskMetric>, available: set<string>): set<Labels> {
    set e | e in known && e !in available :: LabelsOf(e, known[e])
  }

  /** The entries of `known` for the executors in `available`. */
  function Keep(known: map<string, TaskMetric>, available: set<string>): map<string, TaskMetric> {
    map e | e in known && e in available :: known[e]
  }

  /** Visiting one more executor in the removal loop retires its labels exactly when it was not
      reported. */
  lemma RetireOne(known: map<string, TaskMetric>, visited: set<string>, available: set<string>, e: string)
    requires e in known && e !in visited
    ensures Retired(Keep(known, visited + {e}), available) ==
      Retired(Keep(known, visited), available) + (if e in available then {} else {LabelsOf(e, known[e])})
  {
    var k0, k1 := Keep(known, visited), Keep(known, visited + {e});
    assert k1 == k0[e := known[e]];
  }

  /** Visiting one more executor in the removal loop drops its entry exactly when it was not
      reported. */
  lemma KeepOne(known: map<string, TaskMetric>, remaining: set<string>, available: set<string>, e: string)
    requires e in remaining
    ensures e !in available ==>
      Keep(known, remaining + available) - {e} == Keep(known, (remaining - {e}) + available)
    ensures e in available ==>
      Keep(known, remaining + available) == Keep(known, (remaining - {e}) + available)
  {
    if e in available {
      assert (remaining - {e}) + available == remaining + available;
    }
  }

  /** Once every executor is visited, the removal loop's Keep and Retired are the final ones. */
  lemma KeepDone(known: map<string, TaskMetric>, available: set<string>)
    ensures Keep(known, {} + available) == Keep(known, available)
    ensures Keep(known, known.Keys - {}) == known
  {
    assert {} + available == available;
    assert known.Keys - {} == known.Keys;
  }

  /** The removal loop's invariant, with `remaining` the executors it has not visited yet: the
      visited ones that were not reported are gone from `known` and their labels from `vectors`. */
  ghost predicate Removing(known0: map<string, TaskMetric>, vectors0: TaskVectors, available: set<string>,
                           remaining: set<string>, known: map<string, TaskMetric>, vectors: TaskVectors)
  {
    && remaining <= known0.Keys
    && known == Keep(known0, remaining + available)
    && vectors == vectors0.Delete(Retired(Keep(known0, known0.Keys - remaining), available))
  }

  /** One iteration of the removal loop, on knownTasks. */
  lemma KeptStep(known0: map<string, TaskMetric>, available: set<string>, remaining: set<string>,
                 known: map<string, TaskMetric>, e: string)
    requires remaining <= known0.Keys && known == Keep(known0, remaining + available) && e in remaining
    ensures e in known && known[e] == known0[e]
    ensures e in available ==> known == Keep(known0, (remaining - {e}) + available)
    ensures e !in available ==> known - {e} == Keep(known0, (remaining - {e}) + available)
  {
    KeepOne(known0, remaining, available, e);
  }

  /** One iteration of the removal loop, on the vectors. */
  lemma RetiredStep(known0: map<string, TaskMetric>, vectors0: TaskVectors, available: set<string>,
                    remaining: set<string>, vectors: TaskVectors, e: string)
    requires remaining <= known0.Keys && e in remaining
    requires vectors == vectors0.Delete(Retired(Keep(known0, known0.Keys - remaining), available))
    ensures var after := Retired(Keep(known0, known0.Keys - (remaining - {e})), available);
      && (e in available ==> vectors == vectors0.Delete(after))
      && (e !in available ==> vectors.Delete({LabelsOf(e, known0[e])}) == vectors0.Delete(after))
  {
    var visited := known0.Keys - remaining;
    assert known0.Keys - (remaining - {e}) == visited + {e};
    RetireOne(known0, visited, available, e);
    if e !in available {
      DeleteTwice(vectors0, Retired(Keep(known0, visited), available), {LabelsOf(e, known0[e])});
    }
  }

  /** One iteration of the removal loop keeps its invariant. */
  lemma RemovingStep(known0: map<string, TaskMetric>, vectors0: TaskVectors, available: set<string>,
                     remaining: set<string>, known: map<string, TaskMetric>, vectors: TaskVectors, e: string)
    requires Removing(known0, vectors0, available, remaining, known, vectors) && e in remaining
    ensures e in known
    ensures e in available ==> Removing(known0, vectors0, available, remaining - {e}, known, vectors)
    ensures e !in available ==> Removing(known0, vectors0, available, remaining - {e},
                                         known - {e}, vectors.Delete({LabelsOf(e, known[e])}))
  {
    KeptStep(known0, available, remaining, known, e);
    RetiredStep(known0, vectors0, available, remaining, vectors, e);
  }

  /** Deleting two sets of labels one after the other deletes their union. */
  lemma DeleteTwice(v: TaskVectors, a: set<Labels>, b: set<Labels>)
    ensures v.Delete(a).Delete(b) == v.Delete(a + b)
  {
  }

  /** One successful tick: the scrape loop, then the removal of executors not reported. */
  function Cycle(known: map<string, TaskMetric>, vectors: TaskVectors, registry: map<string, Framework>,
                 items: seq<MonitoredTask>): Pass
  {
    var p := Scrape(Pass(known, vectors, {}), registry, items);
    Pass(Keep(p.known, p.available), p.vectors.Delete(Retired(p.known, p.available)), p.available)
  }

  /** The series of the poller are exactly one set of five per known executor, under the names
      cached for it. */
  predicate Consistent(known: map<string, TaskMetric>, vectors: TaskVectors) {
    vectors.Aligned() && vectors.Keys() == set e | e in known :: LabelsOf(e, known[e])
  }

  /** Item `i` resolves the executor `e` first: no earlier sample of `e` resolves. */
  predicate FirstResolving(registry: map<string, Framework>, items: seq<MonitoredTask>, e: string, i: int) {
    && 0 <= i < |items| && items[i].executorId == e && Resolves(registry, items[i])
    && forall j :: 0 <= j < i && items[j].executorId == e ==> !Resolves(registry, items[j])
  }

  /** Item `i` is the last sample of its executor in the list. */
  predicate LastOf(items: seq<MonitoredTask>, i: int) {
    0 <= i < |items| && forall j :: i < j < |items| ==> items[j].executorId != items[i].executorId
  }

  /** The label tuples of the known executors among `ids`. */
  function Published(known: map<string, TaskMetric>, ids: set<string>): set<Labels> {
    set e | e in known && e in ids :: LabelsOf(e, known[e])
  }

  /** Every reported executor id is marked available, whether or not its sample resolves. */
  lemma {:induction false} ScrapeAvailable(p: Pass, registry: map<string, Framework>, items: seq<MonitoredTask>)
    ensures Scrape(p, registry, items).available == p.available + Ids(items)
  {
    if items != [] {
      ScrapeAvailable(p, registry, items[..|items| - 1]);
    }
  }

  /** What one sample does to knownTasks. */
  lemma StepKnown(p: Pass, registry: map<string, Framework>, x: MonitoredTask)
    ensures Step(p, registry, x).known ==
      if x.executorId !in p.known && Resolves(registry, x) then p.known[x.executorId := MetricFor(registry, x)]
      else p.known
  {
  }

  /** Known executors keep their cached names: the registry is not consulted for them again. */
  lemma {:induction false} ScrapeKeepsKnown(p: Pass, registry: map<string, Framework>, items: seq<MonitoredTask>)
    ensures forall e :: e in p.known ==>
      e in Scrape(p, registry, items).known && Scrape(p, registry, items).known[e] == p.known[e]
  {
    if items != [] {
      var init := items[..|items| - 1];
      ScrapeKeepsKnown(p, registry, init);
      StepKnown(Scrape(p, registry, init), registry, items[|items| - 1]);
    }
  }

  /** The names the first resolving sample of `e` in `items` gives, if one of them resolves. */
  function FirstMetric(registry: map<string, Framework>, items: seq<MonitoredTask>, e: string): (m: Option<TaskMetric>)
    ensures m.None? <==> forall i :: 0 <= i < |items| && items[i].executorId == e ==> !Resolves(registry, items[i])
    ensures m.Some? ==> exists i :: FirstResolving(registry, items, e, i) && m.value == MetricFor(registry, items[i])
  {
    if items == [] then None
    else
      var init, x := items[..|items| - 1], items[|items| - 1];
      var m0 := FirstMetric(registry, init, e);
      assert forall i :: 0 <= i < |init| ==> init[i] == items[i];
      if m0.Some? then m0
      else if x.executorId == e && Resolves(registry, x) then Some(MetricFor(registry, x))
      else None
  }

  /** An executor not known before is known afterwards exactly when one of its samples
      resolves, and then it holds the names from the first sample that does. */
  lemma {:induction false} ScrapeAddsResolved(p: Pass, registry: map<string, Framework>, items: seq<MonitoredTask>)
    ensures forall e :: e !in p.known ==>
      && (e in Scrape(p, registry, items).known <==> FirstMetric(registry, items, e).Some?)
      && (e in Scrape(p, registry, items).known ==> Scrape(p, registry, items).known[e] == FirstMetric(registry, items, e).value)
  {
    if items != [] {
      var init := items[..|items| - 1];
      ScrapeAddsResolved(p, registry, init);
      ScrapeKeepsKnown(p, registry, init);
      StepKnown(Scrape(p, registry, init), registry, items[|items| - 1]);
    }
  }

  /** What one sample does to the series: it sets the five children for its executor when the
      executor is known once the sample has been looked at, and nothing otherwise. */
  lemma StepVectors(p: Pass, registry: map<string, Framework>, x: MonitoredTask)
    ensures var r := Step(p, registry, x);
      r.vectors == if x.executorId in r.known
                   then p.vectors.Publish(LabelsOf(x.executorId, r.known[x.executorId]), x.statistics)
                   else p.vectors
  {
  }

  /** One sample keeps the five vectors aligned and adds only its executor's label tuple. */
  lemma StepKeys(p: Pass, registry: map<string, Framework>, x: MonitoredTask)
    requires p.vectors.Aligned()
    ensures var r := Step(p, registry, x);
      && r.vectors.Aligned()
      && r.vectors.Keys() == p.vectors.Keys() +
           (if x.executorId in r.known then {LabelsOf(x.executorId, r.known[x.executorId])} else {})
  {
    StepVectors(p, registry, x);
  }

  /** One sample adds its executor's label tuple to the published set when it ends up known. */
  lemma StepPublished(p: Pass, registry: map<string, Framework>, init: seq<MonitoredTask>, x: MonitoredTask)
    requires p.known.Keys <= Step(p, registry, x).known.Keys
    ensures var r := Step(p, registry, x);
      Published(r.known, Ids(init + [x])) ==
        Published(p.known, Ids(init)) + (if x.executorId in r.known then {LabelsOf(x.executorId, r.known[x.executorId])} else {})
  {
    var r := Step(p, registry, x);
    StepKnown(p, registry, x);
    assert (init + [x])[..|init|] == init;
    assert Ids(init + [x]) == Ids(init) + {x.executorId};
  }

  /** The scrape loop keeps the five vectors aligned and adds exactly the label tuples of the
      reported executors that are known afterwards. */
  lemma {:induction false} ScrapeKeys(p: Pass, registry: map<string, Framework>, items: seq<MonitoredTask>)
    requires p.vectors.Aligned()
    ensures var r := Scrape(p, registry, items);
      && r.vectors.Aligned()
      && r.vectors.Keys() == p.vectors.Keys() + Published(r.known, Ids(items))
  {
    if items != [] {
      var init, x := items[..|items| - 1], items[|items| - 1];
      ScrapeKeys(p, registry, init);
      var r1 := Scrape(p, registry, init);
      assert items == init + [x];
      assert Scrape(p, registry, items) == Step(r1, registry, x);
      StepKnown(r1, registry, x);
      StepPublished(r1, registry, init, x);
      StepKeys(r1, registry, x);
    }
  }

  /** The scrape loop leaves a label tuple outside those it publishes as it was. */
  lemma {:induction false} ScrapeSameAt(p: Pass, registry: map<string, Framework>, items: seq<MonitoredTask>, l: Labels)
    requires l !in Published(Scrape(p, registry, items).known, Ids(items))
    ensures Scrape(p, registry, items).vectors.SameAt(p.vectors, l)
  {
    if items != [] {
      var init, x := items[..|items| - 1], items[|items| - 1];
      var r1 := Scrape(p, registry, init);
      assert items == init + [x];
      assert Scrape(p, registry, items) == Step(r1, registry, x);
      StepKnown(r1, registry, x);
      StepPublished(r1, registry, init, x);
      StepVectors(r1, registry, x);
      ScrapeSameAt(p, registry, init, l);
    }
  }

  /** The scrape loop leaves every label tuple outside those it publishes as it was. */
  lemma ScrapeSameElsewhere(p: Pass, registry: map<string, Framework>, items: seq<MonitoredTask>)
    ensures var r := Scrape(p, registry, items);
      forall l :: l !in Published(r.known, Ids(items)) ==> r.vectors.SameAt(p.vectors, l)
  {
    forall l | l !in Published(Scrape(p, registry, items).known, Ids(items))
      ensures Scrape(p, registry, items).vectors.SameAt(p.vectors, l)
    {
      ScrapeSameAt(p, registry, items, l);
    }
  }

  /** The scrape loop sets series only under the cached names of reported executors that are
      known afterwards, sets all of those, and leaves every other label tuple as it was. */
  lemma ScrapeVectors(p: Pass, registry: map<string, Framework>, items: seq<MonitoredTask>)
    requires p.vectors.Aligned()
    ensures var r := Scrape(p, registry, items);
      && r.vectors.Aligned()
      && r.vectors.Keys() == p.vectors.Keys() + Published(r.known, Ids(items))
      && forall l :: l !in Published(r.known, Ids(items)) ==> r.vectors.SameAt(p.vectors, l)
  {
    ScrapeKeys(p, registry, items);
    ScrapeSameElsewhere(p, registry, items);
  }

  /** After the scrape loop, the five series of every known executor hold the values of its last
      sample in the list. */
  lemma {:induction false} ScrapeLastSample(p: Pass, registry: map<string, Framework>, items: seq<MonitoredTask>)
    ensures var r := Scrape(p, registry, items);
      forall i :: LastOf(items, i) && items[i].executorId in r.known ==>
        r.vectors.Holds(LabelsOf(items[i].executorId, r.known[items[i].executorId]), items[i].statistics)
  {
    if items != [] {
      var init, x := items[..|items| - 1], items[|items| - 1];
      ScrapeLastSample(p, registry, init);
      var r1 := Scrape(p, registry, init);
      var r := Scrape(p, registry, items);
      assert r == Step(r1, registry, x);
      StepKnown(r1, registry, x);
      StepVectors(r1, registry, x);
      forall i | LastOf(items, i) && items[i].executorId in r.known
        ensures r.vectors.Holds(LabelsOf(items[i].executorId, r.known[items[i].executorId]), items[i].statistics)
      {
        if i < |init| {
          var e := items[i].executorId;
          assert items[i] == init[i];
          assert e != x.executorId;
          assert LastOf(init, i) by {
            forall j | i < j < |init| ensures init[j].executorId != e {
              assert init[j] == items[j];
            }
          }
          assert r1.vectors.Holds(LabelsOf(e, r1.known[e]), items[i].statistics);
          assert r.vectors.SameAt(r1.vectors, LabelsOf(e, r1.known[e]));
        }
      }
    }
  }

  /** After a successful tick, knownTasks holds the reported executors that were known before or
      have a sample that resolves; known entries keep their names and new ones take the names of
      their first resolving sample. Every reported id is marked available. */
  lemma CycleKnown(known: map<string, TaskMetric>, vectors: TaskVectors, registry: map<string, Framework>,
                   items: seq<MonitoredTask>)
    ensures var c := Cycle(known, vectors, registry, items);
      && c.available == Ids(items)
      && (forall e :: e in c.known <==> e in Ids(items) && (e in known || FirstMetric(registry, items, e).Some?))
      && (forall e :: e in c.known && e in known ==> c.known[e] == known[e])
      && (forall e :: e in c.known && e !in known ==> c.known[e] == FirstMetric(registry, items, e).value)
  {
    var p0 := Pass(known, vectors, {});
    ScrapeAvailable(p0, registry, items);
    ScrapeKeepsKnown(p0, registry, items);
    ScrapeAddsResolved(p0, registry, items);
  }

  /** The removal loop restores the invariant that the scrape loop left out of step: executors
      not reported lose their entry and their series together. */
  lemma PruneConsistent(known: map<string, TaskMetric>, vectors: TaskVectors, p: Pass)
    requires Consistent(known, vectors)
    requires p.vectors.Aligned()
    requires forall e :: e in known ==> e in p.known && p.known[e] == known[e]
    requires p.vectors.Keys() == vectors.Keys() + Published(p.known, p.available)
    ensures Consistent(Keep(p.known, p.available), p.vectors.Delete(Retired(p.known, p.available)))
  {
    var known' := Keep(p.known, p.available);
    var retired := Retired(p.known, p.available);
    var v := p.vectors.Delete(retired);
    assert v.Keys() == p.vectors.Keys() - retired;
    forall l | l in v.Keys()
      ensures l in set e | e in known' :: LabelsOf(e, known'[e])
    {
      if l in vectors.Keys() {
        var e :| e in known && l == LabelsOf(e, known[e]);
        assert l == LabelsOf(e, p.known[e]);
        assert e in known';
      } else {
        var e :| e in p.known && e in p.available && l == LabelsOf(e, p.known[e]);
        assert e in known';
      }
    }
    forall e | e in known'
      ensures LabelsOf(e, known'[e]) in v.Keys()
    {
      assert LabelsOf(e, p.known[e]) in Published(p.known, p.available);
    }
  }

  /** A successful tick keeps the series in step with knownTasks: the series of executors that
      were not reported are deleted, and every tracked executor's five series hold the values of
      its last sample. */
  lemma CycleSeries(known: map<string, TaskMetric>, vectors: TaskVectors, registry: map<string, Framework>,
                    items: seq<MonitoredTask>)
    requires Consistent(known, vectors)
    ensures var c := Cycle(known, vectors, registry, items);
      && Consistent(c.known, c.vectors)
      && (forall e :: e in known && e !in Ids(items) ==> LabelsOf(e, known[e]) !in c.vectors.Keys())
      && (forall i :: LastOf(items, i) && items[i].executorId in c.known ==>
            c.vectors.Holds(LabelsOf(items[i].executorId, c.known[items[i].executorId]), items[i].statistics))
  {
    var p0 := Pass(known, vectors, {});
    var p := Scrape(p0, registry, items);
    var c := Cycle(known, vectors, registry, items);
    ScrapeAvailable(p0, registry, items);
    ScrapeKeepsKnown(p0, registry, items);
    ScrapeVectors(p0, registry, items);
    ScrapeLastSample(p0, registry, items);
    assert p.available == Ids(items);
    PruneConsistent(known, vectors, p);
    var retired := Retired(p.known, p.available);
    assert c.vectors == p.vectors.Delete(retired);
    forall e | e in known && e !in Ids(items)
      ensures LabelsOf(e, known[e]) !in c.vectors.Keys()
    {
      assert LabelsOf(e, p.known[e]) in retired;
    }
    forall i | LastOf(items, i) && items[i].executorId in c.known
      ensures c.vectors.Holds(LabelsOf(items[i].executorId, c.known[items[i].executorId]), items[i].statistics)
    {
      var e := items[i].executorId;
      assert e in p.available;
      assert LabelsOf(e, p.known[e]) !in retired;
    }
  }

  /** The pid map `slavePoller`'s fifth parameter points to: the slaves whose poller stopped after
      a failed fetch. The source never creates one; the model starts it empty. */
  class ErroredSlaves {
    var pids: set<string>

    constructor ()
      ensures pids == {}
    {
      pids := {};
    }
  }

  /** The state of one slavePoller goroutine. */
  class SlavePoller {
    const slave: Slave
    const statsUrl: string
    const frameworkRegistry: FrameworkRegistry
    const erroredSlaves: ErroredSlaves
    var knownTasks: map<string, TaskMetric>
    var vectors: TaskVectors
    /** The five vectors are registered with the metrics backend. */
    var registered: bool
    /** The goroutine has returned. */
    var stopped: bool

    ghost predicate Valid()
      reads this
    {
      registered == !stopped && (!stopped ==> Consistent(knownTasks, vectors))
    }

    /** The set-up before the loop: the statistics URL and five fresh, registered vectors. The
        HTTP client and the configuration (only the poll interval) are not modelled. */
    constructor (frameworkRegistry: FrameworkRegistry, slave: Slave, erroredSlaves: ErroredSlaves)
      requires '@' in slave.pid
      ensures Valid()
      ensures this.slave == slave && this.frameworkRegistry == frameworkRegistry && this.erroredSlaves == erroredSlaves
      ensures statsUrl == StatsUrl(slave)
      ensures knownTasks == map[] && vectors == NoVectors && registered && !stopped
    {
      this.slave := slave;
      this.frameworkRegistry := frameworkRegistry;
      this.erroredSlaves := erroredSlaves;
      statsUrl := StatsUrl(slave);
      knownTasks := map[];
      vectors := NoVectors;
      registered := true;
      stopped := false;
    }

    /** One tick of the loop. `stats` is what reading `statsUrl` gave: None when the request or
        the decoding failed. A failure unregisters the five vectors, records the slave in
        erroredSlaves and stops the poller; otherwise the tick is `Cycle`. */
    method Tick(stats: Option<seq<MonitoredTask>>)
      requires Valid() && !stopped
      modifies this, erroredSlaves
      ensures Valid()
      ensures stats.None? ==>
        && stopped && !registered
        && knownTasks == old(knownTasks) && vectors == old(vectors)
        && erroredSlaves.pids == old(erroredSlaves.pids) + {slave.pid}
      ensures stats.Some? ==>
        && !stopped && registered
        && erroredSlaves.pids == old(erroredSlaves.pids)
        && Pass(knownTasks, vectors, Ids(stats.value))
           == Cycle(old(knownTasks), old(vectors), frameworkRegistry.registry, stats.value)
    {
      if stats.None? {
        registered := false;
        erroredSlaves.pids := erroredSlaves.pids + {slave.pid};
        stopped := true;
        return;
      }
      var availableTasks := ScrapeTasks(stats.value);
      RemoveFinished(availableTasks);
      CycleSeries(old(knownTasks), old(vectors), frameworkRegistry.registry, stats.value);
      ScrapeAvailable(Pass(old(knownTasks), old(vectors), {}), frameworkRegistry.registry, stats.value);
    }

    /** The loop over the samples (slave_poller.go:165-213): names each executor, from the cache
        or through the registry, and sets its five series. */
    method ScrapeTasks(monitoredTasks: seq<MonitoredTask>) returns (availableTasks: set<string>)
      modifies this`knownTasks, this`vectors
      ensures Pass(knownTasks, vectors, availableTasks)
              == Scrape(Pass(old(knownTasks), old(vectors), {}), frameworkRegistry.registry, monitoredTasks)
    {
      ghost var p0 := Pass(knownTasks, vectors, {});
      availableTasks := {};
      for i := 0 to |monitoredTasks|
        invariant Pass(knownTasks, vectors, availableTasks) == Scrape(p0, frameworkRegistry.registry, monitoredTasks[..i])
      {
        var item := monitoredTasks[i];
        assert monitoredTasks[..i + 1][..i] == monitoredTasks[..i];
        availableTasks := availableTasks + {item.executorId};
        var frameworkName, taskName;
        if item.executorId in knownTasks {
          var metric := knownTasks[item.executorId];
          frameworkName, taskName := metric.frameworkName, metric.taskName;
        } else {
          var framework, err := frameworkRegistry.Get(item.frameworkId);
          if err.Some? {
            continue;
          }
          frameworkName := framework.name;
          taskName := FindTaskName(item.executorId, framework.tasks);
          if taskName == "" {
            continue;
          }
          knownTasks := knownTasks[item.executorId := TaskMetric(frameworkName, taskName)];
        }
        vectors := vectors.Publish((item.executorId, frameworkName, taskName), item.statistics);
      }
      assert monitoredTasks[..|monitoredTasks|] == monitoredTasks;
    }

    /** The removal loop (slave_poller.go:216-229): every known executor that was not reported
        loses its five series and its entry. Go's map iteration order is left open. */
    method RemoveFinished(availableTasks: set<string>)
      modifies this`knownTasks, this`vectors
      ensures knownTasks == Keep(old(knownTasks), availableTasks)
      ensures vectors == old(vectors).Delete(Retired(old(knownTasks), availableTasks))
    {
      ghost var known0, vectors0 := knownTasks, vectors;
      var remaining := knownTasks.Keys;
      KeepDone(known0, {});
      while remaining != {}
        invariant Removing(known0, vectors0, availableTasks, remaining, knownTasks, vectors)
        decreases remaining
      {
        var executorId :| executorId in remaining;
        RemovingStep(known0, vectors0, availableTasks, remaining, knownTasks, vectors, executorId);
        if executorId !in availableTasks {
          vectors := vectors.Delete({LabelsOf(executorId, knownTasks[executorId])});
          knownTasks := knownTasks - {executorId};
        }
        remaining := remaining - {executorId};
      }
      KeepDone(known0, availableTasks);
    }
  }
}
