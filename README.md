# mesos-task-exporter, modelled in Dafny

The exporter reads the state of a Mesos cluster and publishes it as Prometheus metrics. This
project models its bookkeeping core and proves properties of it. The core has three parts.

- **Leader discovery** (`masterPoller.retrieveCurrentMasterState`). The poller remembers the
  master it last found as leader. It asks that master first. If that master no longer names
  itself leader, it scans the configured masters in order and caches the first one that does.
  If none does, it reports an error and keeps its cache.
- **The master poll** (`masterPoller.poll` and `handleFrameworks`). On each tick:
  - it copies the six task totals into the `mesos_tasks` counters;
  - it sets the `used` gauges of every reported framework;
  - it files frameworks with unseen ids in the framework registry;
  - it deletes the gauges of registered frameworks that were not reported;
  - it keeps `knownSlaves` equal to the reported slave pids, sets their resource gauges,
    deletes those of slaves that went away, and starts one slave poller per new pid.
- **The slave poller** (one iteration of the `slavePoller` loop) and the framework registry.
  The poller names each reported executor from its cache, or else through the registry and
  `findTaskName`. It sets five per-task series for each named executor. It then forgets
  executors that were not reported, together with their series. When the statistics cannot be
  read, it unregisters its vectors, records its slave in `erroredSlaves` and stops.

Layout:

- `mesos_types.dfy` (`MesosTypes`): the decoded records, `Slave.address`, and the leader-host
  test.
- `framework_registry.dfy` (`Registry`): the registry as a class over a map.
- `slave_poller.dfy` (`SlavePolling`): `findTaskName`, the per-task vectors, the functions
  `Scrape` and `Cycle` that specify one tick, and the class `SlavePoller`.
- `master_poller.dfy` (`MasterPolling`): the search functions `Scan` and `Discover`, the
  framework and slave reconciliation functions, and the class `MasterPoller`.

Each imperative part of the source is a method with loops. Its `ensures` ties the new state
to a recursive function of the old state. Lemmas then prove what the source promises about
those functions.

All HTTP goes through parameters:
- A master's `/master/state.json` is read through `fetch: string -> Option<Master>`. The
  function is keyed by the full request URL, and None stands for any HTTP or decoding error.
  Every search returns the list of URLs it requested.
- The statistics a slave returns are the `Option<seq<MonitoredTask>>` argument of `Tick`.

Each Prometheus vector is a map from its label tuple to the value its child was set to.

Some behaviours of the code that the model keeps as written:

- **Registry entries are never refreshed.** A framework is filed only when its id has no entry
  yet. A registered framework is never removed.
- **A stale entry can delete a running framework's gauges.** The second loop of
  `handleFrameworks` deletes gauges by framework *name*. A registered framework that has ended
  therefore deletes all three gauges of a running framework that reuses its name. This holds
  whatever else is registered or reported, so it happens on every poll, in the same call that
  set them (`ReusedNameLosesGauges`).
- **`All` hands out the registry's own map.** `handleFrameworks` reads it before its first
  loop and iterates it after. So the second loop sees the entries the first loop filed. Those
  entries are all reported frameworks, so this does not change what is deleted
  (`StaleBeforeRegister`).
- **A matching task with an empty name counts as no match.** `findTaskName` returns "" in both
  cases. Such an executor is skipped on every tick.
- **Only absolute values are published.** No CPU rate is derived from them.
- **`slavePoller` has five parameters but is called with four.** It is declared with five
  parameters (`erroredSlaves` last), while `poll` calls it with four. The model keeps both.
  The `SlavePoller` constructor takes the shared `ErroredSlaves`. `Poll` only records the
  slave it starts a poller for, in the field `spawned`.

## Model

| member | source | states |
|---|---|---|
| MesosTypes.HostPart | master_poller.go:47-50 | the second piece of splitting at '@': the text after the first '@', up to the next '@' or the end; it holds no '@' |
| MesosTypes.HostPartOf | master_poller.go:47-50 | for `name@host` where neither part holds an '@', the second piece is exactly `host` |
| MesosTypes.AddressOf | master_poller.go:47-50 | a slave whose pid is `name@host` has address `host` |
| MesosTypes.Address | master_poller.go:47-50 | `Slave.address`: the text of the pid after its first '@', up to the next '@' or the end, with no '@' in it |
| MesosTypes.LeaderHost | master_poller.go:134-135 | a leader field yields a host exactly when it holds an '@' (otherwise indexing the split panics) |
| MesosTypes.LeaderHostOf | master_poller_test.go:16 | a leader written as `name@host` names `host` |
| Registry.UnknownFramework | framework_registry.go:29 | the error text of Get: `Unknown framwork '`, the id, then `'` |
| Registry.FrameworkRegistry.constructor | framework_registry.go:40-45 | a new registry is empty |
| Registry.FrameworkRegistry.All | framework_registry.go:14-19 | returns the whole current mapping and changes nothing |
| Registry.FrameworkRegistry.Get | framework_registry.go:21-31 | a present id gives its entry and no error; an absent id gives the zero framework and the "Unknown framwork '<id>'" error; nothing changes |
| Registry.FrameworkRegistry.Set | framework_registry.go:33-38 | the entry for the framework's id becomes the framework; every other id keeps its entry; entries stay filed under their own id |
| SlavePolling.StatsUrl | slave_poller.go:110 | the statistics URL is `http://`, the slave's address, then `/monitor/statistics.json` (the address can be read back from it) |
| SlavePolling.StatsUrlOf | slave_poller.go:110 | a slave with pid `name@host` is polled at `http://host/monitor/statistics.json` |
| SlavePolling.FindTaskName | slave_poller.go:40-48 | the name of the first task whose id is the executor id, or "" when no task has that id |
| SlavePolling.TaskVectors.Publish | slave_poller.go:204-212 | the five children for the labels hold the sample's cpus limit, system time, user time, memory limit and RSS; every other label is unchanged; the vectors stay aligned |
| SlavePolling.TaskVectors.Delete | slave_poller.go:221-225 | the deleted labels are gone from all five vectors; every other label is unchanged |
| SlavePolling.Step | slave_poller.go:165-213 | definition of one sample of the scrape loop: marks the id available; a known executor publishes under its cached names; an unknown one whose framework is registered and whose task name is non-empty is cached and published; any other is skipped (its properties: `StepKnown`, `StepVectors`, and the Scrape lemmas below) |
| SlavePolling.Scrape | slave_poller.go:165-213 | definition of the scrape loop as `Step` over the samples in order (its properties: `ScrapeAvailable` to `ScrapeLastSample`) |
| SlavePolling.Cycle | slave_poller.go:165-229 | definition of one successful tick: `Scrape`, then the removal of the known executors not reported, with their series (its properties: `CycleKnown`, `CycleSeries`) |
| SlavePolling.ScrapeAvailable | slave_poller.go:169 | every reported executor id is marked available, whether or not its sample is named |
| SlavePolling.ScrapeKeepsKnown | slave_poller.go:177-180 | an executor already known keeps its cached framework and task names |
| SlavePolling.FirstMetric | slave_poller.go:181-202 | None exactly when no sample of the executor resolves; otherwise the names of the first sample that does |
| SlavePolling.ScrapeAddsResolved | slave_poller.go:181-202 | an executor not known before becomes known exactly when one of its samples has a registered framework and a non-empty task name, and takes the names of the first such sample |
| SlavePolling.ScrapeVectors | slave_poller.go:165-213 | the scrape adds series exactly for the reported executors known afterwards, under their cached names, keeps the vectors aligned and leaves every other label as it was |
| SlavePolling.ScrapeLastSample | slave_poller.go:204-212 | afterwards the five series of each known executor hold the values of its last sample in the list |
| SlavePolling.CycleKnown | slave_poller.go:165-229 | after a tick the known executors are the reported ones that were known or resolved; old entries keep their names and new ones take those of their first resolving sample |
| SlavePolling.PruneConsistent | slave_poller.go:216-229 | the removal loop restores one set of five series per known executor, under its cached names |
| SlavePolling.CycleSeries | slave_poller.go:165-229 | a tick keeps series and known executors in step, deletes the series of unreported executors, and leaves each one's last sample published |
| SlavePolling.ErroredSlaves.constructor | slave_poller.go:104 | the class stands for the pid map that `slavePoller`'s fifth parameter points to, which `Tick` writes on failure as slave_poller.go:161 does; the source never creates such a map (its one call passes four arguments), so starting it empty is the model's own choice |
| SlavePolling.SlavePoller.constructor | slave_poller.go:104-144 | the poller starts with no known task, empty registered vectors and the URL from the slave's address |
| SlavePolling.SlavePoller.Tick | slave_poller.go:146-230 | a failed fetch unregisters the vectors, adds the slave's pid to erroredSlaves and stops, leaving the known tasks and series alone; a successful one is exactly `Cycle`, and the series stay consistent with the known tasks |
| SlavePolling.SlavePoller.ScrapeTasks | slave_poller.go:165-213 | the loop over the samples computes `Scrape` |
| SlavePolling.SlavePoller.RemoveFinished | slave_poller.go:216-229 | the known tasks become those reported, and the labels of every other known executor are deleted from all five vectors |
| MasterPolling.StateUrl | master_poller.go:224 | the URL requested for a master is its URL text followed by `/master/state.json` |
| MasterPolling.Scan | master_poller.go:125-142 | definition of the loop over the configured masters: skips unreachable masters and those naming another leader, stops at the first that names itself (cached) or whose leader field has no '@' (panic), and yields the error when none is left; every request is logged (its properties: `ScanStopsAtFirstDecisive`, `ScanFound`) |
| MasterPolling.FallBack | master_poller.go:123-125 | definition of the step from the cached master to the scan: the requests made so far come first, and the cache is kept unless the scan found a leader |
| MasterPolling.Discover | master_poller.go:109-143 | definition of retrieveCurrentMasterState: the cached master alone when it still names itself or its leader field panics, otherwise `FallBack` over the scan (its properties: `FoundIsCachedLeader`, `NotFoundKeepsCache`, `QueriesBounded`, `CachedLeaderShortCut`) |
| MasterPolling.Ask | master_poller.go:128-139 | a master confirms itself exactly when its state is read and its leader field names its own host; it is unreachable exactly when the read fails |
| MasterPolling.ScanStopsAtFirstDecisive | master_poller.go:125-142 | the scan requests the masters in order up to the first one that is neither unreachable nor naming another leader, and stops there; that master is cached and its state returned when it names itself; the result is an error and nothing is cached when none is decisive |
| MasterPolling.ScanFound | master_poller.go:134-139 | the scan caches a master exactly when it finds one, and that master confirms the state returned |
| MasterPolling.FoundIsCachedLeader | master_poller.go:109-143 | a found state is that of the master cached afterwards, which names itself leader |
| MasterPolling.NotFoundKeepsCache | master_poller.go:142 | a search that finds no leader leaves the cached master as it was |
| MasterPolling.QueriesBounded | master_poller.go:109-143 | a search requests at most one URL per configured master plus one for the cached master, and the cached master's comes first |
| MasterPolling.CachedLeaderShortCut | master_poller.go:110-119 | a cached master that still confirms itself is the only one requested, its state is returned and the cache is unchanged |
| MasterPolling.SingleMasterFound | master_poller_test.go:12-37 | with one master naming itself, the search finds its state and caches it |
| MasterPolling.LeaderChange | master_poller_test.go:39-91 | with masters A and B, where A first leads and then names B, two searches cache A and then B, requesting A three times and B once |
| MasterPolling.TaskCounters | master_poller.go:154-159 | the six status counters hold the master's six totals, and every other counter is unchanged |
| MasterPolling.SetUsed | master_poller.go:201-203 | the three `used` gauges of the framework's name hold its used cpus, disk and mem; every other gauge is unchanged |
| MasterPolling.RegisterNew | master_poller.go:207-210 | definition of the registry after the first framework loop: each reported framework whose id has no entry yet is set, in order (its properties: `RegisterNewKeys`, `RegisterNewKeeps`, `RegisterNewFirst`, `RegisterNewFiled`) |
| MasterPolling.PublishUsed | master_poller.go:200-203 | definition of the framework gauges after the first loop: `SetUsed` for each reported framework, in order (its property: `PublishUsedAt`) |
| MasterPolling.FrameworkGauges | master_poller.go:195-221 | definition of the framework gauges after handleFrameworks: those of the first loop minus the `used` gauges of the names of registered frameworks whose id was not reported (its properties: `FrameworkGaugesAt`, `FrameworkGaugesShaped`, `ReusedNameLosesGauges`) |
| MasterPolling.RegisterNewKeys | master_poller.go:207-210 | the registry's ids afterwards are the old ones plus the reported ones, so it never shrinks |
| MasterPolling.RegisterNewKeeps | master_poller.go:207-210 | an entry already present is never overwritten |
| MasterPolling.RegisterNewFirst | master_poller.go:207-210 | a new id is filed with the first framework reported under it |
| MasterPolling.RegisterNewFiled | master_poller.go:207-210 | entries stay filed under their own id |
| MasterPolling.StaleBeforeRegister | master_poller.go:196-219 | reading the live registry after the first loop deletes the same names as reading it before |
| MasterPolling.PublishUsedAt | master_poller.go:200-203 | after the first loop, a reported name's `used` gauges hold the value of the last framework with that name; every other gauge is unchanged |
| MasterPolling.FrameworkGaugesAt | master_poller.go:195-221 | after handleFrameworks, the `used` gauges of a name carried by an unreported registered framework are gone; otherwise a reported name's gauges hold its last value, and every other gauge is unchanged |
| MasterPolling.FrameworkGaugesShaped | master_poller.go:195-221 | the framework vector keeps holding only `used` gauges of cpus, disk and mem |
| MasterPolling.ReusedNameLosesGauges | master_poller.go:213-219 | for any registry filed by id and any report: a reported framework that shares its name with a registered framework whose id was not reported has none of its three `used` gauges after handleFrameworks |
| MasterPolling.SlaveStep | master_poller.go:164-177 | definition of one slave of the first slave loop: marks its pid available and known, sets its three gauges, and logs a started poller when the pid was not known |
| MasterPolling.SetSlave | master_poller.go:167-169 | definition of the gauge-setting part of `SlaveStep`: the slave's cpus, disk and mem gauges are set from its advertised resources (its property: `ScanSlavesGauges`) |
| MasterPolling.ScanSlaves | master_poller.go:164-177 | definition of the first slave loop as `SlaveStep` over the reported slaves in order (its properties: `ScanSlavesSets`, `ScanSlavesLog`, `ScanSlavesSpawns`, `ScanSlavesGauges`) |
| MasterPolling.Reconcile | master_poller.go:164-192 | definition of the slave part of poll: `ScanSlaves`, then forgetting every known pid not reported, with its three gauges (its properties: `ReconcileKnown`, `ReconcileGauges`, `ReconcileConsistent`) |
| MasterPolling.ScanSlavesSets | master_poller.go:164-177 | the first loop marks every reported pid available and known |
| MasterPolling.ScanSlavesLog | master_poller.go:171-176 | the list of started pollers only grows, each time by a reported slave whose pid was not known |
| MasterPolling.ScanSlavesSpawns | master_poller.go:171-176 | one poller is started for each reported pid that was not known, and no pid gets two |
| MasterPolling.ScanSlavesGauges | master_poller.go:167-169 | a reported pid's gauges hold the resources of the last slave reported under it; every other gauge is unchanged |
| MasterPolling.ReconcileKnown | master_poller.go:164-192 | after poll, the known slaves are exactly the reported pids |
| MasterPolling.ReconcileGauges | master_poller.go:164-192 | after poll, a reported slave's gauges hold its last values, an unreported known slave has none, and other gauges are unchanged |
| MasterPolling.ReconcileConsistent | master_poller.go:164-192 | poll keeps gauges for exactly the known slaves, and keeps a poller for every known slave |
| MasterPolling.MasterPoller.constructor | master_poller.go:68-100 | the poller starts with no cached master, empty vectors and no known slave |
| MasterPolling.MasterPoller.RetrieveCurrentMasterState | master_poller.go:109-143 | the result, the cache afterwards and the URLs requested are those of `Discover` |
| MasterPolling.MasterPoller.PublishSlaves | master_poller.go:164-177 | the first slave loop computes `ScanSlaves` |
| MasterPolling.MasterPoller.RemoveOffline | master_poller.go:180-192 | the known slaves become those reported, and the gauges of every other known slave are deleted |
| MasterPolling.MasterPoller.PublishFrameworks | master_poller.go:200-211 | the first framework loop sets the gauges, files only unseen ids and collects the reported ids |
| MasterPolling.MasterPoller.UnpublishStale | master_poller.go:213-220 | the second framework loop deletes the `used` gauges of every registered framework whose id was not reported |
| MasterPolling.MasterPoller.HandleFrameworks | master_poller.go:195-221 | the registry and the framework vector become `RegisterNew` and `FrameworkGauges` of the old ones |
| MasterPolling.MasterPoller.Poll | master_poller.go:145-193 | a failed search changes nothing but the search; a found leader sets the six counters, handles the frameworks and reconciles the slaves; the poller's invariant is kept |

## Left out

- HTTP GET and JSON decoding (`retrieveMasterState`, `retrieveStats`) are foreign I/O. They are
  replaced by the `fetch` parameter and by the argument of `Tick`.
- Building and registering the Prometheus vectors (`NewGaugeVec`, `NewCounterVec`,
  `MustRegister`) belongs to a foreign library. Each vector is a map. `Unregister` of the five
  per-task vectors is the flag `registered`. Counters are set, never added to, so they are maps
  like the gauges.
- Goroutines, `time.Tick` loops and the registry's mutex are concurrency and timing, so they
  are not modelled. One tick is one call, and calls happen one at a time.
  - `go slavePoller(...)` is recorded by appending the slave to `spawned`. Constructing and
    running that poller is not part of `Poll`.
  - The poller started for a pid that later went away is never stopped. This holds in the
    model only by omission.
- Float64 values are only copied, never computed with. They are kept as their 64-bit pattern.
  `float64(int64)` for the memory values is kept symbolic as `FromInt64`.
- Logging calls are left out.
- `config.go`, `exporter.go` and `main.go` (flags, URL parsing, server wiring, signals) are not
  part of this model. A configured master is a pair of its URL text and its host.
- The HTTP client and the configuration passed to `slavePoller` are dropped. The client is
  used only for the request at slave_poller.go:151, which the `stats` argument of `Tick`
  replaces. `conf.MesosSlaveQueryInterval`, read once at slave_poller.go:144, is the only
  configuration the poller reads; it only paces the ticks.
- `knownSlaves`, owned by `run` and passed to every `poll`, is a field of `MasterPoller`.
- Go's map iteration order is left open. The deletion loops pick an arbitrary remaining key,
  so what is proved holds for every order.
- MesosTypes.Address: requires the pid to hold an '@'. The source panics when it does not.
- MesosTypes.HostPart: models `strings.Split(s, "@")[1]` directly, as the second piece. The
  other pieces of the split are not modelled.
- MasterPolling.Discover: one `fetch` answers every request of a search, so every request of
  a URL in the same search gets the same reply. After the cached master fails (its error is
  logged at master_poller.go:120-122), the scan requests it again at line 128. That second
  request may succeed in the source and then caches the master again. In the model it fails
  too. A cached leader that fails only transiently is therefore not modelled.
- MasterPolling.Discover: models the panic of `leaderParts[1]` on a leader field without '@'
  as the outcome `Panicked`. After it, nothing else happens.
