/** master_poller.go: finding the elected Mesos master and, on every tick, copying its task
    totals, framework resources and slave resources into Prometheus vectors, registering new
    frameworks and starting one slave poller per slave that appears.

    An HTTP GET of a master's /master/state.json followed by JSON decoding is a parameter
    `fetch`: the decoded state for a request URL, or None where any step fails. */
module MasterPolling {
  import opened MesosTypes
  import opened Registry

  /** A configured master URL: its text (`url.String()`) and its `host:port` (`url.Host`). */
  datatype MasterUrl = MasterUrl(text: string, host: string)

  /** The URL retrieveMasterState requests for a master. */
  function StateUrl(u: MasterUrl): (url: string)
    ensures |url| == |u.text| + 18
    ensures url[..|u.text|] == u.text && url[|u.text|..] == "/master/state.json"
  {
    u.text + "/master/state.json"
  }

  type Fetch = string -> Option<Master>

  /** What asking one master yields: nothing (an HTTP or decoding error), its state with a leader
      that is this very master, its state with another leader, or a leader field without '@'
      (where `leaderParts[1]` panics). */
  datatype Reply = Unreachable | Confirmed(master: Master) | Elsewhere | Garbled(leader: string)

  function Ask(u: MasterUrl, fetch: Fetch): (reply: Reply)
    ensures reply.Confirmed? <==>
      fetch(StateUrl(u)).Some? && LeaderHost(fetch(StateUrl(u)).value.leader) == Some(u.host)
    ensures reply.Confirmed? ==> reply.master == fetch(StateUrl(u)).value
    ensures reply.Unreachable? <==> fetch(StateUrl(u)).None?
  {
    match fetch(StateUrl(u))
    case None => Unreachable
    case Some(m) =>
      match LeaderHost(m.leader)
      case None => Garbled(m.leader)
      case Some(h) => if h == u.host then Confirmed(m) else Elsewhere
  }

  /** A reply after which the search goes on to the next master. */
  predicate Skips(reply: Reply) {
    reply.Unreachable? || reply.Elsewhere?
  }

  /** The outcome of retrieveCurrentMasterState: the leader's state, the error of line 142, or
      the panic of line 117 or 135 (which ends the process). */
  datatype Discovery = Found(master: Master) | NotFound | Panicked(leader: string)

  /** A search: its outcome, the master cached afterwards and the URLs requested, in order. */
  datatype Attempt = Attempt(result: Discovery, leader: Option<MasterUrl>, queried: seq<string>)

  /** The loop over the configured masters (master_poller.go:125-142). `leader` is the master to
      cache, None where the cache is left alone. */
  function Scan(masters: seq<MasterUrl>, fetch: Fetch): Attempt {
    if masters == [] then Attempt(NotFound, None, [])
    else
      var u := masters[0];
      match Ask(u, fetch)
      case Confirmed(m) => Attempt(Found(m), Some(u), [StateUrl(u)])
      case Garbled(l) => Attempt(Panicked(l), None, [StateUrl(u)])
      case _ =>
        var rest := Scan(masters[1..], fetch);
        Attempt(rest.result, rest.leader, [StateUrl(u)] + rest.queried)
  }

  /** The scan after the requests `before`, with the cache `cached` kept unless the scan
      found a leader. */
  function FallBack(cached: Option<MasterUrl>, before: seq<string>, s: Attempt): Attempt {
    Attempt(s.result, if s.leader.Some? then s.leader else cached, before + s.queried)
  }

  /** retrieveCurrentMasterState (master_poller.go:109-143): the cached master first, and the
      whole configured list when there is none or it is no longer the leader. */
  function Discover(cached: Option<MasterUrl>, masters: seq<MasterUrl>, fetch: Fetch): Attempt {
    match cached
    case None => FallBack(cached, [], Scan(masters, fetch))
    case Some(u) =>
      match Ask(u, fetch)
      case Confirmed(m) => Attempt(Found(m), cached, [StateUrl(u)])
      case Garbled(l) => Attempt(Panicked(l), cached, [StateUrl(u)])
      case _ => FallBack(cached, [StateUrl(u)], Scan(masters, fetch))
  }

  /** The state URLs of a list of masters. */
  function StateUrls(masters: seq<MasterUrl>): (urls: seq<string>)
    ensures |urls| == |masters|
    ensures forall i :: 0 <= i < |masters| ==> urls[i] == StateUrl(masters[i])
  {
    if masters == [] then [] else StateUrls(masters[..|masters| - 1]) + [StateUrl(masters[|masters| - 1])]
  }

  /** The position of the first master whose reply ends the search, or the length of the list
      when every master is skipped. */
  function FirstDecisive(masters: seq<MasterUrl>, fetch: Fetch): (k: nat)
    ensures k <= |masters|
    ensures forall j :: 0 <= j < k ==> Skips(Ask(masters[j], fetch))
    ensures k < |masters| ==> !Skips(Ask(masters[k], fetch))
  {
    if masters == [] then 0
    else if !Skips(Ask(masters[0], fetch)) then 0
    else 1 + FirstDecisive(masters[1..], fetch)
  }

  /** Scan unfolded once at a master that is skipped. */
  lemma ScanSkips(masters: seq<MasterUrl>, fetch: Fetch)
    requires masters != [] && Skips(Ask(masters[0], fetch))
    ensures var rest := Scan(masters[1..], fetch);
      Scan(masters, fetch) == Attempt(rest.result, rest.leader, [StateUrl(masters[0])] + rest.queried)
  {
  }

  /** Scan unfolded once at a master that ends the search. */
  lemma ScanStops(masters: seq<MasterUrl>, fetch: Fetch)
    requires masters != [] && !Skips(Ask(masters[0], fetch))
    ensures var reply := Ask(masters[0], fetch);
      Scan(masters, fetch) ==
        if reply.Confirmed? then Attempt(Found(reply.master), Some(masters[0]), [StateUrl(masters[0])])
        else Attempt(Panicked(reply.leader), None, [StateUrl(masters[0])])
  {
  }

  /** The scan from position `i` on, after the requests `before`, when `masters[i]` is skipped:
      the scan from `i + 1` on after one more request. */
  lemma ScanAtSkips(masters: seq<MasterUrl>, i: nat, fetch: Fetch, cached: Option<MasterUrl>, before: seq<string>)
    requires i < |masters| && Skips(Ask(masters[i], fetch))
    ensures FallBack(cached, before, Scan(masters[i..], fetch)) ==
      FallBack(cached, before + [StateUrl(masters[i])], Scan(masters[i + 1..], fetch))
  {
    var tail := masters[i..];
    assert tail[0] == masters[i];
    assert tail[1..] == masters[i + 1..];
    ScanSkips(tail, fetch);
    var rest := Scan(masters[i + 1..], fetch);
    assert before + ([StateUrl(masters[i])] + rest.queried) == before + [StateUrl(masters[i])] + rest.queried;
  }

  /** The scan from position `i` on when `masters[i]` ends the search. */
  lemma ScanAtStops(masters: seq<MasterUrl>, i: nat, fetch: Fetch)
    requires i < |masters| && !Skips(Ask(masters[i], fetch))
    ensures var u, reply := masters[i], Ask(masters[i], fetch);
      Scan(masters[i..], fetch) ==
        if reply.Confirmed? then Attempt(Found(reply.master), Some(u), [StateUrl(u)])
        else Attempt(Panicked(reply.leader), None, [StateUrl(u)])
  {
    var tail := masters[i..];
    assert tail[0] == masters[i];
    ScanStops(tail, fetch);
  }

  /** The state URLs of a non-empty prefix are those of its head followed by those of the rest. */
  lemma StateUrlsPrefix(masters: seq<MasterUrl>, n: nat)
    requires 1 <= n <= |masters|
    ensures StateUrls(masters[..n]) == [StateUrl(masters[0])] + StateUrls(masters[1..][..n - 1])
  {
    var l, r := StateUrls(masters[..n]), [StateUrl(masters[0])] + StateUrls(masters[1..][..n - 1]);
    assert |l| == |r|;
    forall i | 0 <= i < |l| ensures l[i] == r[i] {
      if i > 0 {
        assert masters[1..][..n - 1][i - 1] == masters[i];
      }
    }
  }

  /** The scan requests every master up to and including the first decisive one, in list order,
      and then stops: with the state of that master and that master to cache when it confirms
      itself, with a panic when its leader field cannot be split, and with the error and the
      cache left alone when every master is skipped. */
  lemma {:induction false} ScanStopsAtFirstDecisive(masters: seq<MasterUrl>, fetch: Fetch)
    ensures var k, a := FirstDecisive(masters, fetch), Scan(masters, fetch);
      && a.queried == StateUrls(masters[..if k < |masters| then k + 1 else k])
      && (k == |masters| ==> a.result == NotFound && a.leader == None)
      && (k < |masters| && Ask(masters[k], fetch).Confirmed? ==>
            a.result == Found(Ask(masters[k], fetch).master) && a.leader == Some(masters[k]))
      && (k < |masters| && Ask(masters[k], fetch).Garbled? ==>
            a.result == Panicked(Ask(masters[k], fetch).leader) && a.leader == None)
    decreases |masters|
  {
    if masters == [] {
    } else if Skips(Ask(masters[0], fetch)) {
      ScanSkips(masters, fetch);
      ScanStopsAtFirstDecisive(masters[1..], fetch);
      var k := FirstDecisive(masters, fetch);
      var n := if k < |masters| then k + 1 else k;
      StateUrlsPrefix(masters, n);
      assert masters[1..][..n - 1] == masters[1..][..if k - 1 < |masters[1..]| then k - 1 + 1 else k - 1];
      if k < |masters| {
        assert masters[1..][k - 1] == masters[k];
      }
    } else {
      ScanStops(masters, fetch);
      StateUrlsPrefix(masters, 1);
    }
  }

  /** Without a cached master, the search is the scan. */
  lemma DiscoverUncached(masters: seq<MasterUrl>, fetch: Fetch)
    ensures Discover(None, masters, fetch) == Scan(masters, fetch)
  {
  }

  /** A cached master that is skipped is requested once, then the whole list is scanned. */
  lemma DiscoverFallsBack(u: MasterUrl, masters: seq<MasterUrl>, fetch: Fetch)
    requires Skips(Ask(u, fetch))
    ensures Discover(Some(u), masters, fetch) == FallBack(Some(u), [StateUrl(u)], Scan(masters, fetch))
  {
  }

  /** The scan caches a master exactly when it finds one, and the master it caches is the one
      whose state it returns, which named itself leader. */
  lemma ScanFound(masters: seq<MasterUrl>, fetch: Fetch)
    ensures var a := Scan(masters, fetch);
      && (a.result.Found? <==> a.leader.Some?)
      && (a.result.Found? ==> Ask(a.leader.value, fetch) == Confirmed(a.result.master))
  {
    ScanStopsAtFirstDecisive(masters, fetch);
  }

  /** The state a search returns is that of the master cached afterwards, which named itself as
      the elected leader. */
  lemma FoundIsCachedLeader(cached: Option<MasterUrl>, masters: seq<MasterUrl>, fetch: Fetch)
    ensures var a := Discover(cached, masters, fetch);
      a.result.Found? ==> a.leader.Some? && Ask(a.leader.value, fetch) == Confirmed(a.result.master)
  {
    ScanFound(masters, fetch);
    if cached.None? {
      DiscoverUncached(masters, fetch);
    } else if Skips(Ask(cached.value, fetch)) {
      DiscoverFallsBack(cached.value, masters, fetch);
    }
  }

  /** A search that finds no leader leaves the cached master as it was. */
  lemma NotFoundKeepsCache(cached: Option<MasterUrl>, masters: seq<MasterUrl>, fetch: Fetch)
    ensures var a := Discover(cached, masters, fetch);
      !a.result.Found? ==> a.leader == cached
  {
    ScanFound(masters, fetch);
    if cached.None? {
      DiscoverUncached(masters, fetch);
    } else if Skips(Ask(cached.value, fetch)) {
      DiscoverFallsBack(cached.value, masters, fetch);
    }
  }

  /** The scan requests each master at most once. */
  lemma ScanQueriesBounded(masters: seq<MasterUrl>, fetch: Fetch)
    ensures |Scan(masters, fetch).queried| <= |masters|
  {
    ScanStopsAtFirstDecisive(masters, fetch);
  }

  /** A search requests the cached master at most once and each configured master at most once,
      the cached one first. */
  lemma QueriesBounded(cached: Option<MasterUrl>, masters: seq<MasterUrl>, fetch: Fetch)
    ensures var a := Discover(cached, masters, fetch);
      && |a.queried| <= |masters| + (if cached.Some? then 1 else 0)
      && (cached.Some? ==> |a.queried| >= 1 && a.queried[0] == StateUrl(cached.value))
  {
    ScanQueriesBounded(masters, fetch);
    if cached.None? {
      DiscoverUncached(masters, fetch);
    } else if Skips(Ask(cached.value, fetch)) {
      DiscoverFallsBack(cached.value, masters, fetch);
    }
  }

  /** A cached master that still confirms itself is the only one requested. */
  lemma {:induction false} CachedLeaderShortCut(u: MasterUrl, masters: seq<MasterUrl>, fetch: Fetch)
    requires Ask(u, fetch).Confirmed?
    ensures Discover(Some(u), masters, fetch) == Attempt(Found(Ask(u, fetch).master), Some(u), [StateUrl(u)])
  {
  }

  /** The zero-valued state with only a leader, as the test servers of master_poller_test.go
      encode it. */
  function Leading(leader: string): (m: Master)
    ensures m.leader == leader
  {
    Master(Zero, Zero, [], leader, Zero, Zero, Zero, Zero, [])
  }

  /** TestRetrieveCurrentMasterState: a single master naming itself is found and cached. */
  lemma SingleMasterFound(a: MasterUrl, name: string)
    requires '@' !in name && '@' !in a.host
    ensures var fetch := (url: string) => Some(Leading(name + "@" + a.host));
      Discover(None, [a], fetch) == Attempt(Found(Leading(name + "@" + a.host)), Some(a), [StateUrl(a)])
  {
    LeaderHostOf(name, a.host);
  }

  /** The replies of TestChangingMesosMasterLeader's servers on the first search: A names
      itself, B names itself. */
  function FirstReplies(a: MasterUrl, b: MasterUrl): Fetch {
    (url: string) =>
      if url == StateUrl(a) then Some(Leading("master1@" + a.host)) else Some(Leading("master2@" + b.host))
  }

  /** The replies on the second search: every master names B. */
  function SecondReplies(b: MasterUrl): Fetch {
    (url: string) => Some(Leading("master2@" + b.host))
  }

  /** The first search finds A after one request and caches it. */
  lemma FirstSearch(a: MasterUrl, b: MasterUrl)
    requires '@' !in a.host
    ensures Discover(None, [a, b], FirstReplies(a, b)) ==
      Attempt(Found(Leading("master1@" + a.host)), Some(a), [StateUrl(a)])
  {
    LeaderHostOf("master1", a.host);
    assert Ask(a, FirstReplies(a, b)) == Confirmed(Leading("master1@" + a.host));
    DiscoverUncached([a, b], FirstReplies(a, b));
    ScanStops([a, b], FirstReplies(a, b));
  }

  /** Every master answers the second search naming B. */
  lemma SecondReply(u: MasterUrl, b: MasterUrl)
    requires '@' !in b.host
    ensures Ask(u, SecondReplies(b)) == if u.host == b.host then Confirmed(Leading("master2@" + b.host)) else Elsewhere
  {
    LeaderHostOf("master2", b.host);
  }

  /** On the second search, the scan skips A and finds B. */
  lemma SecondScan(a: MasterUrl, b: MasterUrl)
    requires '@' !in b.host && a.host != b.host
    ensures Scan([a, b], SecondReplies(b)) ==
      Attempt(Found(Leading("master2@" + b.host)), Some(b), [StateUrl(a), StateUrl(b)])
  {
    var second := SecondReplies(b);
    SecondReply(a, b);
    SecondReply(b, b);
    ScanSkips([a, b], second);
    assert [a, b][1..] == [b];
    ScanStops([b], second);
  }

  /** The second search asks the cached A, then scans A and B, and caches B. */
  lemma SecondSearch(a: MasterUrl, b: MasterUrl)
    requires '@' !in b.host && a.host != b.host
    ensures Discover(Some(a), [a, b], SecondReplies(b)) ==
      Attempt(Found(Leading("master2@" + b.host)), Some(b), [StateUrl(a), StateUrl(a), StateUrl(b)])
  {
    SecondReply(a, b);
    DiscoverFallsBack(a, [a, b], SecondReplies(b));
    SecondScan(a, b);
  }

  /** TestChangingMesosMasterLeader: master A leads on the first search, and on the second both
      A and B name B. The second search asks the cached A, scans A, then B, and caches B: A is
      requested three times in all and B once. */
  lemma LeaderChange(a: MasterUrl, b: MasterUrl)
    requires '@' !in a.host && '@' !in b.host && a.host != b.host
    requires StateUrl(a) != StateUrl(b)
    ensures var s1 := Discover(None, [a, b], FirstReplies(a, b));
      var s2 := Discover(s1.leader, [a, b], SecondReplies(b));
      && s1.result == Found(Leading("master1@" + a.host)) && s1.leader == Some(a)
      && s2.result == Found(Leading("master2@" + b.host)) && s2.leader == Some(b)
      && multiset(s1.queried + s2.queried)[StateUrl(a)] == 3
      && multiset(s1.queried + s2.queried)[StateUrl(b)] == 1
  {
    var s1 := Discover(None, [a, b], FirstReplies(a, b));
    FirstSearch(a, b);
    assert s1.leader == Some(a);
    SecondSearch(a, b);
    RequestCounts(StateUrl(a), StateUrl(b));
  }

  /** One request for A, then A, A and B: three for A and one for B. */
  lemma RequestCounts(x: string, y: string)
    requires x != y
    ensures multiset([x] + [x, x, y])[x] == 3 && multiset([x] + [x, x, y])[y] == 1
  {
    assert [x] + [x, x, y] == [x, x, x, y];
  }

  // ---------------------------------------------------------------------------------------
  // poll: the task counters (master_poller.go:154-159)

  /** The six statuses of the `mesos_tasks` counter vector. */
  const TaskStatuses: set<string> := {"failed", "finished", "killed", "lost", "staged", "started"}

  /** The counter vector after `WithLabelValues(status).Set(...)` for the six totals of `m`. */
  function TaskCounters(counters: map<string, Reading>, m: Master): (c: map<string, Reading>)
    ensures c.Keys == counters.Keys + TaskStatuses
    ensures c["failed"] == Float(m.failedTasks) && c["finished"] == Float(m.finishedTasks)
    ensures c["killed"] == Float(m.killedTasks) && c["lost"] == Float(m.lostTasks)
    ensures c["staged"] == Float(m.stagedTasks) && c["started"] == Float(m.startedTasks)
    ensures forall status :: status in counters && status !in TaskStatuses ==> c[status] == counters[status]
  {
    counters["failed" := Float(m.failedTasks)]["finished" := Float(m.finishedTasks)]
            ["killed" := Float(m.killedTasks)]["lost" := Float(m.lostTasks)]
            ["staged" := Float(m.stagedTasks)]["started" := Float(m.startedTasks)]
  }

  // ---------------------------------------------------------------------------------------
  // handleFrameworks (master_poller.go:195-221)

  /** The three resources of the framework and slave gauge vectors. */
  const ResourceNames: set<string> := {"cpus", "disk", "mem"}

  /** The label values of a `mesos_framework_resources` gauge: name, resource, type. */
  type FrameworkLabels = (string, string, string)

  /** One of the three resources of a `Resources` record: a framework's used resources or a
      slave's advertised ones. */
  function ResourceOf(r: Resources, resource: string): Reading {
    if resource == "cpus" then Float(r.cpus) else if resource == "disk" then Float(r.disk) else Float(r.mem)
  }

  /** The three `used` gauges of a framework set from its used resources (lines 201-203). */
  function SetUsed(gauges: map<FrameworkLabels, Reading>, f: Framework): (g: map<FrameworkLabels, Reading>)
    ensures forall r :: r in ResourceNames ==> (f.name, r, "used") in g && g[(f.name, r, "used")] == ResourceOf(f.usedResources, r)
    ensures forall k: FrameworkLabels :: !(k.0 == f.name && k.1 in ResourceNames && k.2 == "used") ==>
      (k in g <==> k in gauges) && (k in g ==> g[k] == gauges[k])
  {
    gauges[(f.name, "cpus", "used") := ResourceOf(f.usedResources, "cpus")]
          [(f.name, "disk", "used") := ResourceOf(f.usedResources, "disk")]
          [(f.name, "mem", "used") := ResourceOf(f.usedResources, "mem")]
  }

  /** The `used` gauges of the frameworks named in `names`. */
  function UsedKeys(names: set<string>): set<FrameworkLabels> {
    set n, r | n in names && r in ResourceNames :: (n, r, "used")
  }

  /** Every gauge of the framework vector is a `used` gauge of one of the three resources. */
  ghost predicate UsedShaped(gauges: map<FrameworkLabels, Reading>) {
    forall k :: k in gauges ==> k.1 in ResourceNames && k.2 == "used"
  }

  /** The ids of the reported frameworks (availableFrameworks, line 205). */
  function FrameworkIds(frameworks: seq<Framework>): (ids: set<string>)
    ensures forall i :: 0 <= i < |frameworks| ==> frameworks[i].id in ids
    ensures forall id :: id in ids ==> exists i :: 0 <= i < |frameworks| && frameworks[i].id == id
  {
    if frameworks == [] then {}
    else FrameworkIds(frameworks[..|frameworks| - 1]) + {frameworks[|frameworks| - 1].id}
  }

  /** The registry after the first loop: each reported framework whose id has no entry yet is
      set (lines 207-210). */
  function RegisterNew(registry: map<string, Framework>, frameworks: seq<Framework>): map<string, Framework> {
    if frameworks == [] then registry
    else
      var before := RegisterNew(registry, frameworks[..|frameworks| - 1]);
      var f := frameworks[|frameworks| - 1];
      if f.id in before then before else before[f.id := f]
  }

  /** The framework gauges after the first loop. */
  function PublishUsed(gauges: map<FrameworkLabels, Reading>, frameworks: seq<Framework>): map<FrameworkLabels, Reading> {
    if frameworks == [] then gauges
    else SetUsed(PublishUsed(gauges, frameworks[..|frameworks| - 1]), frameworks[|frameworks| - 1])
  }

  /** The names of the entries among `visited` whose framework id was not reported. */
  function StaleAmong(registry: map<string, Framework>, visited: set<string>, ids: set<string>): set<string> {
    set id | id in visited && id in registry && registry[id].id !in ids :: registry[id].name
  }

  /** The names whose gauges the second loop deletes (lines 213-220). */
  function StaleNames(registry: map<string, Framework>, ids: set<string>): set<string> {
    StaleAmong(registry, registry.Keys, ids)
  }

  /** The framework gauges after handleFrameworks. The names are those of the registry as it is
      after the first loop: the source's knownFrameworks is the registry's own map. */
  function FrameworkGauges(gauges: map<FrameworkLabels, Reading>, registry: map<string, Framework>,
                           frameworks: seq<Framework>): map<FrameworkLabels, Reading>
  {
    PublishUsed(gauges, frameworks) - UsedKeys(StaleNames(RegisterNew(registry, frameworks), FrameworkIds(frameworks)))
  }

  /** The position of the first reported framework with id `id` (the one the registry keeps). */
  function FirstWithId(frameworks: seq<Framework>, id: string): (i: int)
    ensures -1 <= i < |frameworks|
    ensures i >= 0 ==> frameworks[i].id == id && forall j :: 0 <= j < i ==> frameworks[j].id != id
    ensures i < 0 ==> forall j :: 0 <= j < |frameworks| ==> frameworks[j].id != id
  {
    if frameworks == [] then -1
    else if frameworks[0].id == id then 0
    else var i := FirstWithId(frameworks[1..], id); if i < 0 then -1 else i + 1
  }

  /** Registering never drops an entry: the ids are the old ones plus the reported ones. */
  lemma {:induction false} RegisterNewKeys(registry: map<string, Framework>, frameworks: seq<Framework>)
    ensures RegisterNew(registry, frameworks).Keys == registry.Keys + FrameworkIds(frameworks)
    decreases |frameworks|
  {
    if frameworks != [] {
      RegisterNewKeys(registry, frameworks[..|frameworks| - 1]);
    }
  }

  /** Registering never replaces an entry that was there. */
  lemma {:induction false} RegisterNewKeeps(registry: map<string, Framework>, frameworks: seq<Framework>)
    ensures var r := RegisterNew(registry, frameworks);
      forall id :: id in registry ==> id in r && r[id] == registry[id]
    decreases |frameworks|
  {
    if frameworks != [] {
      RegisterNewKeeps(registry, frameworks[..|frameworks| - 1]);
    }
  }

  /** A new id gets the first framework reported under it. */
  lemma {:induction false} RegisterNewFirst(registry: map<string, Framework>, frameworks: seq<Framework>)
    ensures var r := RegisterNew(registry, frameworks);
      forall id :: id in r && id !in registry ==>
        FirstWithId(frameworks, id) >= 0 && r[id] == frameworks[FirstWithId(frameworks, id)]
    decreases |frameworks|
  {
    if frameworks != [] {
      var prefix := frameworks[..|frameworks| - 1];
      RegisterNewFirst(registry, prefix);
      RegisterNewKeys(registry, prefix);
      var before, r := RegisterNew(registry, prefix), RegisterNew(registry, frameworks);
      forall id | id in r && id !in registry
        ensures FirstWithId(frameworks, id) >= 0 && r[id] == frameworks[FirstWithId(frameworks, id)]
      {
        FirstWithIdPrefix(frameworks, id);
        if id in before {
          var k := FirstWithId(prefix, id);
          assert prefix[k] == frameworks[k];
        } else {
          assert id !in FrameworkIds(prefix);
        }
      }
    }
  }

  /** The first position of an id in a list is its first position in the list without its last
      element, unless only that last element has it. */
  lemma FirstWithIdPrefix(frameworks: seq<Framework>, id: string)
    requires frameworks != []
    ensures var prefix, i := frameworks[..|frameworks| - 1], FirstWithId(frameworks, id);
      && (FirstWithId(prefix, id) >= 0 ==> i == FirstWithId(prefix, id))
      && (FirstWithId(prefix, id) < 0 && frameworks[|frameworks| - 1].id == id ==> i == |frameworks| - 1)
  {
    var prefix, i, k := frameworks[..|frameworks| - 1], FirstWithId(frameworks, id), FirstWithId(frameworks[..|frameworks| - 1], id);
    if k >= 0 {
      assert frameworks[k] == prefix[k];
    }
  }

  /** Registering keeps every entry filed under its own id. */
  lemma RegisterNewFiled(registry: map<string, Framework>, frameworks: seq<Framework>)
    requires FiledById(registry)
    ensures FiledById(RegisterNew(registry, frameworks))
  {
    RegisterNewKeeps(registry, frameworks);
    RegisterNewFirst(registry, frameworks);
  }

  /** The entries the first loop adds are all reported, so the deletions see only the entries
      that were there before: reading the live map does not change what is deleted. */
  lemma StaleBeforeRegister(registry: map<string, Framework>, frameworks: seq<Framework>)
    requires FiledById(registry)
    ensures StaleNames(RegisterNew(registry, frameworks), FrameworkIds(frameworks)) ==
      StaleNames(registry, FrameworkIds(frameworks))
  {
    RegisterNewKeeps(registry, frameworks);
    RegisterNewFirst(registry, frameworks);
    var r, ids := RegisterNew(registry, frameworks), FrameworkIds(frameworks);
    forall id | id in r && id !in registry ensures r[id].id in ids {
      assert r[id].id == id;
    }
  }

  /** The position of the last reported framework named `name` (the one whose gauges stay set). */
  function LastNamed(frameworks: seq<Framework>, name: string): (i: int)
    ensures -1 <= i < |frameworks|
    ensures i >= 0 ==> frameworks[i].name == name && forall j :: i < j < |frameworks| ==> frameworks[j].name != name
    ensures i < 0 ==> forall j :: 0 <= j < |frameworks| ==> frameworks[j].name != name
  {
    if frameworks == [] then -1
    else if frameworks[|frameworks| - 1].name == name then |frameworks| - 1
    else LastNamed(frameworks[..|frameworks| - 1], name)
  }

  /** After the first loop, each `used` gauge of a reported name holds the value of the last
      framework reported under that name; every other gauge is as it was. */
  lemma {:induction false} PublishUsedAt(gauges: map<FrameworkLabels, Reading>, frameworks: seq<Framework>, k: FrameworkLabels)
    ensures var p, i := PublishUsed(gauges, frameworks), LastNamed(frameworks, k.0);
      && (k.1 in ResourceNames && k.2 == "used" && i >= 0 ==> k in p && p[k] == ResourceOf(frameworks[i].usedResources, k.1))
      && (!(k.1 in ResourceNames && k.2 == "used" && i >= 0) ==> (k in p <==> k in gauges) && (k in p ==> p[k] == gauges[k]))
    decreases |frameworks|
  {
    if frameworks != [] {
      PublishUsedAt(gauges, frameworks[..|frameworks| - 1], k);
    }
  }

  /** handleFrameworks: a `used` gauge of a name that some unreported registry entry carries is
      deleted, even when a reported framework carries the name too; otherwise a reported name's
      gauge holds the last value reported under it, and every other gauge is unchanged. */
  lemma FrameworkGaugesAt(gauges: map<FrameworkLabels, Reading>, registry: map<string, Framework>,
                          frameworks: seq<Framework>, k: FrameworkLabels)
    requires FiledById(registry)
    ensures var g := FrameworkGauges(gauges, registry, frameworks);
      var stale, i := StaleNames(registry, FrameworkIds(frameworks)), LastNamed(frameworks, k.0);
      && (k.1 in ResourceNames && k.2 == "used" && k.0 in stale ==> k !in g)
      && (k.1 in ResourceNames && k.2 == "used" && k.0 !in stale && i >= 0 ==>
            k in g && g[k] == ResourceOf(frameworks[i].usedResources, k.1))
      && (!(k.1 in ResourceNames && k.2 == "used" && (k.0 in stale || i >= 0)) ==>
            (k in g <==> k in gauges) && (k in g ==> g[k] == gauges[k]))
  {
    StaleBeforeRegister(registry, frameworks);
    PublishUsedAt(gauges, frameworks, k);
    var stale := StaleNames(registry, FrameworkIds(frameworks));
    if k.1 in ResourceNames && k.2 == "used" && k.0 in stale {
      assert k in UsedKeys(stale);
    }
  }

  /** The framework vector keeps holding only `used` gauges of the three resources. */
  lemma FrameworkGaugesShaped(gauges: map<FrameworkLabels, Reading>, registry: map<string, Framework>,
                              frameworks: seq<Framework>)
    requires FiledById(registry) && UsedShaped(gauges)
    ensures UsedShaped(FrameworkGauges(gauges, registry, frameworks))
  {
    forall k | k in FrameworkGauges(gauges, registry, frameworks) ensures k.1 in ResourceNames && k.2 == "used" {
      FrameworkGaugesAt(gauges, registry, frameworks, k);
    }
  }

  /** A framework that ended stays in the registry, so a running framework reusing its name
      loses all three of its gauges on every poll, whatever else is registered or reported. */
  lemma ReusedNameLosesGauges(gauges: map<FrameworkLabels, Reading>, registry: map<string, Framework>,
                              frameworks: seq<Framework>, ended: Framework, running: Framework)
    requires FiledById(registry)
    requires ended.id in registry && registry[ended.id] == ended && ended.id !in FrameworkIds(frameworks)
    requires running in frameworks && running.name == ended.name
    ensures forall r :: r in ResourceNames ==> (running.name, r, "used") !in FrameworkGauges(gauges, registry, frameworks)
  {
    var stale := StaleNames(registry, FrameworkIds(frameworks));
    assert running.name in stale;
    forall r | r in ResourceNames
      ensures (running.name, r, "used") !in FrameworkGauges(gauges, registry, frameworks)
    {
      FrameworkGaugesAt(gauges, registry, frameworks, (running.name, r, "used"));
    }
  }

  // ---------------------------------------------------------------------------------------
  // poll: slave reconciliation (master_poller.go:163-192)

  /** The label values of a `mesos_slave_resources` gauge: pid, resource. */
  type SlaveLabels = (string, string)

  /** The three gauges of a slave set from its advertised resources (lines 167-169). */
  function SetSlave(gauges: map<SlaveLabels, Reading>, slave: Slave): map<SlaveLabels, Reading> {
    gauges[(slave.pid, "cpus") := ResourceOf(slave.resources, "cpus")]
          [(slave.pid, "disk") := ResourceOf(slave.resources, "disk")]
          [(slave.pid, "mem") := ResourceOf(slave.resources, "mem")]
  }

  /** The gauges of the slaves in `pids`. */
  function SlaveKeys(pids: set<string>): set<SlaveLabels> {
    set p, r | p in pids && r in ResourceNames :: (p, r)
  }

  /** The pids of a list of slaves. */
  function Pids(slaves: seq<Slave>): (pids: set<string>)
    ensures forall i :: 0 <= i < |slaves| ==> slaves[i].pid in pids
    ensures forall p :: p in pids ==> exists i :: 0 <= i < |slaves| && slaves[i].pid == p
  {
    if slaves == [] then {} else Pids(slaves[..|slaves| - 1]) + {slaves[|slaves| - 1].pid}
  }

  /** The state of the slave part of poll: the slave vector, knownSlaves, availableSlaves and
      the slave pollers started so far (one per `go slavePoller(...)`, in order). */
  datatype SlaveScan = SlaveScan(gauges: map<SlaveLabels, Reading>, known: set<string>,
                                 available: set<string>, spawned: seq<Slave>)

  /** One slave of the loop at lines 164-177: its gauges are set, and a poller is started for it
      when its pid is not yet known. */
  function SlaveStep(st: SlaveScan, slave: Slave): SlaveScan {
    SlaveScan(SetSlave(st.gauges, slave), st.known + {slave.pid}, st.available + {slave.pid},
              if slave.pid in st.known then st.spawned else st.spawned + [slave])
  }

  /** The loop over all reported slaves, in order. */
  function ScanSlaves(st: SlaveScan, slaves: seq<Slave>): SlaveScan {
    if slaves == [] then st else SlaveStep(ScanSlaves(st, slaves[..|slaves| - 1]), slaves[|slaves| - 1])
  }

  /** The slave part of poll: the first loop, then the one at lines 180-192 that forgets and
      deletes the gauges of every known slave that was not reported. */
  function Reconcile(gauges: map<SlaveLabels, Reading>, known: set<string>, spawned: seq<Slave>,
                     slaves: seq<Slave>): SlaveScan
  {
    var st := ScanSlaves(SlaveScan(gauges, known, {}, spawned), slaves);
    SlaveScan(st.gauges - SlaveKeys(st.known - st.available), st.known * st.available, st.available, st.spawned)
  }

  /** The pids of the slaves pollers were started for. */
  function SpawnedPids(spawned: seq<Slave>): set<string> {
    set i | 0 <= i < |spawned| :: spawned[i].pid
  }

  /** The first loop marks every reported pid available and known. */
  lemma {:induction false} ScanSlavesSets(st: SlaveScan, slaves: seq<Slave>)
    ensures ScanSlaves(st, slaves).available == st.available + Pids(slaves)
    ensures ScanSlaves(st, slaves).known == st.known + Pids(slaves)
    decreases |slaves|
  {
    if slaves != [] {
      ScanSlavesSets(st, slaves[..|slaves| - 1]);
    }
  }

  /** The first loop only appends to the log of started pollers, each time for a reported
      slave whose pid was not known. */
  lemma {:induction false} ScanSlavesLog(st: SlaveScan, slaves: seq<Slave>)
    ensures var r := ScanSlaves(st, slaves);
      && |st.spawned| <= |r.spawned| && r.spawned[..|st.spawned|] == st.spawned
      && (forall i :: |st.spawned| <= i < |r.spawned| ==> r.spawned[i] in slaves && r.spawned[i].pid !in st.known)
    decreases |slaves|
  {
    if slaves != [] {
      var prefix := slaves[..|slaves| - 1];
      ScanSlavesLog(st, prefix);
      ScanSlavesSets(st, prefix);
      var before, r := ScanSlaves(st, prefix), ScanSlaves(st, slaves);
      forall i | |st.spawned| <= i < |before.spawned| ensures r.spawned[i] in slaves {
        assert r.spawned[i] == before.spawned[i];
        assert before.spawned[i] in prefix;
      }
    }
  }

  /** The first loop starts exactly one poller for each reported pid that was not known. */
  lemma {:induction false} ScanSlavesSpawns(st: SlaveScan, slaves: seq<Slave>)
    ensures var r := ScanSlaves(st, slaves);
      && |st.spawned| <= |r.spawned|
      && (forall i, j :: |st.spawned| <= i < j < |r.spawned| ==> r.spawned[i].pid != r.spawned[j].pid)
      && SpawnedPids(r.spawned[|st.spawned|..]) == Pids(slaves) - st.known
    decreases |slaves|
  {
    if slaves != [] {
      var prefix, s := slaves[..|slaves| - 1], slaves[|slaves| - 1];
      ScanSlavesSpawns(st, prefix);
      ScanSlavesSets(st, prefix);
      var before, r := ScanSlaves(st, prefix), ScanSlaves(st, slaves);
      var n := |st.spawned|;
      if s.pid !in before.known {
        assert r.spawned[n..] == before.spawned[n..] + [s];
        forall i | n <= i < |before.spawned| ensures before.spawned[i].pid != s.pid {
          assert before.spawned[i].pid in SpawnedPids(before.spawned[n..]) by {
            assert before.spawned[n..][i - n] == before.spawned[i];
          }
        }
        SpawnedPidsAppend(before.spawned[n..], s);
      }
    }
  }

  /** Appending a slave adds its pid. */
  lemma SpawnedPidsAppend(spawned: seq<Slave>, s: Slave)
    ensures SpawnedPids(spawned + [s]) == SpawnedPids(spawned) + {s.pid}
  {
    var l := spawned + [s];
    assert l[|spawned|] == s;
    forall p | p in SpawnedPids(spawned) ensures p in SpawnedPids(l) {
      var i :| 0 <= i < |spawned| && spawned[i].pid == p;
      assert l[i] == spawned[i];
    }
  }

  /** The value a reported slave's gauges keep: that of the last slave reported under the pid. */
  function LastWithPid(slaves: seq<Slave>, pid: string): (i: int)
    ensures -1 <= i < |slaves|
    ensures i >= 0 ==> slaves[i].pid == pid && forall j :: i < j < |slaves| ==> slaves[j].pid != pid
    ensures i < 0 ==> forall j :: 0 <= j < |slaves| ==> slaves[j].pid != pid
  {
    if slaves == [] then -1
    else if slaves[|slaves| - 1].pid == pid then |slaves| - 1
    else LastWithPid(slaves[..|slaves| - 1], pid)
  }

  /** After the first loop, each gauge of a reported pid holds the value of the last slave
      reported under it; every other gauge is as it was. */
  lemma {:induction false} ScanSlavesGauges(st: SlaveScan, slaves: seq<Slave>, k: SlaveLabels)
    ensures var g, i := ScanSlaves(st, slaves).gauges, LastWithPid(slaves, k.0);
      && (k.1 in ResourceNames && i >= 0 ==> k in g && g[k] == ResourceOf(slaves[i].resources, k.1))
      && (!(k.1 in ResourceNames && i >= 0) ==> (k in g <==> k in st.gauges) && (k in g ==> g[k] == st.gauges[k]))
    decreases |slaves|
  {
    if slaves != [] {
      ScanSlavesGauges(st, slaves[..|slaves| - 1], k);
    }
  }

  /** After poll, the known slaves are exactly the reported ones. */
  lemma ReconcileKnown(gauges: map<SlaveLabels, Reading>, known: set<string>, spawned: seq<Slave>, slaves: seq<Slave>)
    ensures Reconcile(gauges, known, spawned, slaves).known == Pids(slaves)
    ensures Reconcile(gauges, known, spawned, slaves).available == Pids(slaves)
  {
    ScanSlavesSets(SlaveScan(gauges, known, {}, spawned), slaves);
  }

  /** After poll, a reported slave's gauges hold the last values reported for it, a known slave
      that was not reported has none, and any other gauge is unchanged. */
  lemma ReconcileGauges(gauges: map<SlaveLabels, Reading>, known: set<string>, spawned: seq<Slave>,
                        slaves: seq<Slave>, k: SlaveLabels)
    ensures var g, i := Reconcile(gauges, known, spawned, slaves).gauges, LastWithPid(slaves, k.0);
      && (k.1 in ResourceNames && i >= 0 ==> k in g && g[k] == ResourceOf(slaves[i].resources, k.1))
      && (k.1 in ResourceNames && k.0 in known && k.0 !in Pids(slaves) ==> k !in g)
      && (!(k.1 in ResourceNames && (i >= 0 || k.0 in known)) ==> (k in g <==> k in gauges) && (k in g ==> g[k] == gauges[k]))
  {
    var st0 := SlaveScan(gauges, known, {}, spawned);
    ScanSlavesSets(st0, slaves);
    ScanSlavesGauges(st0, slaves, k);
    var st := ScanSlaves(st0, slaves);
    if k.1 in ResourceNames && k.0 in known && k.0 !in Pids(slaves) {
      assert k in SlaveKeys(st.known - st.available);
    }
    if LastWithPid(slaves, k.0) >= 0 {
      assert k.0 in Pids(slaves);
    }
  }

  /** The slave vector has gauges for exactly the known slaves, and every known slave has a
      poller; poll keeps both. */
  lemma ReconcileConsistent(gauges: map<SlaveLabels, Reading>, known: set<string>, spawned: seq<Slave>, slaves: seq<Slave>)
    requires gauges.Keys == SlaveKeys(known) && known <= SpawnedPids(spawned)
    ensures var r := Reconcile(gauges, known, spawned, slaves);
      r.gauges.Keys == SlaveKeys(r.known) && r.known <= SpawnedPids(r.spawned)
  {
    var st0 := SlaveScan(gauges, known, {}, spawned);
    ScanSlavesSets(st0, slaves);
    ScanSlavesLog(st0, slaves);
    ScanSlavesSpawns(st0, slaves);
    var r := Reconcile(gauges, known, spawned, slaves);
    forall k | k in r.gauges ensures k in SlaveKeys(r.known) {
      ReconcileGauges(gauges, known, spawned, slaves, k);
      if LastWithPid(slaves, k.0) >= 0 {
        assert k.0 in Pids(slaves);
      }
    }
    forall k | k in SlaveKeys(r.known) ensures k in r.gauges {
      ReconcileGauges(gauges, known, spawned, slaves, k);
      var i :| 0 <= i < |slaves| && slaves[i].pid == k.0;
    }
    var n := |spawned|;
    forall p | p in r.known ensures p in SpawnedPids(r.spawned) {
      if p in known {
        var i :| 0 <= i < n && spawned[i].pid == p;
        assert r.spawned[i] == spawned[i];
      } else {
        assert p in SpawnedPids(r.spawned[n..]);
        var i :| 0 <= i < |r.spawned[n..]| && r.spawned[n..][i].pid == p;
        assert r.spawned[n + i] == r.spawned[n..][i];
      }
    }
  }

  // ---------------------------------------------------------------------------------------
  // The deletion loops, one label set at a time

  /** The second loop of handleFrameworks part-way: the entries of `known` outside `remaining`
      have been visited. */
  ghost predicate Unpublishing(known: map<string, Framework>, ids: set<string>, published: map<FrameworkLabels, Reading>,
                               remaining: set<string>, gauges: map<FrameworkLabels, Reading>)
  {
    remaining <= known.Keys && gauges == published - UsedKeys(StaleAmong(known, known.Keys - remaining, ids))
  }

  /** One iteration of that loop keeps its invariant. */
  lemma UnpublishingStep(known: map<string, Framework>, ids: set<string>, published: map<FrameworkLabels, Reading>,
                         remaining: set<string>, gauges: map<FrameworkLabels, Reading>, id: string)
    requires Unpublishing(known, ids, published, remaining, gauges) && id in remaining
    ensures known[id].id in ids ==> Unpublishing(known, ids, published, remaining - {id}, gauges)
    ensures known[id].id !in ids ==> Unpublishing(known, ids, published, remaining - {id},
      gauges - {(known[id].name, "cpus", "used"), (known[id].name, "disk", "used"), (known[id].name, "mem", "used")})
  {
    var visited := known.Keys - remaining;
    assert known.Keys - (remaining - {id}) == visited + {id};
    var before, after := StaleAmong(known, visited, ids), StaleAmong(known, visited + {id}, ids);
    if known[id].id in ids {
      assert after == before;
    } else {
      assert after == before + {known[id].name};
      var n := known[id].name;
      assert UsedKeys(after) == UsedKeys(before) + {(n, "cpus", "used"), (n, "disk", "used"), (n, "mem", "used")};
    }
  }

  /** The loop at lines 180-192 part-way: the known slaves outside `remaining` have been visited. */
  ghost predicate Forgetting(known0: set<string>, available: set<string>, gauges0: map<SlaveLabels, Reading>,
                             remaining: set<string>, known: set<string>, gauges: map<SlaveLabels, Reading>)
  {
    && remaining <= known0
    && known == known0 - ((known0 - remaining) - available)
    && gauges == gauges0 - SlaveKeys((known0 - remaining) - available)
  }

  /** One iteration of that loop keeps its invariant. */
  lemma ForgettingStep(known0: set<string>, available: set<string>, gauges0: map<SlaveLabels, Reading>,
                       remaining: set<string>, known: set<string>, gauges: map<SlaveLabels, Reading>, pid: string)
    requires Forgetting(known0, available, gauges0, remaining, known, gauges) && pid in remaining
    ensures pid in available ==> Forgetting(known0, available, gauges0, remaining - {pid}, known, gauges)
    ensures pid !in available ==> Forgetting(known0, available, gauges0, remaining - {pid}, known - {pid},
      gauges - {(pid, "cpus"), (pid, "disk"), (pid, "mem")})
  {
    var gone := (known0 - remaining) - available;
    var gone' := (known0 - (remaining - {pid})) - available;
    if pid in available {
      assert gone' == gone;
    } else {
      assert gone' == gone + {pid};
      assert SlaveKeys(gone') == SlaveKeys(gone) + {(pid, "cpus"), (pid, "disk"), (pid, "mem")};
    }
  }

  // ---------------------------------------------------------------------------------------
  // masterPoller

  class MasterPoller {
    /** The configured masters (config.MesosMasters). */
    const masters: seq<MasterUrl>
    const frameworkRegistry: FrameworkRegistry
    var currentMesosMaster: Option<MasterUrl>
    /** The `mesos_tasks` counter vector, by status. */
    var tasksCounter: map<string, Reading>
    /** The `mesos_framework_resources` gauge vector. */
    var frameworkResources: map<FrameworkLabels, Reading>
    /** The `mesos_slave_resources` gauge vector. */
    var slaveResources: map<SlaveLabels, Reading>
    /** The knownSlaves set that run hands to every poll. */
    var knownSlaves: set<string>
    /** The slaves a poller has been started for, in order. */
    var spawned: seq<Slave>

    /** The registry files entries by id, the framework vector holds only `used` gauges, the
        slave vector holds gauges for exactly the known slaves, and each known slave has a
        poller. */
    ghost predicate Valid()
      reads this, frameworkRegistry
    {
      && frameworkRegistry.Valid()
      && UsedShaped(frameworkResources)
      && slaveResources.Keys == SlaveKeys(knownSlaves)
      && knownSlaves <= SpawnedPids(spawned)
    }

    /** The poller as run starts it: no master cached, empty vectors, no known slave. */
    constructor (masters: seq<MasterUrl>, frameworkRegistry: FrameworkRegistry)
      requires frameworkRegistry.Valid()
      ensures Valid()
      ensures this.masters == masters && this.frameworkRegistry == frameworkRegistry
      ensures currentMesosMaster == None && tasksCounter == map[] && frameworkResources == map[]
      ensures slaveResources == map[] && knownSlaves == {} && spawned == []
    {
      this.masters := masters;
      this.frameworkRegistry := frameworkRegistry;
      currentMesosMaster := None;
      tasksCounter := map[];
      frameworkResources := map[];
      slaveResources := map[];
      knownSlaves := {};
      spawned := [];
    }

    /** retrieveCurrentMasterState: returns what it found and the URLs it requested. */
    method RetrieveCurrentMasterState(fetch: Fetch) returns (result: Discovery, queried: seq<string>)
      modifies this`currentMesosMaster
      ensures Attempt(result, currentMesosMaster, queried) == Discover(old(currentMesosMaster), masters, fetch)
    {
      ghost var cached := currentMesosMaster;
      queried := [];
      if currentMesosMaster.Some? {
        var u := currentMesosMaster.value;
        var reply := Ask(u, fetch);
        queried := [StateUrl(u)];
        match reply {
          case Confirmed(m) => result := Found(m); return;
          case Garbled(l) => result := Panicked(l); return;
          case _ =>
        }
        DiscoverFallsBack(u, masters, fetch);
      } else {
        DiscoverUncached(masters, fetch);
      }
      assert masters[0..] == masters;
      for i := 0 to |masters|
        invariant currentMesosMaster == cached
        invariant Discover(cached, masters, fetch) == FallBack(cached, queried, Scan(masters[i..], fetch))
      {
        var u := masters[i];
        var reply := Ask(u, fetch);
        if Skips(reply) {
          ScanAtSkips(masters, i, fetch, cached, queried);
        } else {
          ScanAtStops(masters, i, fetch);
        }
        queried := queried + [StateUrl(u)];
        match reply {
          case Confirmed(m) => currentMesosMaster := Some(u); result := Found(m); return;
          case Garbled(l) => result := Panicked(l); return;
          case _ =>
        }
      }
      result := NotFound;
    }

    /** The first loop of poll over the reported slaves. */
    method PublishSlaves(slaves: seq<Slave>) returns (availableSlaves: set<string>)
      modifies this`slaveResources, this`knownSlaves, this`spawned
      ensures SlaveScan(slaveResources, knownSlaves, availableSlaves, spawned) ==
        ScanSlaves(SlaveScan(old(slaveResources), old(knownSlaves), {}, old(spawned)), slaves)
    {
      availableSlaves := {};
      for i := 0 to |slaves|
        invariant SlaveScan(slaveResources, knownSlaves, availableSlaves, spawned) ==
          ScanSlaves(SlaveScan(old(slaveResources), old(knownSlaves), {}, old(spawned)), slaves[..i])
      {
        var slave := slaves[i];
        availableSlaves := availableSlaves + {slave.pid};
        slaveResources := slaveResources[(slave.pid, "cpus") := ResourceOf(slave.resources, "cpus")];
        slaveResources := slaveResources[(slave.pid, "disk") := ResourceOf(slave.resources, "disk")];
        slaveResources := slaveResources[(slave.pid, "mem") := ResourceOf(slave.resources, "mem")];
        if slave.pid !in knownSlaves {
          knownSlaves := knownSlaves + {slave.pid};
          spawned := spawned + [slave];
        }
        assert slaves[..i + 1][..i] == slaves[..i];
      }
      assert slaves[..|slaves|] == slaves;
    }

    /** The second loop of poll: slaves that went offline are forgotten with their gauges. */
    method RemoveOffline(availableSlaves: set<string>)
      modifies this`slaveResources, this`knownSlaves
      ensures knownSlaves == old(knownSlaves) * availableSlaves
      ensures slaveResources == old(slaveResources) - SlaveKeys(old(knownSlaves) - availableSlaves)
    {
      ghost var known0, gauges0 := knownSlaves, slaveResources;
      var remaining := knownSlaves;
      while remaining != {}
        invariant Forgetting(known0, availableSlaves, gauges0, remaining, knownSlaves, slaveResources)
        decreases remaining
      {
        var knownSlave :| knownSlave in remaining;
        ForgettingStep(known0, availableSlaves, gauges0, remaining, knownSlaves, slaveResources, knownSlave);
        if knownSlave !in availableSlaves {
          slaveResources := slaveResources - {(knownSlave, "cpus"), (knownSlave, "disk"), (knownSlave, "mem")};
          knownSlaves := knownSlaves - {knownSlave};
        }
        remaining := remaining - {knownSlave};
      }
      assert known0 - {} == known0;
      assert known0 - (known0 - availableSlaves) == known0 * availableSlaves;
    }

    /** handleFrameworks: gauges for every reported framework, registration of new ids, and
        deletion of the gauges of registered frameworks that were not reported. */
    method HandleFrameworks(frameworks: seq<Framework>)
      requires frameworkRegistry.Valid()
      modifies this`frameworkResources, frameworkRegistry
      ensures frameworkRegistry.Valid()
      ensures frameworkRegistry.registry == RegisterNew(old(frameworkRegistry.registry), frameworks)
      ensures frameworkResources ==
        FrameworkGauges(old(frameworkResources), old(frameworkRegistry.registry), frameworks)
    {
      var availableFrameworks := PublishFrameworks(frameworks);
      // All() hands out the registry's own map, not a copy: the second loop sees the entries
      // the first one set, as if it were read now.
      var knownFrameworks := frameworkRegistry.All();
      UnpublishStale(knownFrameworks, availableFrameworks);
    }

    /** The first loop of handleFrameworks. */
    method PublishFrameworks(frameworks: seq<Framework>) returns (availableFrameworks: set<string>)
      requires frameworkRegistry.Valid()
      modifies this`frameworkResources, frameworkRegistry
      ensures frameworkRegistry.Valid()
      ensures frameworkRegistry.registry == RegisterNew(old(frameworkRegistry.registry), frameworks)
      ensures frameworkResources == PublishUsed(old(frameworkResources), frameworks)
      ensures availableFrameworks == FrameworkIds(frameworks)
    {
      availableFrameworks := {};
      for i := 0 to |frameworks|
        invariant frameworkRegistry.Valid()
        invariant frameworkRegistry.registry == RegisterNew(old(frameworkRegistry.registry), frameworks[..i])
        invariant frameworkResources == PublishUsed(old(frameworkResources), frameworks[..i])
        invariant availableFrameworks == FrameworkIds(frameworks[..i])
      {
        var framework := frameworks[i];
        frameworkResources := frameworkResources[(framework.name, "cpus", "used") := ResourceOf(framework.usedResources, "cpus")];
        frameworkResources := frameworkResources[(framework.name, "disk", "used") := ResourceOf(framework.usedResources, "disk")];
        frameworkResources := frameworkResources[(framework.name, "mem", "used") := ResourceOf(framework.usedResources, "mem")];
        availableFrameworks := availableFrameworks + {framework.id};
        // The lookup of line 207 is in the live registry map.
        if framework.id !in frameworkRegistry.registry {
          frameworkRegistry.Set(framework);
        }
        assert frameworks[..i + 1][..i] == frameworks[..i];
      }
      assert frameworks[..|frameworks|] == frameworks;
    }

    /** The second loop of handleFrameworks: the gauges of every entry of `knownFrameworks` whose
        framework was not reported are deleted. */
    method UnpublishStale(knownFrameworks: map<string, Framework>, availableFrameworks: set<string>)
      modifies this`frameworkResources
      ensures frameworkResources == old(frameworkResources) - UsedKeys(StaleNames(knownFrameworks, availableFrameworks))
    {
      ghost var published := frameworkResources;
      var remaining := knownFrameworks.Keys;
      while remaining != {}
        invariant Unpublishing(knownFrameworks, availableFrameworks, published, remaining, frameworkResources)
        decreases remaining
      {
        var id :| id in remaining;
        var knownFramework := knownFrameworks[id];
        UnpublishingStep(knownFrameworks, availableFrameworks, published, remaining, frameworkResources, id);
        if knownFramework.id !in availableFrameworks {
          frameworkResources := frameworkResources - {(knownFramework.name, "cpus", "used"),
            (knownFramework.name, "disk", "used"), (knownFramework.name, "mem", "used")};
        }
        remaining := remaining - {id};
      }
      assert knownFrameworks.Keys - {} == knownFrameworks.Keys;
    }

    /** poll: on a found leader, the six task totals, the frameworks and the slaves are copied
        into the vectors; otherwise nothing but the search itself happens. */
    method Poll(fetch: Fetch) returns (result: Discovery, queried: seq<string>)
      requires Valid()
      modifies this, frameworkRegistry
      ensures Valid()
      ensures Attempt(result, currentMesosMaster, queried) == Discover(old(currentMesosMaster), masters, fetch)
      ensures !result.Found? ==>
        && tasksCounter == old(tasksCounter) && frameworkResources == old(frameworkResources)
        && slaveResources == old(slaveResources) && knownSlaves == old(knownSlaves) && spawned == old(spawned)
        && frameworkRegistry.registry == old(frameworkRegistry.registry)
      ensures result.Found? ==>
        && tasksCounter == TaskCounters(old(tasksCounter), result.master)
        && frameworkRegistry.registry == RegisterNew(old(frameworkRegistry.registry), result.master.frameworks)
        && frameworkResources ==
             FrameworkGauges(old(frameworkResources), old(frameworkRegistry.registry), result.master.frameworks)
        && SlaveScan(slaveResources, knownSlaves, Pids(result.master.slaves), spawned) ==
             Reconcile(old(slaveResources), old(knownSlaves), old(spawned), result.master.slaves)
    {
      result, queried := RetrieveCurrentMasterState(fetch);
      if !result.Found? {
        return;
      }
      var master := result.master;
      tasksCounter := tasksCounter["failed" := Float(master.failedTasks)];
      tasksCounter := tasksCounter["finished" := Float(master.finishedTasks)];
      tasksCounter := tasksCounter["killed" := Float(master.killedTasks)];
      tasksCounter := tasksCounter["lost" := Float(master.lostTasks)];
      tasksCounter := tasksCounter["staged" := Float(master.stagedTasks)];
      tasksCounter := tasksCounter["started" := Float(master.startedTasks)];

      FrameworkGaugesShaped(frameworkResources, frameworkRegistry.registry, master.frameworks);
      HandleFrameworks(master.frameworks);

      ReconcileConsistent(slaveResources, knownSlaves, spawned, master.slaves);
      ReconcileKnown(slaveResources, knownSlaves, spawned, master.slaves);
      var availableSlaves := PublishSlaves(master.slaves);
      RemoveOffline(availableSlaves);
    }
  }
}
