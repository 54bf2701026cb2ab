/** Scan jobs of many tenants: each job's goroutine passes three lock regions, interleaved with those of
    every other job, and the last result per tenant and asset is kept under one string key. */
module ScanManager {
  import opened Text

  datatype Status = Pending | Running | Completed | Failed

  datatype Report = Report(scanId: string)

  datatype Job = Job(id: string, assetId: string, target: string, tenantId: string,
                     status: Status, progress: nat, result: Option<Report>, error: string)

  const PUBLIC_TENANT := "00000000-0000-0000-0000-000000000001"

  function Normalize(tenantId: string): string {
    var t := Trim(tenantId);
    if t == "" then PUBLIC_TENANT else t
  }

  function ResultKey(tenantId: string, assetId: string): string {
    Normalize(tenantId) + "/" + assetId
  }

  /** How a job ends: the scan fails, or it succeeds and persistence may rename the asset ("" and None leave it). */
  datatype Ending = ScanFailed(error: string) | ScanSucceeded(report: Report, persisted: Option<string>)

  datatype State = State(jobs: map<string, Job>, results: map<string, Report>)

  // ---------- the lock regions on values ----------

  function NewJob(assetFor: string -> string, id: string, tenantId: string, target: string): Job {
    Job(id, assetFor(target), target, Normalize(tenantId), Pending, 0, None, "")
  }

  function StartScan(assetFor: string -> string, st: State, id: string, tenantId: string, target: string): State {
    st.(jobs := st.jobs[id := NewJob(assetFor, id, tenantId, target)])
  }

  function Begun(job: Job): Job {
    job.(status := Running, progress := 10)
  }

  function TargetsBuilt(job: Job): Job {
    job.(progress := 30)
  }

  function Ended(assetFor: string -> string, job: Job, ending: Ending): Job {
    match ending
    case ScanFailed(error) => job.(status := Failed, error := error, progress := 0)
    case ScanSucceeded(report, persisted) =>
      var asset := if job.assetId == "" then assetFor(job.target) else job.assetId;
      var asset' := if persisted.Some? && persisted.value != "" then persisted.value else asset;
      job.(result := Some(report), status := Completed, progress := 100, assetId := asset')
  }

  function EndScan(assetFor: string -> string, st: State, id: string, ending: Ending): State
    requires id in st.jobs
  {
    var job := Ended(assetFor, st.jobs[id], ending);
    State(st.jobs[id := job],
          if ending.ScanFailed? then st.results
          else st.results[ResultKey(job.tenantId, job.assetId) := ending.report])
  }

  /** The job after its goroutine's region number `phase`. */
  function Stage(assetFor: string -> string, job: Job, phase: nat, ending: Ending): Job {
    if phase == 0 then Begun(job) else if phase == 1 then TargetsBuilt(job) else Ended(assetFor, job, ending)
  }

  function GetResultForTenant(st: State, tenantId: string, assetId: string): Option<Report> {
    var key := ResultKey(tenantId, assetId);
    if key in st.results then Some(st.results[key]) else None
  }

  function GetScanForTenant(st: State, tenantId: string, id: string): Option<Job> {
    if id in st.jobs && Normalize(st.jobs[id].tenantId) == Normalize(tenantId) then Some(st.jobs[id]) else None
  }

  // ---------- on the heap ----------

  class ScanJob {
    const id: string
    const target: string
    const tenantId: string
    var assetId: string
    var status: Status
    var progress: nat
    var result: Option<Report>
    var error: string

    constructor (j: Job)
      ensures Value() == j
    {
      id, target, tenantId, assetId, status, progress, result, error :=
        j.id, j.target, j.tenantId, j.assetId, j.status, j.progress, j.result, j.error;
    }

    /** The snapshot handed to callers. */
    function Value(): Job
      reads this
    {
      Job(id, assetId, target, tenantId, status, progress, result, error)
    }
  }

  class Manager {
    const policy: string -> bool
    const assetFor: string -> string
    var jobs: map<string, ScanJob>
    var results: map<string, Report>

    ghost predicate Valid()
      reads this
    {
      forall id | id in jobs :: jobs[id].id == id
    }

    ghost function Abs(): State
      reads this, jobs.Values
    {
      State(map id | id in jobs :: jobs[id].Value(), results)
    }

    constructor (policy: string -> bool, assetFor: string -> string)
      ensures Valid() && Abs() == State(map[], map[]) && this.policy == policy && this.assetFor == assetFor
    {
      this.policy, this.assetFor := policy, assetFor;
      jobs, results := map[], map[];
    }

    /** A target the policy blocks is refused before anything changes. */
    method Start(id: string, tenantId: string, target: string) returns (job: ScanJob?)
      requires Valid()
      modifies this`jobs
      ensures Valid() && (job == null <==> !policy(target))
      ensures job == null ==> jobs == old(jobs) && Abs() == old(Abs())
      ensures job != null ==> fresh(job) && jobs == old(jobs)[id := job]
      ensures job != null ==> Abs() == StartScan(assetFor, old(Abs()), id, tenantId, target)
    {
      hide Normalize;
      if !policy(target) { return null; }
      var queued := new ScanJob(NewJob(assetFor, id, tenantId, target));
      jobs := jobs[id := queued];
      assert Abs().jobs == old(Abs()).jobs[id := queued.Value()];
      return queued;
    }

    /** The first lock region of the job's goroutine. */
    method Begin(job: ScanJob)
      requires Valid() && job.id in jobs && jobs[job.id] == job
      modifies job
      ensures Valid() && Abs() == old(Abs()).(jobs := old(Abs()).jobs[job.id := Begun(old(job.Value()))])
    {
      job.status := Running;
      job.progress := 10;
      assert Abs().jobs == old(Abs()).jobs[job.id := job.Value()];
    }

    /** The second lock region. */
    method MarkTargetsBuilt(job: ScanJob)
      requires Valid() && job.id in jobs && jobs[job.id] == job
      modifies job
      ensures Valid() && Abs() == old(Abs()).(jobs := old(Abs()).jobs[job.id := TargetsBuilt(old(job.Value()))])
    {
      job.progress := 30;
      assert Abs().jobs == old(Abs()).jobs[job.id := job.Value()];
    }

    /** The last lock region. */
    method End(job: ScanJob, ending: Ending)
      requires Valid() && job.id in jobs && jobs[job.id] == job
      modifies this`results, job
      ensures Valid() && Abs() == EndScan(assetFor, old(Abs()), job.id, ending)
    {
      hide ResultKey, Ended;
      Finalise(job, ending);
      assert Abs().jobs == old(Abs()).jobs[job.id := job.Value()];
      if ending.ScanSucceeded? {
        results := results[ResultKey(job.tenantId, job.assetId) := ending.report];
      }
    }

    method Finalise(job: ScanJob, ending: Ending)
      modifies job
      ensures job.Value() == Ended(assetFor, old(job.Value()), ending)
    {
      match ending {
        case ScanFailed(error) =>
          job.status := Failed;
          job.error := error;
          job.progress := 0;
        case ScanSucceeded(report, persisted) =>
          job.result := Some(report);
          job.status := Completed;
          job.progress := 100;
          if job.assetId == "" {
            job.assetId := assetFor(job.target);
          }
          if persisted.Some? && persisted.value != "" {
            job.assetId := persisted.value;
          }
      }
    }

    method GetResult(tenantId: string, assetId: string) returns (r: Option<Report>)
      ensures r == GetResultForTenant(Abs(), tenantId, assetId)
    {
      var key := ResultKey(tenantId, assetId);
      r := if key in results then Some(results[key]) else None;
    }

    method GetScan(tenantId: string, id: string) returns (r: Option<Job>)
      ensures r == GetScanForTenant(Abs(), tenantId, id)
    {
      if id !in jobs { return None; }
      var snapshot := jobs[id].Value();
      if Normalize(snapshot.tenantId) != Normalize(tenantId) { return None; }
      return Some(snapshot);
    }

    /** Snapshots of exactly the jobs that `GetScan` finds for the tenant, each once, in the map's order. */
    method ListScans(tenantId: string) returns (scans: seq<Job>)
      requires Valid()
      ensures forall j | j in scans :: GetScanForTenant(Abs(), tenantId, j.id) == Some(j)
      ensures forall id | GetScanForTenant(Abs(), tenantId, id).Some? ::
                GetScanForTenant(Abs(), tenantId, id).value in scans
      ensures forall a, b | 0 <= a < b < |scans| :: scans[a].id != scans[b].id
    {
      hide Normalize;
      var left := jobs.Keys;
      scans := [];
      while left != {}
        invariant left <= jobs.Keys
        invariant forall j | j in scans :: j.id !in left && GetScanForTenant(Abs(), tenantId, j.id) == Some(j)
        invariant forall id | GetScanForTenant(Abs(), tenantId, id).Some? && id !in left ::
                    GetScanForTenant(Abs(), tenantId, id).value in scans
        invariant forall a, b | 0 <= a < b < |scans| :: scans[a].id != scans[b].id
      {
        var id :| id in left;
        left := left - {id};
        var snapshot := jobs[id].Value();
        if Normalize(snapshot.tenantId) == Normalize(tenantId) {
          scans := scans + [snapshot];
        }
      }
    }
  }

  // ---------- schedules ----------

  /** One region entered: a job is queued, or the goroutine of job `id` enters its next region. */
  datatype Event = Queue(id: string, tenantId: string, target: string) | Advance(id: string, ending: Ending)

  /** How far each job's goroutine has come, and what has been finished under which tenant and asset. */
  datatype Finish = Finish(tenant: string, asset: string, report: Report)

  datatype World = World(st: State, phase: map<string, nat>, finished: seq<Finish>)

  function Next(assetFor: string -> string, w: World, e: Event): World {
    match e
    case Queue(id, tenantId, target) =>
      if id in w.st.jobs then w  // uuids are fresh
      else World(StartScan(assetFor, w.st, id, tenantId, target), w.phase[id := 0], w.finished)
    case Advance(id, ending) =>
      if id !in w.phase || id !in w.st.jobs || w.phase[id] >= 3 then w else
      var job := Stage(assetFor, w.st.jobs[id], w.phase[id], ending);
      var phase := w.phase[id := w.phase[id] + 1];
      if w.phase[id] < 2 || ending.ScanFailed? then
        World(w.st.(jobs := w.st.jobs[id := job]), phase, w.finished)
      else
        World(EndScan(assetFor, w.st, id, ending), phase,
              w.finished + [Finish(job.tenantId, job.assetId, ending.report)])
  }

  const EMPTY := World(State(map[], map[]), map[], [])

  function WorldAt(assetFor: string -> string, es: seq<Event>, n: nat): World
    requires n <= |es|
  {
    if n == 0 then EMPTY else Next(assetFor, WorldAt(assetFor, es, n - 1), es[n - 1])
  }

  // ---------- one job's life ----------

  /** What a job looks like at each stage of its goroutine. */
  predicate JobFits(job: Job, phase: nat) {
    && phase <= 3
    && (phase == 0 ==> job.status == Pending && job.progress == 0)
    && (phase == 1 ==> job.status == Running && job.progress == 10)
    && (phase == 2 ==> job.status == Running && job.progress == 30)
    && (phase == 3 ==> (job.status == Completed && job.progress == 100) || (job.status == Failed && job.progress == 0))
    && (job.result.Some? <==> job.status == Completed)
  }

  ghost predicate JobsFit(w: World) {
    w.phase.Keys == w.st.jobs.Keys && forall id | id in w.st.jobs :: JobFits(w.st.jobs[id], w.phase[id])
  }

  /** pending, then running, then completed or failed for good; progress falls only at the end. */
  predicate Matures(a: Job, b: Job) {
    && a.id == b.id && a.target == b.target && a.tenantId == b.tenantId
    && (a.status == Pending || a.status == b.status
        || (a.status == Running && (b.status == Completed || b.status == Failed)))
    && (a.status == Completed || a.status == Failed ==> a == b)
    && (b.status == Pending || b.status == Running ==> a.progress <= b.progress)
  }

  ghost predicate JobsMature(w: World, w': World) {
    forall id | id in w.st.jobs :: id in w'.st.jobs && Matures(w.st.jobs[id], w'.st.jobs[id])
  }

  lemma StageMatures(assetFor: string -> string, job: Job, phase: nat, ending: Ending)
    requires JobFits(job, phase) && phase < 3
    ensures var job' := Stage(assetFor, job, phase, ending); JobFits(job', phase + 1) && Matures(job, job')
  {
  }

  lemma NextJobs(assetFor: string -> string, w: World, e: Event)
    ensures var w' := Next(assetFor, w, e);
            match e
            case Queue(id, tenantId, target) =>
              w' == w || (id !in w.st.jobs && w'.st.jobs == w.st.jobs[id := NewJob(assetFor, id, tenantId, target)]
                          && w'.phase == w.phase[id := 0])
            case Advance(id, ending) =>
              w' == w || (id in w.st.jobs && id in w.phase && w.phase[id] < 3
                          && w'.st.jobs == w.st.jobs[id := Stage(assetFor, w.st.jobs[id], w.phase[id], ending)]
                          && w'.phase == w.phase[id := w.phase[id] + 1])
  {
    hide Normalize, ResultKey, NewJob;
  }

  lemma NextMatures(assetFor: string -> string, w: World, e: Event)
    requires JobsFit(w)
    ensures JobsFit(Next(assetFor, w, e)) && JobsMature(w, Next(assetFor, w, e))
  {
    hide Next, Normalize, Stage;
    NextJobs(assetFor, w, e);
    if e.Advance? && e.id in w.st.jobs && w.phase[e.id] < 3 {
      StageMatures(assetFor, w.st.jobs[e.id], w.phase[e.id], e.ending);
    }
  }

  /** For any number of jobs on any schedule: status only moves pending, running, then completed or
      failed, where it stays; a result is present exactly on completed jobs; progress does not fall before
      the last region. */
  lemma {:induction false} JobsMatureOnEverySchedule(assetFor: string -> string, es: seq<Event>, i: nat, j: nat)
    requires i <= j <= |es|
    ensures JobsFit(WorldAt(assetFor, es, j)) && JobsMature(WorldAt(assetFor, es, i), WorldAt(assetFor, es, j))
    ensures forall id | id in WorldAt(assetFor, es, j).st.jobs ::
              var job := WorldAt(assetFor, es, j).st.jobs[id]; job.result.Some? <==> job.status == Completed
    decreases j
  {
    hide Next;
    if j > 0 {
      var before := if i < j then i else j - 1;
      JobsMatureOnEverySchedule(assetFor, es, before, j - 1);
      NextMatures(assetFor, WorldAt(assetFor, es, j - 1), es[j - 1]);
    }
  }

  // ---------- the result key ----------

  /** Two pairs share a key exactly when they are the same or one tenant swallows the other's asset prefix. */
  lemma KeysCollideIff(t: string, a: string, u: string, b: string)
    ensures t + "/" + a == u + "/" + b <==>
              || (t == u && a == b)
              || (exists m :: u == t + "/" + m && a == m + "/" + b)
              || (exists m :: t == u + "/" + m && b == m + "/" + a)
  {
    JoinsCollideIff(t, a, u, b, '/');
  }

  predicate SlashFree(s: string) {
    '/' !in s
  }

  lemma SlashFreeKeysDecide(t: string, a: string, u: string, b: string)
    requires (SlashFree(t) && SlashFree(u)) || (SlashFree(a) && SlashFree(b))
    requires t + "/" + a == u + "/" + b
    ensures t == u && a == b
  {
    KeysCollideIff(t, a, u, b);
    forall m ensures '/' in t + "/" + m && '/' in u + "/" + m && '/' in m + "/" + a && '/' in m + "/" + b {
      assert (t + "/" + m)[|t|] == '/' && (u + "/" + m)[|u|] == '/';
      assert (m + "/" + a)[|m|] == '/' && (m + "/" + b)[|m|] == '/';
    }
  }

  // ---------- who reads what ----------

  /** The report of the last job of `tenant` and `asset` to complete. */
  function LastFinished(finished: seq<Finish>, tenant: string, asset: string): Option<Report> {
    if finished == [] then None else
      var f := finished[|finished| - 1];
      if f.tenant == tenant && f.asset == asset then Some(f.report)
      else LastFinished(finished[..|finished| - 1], tenant, asset)
  }

  /** Neither the query nor any finished job makes the key ambiguous. */
  ghost predicate Unambiguous(finished: seq<Finish>, tenant: string, asset: string) {
    || (SlashFree(tenant) && forall f | f in finished :: SlashFree(f.tenant))
    || (SlashFree(asset) && forall f | f in finished :: SlashFree(f.asset))
  }

  lemma NormalizeTwice(t: string)
    ensures Normalize(Normalize(t)) == Normalize(t)
  {
    TrimTwice(t);
    PublicTenantIsNormal();
    hide Trim;
  }

  lemma PublicTenantIsNormal()
    ensures Trim(PUBLIC_TENANT) == PUBLIC_TENANT
  {
  }

  /** Stored tenant ids are normal. */
  ghost predicate TenantsNormal(w: World) {
    && (forall id | id in w.st.jobs :: Normalize(w.st.jobs[id].tenantId) == w.st.jobs[id].tenantId)
    && (forall f | f in w.finished :: Normalize(f.tenant) == f.tenant)
  }

  lemma NextFinishes(assetFor: string -> string, w: World, e: Event)
    ensures var w' := Next(assetFor, w, e);
            || (w'.finished == w.finished && w'.st.results == w.st.results)
            || (&& e.Advance? && e.id in w.st.jobs && e.id in w'.st.jobs && e.ending.ScanSucceeded?
                && var job := w'.st.jobs[e.id];
                && job.tenantId == w.st.jobs[e.id].tenantId
                && w'.finished == w.finished + [Finish(job.tenantId, job.assetId, e.ending.report)]
                && w'.st.results == w.st.results[ResultKey(job.tenantId, job.assetId) := e.ending.report])
  {
    hide Normalize, ResultKey, NewJob;
  }

  lemma NextKeepsTenantsNormal(assetFor: string -> string, w: World, e: Event)
    requires TenantsNormal(w)
    ensures TenantsNormal(Next(assetFor, w, e))
  {
    hide Next, Normalize, ResultKey;
    NextJobs(assetFor, w, e);
    NextFinishes(assetFor, w, e);
    if e.Queue? { NormalizeTwice(e.tenantId); }
  }

  /** The results map holds, under each key, the report of the last finish with that key. */
  function LastWithKey(finished: seq<Finish>, key: string): Option<Report> {
    if finished == [] then None else
      var f := finished[|finished| - 1];
      if f.tenant + "/" + f.asset == key then Some(f.report) else LastWithKey(finished[..|finished| - 1], key)
  }

  function Lookup(results: map<string, Report>, key: string): Option<Report> {
    if key in results then Some(results[key]) else None
  }

  lemma NextResults(assetFor: string -> string, w: World, e: Event, key: string)
    requires TenantsNormal(w) && Lookup(w.st.results, key) == LastWithKey(w.finished, key)
    ensures var w' := Next(assetFor, w, e); Lookup(w'.st.results, key) == LastWithKey(w'.finished, key)
  {
    hide Normalize, Next;
    NextFinishes(assetFor, w, e);
    var w' := Next(assetFor, w, e);
    if w'.finished != w.finished {
      assert w'.finished[..|w.finished|] == w.finished;
    }
  }

  lemma {:induction false} ResultsAreLastWithKey(assetFor: string -> string, es: seq<Event>, n: nat, key: string)
    requires n <= |es|
    ensures var w := WorldAt(assetFor, es, n);
            TenantsNormal(w) && Lookup(w.st.results, key) == LastWithKey(w.finished, key)
  {
    hide Next, Normalize;
    if n > 0 {
      ResultsAreLastWithKey(assetFor, es, n - 1, key);
      NextKeepsTenantsNormal(assetFor, WorldAt(assetFor, es, n - 1), es[n - 1]);
      NextResults(assetFor, WorldAt(assetFor, es, n - 1), es[n - 1], key);
    }
  }

  lemma {:induction false} KeysFindTheirOwn(finished: seq<Finish>, tenant: string, asset: string)
    requires Unambiguous(finished, tenant, asset)
    ensures LastWithKey(finished, tenant + "/" + asset) == LastFinished(finished, tenant, asset)
  {
    if finished != [] {
      var f := finished[|finished| - 1];
      assert f in finished;
      if f.tenant + "/" + f.asset == tenant + "/" + asset {
        SlashFreeKeysDecide(f.tenant, f.asset, tenant, asset);
      }
      KeysFindTheirOwn(finished[..|finished| - 1], tenant, asset);
    }
  }

  /** On every schedule a tenant reads the report of its own last job for that asset to complete, never
      another tenant's, as long as tenant ids, or else asset ids, contain no slash. */
  lemma TenantsReadTheirOwnLast(assetFor: string -> string, es: seq<Event>, n: nat, tenantId: string, asset: string)
    requires n <= |es|
    requires Unambiguous(WorldAt(assetFor, es, n).finished, Normalize(tenantId), asset)
    ensures var w := WorldAt(assetFor, es, n);
            GetResultForTenant(w.st, tenantId, asset) == LastFinished(w.finished, Normalize(tenantId), asset)
  {
    hide Normalize, WorldAt;
    ResultsAreLastWithKey(assetFor, es, n, ResultKey(tenantId, asset));
    KeysFindTheirOwn(WorldAt(assetFor, es, n).finished, Normalize(tenantId), asset);
  }

  /** On every schedule a queued job is visible, from then on, exactly to callers whose tenant id normalises to the
      one it was queued under. */
  lemma JobsAreVisibleToTheirTenant(assetFor: string -> string, es: seq<Event>, i: nat, n: nat, caller: string)
    requires i < n <= |es| && es[i].Queue? && es[i].id !in WorldAt(assetFor, es, i).st.jobs
    ensures GetScanForTenant(WorldAt(assetFor, es, n).st, caller, es[i].id).Some? <==>
            Normalize(caller) == Normalize(es[i].tenantId)
  {
    hide Normalize, Stage, EndScan;
    var id := es[i].id;
    JobsMatureOnEverySchedule(assetFor, es, i + 1, n);
    assert WorldAt(assetFor, es, i + 1) == Next(assetFor, WorldAt(assetFor, es, i), es[i]);
    var queued, later := WorldAt(assetFor, es, i + 1).st, WorldAt(assetFor, es, n).st;
    assert queued.jobs[id].tenantId == Normalize(es[i].tenantId);
    assert Matures(queued.jobs[id], later.jobs[id]);
    NormalizeTwice(es[i].tenantId);
  }

  /** A run in which a tenant id with a slash is enough: the job of tenant "a/b" for asset "c" is read by tenant "a"
      asking for "b/c", which never ran one. */
  lemma SlashesMayMixTenants(r: Report)
    ensures var assetFor: string -> string := target => "c";
            var go := Advance("1", ScanSucceeded(r, None));
            var w := WorldAt(assetFor, [Queue("1", "a/b", "t"), go, go, go], 4);
            GetResultForTenant(w.st, "a", "b/c") == Some(r) && LastFinished(w.finished, Normalize("a"), "b/c") == None
  {
    var assetFor: string -> string := target => "c";
    var go := Advance("1", ScanSucceeded(r, None));
    var es := [Queue("1", "a/b", "t"), go, go, go];
    SlashRun(assetFor, es, r);
    hide WorldAt;
    NormalIds();
    hide Normalize;
    assert "a/b" + "/" + "c" == "a" + "/" + "b/c";
    assert [Finish("a/b", "c", r)][..0] == [];
  }

  lemma NormalIds()
    ensures Normalize("a") == "a" && Normalize("a/b") == "a/b"
  {
    assert TrimLeft("a") == "a" == TrimRight("a") && TrimLeft("a/b") == "a/b" == TrimRight("a/b");
  }

  lemma SlashRun(assetFor: string -> string, es: seq<Event>, r: Report)
    requires var go := Advance("1", ScanSucceeded(r, None)); es == [Queue("1", "a/b", "t"), go, go, go]
    requires assetFor("t") == "c"
    ensures WorldAt(assetFor, es, 4).finished == [Finish("a/b", "c", r)]
    ensures WorldAt(assetFor, es, 4).st.results == map["a/b" + "/" + "c" := r]
  {
    NormalIds();
    hide Normalize;
    var w1, w2, w3 := WorldAt(assetFor, es, 1), WorldAt(assetFor, es, 2), WorldAt(assetFor, es, 3);
    assert w1 == Next(assetFor, EMPTY, es[0]) by { assert WorldAt(assetFor, es, 0) == EMPTY; }
    assert w1.st.jobs["1"] == NewJob(assetFor, "1", "a/b", "t") && w1.phase["1"] == 0;
    assert w2 == Next(assetFor, w1, es[1]) && w2.phase["1"] == 1;
    assert w3 == Next(assetFor, w2, es[2]) && w3.phase["1"] == 2;
    assert w3.st.jobs["1"].tenantId == "a/b" && w3.st.jobs["1"].assetId == "c";
    assert WorldAt(assetFor, es, 4) == Next(assetFor, w3, es[3]);
    assert [] + [Finish("a/b", "c", r)] == [Finish("a/b", "c", r)];
  }
}
