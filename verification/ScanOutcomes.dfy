/** What a scan job shows at any moment of any schedule, told by the events of its own goroutine alone. */
module ScanOutcomes {
  import opened Text
  import opened ScanManager

  /** The moments after `i` and before `n` at which the goroutine of job `id` enters a region. */
  function Steps(es: seq<Event>, id: string, i: nat, n: nat): set<int>
    requires n <= |es|
  {
    set j | i < j < n && es[j].Advance? && es[j].id == id
  }

  lemma StepsNext(es: seq<Event>, id: string, i: nat, n: nat)
    requires i < n < |es|
    ensures es[n].Advance? && es[n].id == id ==> |Steps(es, id, i, n + 1)| == |Steps(es, id, i, n)| + 1
    ensures !(es[n].Advance? && es[n].id == id) ==> Steps(es, id, i, n + 1) == Steps(es, id, i, n)
    ensures Steps(es, id, i, n) <= Steps(es, id, i, n + 1)
  {
    if es[n].Advance? && es[n].id == id {
      assert Steps(es, id, i, n + 1) == Steps(es, id, i, n) + {n};
    } else {
      assert Steps(es, id, i, n + 1) == Steps(es, id, i, n);
    }
  }

  /** The asset a finished job is filed under: the one persistence names, if it names one. */
  function FinalAsset(ending: Ending, asset: string): string {
    if ending.ScanSucceeded? && ending.persisted.Some? && ending.persisted.value != "" then ending.persisted.value
    else asset
  }

  predicate HasEnded(job: Job, ending: Ending, asset: string) {
    && job.assetId == FinalAsset(ending, asset)
    && (ending.ScanFailed? ==>
          job.status == Failed && job.progress == 0 && job.result == None && job.error == ending.error)
    && (ending.ScanSucceeded? ==>
          job.status == Completed && job.progress == 100 && job.result == Some(ending.report) && job.error == "")
  }

  /** The third region of the goroutine was entered at `e`. */
  ghost predicate EndsAt(es: seq<Event>, id: string, i: nat, n: nat, e: nat) {
    n <= |es| && e in Steps(es, id, i, n) && |Steps(es, id, i, e)| == 2
  }

  /** The job queued at `i` as its own events up to `n` leave it. */
  ghost predicate Shows(assetFor: string -> string, es: seq<Event>, i: nat, n: nat, job: Job)
    requires i < n <= |es| && es[i].Queue?
  {
    var q, k := es[i], |Steps(es, es[i].id, i, n)|;
    && job.id == q.id && job.target == q.target && job.tenantId == Normalize(q.tenantId)
    && (k == 0 ==> job.status == Pending && job.progress == 0)
    && (k == 1 ==> job.status == Running && job.progress == 10)
    && (k == 2 ==> job.status == Running && job.progress == 30)
    && (k < 3 ==> job.result == None && job.error == "" && job.assetId == assetFor(q.target))
    && (k >= 3 ==>
          exists e: nat :: EndsAt(es, q.id, i, n, e) && HasEnded(job, es[e].ending, assetFor(q.target)))
  }

  ghost predicate Tracks(assetFor: string -> string, es: seq<Event>, i: nat, n: nat, w: World)
    requires i < n <= |es| && es[i].Queue?
  {
    var id, k := es[i].id, |Steps(es, es[i].id, i, n)|;
    && id in w.st.jobs && id in w.phase && w.phase[id] == (if k < 3 then k else 3)
    && Shows(assetFor, es, i, n, w.st.jobs[id])
  }

  lemma QueuedShows(assetFor: string -> string, es: seq<Event>, i: nat, w: World)
    requires i < |es| && es[i].Queue? && es[i].id !in w.st.jobs
    ensures Tracks(assetFor, es, i, i + 1, Next(assetFor, w, es[i]))
  {
    hide Normalize;
    assert Steps(es, es[i].id, i, i + 1) == {};
  }

  /** What another event leaves alone. */
  lemma OthersLeave(assetFor: string -> string, w: World, e: Event, id: string)
    requires id in w.st.jobs && id in w.phase && !(e.Advance? && e.id == id && w.phase[id] < 3)
    ensures var w' := Next(assetFor, w, e);
            id in w'.st.jobs && id in w'.phase && w'.st.jobs[id] == w.st.jobs[id] && w'.phase[id] == w.phase[id]
  {
    hide Normalize, Stage;
    NextJobs(assetFor, w, e);
  }

  lemma Stepped(assetFor: string -> string, w: World, e: Event)
    requires e.Advance? && e.id in w.st.jobs && e.id in w.phase && w.phase[e.id] < 3
    ensures var w' := Next(assetFor, w, e);
            && e.id in w'.st.jobs && e.id in w'.phase && w'.phase[e.id] == w.phase[e.id] + 1
            && w'.st.jobs[e.id] == Stage(assetFor, w.st.jobs[e.id], w.phase[e.id], e.ending)
  {
    hide Normalize, ResultKey;
  }

  lemma StageShows(assetFor: string -> string, es: seq<Event>, i: nat, n: nat, job: Job)
    requires i < n < |es| && es[i].Queue? && es[n].Advance? && es[n].id == es[i].id
    requires Shows(assetFor, es, i, n, job) && |Steps(es, es[i].id, i, n)| < 3
    ensures Shows(assetFor, es, i, n + 1, Stage(assetFor, job, |Steps(es, es[i].id, i, n)|, es[n].ending))
  {
    hide Normalize, Steps;
    StepsNext(es, es[i].id, i, n);
    var k := |Steps(es, es[i].id, i, n)|;
    if k == 2 {
      assert n in Steps(es, es[i].id, i, n + 1) by { StepHere(es, i, n); }
      assert EndsAt(es, es[i].id, i, n + 1, n);
    }
  }

  lemma StepHere(es: seq<Event>, i: nat, n: nat)
    requires i < n < |es| && es[n].Advance? && es[i].Queue? && es[n].id == es[i].id
    ensures n in Steps(es, es[i].id, i, n + 1)
  {
  }

  lemma StillShows(assetFor: string -> string, es: seq<Event>, i: nat, n: nat, job: Job)
    requires i < n < |es| && es[i].Queue? && Shows(assetFor, es, i, n, job)
    requires !(es[n].Advance? && es[n].id == es[i].id) || |Steps(es, es[i].id, i, n)| >= 3
    ensures Shows(assetFor, es, i, n + 1, job)
  {
    hide Normalize, Steps, HasEnded;
    StepsNext(es, es[i].id, i, n);
    forall e: nat | EndsAt(es, es[i].id, i, n, e) ensures EndsAt(es, es[i].id, i, n + 1, e) {}
  }

  /** On every schedule a job shows exactly what its own goroutine has done: pending, running at 10, running at 30, and
      from its third region on, for good, how that region ended: the error of a failed scan; the report of a successful
      one, under the asset that persistence named or else the one derived from the target. */
  lemma {:induction false} JobsShowTheirHistory(assetFor: string -> string, es: seq<Event>, i: nat, n: nat)
    requires i < n <= |es| && es[i].Queue? && es[i].id !in WorldAt(assetFor, es, i).st.jobs
    ensures Tracks(assetFor, es, i, n, WorldAt(assetFor, es, n))
    decreases n
  {
    hide Next, Shows, Steps;
    if n == i + 1 {
      QueuedShows(assetFor, es, i, WorldAt(assetFor, es, i));
    } else {
      var m, w, id := n - 1, WorldAt(assetFor, es, n - 1), es[i].id;
      JobsShowTheirHistory(assetFor, es, i, m);
      StepsNext(es, id, i, m);
      if es[m].Advance? && es[m].id == id && |Steps(es, id, i, m)| < 3 {
        Stepped(assetFor, w, es[m]);
        StageShows(assetFor, es, i, m, w.st.jobs[id]);
      } else {
        OthersLeave(assetFor, w, es[m], id);
        StillShows(assetFor, es, i, m, w.st.jobs[id]);
      }
    }
  }

  /** A completed job's report is what its tenant reads next for the asset the job is filed under. */
  lemma CompletionIsReadable(assetFor: string -> string, es: seq<Event>, i: nat, e: nat)
    requires i < e < |es| && es[i].Queue? && es[i].id !in WorldAt(assetFor, es, i).st.jobs
    requires es[e].Advance? && es[e].id == es[i].id && |Steps(es, es[i].id, i, e)| == 2 && es[e].ending.ScanSucceeded?
    ensures var asset := FinalAsset(es[e].ending, assetFor(es[i].target));
            GetResultForTenant(WorldAt(assetFor, es, e + 1).st, es[i].tenantId, asset) == Some(es[e].ending.report)
  {
    hide Normalize, Shows, Steps;
    JobsShowTheirHistory(assetFor, es, i, e);
    var w := WorldAt(assetFor, es, e);
    QueuedIdentity(assetFor, es, i, e, w.st.jobs[es[i].id]);
    assert WorldAt(assetFor, es, e + 1) == Next(assetFor, w, es[e]);
    NormalizeTwice(es[i].tenantId);
  }

  lemma QueuedIdentity(assetFor: string -> string, es: seq<Event>, i: nat, n: nat, job: Job)
    requires i < n <= |es| && es[i].Queue? && Shows(assetFor, es, i, n, job) && |Steps(es, es[i].id, i, n)| == 2
    ensures job.target == es[i].target && job.tenantId == Normalize(es[i].tenantId)
    ensures job.assetId == assetFor(es[i].target)
  {
  }

  /** A tenant id loses exactly the blanks around it; one without anything else is the public tenant. */
  lemma NormalizeIsExact(t: string)
    ensures AllSpace(t) ==> Normalize(t) == PUBLIC_TENANT
    ensures !AllSpace(t) ==>
              exists a, b :: t == a + Normalize(t) + b && AllSpace(a) && AllSpace(b) && Normalize(t) != ""
                             && !IsSpace(Normalize(t)[0]) && !IsSpace(Normalize(t)[|Normalize(t)| - 1])
  {
    hide TrimLeft, TrimRight, Trim;
    TrimmedAwayOnBothSides(t);
    TrimIsExact(t);
  }
}
