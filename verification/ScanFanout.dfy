/** The concurrent scan: one worker per target appends its result under a mutex, in whatever order the
    scheduler picks; afterwards components are deduplicated and the summary is counted. */
module ScanFanout {
  import opened Text

  datatype Level = Critical | High | Medium | Low | Info | Unset

  function LevelText(l: Level): string {
    match l
    case Critical => "CRITICAL"
    case High => "HIGH"
    case Medium => "MEDIUM"
    case Low => "LOW"
    case Info => "INFO"
    case Unset => ""
  }

  datatype Finding = Finding(id: string, severity: Level, algorithm: string, keyLength: int, quantumSafe: bool,
                             bsiRef: string, targetLabel: string)

  datatype Component = Component(algorithm: string, keySize: int, library: string, version: string, riskLevel: Level,
                                 quantumSafe: bool, pqcStatus: string, location: string, bsiRef: string)

  /** What scanning one target yields. */
  datatype Scan = ScanError | Scanned(findings: seq<Finding>, components: seq<Component>)

  datatype Summary = Summary(
    totalTargets: nat, scannedTargets: nat, totalFindings: nat,
    critical: nat, high: nat, medium: nat, low: nat, quantumUnsafe: nat, bsiReferenced: nat,
    totalComponents: nat, atRisk: nat, quantumSafe: nat, pqcReady: nat)

  // ---------- specification: one schedule ----------

  datatype Collected = Collected(findings: seq<Finding>, components: seq<Component>, scanned: nat)

  function Record(c: Collected, scan: Scan): Collected {
    match scan
    case ScanError => c.(scanned := c.scanned + 1)
    case Scanned(findings, components) =>
      Collected(c.findings + findings, c.components + components, c.scanned + 1)
  }

  /** The workers' critical sections, one result after another. */
  function Collect(order: seq<Scan>): Collected {
    if order == [] then Collected([], [], 0) else Record(Collect(order[..|order| - 1]), order[|order| - 1])
  }

  /** Every worker enters its critical section exactly once, in some order. */
  ghost predicate IsSchedule(order: seq<Scan>, scans: seq<Scan>) {
    multiset(order) == multiset(scans)
  }

  function Key(c: Component): string {
    c.algorithm + "@" + c.library + "@" + c.version + "|" + LevelText(c.riskLevel)
  }

  function Keys(cs: seq<Component>): set<string> {
    set c | c in cs :: Key(c)
  }

  /** The first component of every key, in order. */
  function Dedupe(cs: seq<Component>): seq<Component> {
    if cs == [] then [] else
      var front, last := cs[..|cs| - 1], cs[|cs| - 1];
      if Key(last) in Keys(front) then Dedupe(front) else Dedupe(front) + [last]
  }

  function Count<T>(s: seq<T>, p: T -> bool): nat {
    if s == [] then 0 else Count(s[..|s| - 1], p) + (if p(s[|s| - 1]) then 1 else 0)
  }

  predicate IsCritical(f: Finding) { f.severity == Critical }
  predicate IsHigh(f: Finding) { f.severity == High }
  predicate IsMedium(f: Finding) { f.severity == Medium }
  predicate IsLow(f: Finding) { f.severity == Low }
  predicate IsUnsafe(f: Finding) { !f.quantumSafe }
  predicate HasBsiRef(f: Finding) { f.bsiRef != "" }
  predicate IsSafe(c: Component) { c.quantumSafe }
  predicate IsReady(c: Component) { c.pqcStatus == "pqc_ready" }
  predicate Any(c: Component) { true }

  predicate AtRisk(c: Component) {
    c.riskLevel == Critical || c.riskLevel == High
  }

  function Summarise(targets: nat, scanned: nat, fs: seq<Finding>, cs: seq<Component>): Summary {
    Summary(
      targets, scanned, |fs|,
      Count(fs, IsCritical), Count(fs, IsHigh),
      Count(fs, IsMedium), Count(fs, IsLow),
      Count(fs, IsUnsafe), Count(fs, HasBsiRef),
      |cs|, Count(cs, AtRisk), Count(cs, IsSafe),
      Count(cs, IsReady))
  }

  // ---------- the code ----------

  class Shared {
    var findings: seq<Finding>
    var components: seq<Component>
    var scanned: nat

    constructor ()
      ensures Value() == Collected([], [], 0)
    {
      findings, components, scanned := [], [], 0;
    }

    function Value(): Collected
      reads this
    {
      Collected(findings, components, scanned)
    }

    /** A worker's critical section. */
    method Enter(scan: Scan)
      modifies this
      ensures Value() == Record(old(Value()), scan)
    {
      scanned := scanned + 1;
      if scan.Scanned? {
        findings := findings + scan.findings;
        components := components + scan.components;
      }
    }
  }

  method DedupeComponents(cs: seq<Component>) returns (out: seq<Component>)
    ensures out == Dedupe(cs)
  {
    hide Key;
    var seen: set<string> := {};
    out := [];
    for i := 0 to |cs|
      invariant seen == Keys(cs[..i]) && out == Dedupe(cs[..i])
    {
      assert cs[..i + 1][..i] == cs[..i];
      assert Keys(cs[..i + 1]) == Keys(cs[..i]) + {Key(cs[i])};
      if Key(cs[i]) !in seen {
        seen := seen + {Key(cs[i])};
        out := out + [cs[i]];
      }
    }
    assert cs[..|cs|] == cs;
  }

  method ComputeSummary(targets: nat, scanned: nat, fs: seq<Finding>, cs: seq<Component>) returns (s: Summary)
    ensures s == Summarise(targets, scanned, fs, cs)
  {
    s := Summary(targets, scanned, |fs|, 0, 0, 0, 0, 0, 0, |cs|, 0, 0, 0);
    for i := 0 to |fs|
      invariant s == Summarise(targets, scanned, fs[..i], []).(totalFindings := |fs|, totalComponents := |cs|)
    {
      assert fs[..i + 1][..i] == fs[..i];
      var f := fs[i];
      match f.severity {
        case Critical => s := s.(critical := s.critical + 1);
        case High => s := s.(high := s.high + 1);
        case Medium => s := s.(medium := s.medium + 1);
        case Low => s := s.(low := s.low + 1);
        case _ =>
      }
      if !f.quantumSafe { s := s.(quantumUnsafe := s.quantumUnsafe + 1); }
      if f.bsiRef != "" { s := s.(bsiReferenced := s.bsiReferenced + 1); }
    }
    assert fs[..|fs|] == fs;
    for i := 0 to |cs|
      invariant s == Summarise(targets, scanned, fs, cs[..i]).(totalComponents := |cs|)
    {
      assert cs[..i + 1][..i] == cs[..i];
      var c := cs[i];
      if c.riskLevel == Critical || c.riskLevel == High { s := s.(atRisk := s.atRisk + 1); }
      if c.quantumSafe { s := s.(quantumSafe := s.quantumSafe + 1); }
      if c.pqcStatus == "pqc_ready" { s := s.(pqcReady := s.pqcReady + 1); }
    }
    assert cs[..|cs|] == cs;
  }

  /** The scheduler picks any waiting worker; nothing else is known about the order. */
  method ScanAll(scans: seq<Scan>) returns (findings: seq<Finding>, components: seq<Component>, summary: Summary)
    ensures exists order ::
              && IsSchedule(order, scans)
              && findings == Collect(order).findings
              && components == Dedupe(Collect(order).components)
              && summary == Summarise(|scans|, Collect(order).scanned, findings, components)
  {
    var shared := new Shared();
    var waiting := scans;
    ghost var order: seq<Scan> := [];
    while waiting != []
      invariant multiset(order) + multiset(waiting) == multiset(scans)
      invariant shared.Value() == Collect(order)
      decreases |waiting|
    {
      var w :| 0 <= w < |waiting|;
      shared.Enter(waiting[w]);
      assert (order + [waiting[w]])[..|order|] == order;
      assert waiting == waiting[..w] + [waiting[w]] + waiting[w + 1..];
      order := order + [waiting[w]];
      waiting := waiting[..w] + waiting[w + 1..];
    }
    findings := shared.findings;
    components := DedupeComponents(shared.components);
    summary := ComputeSummary(|scans|, shared.scanned, findings, components);
    assert IsSchedule(order, scans);
  }

  // ---------- schedules are permutations ----------

  function FindingsOf(scan: Scan): seq<Finding> {
    if scan.Scanned? then scan.findings else []
  }

  function ComponentsOf(scan: Scan): seq<Component> {
    if scan.Scanned? then scan.components else []
  }

  lemma CollectNext(order: seq<Scan>, w: Scan)
    ensures var c, d := Collect(order), Collect(order + [w]);
            d.findings == c.findings + FindingsOf(w) && d.components == c.components + ComponentsOf(w)
              && d.scanned == c.scanned + 1
  {
    assert (order + [w])[..|order|] == order;
    assert Collect(order).findings + [] == Collect(order).findings;
    assert Collect(order).components + [] == Collect(order).components;
  }

  /** The findings and components of a schedule without one worker, and that worker's. */
  lemma {:induction false} CollectSplits(a: seq<Scan>, w: Scan, b: seq<Scan>)
    ensures var all, rest := Collect(a + [w] + b), Collect(a + b);
            && multiset(all.findings) == multiset(rest.findings) + multiset(FindingsOf(w))
            && multiset(all.components) == multiset(rest.components) + multiset(ComponentsOf(w))
            && all.scanned == rest.scanned + 1
    decreases |b|
  {
    hide Collect, FindingsOf, ComponentsOf;
    if b == [] {
      assert a + [w] + b == a + [w] && a + b == a;
      CollectNext(a, w);
    } else {
      var front, last := b[..|b| - 1], b[|b| - 1];
      assert a + [w] + b == (a + [w] + front) + [last];
      assert a + b == (a + front) + [last];
      CollectNext(a + [w] + front, last);
      CollectNext(a + front, last);
      CollectSplits(a, w, front);
    }
  }

  /** Two orders of the same workers collect the same findings and components, each as often. */
  lemma {:induction false} OrdersCollectAlike(p: seq<Scan>, q: seq<Scan>)
    requires multiset(p) == multiset(q)
    ensures multiset(Collect(p).findings) == multiset(Collect(q).findings)
    ensures multiset(Collect(p).components) == multiset(Collect(q).components)
    ensures Collect(p).scanned == Collect(q).scanned == |p|
    decreases |p|
  {
    hide FindingsOf, ComponentsOf, Record;
    if p == [] {
      ReorderingsOfNothing(q);
    } else {
      var a, b := FindLast(p, q);
      var front, w := p[..|p| - 1], p[|p| - 1];
      OrdersCollectAlike(front, a + b);
      CollectSplits(a, w, b);
      assert front + [w] == p;
      CollectNext(front, w);
    }
  }

  // ---------- counts ----------

  lemma CountNext<T>(s: seq<T>, x: T, p: T -> bool)
    ensures Count(s + [x], p) == Count(s, p) + (if p(x) then 1 else 0)
  {
    assert (s + [x])[..|s|] == s;
  }

  lemma {:induction false} CountSplits<T>(a: seq<T>, x: T, b: seq<T>, p: T -> bool)
    ensures Count(a + [x] + b, p) == Count(a + b, p) + (if p(x) then 1 else 0)
    decreases |b|
  {
    hide Count;
    if b == [] {
      assert a + [x] + b == a + [x] && a + b == a;
      CountNext(a, x, p);
    } else {
      var front, last := b[..|b| - 1], b[|b| - 1];
      assert a + [x] + b == (a + [x] + front) + [last];
      assert a + b == (a + front) + [last];
      CountNext(a + [x] + front, last, p);
      CountNext(a + front, last, p);
      CountSplits(a, x, front, p);
    }
  }

  lemma {:induction false} CountIgnoresOrder<T>(s: seq<T>, t: seq<T>, p: T -> bool)
    requires multiset(s) == multiset(t)
    ensures Count(s, p) == Count(t, p)
    decreases |s|
  {
    if s == [] {
      ReorderingsOfNothing(t);
    } else {
      var a, b := FindLast(s, t);
      CountIgnoresOrder(s[..|s| - 1], a + b, p);
      CountSplits(a, s[|s| - 1], b, p);
    }
  }

  // ---------- the dedupe key ----------

  lemma LevelTextsDiffer(l: Level, m: Level)
    requires LevelText(l) == LevelText(m)
    ensures l == m
  {
    assert LevelText(High)[0] == 'H' && LevelText(Info)[0] == 'I';
  }

  /** The key is a concatenation, but it still determines the risk level. */
  lemma KeyDecidesRiskLevel(c: Component, d: Component)
    requires Key(c) == Key(d)
    ensures c.riskLevel == d.riskLevel
  {
    LastSplitIsUnique(c.algorithm + "@" + c.library + "@" + c.version, LevelText(c.riskLevel),
                      d.algorithm + "@" + d.library + "@" + d.version, LevelText(d.riskLevel), '|');
    LevelTextsDiffer(c.riskLevel, d.riskLevel);
  }

  /** The first component with key `k`. */
  function First(cs: seq<Component>, k: string): Option<Component> {
    if cs == [] then None else
      var front, last := First(cs[..|cs| - 1], k), cs[|cs| - 1];
      if front.Some? then front else if Key(last) == k then Some(last) else None
  }

  /** The component kept for key `k` satisfies `p`. */
  predicate KeptSatisfies(cs: seq<Component>, k: string, p: Component -> bool) {
    First(cs, k).Some? && p(First(cs, k).value)
  }

  lemma FirstOfNext(cs: seq<Component>, c: Component, k: string)
    ensures First(cs + [c], k) == if First(cs, k).Some? then First(cs, k) else if Key(c) == k then Some(c) else None
  {
    assert (cs + [c])[..|cs|] == cs;
  }

  lemma {:induction false} FirstHasKey(cs: seq<Component>, k: string)
    ensures First(cs, k).Some? <==> k in Keys(cs)
    ensures First(cs, k).Some? ==> First(cs, k).value in cs && Key(First(cs, k).value) == k
  {
    hide Key;
    if cs != [] {
      var front, last := cs[..|cs| - 1], cs[|cs| - 1];
      FirstHasKey(front, k);
      assert cs == front + [last];
    }
  }

  /** Deduplication keeps exactly the first component of every key. */
  lemma {:induction false} DedupeKeepsFirsts(cs: seq<Component>)
    ensures forall c :: c in Dedupe(cs) <==> First(cs, Key(c)) == Some(c)
  {
    hide Key, Keys, First;
    if cs == [] {
      forall c ensures First(cs, Key(c)) == None { FirstHasKey(cs, Key(c)); KeysOfNone(); }
    } else {
      var front, last := cs[..|cs| - 1], cs[|cs| - 1];
      DedupeKeepsFirsts(front);
      assert cs == front + [last];
      forall c ensures c in Dedupe(cs) <==> First(cs, Key(c)) == Some(c) {
        FirstOfNext(front, last, Key(c));
        FirstHasKey(front, Key(c));
      }
    }
  }

  lemma KeysOfNone()
    ensures Keys([]) == {}
  {
  }

  function KeptKeys(cs: seq<Component>, p: Component -> bool): set<string> {
    set k | k in Keys(cs) && KeptSatisfies(cs, k, p)
  }

  /** As many deduplicated components satisfy `p` as there are keys whose first component does. */
  lemma {:induction false} DedupeCountsKept(cs: seq<Component>, p: Component -> bool)
    ensures Count(Dedupe(cs), p) == |KeptKeys(cs, p)|
  {
    hide Key, Count, Keys, KeptKeys;
    if cs == [] {
      NothingCounted(p);
    } else {
      var front, last := cs[..|cs| - 1], cs[|cs| - 1];
      DedupeCountsKept(front, p);
      KeptKeysGrow(front, last, p);
      assert cs == front + [last];
      CountNext(Dedupe(front), last, p);
    }
  }

  lemma NothingCounted(p: Component -> bool)
    ensures Count([], p) == |KeptKeys([], p)|
  {
    assert KeptKeys([], p) == {};
  }

  lemma KeptKeysGrow(front: seq<Component>, last: Component, p: Component -> bool)
    ensures |KeptKeys(front + [last], p)|
         == |KeptKeys(front, p)| + (if Key(last) !in Keys(front) && p(last) then 1 else 0)
  {
    hide Key, KeptSatisfies, Keys;
    var before, after := KeptKeys(front, p), KeptKeys(front + [last], p);
    KeysNext(front, last);
    forall k
      ensures KeptSatisfies(front + [last], k, p)
          <==> KeptSatisfies(front, k, p) || (k == Key(last) && k !in Keys(front) && p(last))
      ensures KeptSatisfies(front, k, p) ==> k in Keys(front)
    {
      KeptNext(front, last, k, p);
    }
    assert after == before + if Key(last) !in Keys(front) && p(last) then {Key(last)} else {};
  }

  lemma KeysNext(front: seq<Component>, last: Component)
    ensures Keys(front + [last]) == Keys(front) + {Key(last)}
  {
    hide Key;
  }

  lemma KeptNext(front: seq<Component>, last: Component, k: string, p: Component -> bool)
    ensures KeptSatisfies(front + [last], k, p)
        <==> KeptSatisfies(front, k, p) || (k == Key(last) && k !in Keys(front) && p(last))
    ensures KeptSatisfies(front, k, p) ==> k in Keys(front)
  {
    hide Key, First, Keys;
    FirstOfNext(front, last, k);
    FirstHasKey(front, k);
  }

  function KeysWhere(cs: seq<Component>, p: Component -> bool): set<string> {
    set c | c in cs && p(c) :: Key(c)
  }

  /** Among these components the key determines `p`. */
  ghost predicate KeyDecides(cs: seq<Component>, p: Component -> bool) {
    forall c, d | c in cs && d in cs && Key(c) == Key(d) :: p(c) == p(d)
  }

  /** When the key determines `p`, deduplication keeps exactly one component for each key satisfying it. */
  lemma DedupeCounts(cs: seq<Component>, p: Component -> bool)
    requires KeyDecides(cs, p)
    ensures Count(Dedupe(cs), p) == |KeysWhere(cs, p)|
  {
    hide Key, Dedupe, Count, First;
    DedupeCountsKept(cs, p);
    forall k ensures k in KeptKeys(cs, p) <==> k in KeysWhere(cs, p) { FirstHasKey(cs, k); }
    assert KeptKeys(cs, p) == KeysWhere(cs, p);
  }

  lemma {:induction false} CountAll(cs: seq<Component>)
    ensures Count(cs, Any) == |cs|
  {
    if cs != [] { CountAll(cs[..|cs| - 1]); }
  }

  lemma DedupeIgnoresOrder(cs: seq<Component>, ds: seq<Component>, p: Component -> bool)
    requires multiset(cs) == multiset(ds) && KeyDecides(cs, p)
    ensures Count(Dedupe(cs), p) == Count(Dedupe(ds), p)
  {
    hide Key, Dedupe, Count;
    assert forall c :: c in cs <==> c in multiset(cs);
    assert forall c :: c in ds <==> c in multiset(ds);
    DedupeCounts(cs, p);
    DedupeCounts(ds, p);
    assert KeysWhere(cs, p) == KeysWhere(ds, p);
  }

  // ---------- every schedule ----------

  /** Every schedule reports every target as scanned and yields the same findings up to order; the finding
      counts, the number of distinct components and the number at risk are the same. */
  lemma SchedulesAgree(scans: seq<Scan>, p: seq<Scan>, q: seq<Scan>)
    requires IsSchedule(p, scans) && IsSchedule(q, scans)
    ensures var a, b := Collect(p), Collect(q);
            var s := Summarise(|scans|, a.scanned, a.findings, Dedupe(a.components));
            var t := Summarise(|scans|, b.scanned, b.findings, Dedupe(b.components));
            && a.scanned == |scans|
            && multiset(a.findings) == multiset(b.findings) == multiset(Collect(scans).findings)
            && s == t.(quantumSafe := s.quantumSafe, pqcReady := s.pqcReady)
  {
    hide Collect, Dedupe, Count;
    OrdersCollectAlike(scans, p);
    OrdersCollectAlike(p, q);
    FindingCountsAgree(Collect(p).findings, Collect(q).findings);
    ComponentCountsAgree(Collect(p).components, Collect(q).components);
  }

  lemma FindingCountsAgree(fs: seq<Finding>, gs: seq<Finding>)
    requires multiset(fs) == multiset(gs)
    ensures Summarise(0, 0, fs, []) == Summarise(0, 0, gs, [])
  {
    hide Count;
    assert |multiset(fs)| == |fs| && |multiset(gs)| == |gs|;
    CountIgnoresOrder(fs, gs, IsCritical);
    CountIgnoresOrder(fs, gs, IsHigh);
    CountIgnoresOrder(fs, gs, IsMedium);
    CountIgnoresOrder(fs, gs, IsLow);
    CountIgnoresOrder(fs, gs, IsUnsafe);
    CountIgnoresOrder(fs, gs, HasBsiRef);
  }

  lemma ComponentCountsAgree(cs: seq<Component>, ds: seq<Component>)
    requires multiset(cs) == multiset(ds)
    ensures |Dedupe(cs)| == |Dedupe(ds)| && Count(Dedupe(cs), AtRisk) == Count(Dedupe(ds), AtRisk)
  {
    hide Dedupe, Key, Count;
    forall c, d | Key(c) == Key(d) ensures AtRisk(c) == AtRisk(d) { KeyDecidesRiskLevel(c, d); }
    DedupeIgnoresOrder(cs, ds, AtRisk);
    DedupeIgnoresOrder(cs, ds, Any);
    CountAll(Dedupe(cs));
    CountAll(Dedupe(ds));
  }

  // ---------- what the key leaves open ----------

  /** The first component with key `k` that one worker delivers. */
  function HeadOf(scan: Scan, k: string): Option<Component> {
    First(ComponentsOf(scan), k)
  }

  lemma {:induction false} FirstOfConcat(a: seq<Component>, b: seq<Component>, k: string)
    ensures First(a + b, k) == if First(a, k).Some? then First(a, k) else First(b, k)
    decreases |b|
  {
    hide First, Key;
    if b == [] {
      assert a + b == a;
      FirstHasKey(b, k);
    } else {
      var front, last := b[..|b| - 1], b[|b| - 1];
      assert a + b == (a + front) + [last] && b == front + [last];
      FirstOfConcat(a, front, k);
      FirstOfNext(a + front, last, k);
      FirstOfNext(front, last, k);
    }
  }

  /** On a schedule the component kept for `k` is the head of the first worker to deliver one. */
  lemma {:induction false} KeptIsAHead(order: seq<Scan>, k: string)
    ensures First(Collect(order).components, k).None? <==> forall scan | scan in order :: HeadOf(scan, k).None?
    ensures First(Collect(order).components, k).Some? ==>
              exists scan :: scan in order && HeadOf(scan, k) == First(Collect(order).components, k)
    ensures order != [] && HeadOf(order[0], k).Some? ==> First(Collect(order).components, k) == HeadOf(order[0], k)
  {
    hide First, ComponentsOf, Collect;
    if order == [] {
      CollectNothing();
      FirstHasKey([], k);
      KeysOfNone();
    } else {
      var front, last := order[..|order| - 1], order[|order| - 1];
      assert order == front + [last];
      KeptIsAHead(front, k);
      CollectNext(front, last);
      FirstOfConcat(Collect(front).components, ComponentsOf(last), k);
      assert Collect(order).components == Collect(front).components + ComponentsOf(last);
      assert HeadOf(last, k) == First(ComponentsOf(last), k);
      assert forall scan :: scan in order <==> scan in front || scan == last;
      if front == [] {
        CollectNothing();
        FirstHasKey([], k);
        KeysOfNone();
      }
    }
  }

  lemma CollectNothing()
    ensures Collect([]) == Collected([], [], 0)
  {
  }

  /** Whether the component kept for `k` satisfies `p` is the same on every two schedules. */
  ghost predicate KeptIsFixed(scans: seq<Scan>, k: string, p: Component -> bool) {
    forall a, b | IsSchedule(a, scans) && IsSchedule(b, scans) ::
      KeptSatisfies(Collect(a).components, k, p) == KeptSatisfies(Collect(b).components, k, p)
  }

  /** Any two workers that deliver `k` deliver first components that agree on `p`. */
  predicate HeadsAgree(scans: seq<Scan>, k: string, p: Component -> bool) {
    forall s, t | s in scans && t in scans && HeadOf(s, k).Some? && HeadOf(t, k).Some? ::
      p(HeadOf(s, k).value) == p(HeadOf(t, k).value)
  }

  lemma ScheduleMembers(order: seq<Scan>, scans: seq<Scan>)
    requires IsSchedule(order, scans)
    ensures forall scan :: scan in order <==> scan in scans
  {
    assert forall scan :: scan in order <==> scan in multiset(order);
    assert forall scan :: scan in scans <==> scan in multiset(scans);
  }

  /** Some schedule starts with any given worker. */
  lemma ScheduleStartingWith(scans: seq<Scan>, s: Scan) returns (order: seq<Scan>)
    requires s in scans
    ensures IsSchedule(order, scans) && order != [] && order[0] == s
  {
    var i :| 0 <= i < |scans| && scans[i] == s;
    assert scans == scans[..i] + [s] + scans[i + 1..];
    order := [s] + (scans[..i] + scans[i + 1..]);
    assert multiset(order) == multiset{s} + multiset(scans[..i]) + multiset(scans[i + 1..]);
  }

  lemma FixedKeepsHeads(scans: seq<Scan>, k: string, p: Component -> bool, s: Scan, t: Scan)
    requires KeptIsFixed(scans, k, p) && s in scans && t in scans && HeadOf(s, k).Some? && HeadOf(t, k).Some?
    ensures p(HeadOf(s, k).value) == p(HeadOf(t, k).value)
  {
    hide IsSchedule, Collect, HeadOf, First;
    var a := ScheduleStartingWith(scans, s);
    var b := ScheduleStartingWith(scans, t);
    KeptIsAHead(a, k);
    KeptIsAHead(b, k);
    assert KeptSatisfies(Collect(a).components, k, p) == KeptSatisfies(Collect(b).components, k, p);
  }

  /** For a property the key leaves open, such as being quantum safe: what is kept for a key is independent of the
      schedule exactly when no two workers deliver the key with first components that differ in the property. */
  lemma KeptIsFixedIff(scans: seq<Scan>, k: string, p: Component -> bool)
    ensures KeptIsFixed(scans, k, p) <==> HeadsAgree(scans, k, p)
  {
    hide IsSchedule, Collect, HeadOf, First;
    if HeadsAgree(scans, k, p) {
      forall a, b | IsSchedule(a, scans) && IsSchedule(b, scans)
        ensures KeptSatisfies(Collect(a).components, k, p) == KeptSatisfies(Collect(b).components, k, p)
      {
        ScheduleMembers(a, scans);
        ScheduleMembers(b, scans);
        KeptIsAHead(a, k);
        KeptIsAHead(b, k);
      }
    }
    if KeptIsFixed(scans, k, p) {
      forall s, t | s in scans && t in scans && HeadOf(s, k).Some? && HeadOf(t, k).Some?
        ensures p(HeadOf(s, k).value) == p(HeadOf(t, k).value)
      {
        FixedKeepsHeads(scans, k, p, s, t);
      }
    }
  }

  lemma SchedulesShareKeys(scans: seq<Scan>, a: seq<Scan>, b: seq<Scan>)
    requires IsSchedule(a, scans) && IsSchedule(b, scans)
    ensures Keys(Collect(a).components) == Keys(Collect(b).components)
  {
    hide Collect, Key;
    OrdersCollectAlike(a, b);
    var cs, ds := Collect(a).components, Collect(b).components;
    assert forall c :: c in cs <==> c in multiset(cs);
    assert forall c :: c in ds <==> c in multiset(ds);
  }

  /** When the workers agree on every key, the count over the deduplicated components is schedule independent. */
  lemma AgreeingHeadsFixCounts(scans: seq<Scan>, a: seq<Scan>, b: seq<Scan>, p: Component -> bool)
    requires IsSchedule(a, scans) && IsSchedule(b, scans) && forall k :: HeadsAgree(scans, k, p)
    ensures Count(Dedupe(Collect(a).components), p) == Count(Dedupe(Collect(b).components), p)
  {
    hide IsSchedule, Collect, HeadsAgree, Dedupe, Count, Keys, KeptSatisfies;
    var cs, ds := Collect(a).components, Collect(b).components;
    DedupeCountsKept(cs, p);
    DedupeCountsKept(ds, p);
    SchedulesShareKeys(scans, a, b);
    forall k ensures KeptSatisfies(cs, k, p) == KeptSatisfies(ds, k, p) { KeptIsFixedIff(scans, k, p); }
    assert KeptKeys(cs, p) == KeptKeys(ds, p);
  }

  /** When the workers agree on safety and readiness for every key, every schedule reports the same summary. */
  lemma AgreeingHeadsFixSummaries(scans: seq<Scan>, a: seq<Scan>, b: seq<Scan>)
    requires IsSchedule(a, scans) && IsSchedule(b, scans)
    requires forall k :: HeadsAgree(scans, k, IsSafe) && HeadsAgree(scans, k, IsReady)
    ensures var c, d := Collect(a), Collect(b);
            Summarise(|scans|, c.scanned, c.findings, Dedupe(c.components))
            == Summarise(|scans|, d.scanned, d.findings, Dedupe(d.components))
  {
    hide IsSchedule, Collect, HeadsAgree, Dedupe, Count;
    SchedulesAgree(scans, a, b);
    AgreeingHeadsFixCounts(scans, a, b, IsSafe);
    AgreeingHeadsFixCounts(scans, a, b, IsReady);
  }

  /** Where they do not agree, both counts may depend on the schedule. */
  lemma SchedulesMayDisagree()
    ensures exists scans, p, q ::
              && IsSchedule(p, scans) && IsSchedule(q, scans)
              && Count(Dedupe(Collect(p).components), IsSafe) != Count(Dedupe(Collect(q).components), IsSafe)
              && Count(Dedupe(Collect(p).components), IsReady) != Count(Dedupe(Collect(q).components), IsReady)
  {
    hide Collect, Dedupe, Count, Key, Keys;
    var c := Component("A", 0, "", "", Low, true, "pqc_ready", "", "");
    var d := c.(quantumSafe := false, pqcStatus := "migration_required");
    var x, y := Scanned([], [c]), Scanned([], [d]);
    KeyIgnoresStatus(c, false, "migration_required");
    CollectPair(x, y);
    CollectPair(y, x);
    DedupePair(c, d, IsSafe);
    DedupePair(d, c, IsSafe);
    DedupePair(c, d, IsReady);
    DedupePair(d, c, IsReady);
    assert [c] + [d] == [c, d] && [d] + [c] == [d, c];
    assert IsSchedule([y, x], [x, y]) && IsSchedule([x, y], [x, y]);
  }

  lemma KeyIgnoresStatus(c: Component, safe: bool, status: string)
    ensures Key(c.(quantumSafe := safe, pqcStatus := status)) == Key(c)
  {
  }

  lemma CollectPair(x: Scan, y: Scan)
    ensures Collect([x, y]).components == ComponentsOf(x) + ComponentsOf(y)
  {
    assert [x, y][..1] == [x] && [x][..0] == [];
    assert Collect([x]) == Record(Collect([]), x);
  }

  lemma DedupePair(c: Component, d: Component, p: Component -> bool)
    requires Key(c) == Key(d)
    ensures Dedupe([c, d]) == [c] && Count([c], p) == if p(c) then 1 else 0
  {
    hide Key;
    assert [c, d][..1] == [c] && [c][..0] == [];
    assert Key(d) in Keys([c]) by { assert c in [c]; }
    assert Dedupe([c]) == Dedupe([]) + [c];
    assert Dedupe([c, d]) == Dedupe([c]);
  }

  lemma TwoWorkerSchedules(order: seq<Scan>, x: Scan, y: Scan)
    requires IsSchedule(order, [x, y])
    ensures order == [x, y] || order == [y, x]
  {
    assert |multiset(order)| == |order| && |multiset([x, y])| == 2;
    assert multiset([x, y]) == multiset{x, y};
    assert order == [order[0], order[1]];
    assert multiset(order) == multiset{order[0], order[1]};
    assert order[0] in multiset{x, y} && order[1] in multiset{x, y};
    assert x in multiset{order[0], order[1]} && y in multiset{order[0], order[1]};
  }

  lemma DedupeTwoPairs(a: Component, b: Component, c: Component, d: Component, p: Component -> bool)
    requires Key(a) == Key(c) && Key(b) == Key(d) && Key(a) != Key(b)
    ensures Count(Dedupe([a, b] + [c, d]), p) == (if p(a) then 1 else 0) + (if p(b) then 1 else 0)
  {
    hide Key;
    assert [a, b] + [c, d] == [a, b, c] + [d] && [a, b, c][..2] == [a, b] && [a, b][..1] == [a] && [a][..0] == [];
    assert a in [a, b, c] && b in [a, b, c] && a in [a, b];
    assert Dedupe([a]) == [a] && Dedupe([a, b]) == [a] + [b] && Dedupe([a, b, c]) == [a] + [b];
    assert ([a, b, c] + [d])[..3] == [a, b, c];
    assert Dedupe([a, b, c] + [d]) == [a] + [b];
    CountNext([a], b, p);
  }

  /** The condition is exact for what is kept, not for the count: over two keys differences can cancel out. */
  lemma CountsMayAgreeAnyway()
    ensures exists scans, k ::
              && !HeadsAgree(scans, k, IsSafe)
              && forall order | IsSchedule(order, scans) :: Count(Dedupe(Collect(order).components), IsSafe) == 1
  {
    hide Collect, Dedupe, Count, Key, IsSchedule, HeadsAgree;
    var a, b := Component("A", 0, "", "", Low, true, "", "", ""), Component("B", 0, "", "", Low, false, "", "", "");
    var c, d := a.(quantumSafe := false), b.(quantumSafe := true);
    var x, y := Scanned([], [a, b]), Scanned([], [c, d]);
    KeyIgnoresStatus(a, false, "");
    KeyIgnoresStatus(b, true, "");
    KeysStartWithAlgorithm(a, b);
    forall order | IsSchedule(order, [x, y]) ensures Count(Dedupe(Collect(order).components), IsSafe) == 1 {
      TwoWorkerSchedules(order, x, y);
      CollectPair(x, y);
      CollectPair(y, x);
      DedupeTwoPairs(a, b, c, d, IsSafe);
      DedupeTwoPairs(c, d, a, b, IsSafe);
    }
    HeadsOfPairs(a, b, c, d);
    assert !HeadsAgree([x, y], Key(a), IsSafe);
  }

  lemma KeysStartWithAlgorithm(a: Component, b: Component)
    requires a.algorithm == "A" && b.algorithm == "B"
    ensures Key(a) != Key(b)
  {
    assert Key(a)[0] == 'A' && Key(b)[0] == 'B';
  }

  lemma HeadsOfPairs(a: Component, b: Component, c: Component, d: Component)
    requires Key(a) == Key(c) && Key(a) != Key(b) && Key(a) != Key(d) && IsSafe(a) != IsSafe(c)
    ensures !HeadsAgree([Scanned([], [a, b]), Scanned([], [c, d])], Key(a), IsSafe)
  {
    hide Key;
    var x, y := Scanned([], [a, b]), Scanned([], [c, d]);
    assert [a, b][..1] == [a] && [a][..0] == [] && [c, d][..1] == [c] && [c][..0] == [];
    assert First([a], Key(a)) == Some(a) && First([c], Key(a)) == Some(c);
    assert HeadOf(x, Key(a)) == Some(a) && HeadOf(y, Key(a)) == Some(c);
    assert x in [x, y] && y in [x, y];
  }

  // ---------- components derived from findings ----------

  function FindingKey(f: Finding): string {
    f.algorithm + "|" + LevelText(f.severity)
  }

  function FindingKeys(fs: seq<Finding>): set<string> {
    set f | f in fs && f.algorithm != "" :: FindingKey(f)
  }

  function ComponentOf(f: Finding): Component {
    Component(f.algorithm, f.keyLength, "", "", f.severity, f.quantumSafe,
              if f.quantumSafe then "safe" else "migration_required", f.targetLabel, f.bsiRef)
  }

  /** One component for the first finding of every named algorithm and severity. */
  function FromFindings(fs: seq<Finding>): seq<Component> {
    if fs == [] then [] else
      var front, f := fs[..|fs| - 1], fs[|fs| - 1];
      if f.algorithm == "" || FindingKey(f) in FindingKeys(front) then FromFindings(front)
      else FromFindings(front) + [ComponentOf(f)]
  }

  method ComponentsFromFindings(fs: seq<Finding>) returns (out: seq<Component>)
    ensures out == FromFindings(fs)
  {
    hide FindingKey;
    var seen: set<string> := {};
    out := [];
    for i := 0 to |fs|
      invariant seen == FindingKeys(fs[..i]) && out == FromFindings(fs[..i])
    {
      assert fs[..i + 1][..i] == fs[..i];
      var f := fs[i];
      assert FindingKeys(fs[..i + 1]) == FindingKeys(fs[..i]) + if f.algorithm == "" then {} else {FindingKey(f)};
      if f.algorithm == "" { continue; }
      if FindingKey(f) in seen { continue; }
      seen := seen + {FindingKey(f)};
      out := out + [ComponentOf(f)];
    }
    assert fs[..|fs|] == fs;
  }

  /** The distinct named algorithms with their severities. */
  function NamedPairs(fs: seq<Finding>): set<(string, Level)> {
    set f | f in fs && f.algorithm != "" :: (f.algorithm, f.severity)
  }

  function PairKey(pair: (string, Level)): string {
    pair.0 + "@" + "" + "@" + "" + "|" + LevelText(pair.1)
  }

  function PairKeys(pairs: set<(string, Level)>): set<string> {
    set pair | pair in pairs :: PairKey(pair)
  }

  lemma PairKeysDiffer(p: (string, Level), q: (string, Level))
    requires PairKey(p) == PairKey(q)
    ensures p == q
  {
    var a, b := p.0 + "@" + "" + "@" + "", q.0 + "@" + "" + "@" + "";
    LastSplitIsUnique(a, LevelText(p.1), b, LevelText(q.1), '|');
    LevelTextsDiffer(p.1, q.1);
    assert p.0 == a[..|a| - 2] && q.0 == b[..|b| - 2];
  }

  lemma FindingKeyDecides(f: Finding, g: Finding)
    requires FindingKey(f) == FindingKey(g)
    ensures f.algorithm == g.algorithm && f.severity == g.severity
  {
    LastSplitIsUnique(f.algorithm, LevelText(f.severity), g.algorithm, LevelText(g.severity), '|');
    LevelTextsDiffer(f.severity, g.severity);
  }

  lemma ComponentKey(f: Finding)
    ensures Key(ComponentOf(f)) == PairKey((f.algorithm, f.severity))
  {
  }

  lemma PairsNext(front: seq<Finding>, f: Finding)
    ensures PairKeys(NamedPairs(front + [f]))
         == PairKeys(NamedPairs(front)) + if f.algorithm == "" then {} else {PairKey((f.algorithm, f.severity))}
  {
    hide PairKey;
    assert NamedPairs(front + [f]) == NamedPairs(front) + if f.algorithm == "" then {} else {(f.algorithm, f.severity)};
  }

  lemma SeenPair(front: seq<Finding>, f: Finding)
    requires f.algorithm != "" && FindingKey(f) in FindingKeys(front)
    ensures PairKey((f.algorithm, f.severity)) in PairKeys(NamedPairs(front))
  {
    hide FindingKey, PairKey;
    var g :| g in front && g.algorithm != "" && FindingKey(g) == FindingKey(f);
    FindingKeyDecides(f, g);
    assert (g.algorithm, g.severity) in NamedPairs(front);
  }

  /** Collapsing by the finding key loses no component key. */
  lemma {:induction false} FindingsGiveKeys(fs: seq<Finding>)
    ensures Keys(FromFindings(fs)) == PairKeys(NamedPairs(fs))
  {
    hide FindingKey, FindingKeys, Key, PairKey;
    if fs != [] {
      var front, f := fs[..|fs| - 1], fs[|fs| - 1];
      FindingsGiveKeys(front);
      assert fs == front + [f];
      PairsNext(front, f);
      hide NamedPairs, PairKeys, Keys;
      if f.algorithm != "" {
        if FindingKey(f) in FindingKeys(front) {
          SeenPair(front, f);
        } else {
          ComponentKey(f);
          KeysOfConcat(FromFindings(front), [ComponentOf(f)]);
          KeysOfOne(ComponentOf(f));
        }
      }
    }
  }

  lemma KeysOfOne(c: Component)
    ensures Keys([c]) == {Key(c)}
  {
  }

  lemma KeysOfConcat(a: seq<Component>, b: seq<Component>)
    ensures Keys(a + b) == Keys(a) + Keys(b)
  {
  }

  lemma {:induction false} PairKeysCount(pairs: set<(string, Level)>)
    ensures |PairKeys(pairs)| == |pairs|
  {
    hide PairKey;
    if pairs != {} {
      var p :| p in pairs;
      var rest := pairs - {p};
      PairKeysCount(rest);
      assert PairKeys(pairs) == PairKeys(rest) + {PairKey(p)};
      if PairKey(p) in PairKeys(rest) {
        var q :| q in rest && PairKey(q) == PairKey(p);
        PairKeysDiffer(p, q);
      }
    }
  }

  /** A result of one of the network scanners: its components come from its findings. */
  predicate FromNetwork(scan: Scan) {
    scan.Scanned? ==> scan.components == FromFindings(scan.findings)
  }

  lemma {:induction false} CollectedKeys(order: seq<Scan>)
    requires forall scan | scan in order :: FromNetwork(scan)
    ensures Keys(Collect(order).components) == PairKeys(NamedPairs(Collect(order).findings))
  {
    hide Key, PairKey, FromFindings;
    if order != [] {
      var front, last := order[..|order| - 1], order[|order| - 1];
      assert order == front + [last];
      CollectedKeys(front);
      if last.Scanned? {
        FindingsGiveKeys(last.findings);
        assert FromNetwork(last);
        KeysOfConcat(Collect(front).components, last.components);
        var a, b := Collect(front).findings, last.findings;
        assert Collect(order).findings == a + b;
        assert Collect(order).components == Collect(front).components + last.components;
        assert NamedPairs(a + b) == NamedPairs(a) + NamedPairs(b);
        assert PairKeys(NamedPairs(a + b)) == PairKeys(NamedPairs(a)) + PairKeys(NamedPairs(b));
      }
    }
  }

  /** After a scan of network targets only, the summary counts one component per algorithm and severity found
      anywhere, although findings are collapsed per target and components once more over all targets. */
  lemma NetworkComponentsAreDistinctPairs(order: seq<Scan>)
    requires forall scan | scan in order :: FromNetwork(scan)
    ensures |Dedupe(Collect(order).components)| == |NamedPairs(Collect(order).findings)|
  {
    hide Key, PairKey, Collect, Dedupe, Count, FromNetwork;
    var cs := Collect(order).components;
    CollectedKeys(order);
    PairKeysCount(NamedPairs(Collect(order).findings));
    DedupeCounts(cs, Any);
    CountAll(Dedupe(cs));
    assert KeysWhere(cs, Any) == Keys(cs);
  }
}
