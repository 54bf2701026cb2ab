/** What the numbers of a scan summary count, over one list and over every schedule of the workers. */
module ScanCounts {
  import opened Text
  import opened ScanFanout

  // ---------- over one list ----------

  /** The places of a list that satisfy `p`. */
  function Places<T>(s: seq<T>, p: T -> bool): set<int> {
    set i | 0 <= i < |s| && p(s[i])
  }

  lemma {:induction false} CountIsCardinality<T>(s: seq<T>, p: T -> bool)
    ensures Count(s, p) == |Places(s, p)|
  {
    if s != [] {
      CountIsCardinality(s[..|s| - 1], p);
      PlacesNext(s[..|s| - 1], s[|s| - 1], p);
      assert s == s[..|s| - 1] + [s[|s| - 1]];
    }
  }

  lemma PlacesNext<T>(front: seq<T>, last: T, p: T -> bool)
    ensures |Places(front + [last], p)| == |Places(front, p)| + (if p(last) then 1 else 0)
  {
    assert Places(front + [last], p) == Places(front, p) + if p(last) then {|front|} else {};
  }

  /** Every number of a summary is the number of places of the list it is about. */
  lemma SummaryCountsFindings(targets: nat, scanned: nat, fs: seq<Finding>, cs: seq<Component>)
    ensures var s := Summarise(targets, scanned, fs, cs);
            && s.totalTargets == targets && s.scannedTargets == scanned && s.totalFindings == |fs|
            && s.critical == |Places(fs, (f: Finding) => f.severity == Critical)|
            && s.high == |Places(fs, (f: Finding) => f.severity == High)|
            && s.medium == |Places(fs, (f: Finding) => f.severity == Medium)|
            && s.low == |Places(fs, (f: Finding) => f.severity == Low)|
            && s.quantumUnsafe == |Places(fs, (f: Finding) => !f.quantumSafe)|
            && s.bsiReferenced == |Places(fs, (f: Finding) => f.bsiRef != "")|
  {
    hide Count;
    CountIsCardinality(fs, IsCritical);
    CountIsCardinality(fs, IsHigh);
    CountIsCardinality(fs, IsMedium);
    CountIsCardinality(fs, IsLow);
    CountIsCardinality(fs, IsUnsafe);
    CountIsCardinality(fs, HasBsiRef);
    assert Places(fs, IsCritical) == Places(fs, (f: Finding) => f.severity == Critical);
    assert Places(fs, IsHigh) == Places(fs, (f: Finding) => f.severity == High);
    assert Places(fs, IsMedium) == Places(fs, (f: Finding) => f.severity == Medium);
    assert Places(fs, IsLow) == Places(fs, (f: Finding) => f.severity == Low);
    assert Places(fs, IsUnsafe) == Places(fs, (f: Finding) => !f.quantumSafe);
    assert Places(fs, HasBsiRef) == Places(fs, (f: Finding) => f.bsiRef != "");
  }

  lemma SummaryCountsComponents(targets: nat, scanned: nat, fs: seq<Finding>, cs: seq<Component>)
    ensures var s := Summarise(targets, scanned, fs, cs);
            && s.totalComponents == |cs|
            && s.atRisk == |Places(cs, (c: Component) => c.riskLevel in {Critical, High})|
            && s.quantumSafe == |Places(cs, (c: Component) => c.quantumSafe)|
            && s.pqcReady == |Places(cs, (c: Component) => c.pqcStatus == "pqc_ready")|
  {
    hide Count;
    CountIsCardinality(cs, AtRisk);
    CountIsCardinality(cs, IsSafe);
    CountIsCardinality(cs, IsReady);
    assert Places(cs, AtRisk) == Places(cs, (c: Component) => c.riskLevel in {Critical, High});
    assert Places(cs, IsSafe) == Places(cs, (c: Component) => c.quantumSafe);
    assert Places(cs, IsReady) == Places(cs, (c: Component) => c.pqcStatus == "pqc_ready");
  }

  // ---------- over a schedule ----------

  /** The findings with `p`, as pairs of a successful scan and a place in its findings. */
  function Found(scans: seq<Scan>, p: Finding -> bool): set<(int, int)> {
    set i, j | 0 <= i < |scans| && scans[i].Scanned? && 0 <= j < |scans[i].findings| && p(scans[i].findings[j]) ::
      (i, j)
  }

  /** The keys of the components with `p` that successful scans deliver. */
  function Delivered(scans: seq<Scan>, p: Component -> bool): set<string> {
    set i, j | 0 <= i < |scans| && scans[i].Scanned? && 0 <= j < |scans[i].components| && p(scans[i].components[j]) ::
      Key(scans[i].components[j])
  }

  lemma {:induction false} CountConcat<T>(a: seq<T>, b: seq<T>, p: T -> bool)
    ensures Count(a + b, p) == Count(a, p) + Count(b, p)
    decreases |b|
  {
    hide Count;
    if b == [] {
      assert a + b == a;
      NoneCounted(p);
    } else {
      var front, last := b[..|b| - 1], b[|b| - 1];
      assert a + b == (a + front) + [last] && b == front + [last];
      CountConcat(a, front, p);
      CountNext(a + front, last, p);
      CountNext(front, last, p);
    }
  }

  lemma NoneCounted<T>(p: T -> bool)
    ensures Count([], p) == 0
  {
  }

  function Row(i: int, fs: seq<Finding>, p: Finding -> bool): set<(int, int)> {
    set j | 0 <= j < |fs| && p(fs[j]) :: (i, j)
  }

  lemma {:induction false} RowSize(i: int, fs: seq<Finding>, p: Finding -> bool)
    ensures |Row(i, fs, p)| == Count(fs, p)
  {
    if fs != [] {
      var front, n := fs[..|fs| - 1], |fs| - 1;
      RowSize(i, front, p);
      assert Row(i, fs, p) == Row(i, front, p) + if p(fs[n]) then {(i, n)} else {};
    }
  }

  lemma {:induction false} FoundSize(scans: seq<Scan>, p: Finding -> bool)
    ensures |Found(scans, p)| == Count(Collect(scans).findings, p)
  {
    hide Count, Row, Collect;
    if scans == [] {
      CollectNothing();
      NoneCounted(p);
      assert Found(scans, p) == {};
    } else {
      var front, last, n := scans[..|scans| - 1], scans[|scans| - 1], |scans| - 1;
      assert scans == front + [last];
      FoundSize(front, p);
      CollectNext(front, last);
      CountConcat(Collect(front).findings, FindingsOf(last), p);
      RowSize(n, FindingsOf(last), p);
      FoundNext(front, last, p);
    }
  }

  lemma FoundNext(front: seq<Scan>, last: Scan, p: Finding -> bool)
    ensures |Found(front + [last], p)| == |Found(front, p)| + |Row(|front|, FindingsOf(last), p)|
  {
    var all, row := front + [last], Row(|front|, FindingsOf(last), p);
    forall i | 0 <= i < |front| ensures all[i] == front[i] {}
    assert all[|front|] == last;
    assert Found(all, p) == Found(front, p) + row;
    assert Found(front, p) !! row;
  }

  lemma {:induction false} DeliveredKeys(scans: seq<Scan>, p: Component -> bool)
    ensures Delivered(scans, p) == KeysWhere(Collect(scans).components, p)
  {
    hide Key, Collect;
    if scans == [] {
      CollectNothing();
    } else {
      var front, last := scans[..|scans| - 1], scans[|scans| - 1];
      assert scans == front + [last];
      DeliveredKeys(front, p);
      CollectNext(front, last);
      DeliveredNext(front, last, p);
      var a, b := Collect(front).components, ComponentsOf(last);
      assert KeysWhere(a + b, p) == KeysWhere(a, p) + KeysWhere(b, p);
    }
  }

  lemma DeliveredNext(front: seq<Scan>, last: Scan, p: Component -> bool)
    ensures Delivered(front + [last], p) == Delivered(front, p) + KeysWhere(ComponentsOf(last), p)
  {
    hide Key;
    var all := front + [last];
    forall k ensures k in Delivered(all, p) <==> k in Delivered(front, p) || k in KeysWhere(ComponentsOf(last), p) {
      if k in Delivered(front, p) {
        var i, j :| 0 <= i < |front| && front[i].Scanned? && 0 <= j < |front[i].components|
                    && p(front[i].components[j]) && k == Key(front[i].components[j]);
        assert all[i] == front[i];
      }
      if k in KeysWhere(ComponentsOf(last), p) {
        var c :| c in ComponentsOf(last) && p(c) && k == Key(c);
        var j :| 0 <= j < |last.components| && last.components[j] == c;
        assert all[|front|] == last;
      }
    }
  }

  lemma FoundOnSchedule(scans: seq<Scan>, order: seq<Scan>, p: Finding -> bool)
    requires IsSchedule(order, scans)
    ensures Count(Collect(order).findings, p) == |Found(scans, p)|
  {
    hide Count, Collect, Found;
    OrdersCollectAlike(order, scans);
    CountIgnoresOrder(Collect(order).findings, Collect(scans).findings, p);
    FoundSize(scans, p);
  }

  lemma DeliveredOnSchedule(scans: seq<Scan>, order: seq<Scan>, p: Component -> bool)
    requires IsSchedule(order, scans) && KeyDecides(Collect(order).components, p)
    ensures Count(Dedupe(Collect(order).components), p) == |Delivered(scans, p)|
  {
    hide Key, Count, Collect, Dedupe, Delivered;
    OrdersCollectAlike(order, scans);
    var cs, ds := Collect(order).components, Collect(scans).components;
    assert forall c :: c in cs <==> c in multiset(cs);
    assert forall c :: c in ds <==> c in multiset(ds);
    DedupeIgnoresOrder(cs, ds, p);
    DedupeCounts(ds, p);
    DeliveredKeys(scans, p);
  }

  /** On every schedule: each severity counter is the number of findings of that severity of all successful scans, the
      components are as many as the distinct keys delivered, and those at risk as many as the keys of components at
      risk. */
  lemma ScheduleSummary(scans: seq<Scan>, order: seq<Scan>)
    requires IsSchedule(order, scans)
    ensures var c := Collect(order);
            var s := Summarise(|scans|, c.scanned, c.findings, Dedupe(c.components));
            && s.totalTargets == s.scannedTargets == |scans|
            && s.totalFindings == |Found(scans, (f: Finding) => true)|
            && s.critical == |Found(scans, (f: Finding) => f.severity == Critical)|
            && s.high == |Found(scans, (f: Finding) => f.severity == High)|
            && s.medium == |Found(scans, (f: Finding) => f.severity == Medium)|
            && s.low == |Found(scans, (f: Finding) => f.severity == Low)|
            && s.quantumUnsafe == |Found(scans, (f: Finding) => !f.quantumSafe)|
            && s.bsiReferenced == |Found(scans, (f: Finding) => f.bsiRef != "")|
            && s.totalComponents == |Delivered(scans, (c: Component) => true)|
            && s.atRisk == |Delivered(scans, (c: Component) => c.riskLevel in {Critical, High})|
  {
    hide Count, Collect, Dedupe, Key;
    var c := Collect(order);
    OrdersCollectAlike(order, scans);
    assert |multiset(order)| == |order| && |multiset(scans)| == |scans|;
    ScheduleFindings(scans, order);
    CountAllFindings(c.findings);
    FoundOnSchedule(scans, order, (f: Finding) => true);
    forall c, d | Key(c) == Key(d) ensures AtRisk(c) == AtRisk(d) { KeyDecidesRiskLevel(c, d); }
    DeliveredOnSchedule(scans, order, AtRisk);
    DeliveredOnSchedule(scans, order, Any);
    CountAll(Dedupe(c.components));
    assert Delivered(scans, Any) == Delivered(scans, (c: Component) => true);
    assert Delivered(scans, AtRisk) == Delivered(scans, (c: Component) => c.riskLevel in {Critical, High});
  }

  lemma {:induction false} CountAllFindings(fs: seq<Finding>)
    ensures Count(fs, (f: Finding) => true) == |fs|
  {
    if fs != [] { CountAllFindings(fs[..|fs| - 1]); }
  }

  lemma ScheduleFindings(scans: seq<Scan>, order: seq<Scan>)
    requires IsSchedule(order, scans)
    ensures var fs := Collect(order).findings;
            && Count(fs, IsCritical) == |Found(scans, (f: Finding) => f.severity == Critical)|
            && Count(fs, IsHigh) == |Found(scans, (f: Finding) => f.severity == High)|
            && Count(fs, IsMedium) == |Found(scans, (f: Finding) => f.severity == Medium)|
            && Count(fs, IsLow) == |Found(scans, (f: Finding) => f.severity == Low)|
            && Count(fs, IsUnsafe) == |Found(scans, (f: Finding) => !f.quantumSafe)|
            && Count(fs, HasBsiRef) == |Found(scans, (f: Finding) => f.bsiRef != "")|
  {
    hide Count, Collect;
    FoundOnSchedule(scans, order, IsCritical);
    FoundOnSchedule(scans, order, IsHigh);
    FoundOnSchedule(scans, order, IsMedium);
    FoundOnSchedule(scans, order, IsLow);
    FoundOnSchedule(scans, order, IsUnsafe);
    FoundOnSchedule(scans, order, HasBsiRef);
    assert Found(scans, IsCritical) == Found(scans, (f: Finding) => f.severity == Critical);
    assert Found(scans, IsHigh) == Found(scans, (f: Finding) => f.severity == High);
    assert Found(scans, IsMedium) == Found(scans, (f: Finding) => f.severity == Medium);
    assert Found(scans, IsLow) == Found(scans, (f: Finding) => f.severity == Low);
    assert Found(scans, IsUnsafe) == Found(scans, (f: Finding) => !f.quantumSafe);
    assert Found(scans, HasBsiRef) == Found(scans, (f: Finding) => f.bsiRef != "");
  }

  // ---------- keys and derived components ----------

  /** When algorithm and library hold no '@', components share a key exactly when they agree in all four parts. */
  lemma KeysAgreeIff(c: Component, d: Component)
    requires '@' !in c.algorithm && '@' !in d.algorithm && '@' !in c.library && '@' !in d.library
    ensures Key(c) == Key(d) <==>
            c.algorithm == d.algorithm && c.library == d.library && c.version == d.version && c.riskLevel == d.riskLevel
  {
    hide LevelText;
    if Key(c) == Key(d) {
      KeyDecidesRiskLevel(c, d);
      var a, b := c.algorithm + "@" + c.library + "@" + c.version, d.algorithm + "@" + d.library + "@" + d.version;
      var t := "|" + LevelText(c.riskLevel);
      assert Key(c) == a + t && Key(d) == b + t;
      assert a == Key(c)[..|Key(c)| - |t|] == b;
      var x, y := c.library + "@" + c.version, d.library + "@" + d.version;
      assert a == c.algorithm + ['@'] + x && b == d.algorithm + ['@'] + y;
      FirstSplitIsUnique(c.algorithm, x, d.algorithm, y, '@');
      assert x == c.library + ['@'] + c.version && y == d.library + ['@'] + d.version;
      FirstSplitIsUnique(c.library, c.version, d.library, d.version, '@');
    }
  }

  /** Finding `i` is the first that names its algorithm with its severity. */
  predicate FirstNamed(fs: seq<Finding>, i: int) {
    && 0 <= i < |fs| && fs[i].algorithm != ""
    && forall j | 0 <= j < i :: fs[j].algorithm != fs[i].algorithm || fs[j].severity != fs[i].severity
  }

  /** The component says of the algorithm what the finding says. */
  predicate Describes(c: Component, f: Finding) {
    && c.algorithm == f.algorithm && c.keySize == f.keyLength && c.library == "" && c.version == ""
    && c.riskLevel == f.severity && c.quantumSafe == f.quantumSafe
    && c.pqcStatus == (if f.quantumSafe then "safe" else "migration_required")
    && c.location == f.targetLabel && c.bsiRef == f.bsiRef
  }

  lemma DescribedOnce(c: Component, f: Finding)
    ensures Describes(c, f) <==> c == ComponentOf(f)
  {
  }

  lemma SeenBefore(front: seq<Finding>, f: Finding)
    requires f.algorithm != ""
    ensures FindingKey(f) in FindingKeys(front) <==>
            exists j :: 0 <= j < |front| && front[j].algorithm == f.algorithm && front[j].severity == f.severity
  {
    hide FindingKey;
    if FindingKey(f) in FindingKeys(front) {
      var g :| g in front && g.algorithm != "" && FindingKey(g) == FindingKey(f);
      FindingKeyDecides(f, g);
      var j :| 0 <= j < |front| && front[j] == g;
    }
    if j :| 0 <= j < |front| && front[j].algorithm == f.algorithm && front[j].severity == f.severity {
      assert front[j] in front;
      SameKey(f, front[j]);
    }
  }

  lemma SameKey(f: Finding, g: Finding)
    requires f.algorithm == g.algorithm && f.severity == g.severity
    ensures FindingKey(f) == FindingKey(g)
  {
  }

  ghost predicate DescribesAFirst(fs: seq<Finding>, c: Component) {
    exists i :: FirstNamed(fs, i) && Describes(c, fs[i])
  }

  lemma FirstNamedNext(front: seq<Finding>, f: Finding, i: int)
    requires 0 <= i < |front|
    ensures FirstNamed(front + [f], i) <==> FirstNamed(front, i)
  {
    assert forall j | 0 <= j <= i :: (front + [f])[j] == front[j];
  }

  lemma DescribedNext(front: seq<Finding>, f: Finding, c: Component)
    ensures DescribesAFirst(front + [f], c) <==>
            DescribesAFirst(front, c) || (FirstNamed(front + [f], |front|) && Describes(c, f))
  {
    hide Describes, FirstNamed;
    var fs := front + [f];
    assert fs[|front|] == f;
    forall i | 0 <= i < |front| ensures fs[i] == front[i] && (FirstNamed(fs, i) <==> FirstNamed(front, i)) {
      FirstNamedNext(front, f, i);
    }
    FirstNamedInRange(front);
    FirstNamedInRange(fs);
  }

  lemma FirstNamedInRange(fs: seq<Finding>)
    ensures forall i | FirstNamed(fs, i) :: 0 <= i < |fs|
  {
  }

  lemma LastNamed(front: seq<Finding>, f: Finding)
    ensures FirstNamed(front + [f], |front|) <==> f.algorithm != "" && FindingKey(f) !in FindingKeys(front)
  {
    hide FindingKey, FindingKeys;
    if f.algorithm != "" { SeenBefore(front, f); }
    var fs := front + [f];
    assert fs[|front|] == f && forall j | 0 <= j < |front| :: fs[j] == front[j];
  }

  /** The components derived from findings are exactly those that describe the first finding of each named algorithm and
      severity. */
  lemma {:induction false} ComponentsDescribeFindings(fs: seq<Finding>)
    ensures forall c :: c in FromFindings(fs) <==> DescribesAFirst(fs, c)
  {
    hide FindingKey, FindingKeys, Describes, FirstNamed;
    if fs == [] {
      FirstNamedInRange(fs);
    } else {
      var front, f := fs[..|fs| - 1], fs[|fs| - 1];
      ComponentsDescribeFindings(front);
      assert fs == front + [f];
      LastNamed(front, f);
      forall c ensures c in FromFindings(fs) <==> DescribesAFirst(fs, c) {
        DescribedNext(front, f, c);
        DescribedOnce(c, f);
      }
    }
  }

  // ---------- order ----------

  predicate Ascends(at: seq<nat>) {
    forall a, b | 0 <= a < b < |at| :: at[a] < at[b]
  }

  /** No earlier component has the key of this one. */
  ghost predicate FirstWithKey(cs: seq<Component>, i: nat) {
    i < |cs| && forall j | 0 <= j < i :: Key(cs[j]) != Key(cs[i])
  }

  /** Deduplication keeps the places that are first with their key, all of them, in the order of the list. */
  lemma {:induction false} DedupeKeepsOrder(cs: seq<Component>) returns (at: seq<nat>)
    ensures Ascends(at) && |at| == |Dedupe(cs)|
    ensures forall a | 0 <= a < |at| :: at[a] < |cs| && Dedupe(cs)[a] == cs[at[a]]
    ensures forall i: nat :: i in at <==> FirstWithKey(cs, i)
  {
    hide Key;
    if cs == [] {
      at := [];
    } else {
      var front, last, n := cs[..|cs| - 1], cs[|cs| - 1], |cs| - 1;
      at := DedupeKeepsOrder(front);
      forall i: nat | i < n ensures FirstWithKey(cs, i) <==> FirstWithKey(front, i) {
        assert forall j | 0 <= j <= i :: cs[j] == front[j];
      }
      forall a | 0 <= a < |at| ensures at[a] < n { assert at[a] in at; }
      assert FirstWithKey(cs, n) <==> Key(last) !in Keys(front) by { KeyIsNew(cs); }
      if Key(last) !in Keys(front) { at := at + [n]; }
    }
  }

  lemma KeyIsNew(cs: seq<Component>)
    requires cs != []
    ensures FirstWithKey(cs, |cs| - 1) <==> Key(cs[|cs| - 1]) !in Keys(cs[..|cs| - 1])
  {
    hide Key;
    var front, n := cs[..|cs| - 1], |cs| - 1;
    assert forall j | 0 <= j < n :: cs[j] == front[j];
    if Key(cs[n]) in Keys(front) {
      var c :| c in front && Key(c) == Key(cs[n]);
      var j :| 0 <= j < n && front[j] == c;
      assert Key(cs[j]) == Key(cs[n]);
    }
  }
}
