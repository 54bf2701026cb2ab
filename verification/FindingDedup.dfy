/** Stable finding identities, and the merge of findings that share one. */
module FindingDedup {
  import opened Text

  /** Times are instants with 0 for Go's zero time. */
  datatype Finding = Finding(
    scanner: string, ruleId: string, algorithm: string, keyLength: int, location: string, line: int,
    cve: string, component: string, evidence: string, title: string,
    fingerprint: string, pqcClass: string, severity: string, kev: bool,
    riskScore: int, riskLevel: string, riskAction: string, recommendedAction: string, status: string,
    createdAt: int, updatedAt: int, firstSeen: int, lastSeen: int)

  /** The clock reading, and the classifier with its action table. */
  datatype Env = Env(now: int, classify: Finding -> string, actionFor: string -> string)

  // ---------- identity ----------

  /** `strings.Fields`, joined by single spaces. */
  function SingleSpaced(s: string): string
    decreases |s|
  {
    if s == "" then ""
    else if IsSpace(s[0]) then SingleSpaced(s[1..])
    else
      var w := WordLength(s);
      var rest := SingleSpaced(s[w..]);
      s[..w] + (if rest == "" then "" else " " + rest)
  }

  function WordLength(s: string): (n: nat)
    ensures n <= |s| && (s != "" && !IsSpace(s[0]) ==> n > 0)
  {
    if s == "" || IsSpace(s[0]) then 0 else 1 + WordLength(s[1..])
  }

  function CompactEvidence(s: string): string {
    var c := SingleSpaced(Lower(s));
    if |c| > 160 then c[..160] else c
  }

  function Decimal(n: int): string
    decreases if n < 0 then 1 else 0, if n < 0 then -n else n
  {
    if n < 0 then "-" + Decimal(-n)
    else if n < 10 then ['0' + n as char]
    else Decimal(n / 10) + ['0' + (n % 10) as char]
  }

  function Parts(f: Finding): (ps: seq<string>)
    ensures |ps| == 9
  {
    [Lower(Trim(f.scanner)), Lower(Trim(f.ruleId)), Upper(Trim(f.algorithm)), Decimal(f.keyLength), Trim(f.location),
     Decimal(f.line), Upper(Trim(f.cve)), Trim(f.component), CompactEvidence(f.evidence)]
  }

  function FingerprintKey(f: Finding): string {
    Joined(Parts(f), '|')
  }

  predicate Contains(s: string, sub: string) {
    exists i | 0 <= i <= |s| :: OccursAt(s, sub, i)
  }

  function RuleIdFor(f: Finding): (id: string)
    ensures id != "" && (f.ruleId != "" ==> id == f.ruleId)
  {
    var algo := Upper(Trim(f.algorithm + " " + f.evidence + " " + f.title));
    if f.ruleId != "" then f.ruleId
    else if Contains(algo, "MD5") then "crypto.md5"
    else if Contains(algo, "SHA-1") || Contains(algo, "SHA1") then "crypto.sha1"
    else if Contains(algo, "RC4") then "crypto.rc4"
    else if Contains(algo, "3DES") || (Contains(algo, "DES") && !Contains(algo, "AES")) then "crypto.3des"
    else if Contains(algo, "TLS 1.0") || Contains(algo, "TLS1.0") then "tls.version.1_0"
    else if Contains(algo, "TLS 1.1") || Contains(algo, "TLS1.1") then "tls.version.1_1"
    else if Contains(algo, "RSA") then "crypto.rsa"
    else if Contains(algo, "ECDSA") then "crypto.ecdsa"
    else if Contains(algo, "ECDH") then "crypto.ecdh"
    else if Contains(algo, "AES") then "crypto.aes"
    else if f.cve != "" then "cve." + Lower(f.cve)
    else if f.scanner != "" then "scanner." + Lower(f.scanner)
    else "crypto.unclassified"
  }

  function SeverityRank(s: string): nat {
    if s in {"critical", "CRITICAL", "Critical"} then 4
    else if s in {"high", "HIGH", "High"} then 3
    else if s in {"medium", "MEDIUM", "Medium"} then 2
    else if s in {"low", "LOW", "Low"} then 1
    else 0
  }

  function OrElse(t: int, fallback: int): int {
    if t == 0 then fallback else t
  }

  function Finalize(env: Env, f0: Finding): Finding {
    var f1 := f0.(ruleId := RuleIdFor(f0));
    var f2 := f1.(fingerprint := FingerprintKey(f1));
    var f3 := f2.(pqcClass := env.classify(f2));
    var action := if f3.recommendedAction == "" then env.actionFor(f3.pqcClass) else f3.recommendedAction;
    var createdAt := OrElse(f3.createdAt, env.now);
    var updatedAt := OrElse(f3.updatedAt, createdAt);
    f3.(recommendedAction := action, riskAction := action,
        createdAt := createdAt, updatedAt := updatedAt,
        firstSeen := OrElse(f3.firstSeen, createdAt), lastSeen := OrElse(f3.lastSeen, updatedAt),
        status := if f3.status == "" then "open" else f3.status)
  }

  /** Folding a finalised finding into the stored one of the same fingerprint. */
  function MergeInto(prev: Finding, f: Finding): Finding {
    var p1 := if f.firstSeen < prev.firstSeen then prev.(firstSeen := f.firstSeen, createdAt := f.firstSeen) else prev;
    var p2 := if f.lastSeen > p1.lastSeen then p1.(lastSeen := f.lastSeen, updatedAt := f.lastSeen) else p1;
    var p3 := if SeverityRank(f.severity) > SeverityRank(p2.severity)
              then p2.(severity := f.severity, riskScore := f.riskScore, riskLevel := f.riskLevel,
                       riskAction := f.riskAction)
              else p2;
    if f.kev then p3.(kev := true) else p3
  }

  // ---------- specification of the merge ----------

  datatype Table = Table(order: seq<string>, byFingerprint: map<string, Finding>)

  function Insert(t: Table, f: Finding): Table {
    var fp := f.fingerprint;
    if fp in t.byFingerprint
    then t.(byFingerprint := t.byFingerprint[fp := MergeInto(t.byFingerprint[fp], f)])
    else Table(t.order + [fp], t.byFingerprint[fp := f])
  }

  function Tabulate(env: Env, fs: seq<Finding>): Table {
    if fs == [] then Table([], map[]) else Insert(Tabulate(env, fs[..|fs| - 1]), Finalize(env, fs[|fs| - 1]))
  }

  ghost predicate Complete(t: Table) {
    forall fp :: fp in t.order <==> fp in t.byFingerprint
  }

  function Listing(t: Table): (out: seq<Finding>)
    requires Complete(t)
    ensures |out| == |t.order| && forall i | 0 <= i < |out| :: out[i] == t.byFingerprint[t.order[i]]
  {
    seq(|t.order|, i requires 0 <= i < |t.order| => t.byFingerprint[t.order[i]])
  }

  function Dedup(env: Env, fs: seq<Finding>): seq<Finding> {
    TabulateIsComplete(env, fs);
    Listing(Tabulate(env, fs))
  }

  lemma {:induction false} TabulateIsComplete(env: Env, fs: seq<Finding>)
    ensures Complete(Tabulate(env, fs))
  {
    hide Finalize, MergeInto;
    if fs != [] { TabulateIsComplete(env, fs[..|fs| - 1]); }
  }

  // ---------- the code ----------

  method DedupFindings(env: Env, fs: seq<Finding>) returns (out: seq<Finding>)
    ensures out == Dedup(env, fs)
  {
    hide Finalize, MergeInto;
    if fs == [] {
      TabulateIsComplete(env, fs);
      return fs;
    }
    var order: seq<string> := [];
    var byFingerprint: map<string, Finding> := map[];
    for i := 0 to |fs|
      invariant Table(order, byFingerprint) == Tabulate(env, fs[..i])
    {
      assert fs[..i + 1][..i] == fs[..i];
      var f := Finalize(env, fs[i]);
      if f.fingerprint !in byFingerprint {
        byFingerprint := byFingerprint[f.fingerprint := f];
        order := order + [f.fingerprint];
      } else {
        var merged := MergeInto(byFingerprint[f.fingerprint], f);
        byFingerprint := byFingerprint[f.fingerprint := merged];
      }
    }
    assert fs[..|fs|] == fs;
    TabulateIsComplete(env, fs);
    out := [];
    for i := 0 to |order|
      invariant out == Dedup(env, fs)[..i]
    {
      out := out + [byFingerprint[order[i]]];
    }
  }

  // ---------- what a group of findings amounts to ----------

  /** The claims a merged finding makes about its group. */
  datatype Signature = Signature(rank: nat, firstSeen: int, lastSeen: int, kev: bool)

  function SignatureOf(f: Finding): Signature {
    Signature(SeverityRank(f.severity), f.firstSeen, f.lastSeen, f.kev)
  }

  function Join(a: Signature, b: Signature): Signature {
    Signature(if a.rank < b.rank then b.rank else a.rank,
              if b.firstSeen < a.firstSeen then b.firstSeen else a.firstSeen,
              if b.lastSeen > a.lastSeen then b.lastSeen else a.lastSeen,
              a.kev || b.kev)
  }

  function JoinOpt(a: Option<Signature>, b: Option<Signature>): Option<Signature> {
    if a.None? then b else if b.None? then a else Some(Join(a.value, b.value))
  }

  /** The join over the finalised findings with fingerprint `fp`. */
  function GroupSignature(env: Env, fs: seq<Finding>, fp: string): Option<Signature> {
    if fs == [] then None else
      var f := Finalize(env, fs[|fs| - 1]);
      JoinOpt(GroupSignature(env, fs[..|fs| - 1], fp), if f.fingerprint == fp then Some(SignatureOf(f)) else None)
  }

  predicate InGroup(env: Env, f: Finding, fp: string) {
    Finalize(env, f).fingerprint == fp
  }

  /** The join is the highest severity rank, the earliest first sighting, the latest last sighting, and
      whether any member is known to be exploited. */
  lemma {:induction false} GroupSignatureIsExtremal(env: Env, fs: seq<Finding>, fp: string)
    ensures match GroupSignature(env, fs, fp)
            case None => forall f | f in fs :: !InGroup(env, f, fp)
            case Some(s) =>
              && (forall f | f in fs && InGroup(env, f, fp) ::
                    var m := SignatureOf(Finalize(env, f));
                    m.rank <= s.rank && s.firstSeen <= m.firstSeen && m.lastSeen <= s.lastSeen && (m.kev ==> s.kev))
              && (exists f :: f in fs && InGroup(env, f, fp) && SignatureOf(Finalize(env, f)).rank == s.rank)
              && (exists f :: f in fs && InGroup(env, f, fp) && SignatureOf(Finalize(env, f)).firstSeen == s.firstSeen)
              && (exists f :: f in fs && InGroup(env, f, fp) && SignatureOf(Finalize(env, f)).lastSeen == s.lastSeen)
              && (s.kev ==> exists f :: f in fs && InGroup(env, f, fp) && SignatureOf(Finalize(env, f)).kev)
  {
    hide Finalize, SignatureOf;
    if fs != [] {
      var front, last := fs[..|fs| - 1], fs[|fs| - 1];
      GroupSignatureIsExtremal(env, front, fp);
      assert fs == front + [last];
      assert last in fs;
    }
  }

  // ---------- finalising twice ----------

  lemma FinalizeIsStable(env: Env, f: Finding)
    requires env.now != 0
    ensures var g := Finalize(env, f);
            g.ruleId != "" && g.fingerprint == FingerprintKey(g) && g.firstSeen != 0 && g.lastSeen != 0
  {
    hide FingerprintKey, RuleIdFor;
    KeyIgnoresRest(f.(ruleId := RuleIdFor(f)), Finalize(env, f));
  }

  predicate SameIdentity(f: Finding, g: Finding) {
    && f.scanner == g.scanner && f.ruleId == g.ruleId && f.algorithm == g.algorithm && f.keyLength == g.keyLength
    && f.location == g.location && f.line == g.line && f.cve == g.cve && f.component == g.component
    && f.evidence == g.evidence
  }

  lemma KeyIgnoresRest(f: Finding, g: Finding)
    requires SameIdentity(f, g)
    ensures FingerprintKey(f) == FingerprintKey(g)
  {
    hide Lower, Upper, Trim, Decimal, CompactEvidence;
  }

  /** A finding that finalising leaves alone as far as its group is concerned. */
  predicate Settled(f: Finding) {
    f.ruleId != "" && f.fingerprint == FingerprintKey(f) && f.firstSeen != 0 && f.lastSeen != 0
  }

  lemma SettledStays(env: Env, f: Finding)
    requires Settled(f)
    ensures Finalize(env, f).fingerprint == f.fingerprint && SignatureOf(Finalize(env, f)) == SignatureOf(f)
  {
    hide FingerprintKey, RuleIdFor, SeverityRank;
    KeyIgnoresRest(f, f.(ruleId := RuleIdFor(f)));
  }

  lemma MergeStaysSettled(prev: Finding, f: Finding)
    requires Settled(prev) && Settled(f)
    ensures Settled(MergeInto(prev, f)) && MergeInto(prev, f).fingerprint == prev.fingerprint
    ensures SignatureOf(MergeInto(prev, f)) == Join(SignatureOf(prev), SignatureOf(f))
  {
    hide FingerprintKey, SeverityRank;
    KeyIgnoresRest(prev, MergeInto(prev, f));
  }

  // ---------- the table against the groups ----------

  /** The table holds one settled finding per group, carrying the group's signature. */
  ghost predicate TableFits(env: Env, fs: seq<Finding>, t: Table) {
    && (forall fp | fp in t.byFingerprint :: Settled(t.byFingerprint[fp]) && t.byFingerprint[fp].fingerprint == fp)
    && (forall fp :: GroupSignature(env, fs, fp)
                     == if fp in t.byFingerprint then Some(SignatureOf(t.byFingerprint[fp])) else None)
  }

  lemma {:induction false} TabulateFits(env: Env, fs: seq<Finding>)
    requires env.now != 0
    ensures TableFits(env, fs, Tabulate(env, fs))
  {
    hide Finalize, MergeInto, SignatureOf, Settled, Join;
    if fs != [] {
      var front, f := fs[..|fs| - 1], Finalize(env, fs[|fs| - 1]);
      var t := Tabulate(env, front);
      TabulateFits(env, front);
      FinalizedIsSettled(env, fs[|fs| - 1]);
      if f.fingerprint in t.byFingerprint { MergeStaysSettled(t.byFingerprint[f.fingerprint], f); }
    }
  }

  lemma FinalizedIsSettled(env: Env, f: Finding)
    requires env.now != 0
    ensures Settled(Finalize(env, f))
  {
    FinalizeIsStable(env, f);
    hide Finalize;
  }

  // ---------- order of first occurrence ----------

  function Fingerprints(env: Env, fs: seq<Finding>): (ks: seq<string>)
    ensures |ks| == |fs| && forall i | 0 <= i < |fs| :: ks[i] == Finalize(env, fs[i]).fingerprint
  {
    seq(|fs|, i requires 0 <= i < |fs| => Finalize(env, fs[i]).fingerprint)
  }

  function Distinct(ks: seq<string>): (ds: seq<string>)
    ensures forall k :: k in ds <==> k in ks
  {
    if ks == [] then [] else
      var front, k := ks[..|ks| - 1], ks[|ks| - 1];
      assert ks == front + [k];
      if k in front then Distinct(front) else Distinct(front) + [k]
  }

  lemma {:induction false} TabulateOrder(env: Env, fs: seq<Finding>)
    ensures Tabulate(env, fs).order == Distinct(Fingerprints(env, fs))
    ensures forall fp :: fp in Tabulate(env, fs).byFingerprint <==> fp in Fingerprints(env, fs)
  {
    hide Finalize, MergeInto;
    if fs != [] {
      var front, last := fs[..|fs| - 1], fs[|fs| - 1];
      TabulateOrder(env, front);
      var ks := Fingerprints(env, fs);
      assert ks[..|ks| - 1] == Fingerprints(env, front);
      assert ks == Fingerprints(env, front) + [Finalize(env, last).fingerprint];
    }
  }

  lemma {:induction false} DistinctIsIdempotent(ks: seq<string>)
    ensures Distinct(Distinct(ks)) == Distinct(ks)
  {
    if ks != [] {
      var front, k := ks[..|ks| - 1], ks[|ks| - 1];
      DistinctIsIdempotent(front);
      if k !in front { assert (Distinct(front) + [k])[..|Distinct(front)|] == Distinct(front); }
    }
  }

  /** Repeats may be dropped on either side before the rest is looked at. */
  lemma {:induction false} DistinctAbsorbs(a: seq<string>, b: seq<string>)
    ensures Distinct(Distinct(a) + Distinct(b)) == Distinct(a + b)
    decreases |b|
  {
    if b == [] {
      DistinctIsIdempotent(a);
      assert Distinct(a) + Distinct(b) == Distinct(a) && a + b == a;
    } else {
      var front, k := b[..|b| - 1], b[|b| - 1];
      DistinctAbsorbs(a, front);
      DistinctNext(front, k);
      DistinctNext(a + front, k);
      assert b == front + [k] && a + b == (a + front) + [k];
      if k !in front {
        DistinctNext(Distinct(a) + Distinct(front), k);
        assert Distinct(a) + Distinct(b) == (Distinct(a) + Distinct(front)) + [k];
      }
    }
  }

  lemma DistinctNext(ks: seq<string>, k: string)
    ensures Distinct(ks + [k]) == if k in ks then Distinct(ks) else Distinct(ks) + [k]
  {
    assert (ks + [k])[..|ks|] == ks;
  }

  // ---------- main results ----------

  lemma JoinOptAssociates(a: Option<Signature>, b: Option<Signature>, c: Option<Signature>)
    ensures JoinOpt(a, JoinOpt(b, c)) == JoinOpt(JoinOpt(a, b), c) && JoinOpt(a, b) == JoinOpt(b, a)
  {
  }

  lemma {:induction false} GroupsSplit(env: Env, xs: seq<Finding>, ys: seq<Finding>, fp: string)
    ensures GroupSignature(env, xs + ys, fp) == JoinOpt(GroupSignature(env, xs, fp), GroupSignature(env, ys, fp))
    decreases |ys|
  {
    hide Finalize, SignatureOf, Join;
    if ys == [] {
      assert xs + ys == xs;
    } else {
      var front, last := ys[..|ys| - 1], ys[|ys| - 1];
      assert (xs + ys)[..|xs + ys| - 1] == xs + front;
      GroupsSplit(env, xs, front, fp);
      var f := Finalize(env, last);
      JoinOptAssociates(GroupSignature(env, xs, fp), GroupSignature(env, front, fp),
                        if f.fingerprint == fp then Some(SignatureOf(f)) else None);
    }
  }

  /** A list of settled findings with distinct fingerprints is its own table. */
  lemma {:induction false} DistinctGroups(env: Env, fs: seq<Finding>, fp: string)
    requires forall f | f in fs :: Settled(f)
    requires forall i, j | 0 <= i < j < |fs| :: fs[i].fingerprint != fs[j].fingerprint
    ensures forall i | 0 <= i < |fs| && fs[i].fingerprint == fp ::
              GroupSignature(env, fs, fp) == Some(SignatureOf(fs[i]))
    ensures (forall f | f in fs :: f.fingerprint != fp) ==> GroupSignature(env, fs, fp) == None
  {
    hide Finalize, SignatureOf, Settled, Join;
    if fs != [] {
      var front, last := fs[..|fs| - 1], fs[|fs| - 1];
      DistinctGroups(env, front, fp);
      SettledStays(env, last);
      assert forall f | f in front :: exists i :: 0 <= i < |front| && front[i] == f;
    }
  }

  lemma {:induction false} OrderIsDistinct(ks: seq<string>)
    ensures forall i, j | 0 <= i < j < |Distinct(ks)| :: Distinct(ks)[i] != Distinct(ks)[j]
  {
    if ks != [] { OrderIsDistinct(ks[..|ks| - 1]); }
  }

  /** Deduplicating keeps every group's signature, and lists the groups by first occurrence. */
  lemma DedupSummarises(env: Env, fs: seq<Finding>)
    requires env.now != 0
    ensures Fingerprints(env, Dedup(env, fs)) == Distinct(Fingerprints(env, fs))
    ensures forall fp :: GroupSignature(env, Dedup(env, fs), fp) == GroupSignature(env, fs, fp)
    ensures forall f | f in Dedup(env, fs) :: GroupSignature(env, fs, f.fingerprint) == Some(SignatureOf(f))
  {
    hide Finalize, SignatureOf, Settled, GroupSignature;
    var t, out := Tabulate(env, fs), Dedup(env, fs);
    TabulateIsComplete(env, fs);
    TabulateFits(env, fs);
    TabulateOrder(env, fs);
    OrderIsDistinct(Fingerprints(env, fs));
    forall i | 0 <= i < |out| ensures Finalize(env, out[i]).fingerprint == t.order[i] {
      assert t.order[i] in t.byFingerprint;
      SettledStays(env, out[i]);
    }
    forall fp ensures GroupSignature(env, out, fp) == GroupSignature(env, fs, fp) {
      DistinctGroups(env, out, fp);
      if fp in t.byFingerprint {
        var i :| 0 <= i < |t.order| && t.order[i] == fp;
        assert out[i] == t.byFingerprint[fp];
      }
    }
  }

  /** Deduplicating two batches together or each first and then both gives the same fingerprints in the
      same order, and for each the same severity rank, first and last sighting and exploitation flag. */
  lemma DedupInBatches(env: Env, xs: seq<Finding>, ys: seq<Finding>)
    requires env.now != 0
    ensures var together, batched := Dedup(env, xs + ys), Dedup(env, Dedup(env, xs) + Dedup(env, ys));
            && Fingerprints(env, together) == Fingerprints(env, batched)
            && |together| == |batched|
            && forall i | 0 <= i < |together| :: SignatureOf(together[i]) == SignatureOf(batched[i])
  {
    hide Dedup, Finalize, SignatureOf, GroupSignature, Fingerprints, Distinct;
    var both := Dedup(env, xs) + Dedup(env, ys);
    DedupSummarises(env, xs);
    DedupSummarises(env, ys);
    DedupSummarises(env, xs + ys);
    DedupSummarises(env, both);
    FingerprintsSplit(env, xs, ys);
    FingerprintsSplit(env, Dedup(env, xs), Dedup(env, ys));
    DistinctAbsorbs(Fingerprints(env, xs), Fingerprints(env, ys));
    forall fp ensures GroupSignature(env, both, fp) == GroupSignature(env, xs + ys, fp) {
      GroupsSplit(env, xs, ys, fp);
      GroupsSplit(env, Dedup(env, xs), Dedup(env, ys), fp);
    }
    SameGroupsSameSignatures(env, xs + ys, both);
  }

  lemma FingerprintsSplit(env: Env, xs: seq<Finding>, ys: seq<Finding>)
    ensures Fingerprints(env, xs + ys) == Fingerprints(env, xs) + Fingerprints(env, ys)
  {
    hide Finalize;
  }

  lemma SameGroupsSameSignatures(env: Env, fs: seq<Finding>, gs: seq<Finding>)
    requires env.now != 0
    requires Distinct(Fingerprints(env, fs)) == Distinct(Fingerprints(env, gs))
    requires forall fp :: GroupSignature(env, fs, fp) == GroupSignature(env, gs, fp)
    ensures |Dedup(env, fs)| == |Dedup(env, gs)|
    ensures forall i | 0 <= i < |Dedup(env, fs)| :: SignatureOf(Dedup(env, fs)[i]) == SignatureOf(Dedup(env, gs)[i])
  {
    hide Finalize, SignatureOf, GroupSignature, Settled, Distinct;
    TabulateIsComplete(env, fs);
    TabulateIsComplete(env, gs);
    TabulateFits(env, fs);
    TabulateFits(env, gs);
    TabulateOrder(env, fs);
    TabulateOrder(env, gs);
    var t, u := Tabulate(env, fs), Tabulate(env, gs);
    forall i | 0 <= i < |t.order|
      ensures SignatureOf(t.byFingerprint[t.order[i]]) == SignatureOf(u.byFingerprint[t.order[i]])
    {
      var fp := t.order[i];
      assert fp in t.byFingerprint && fp in u.byFingerprint;
      assert GroupSignature(env, fs, fp) == GroupSignature(env, gs, fp);
    }
  }

  lemma {:induction false} GroupsIgnoreOrder(env: Env, xs: seq<Finding>, ys: seq<Finding>, fp: string)
    requires multiset(xs) == multiset(ys)
    ensures GroupSignature(env, xs, fp) == GroupSignature(env, ys, fp)
    decreases |xs|
  {
    hide Finalize, SignatureOf, Join, JoinOpt;
    if xs == [] {
      ReorderingsOfNothing(ys);
    } else {
      var a, b := FindLast(xs, ys);
      var front, last := xs[..|xs| - 1], xs[|xs| - 1];
      GroupsIgnoreOrder(env, front, a + b, fp);
      assert xs == front + [last];
      GroupsSplit(env, front, [last], fp);
      GroupsSplit(env, a + [last], b, fp);
      GroupsSplit(env, a, [last], fp);
      GroupsSplit(env, a, b, fp);
      var ga, gl, gb := GroupSignature(env, a, fp), GroupSignature(env, [last], fp), GroupSignature(env, b, fp);
      JoinOptAssociates(ga, gl, gb);
      JoinOptAssociates(gl, gb, gb);
      JoinOptAssociates(ga, gb, gl);
    }
  }

  /** Each fingerprint's values do not depend on the order of the input. */
  lemma DedupValuesIgnoreOrder(env: Env, xs: seq<Finding>, ys: seq<Finding>)
    requires env.now != 0 && multiset(xs) == multiset(ys)
    ensures forall f | f in Dedup(env, xs) ::
              exists g :: g in Dedup(env, ys) && g.fingerprint == f.fingerprint && SignatureOf(g) == SignatureOf(f)
  {
    hide Finalize, SignatureOf, Settled, GroupSignature;
    forall f | f in Dedup(env, xs)
      ensures exists g :: g in Dedup(env, ys) && g.fingerprint == f.fingerprint && SignatureOf(g) == SignatureOf(f)
    {
      SameGroupElsewhere(env, xs, ys, f);
    }
  }

  lemma SameGroupElsewhere(env: Env, xs: seq<Finding>, ys: seq<Finding>, f: Finding)
    requires env.now != 0 && multiset(xs) == multiset(ys) && f in Dedup(env, xs)
    ensures exists g :: g in Dedup(env, ys) && g.fingerprint == f.fingerprint && SignatureOf(g) == SignatureOf(f)
  {
    hide Finalize, SignatureOf, Settled, GroupSignature;
    var i :| 0 <= i < |Dedup(env, xs)| && Dedup(env, xs)[i] == f;
    TabulateIsComplete(env, xs);
    TabulateIsComplete(env, ys);
    TabulateFits(env, xs);
    TabulateFits(env, ys);
    GroupsIgnoreOrder(env, xs, ys, f.fingerprint);
    var t, u := Tabulate(env, xs), Tabulate(env, ys);
    assert t.order[i] in t.byFingerprint && f.fingerprint == t.order[i];
    assert f.fingerprint in u.byFingerprint;
    var j :| 0 <= j < |u.order| && u.order[j] == f.fingerprint;
    assert Dedup(env, ys)[j] == u.byFingerprint[f.fingerprint];
  }
}
