/** Which findings share a fingerprint, and what deduplication keeps of those that do. */
module FindingIdentity {
  import opened Text
  import opened FindingDedup

  // ---------- numbers ----------

  lemma {:induction false} DecimalDigits(n: int)
    ensures Decimal(n) != "" && (n < 0 <==> Decimal(n)[0] == '-')
    ensures n >= 0 ==> '-' !in Decimal(n) && (n < 10 <==> |Decimal(n)| == 1)
    ensures '|' !in Decimal(n)
    decreases if n < 0 then 1 else 0, if n < 0 then -n else n
  {
    if n < 0 {
      DecimalDigits(-n);
    } else if n >= 10 {
      DecimalDigits(n / 10);
    }
  }

  lemma {:induction false} DecimalIsInjective(m: int, n: int)
    ensures Decimal(m) == Decimal(n) <==> m == n
    decreases if m < 0 then 1 else 0, if m < 0 then -m else m
  {
    DecimalDigits(m);
    DecimalDigits(n);
    if m < 0 && n < 0 {
      DecimalIsInjective(-m, -n);
      assert Decimal(m)[1..] == Decimal(-m) && Decimal(n)[1..] == Decimal(-n);
    } else if m >= 10 && n >= 10 {
      var a, b := Decimal(m), Decimal(n);
      assert a[..|a| - 1] == Decimal(m / 10) && b[..|b| - 1] == Decimal(n / 10);
      if a == b {
        DecimalIsInjective(m / 10, n / 10);
        LastDigit(m);
        LastDigit(n);
      }
    } else if 0 <= m < 10 && 0 <= n < 10 {
      LastDigit(m);
      LastDigit(n);
    }
  }

  lemma LastDigit(n: nat)
    ensures Decimal(n) != "" && Decimal(n)[|Decimal(n)| - 1] as int - 48 == n % 10
  {
  }

  // ---------- blanks in evidence ----------

  predicate Word(w: string) {
    w != "" && forall c | c in w :: !IsSpace(c)
  }

  lemma {:induction false} BlanksVanish(b: string, s: string)
    requires AllSpace(b)
    ensures SingleSpaced(b + s) == SingleSpaced(s)
  {
    if b == "" {
      assert b + s == s;
    } else {
      assert (b + s)[0] == b[0] && (b + s)[1..] == b[1..] + s;
      BlanksVanish(b[1..], s);
    }
  }

  lemma {:induction false} WordTaken(w: string, s: string)
    requires (forall c | c in w :: !IsSpace(c)) && (s == "" || IsSpace(s[0]))
    ensures WordLength(w + s) == |w|
  {
    if w == "" {
      assert w + s == s;
    } else {
      assert (w + s)[0] == w[0] && (w + s)[1..] == w[1..] + s;
      WordTaken(w[1..], s);
    }
  }

  /** The words of a text, each after some blanks. */
  function Spread(words: seq<string>, gaps: seq<string>): string
    requires |words| == |gaps|
  {
    if words == [] then "" else gaps[0] + words[0] + Spread(words[1..], gaps[1..])
  }

  /** Words, with blanks before, between and after them. */
  ghost predicate Spreads(words: seq<string>, gaps: seq<string>, end: string) {
    && |words| == |gaps| && AllSpace(end)
    && forall i | 0 <= i < |words| :: Word(words[i]) && AllSpace(gaps[i]) && (i > 0 ==> gaps[i] != "")
  }

  /** Whatever blanks stand before, between and after the words, they are listed with single spaces between them. */
  lemma {:induction false} WordsAreSingleSpaced(words: seq<string>, gaps: seq<string>, end: string)
    requires Spreads(words, gaps, end)
    ensures SingleSpaced(Spread(words, gaps) + end) == Joined(words, ' ')
    decreases |words|
  {
    hide IsSpace, SingleSpaced;
    if words == [] {
      BlanksVanish(end, "");
      NothingListed();
      assert "" + end == end + "" == end;
    } else {
      var w, rest := words[0], Spread(words[1..], gaps[1..]) + end;
      assert Spread(words, gaps) + end == gaps[0] + (w + rest);
      BlanksVanish(gaps[0], w + rest);
      WordsAreSingleSpaced(words[1..], gaps[1..], end);
      RestStartsBlank(words, gaps, end);
      WordListed(w, rest);
      if |words| > 1 { JoinedWordsAreNotEmpty(words[1..]); }
      assert w + [' '] + Joined(words[1..], ' ') == w + (" " + Joined(words[1..], ' '));
    }
  }

  lemma NothingListed()
    ensures SingleSpaced("") == ""
  {
  }

  lemma RestStartsBlank(words: seq<string>, gaps: seq<string>, end: string)
    requires Spreads(words, gaps, end) && words != []
    ensures var rest := Spread(words[1..], gaps[1..]) + end; rest == "" || IsSpace(rest[0])
  {
    hide IsSpace;
    if |words| > 1 {
      assert words[1..] != [] && gaps[1..][0] == gaps[1];
      assert (Spread(words[1..], gaps[1..]) + end)[0] == gaps[1][0];
    }
  }

  lemma WordListed(w: string, rest: string)
    requires Word(w) && (rest == "" || IsSpace(rest[0]))
    ensures SingleSpaced(w + rest)
         == w + (if SingleSpaced(rest) == "" then "" else " " + SingleSpaced(rest))
  {
    hide IsSpace;
    WordTaken(w, rest);
    assert (w + rest)[0] == w[0] && (w + rest)[..|w|] == w && (w + rest)[|w|..] == rest;
  }

  lemma JoinedWordsAreNotEmpty(words: seq<string>)
    requires words != [] && Word(words[0])
    ensures Joined(words, ' ') != ""
  {
  }

  /** Every text is its words, spread over some blanks. */
  lemma {:induction false} EveryTextSpreads(s: string)
    returns (words: seq<string>, gaps: seq<string>, end: string)
    ensures Spreads(words, gaps, end) && s == Spread(words, gaps) + end
    decreases |s|
  {
    hide Spreads;
    var b := LeftCut(s);
    var t := TrimLeft(s);
    if t == "" {
      words, gaps, end := [], [], s;
      NothingSpreads(s, b);
    } else {
      var w := FirstWord(t);
      var rest := t[|w|..];
      words, gaps, end := EveryTextSpreads(rest);
      SpreadNext(b, w, words, gaps, end);
      words, gaps := [w] + words, [b] + gaps;
      assert s == b + t == b + (w + rest);
    }
  }

  lemma NothingSpreads(s: string, b: string)
    requires s == b + "" && AllSpace(b)
    ensures Spreads([], [], s) && s == Spread([], []) + s
  {
  }

  lemma SpreadNext(b: string, w: string, words: seq<string>, gaps: seq<string>, end: string)
    requires Spreads(words, gaps, end) && AllSpace(b) && Word(w)
    requires var rest := Spread(words, gaps) + end; rest != "" ==> IsSpace(rest[0])
    ensures Spreads([w] + words, [b] + gaps, end)
    ensures Spread([w] + words, [b] + gaps) + end == b + (w + (Spread(words, gaps) + end))
  {
    assert ([w] + words)[1..] == words && ([b] + gaps)[1..] == gaps;
    if words != [] {
      assert Spread(words, gaps) + end == gaps[0] + (words[0] + (Spread(words[1..], gaps[1..]) + end));
      assert !IsSpace(words[0][0]);
    }
  }

  lemma {:induction false} FirstWord(t: string) returns (w: string)
    requires t != "" && !IsSpace(t[0])
    ensures Word(w) && |w| <= |t| && t[..|w|] == w && (|w| < |t| ==> IsSpace(t[|w|]))
  {
    if |t| == 1 || IsSpace(t[1]) {
      w := t[..1];
    } else {
      w := FirstWord(t[1..]);
      w := [t[0]] + w;
    }
  }

  /** Compacted evidence is the first 160 characters of its lower-case words, single-spaced. */
  lemma CompactEvidenceIs(s: string, words: seq<string>, gaps: seq<string>, end: string)
    requires Spreads(words, gaps, end) && Lower(s) == Spread(words, gaps) + end
    ensures CompactEvidence(s) <= Joined(words, ' ')
    ensures |CompactEvidence(s)| == if |Joined(words, ' ')| < 160 then |Joined(words, ' ')| else 160
  {
    WordsAreSingleSpaced(words, gaps, end);
  }

  // ---------- equal fingerprints ----------

  /** The nine parts agree up to what normalising forgets. */
  predicate SameNormalised(f: Finding, g: Finding) {
    && Lower(Trim(f.scanner)) == Lower(Trim(g.scanner))
    && Lower(Trim(f.ruleId)) == Lower(Trim(g.ruleId))
    && Upper(Trim(f.algorithm)) == Upper(Trim(g.algorithm))
    && f.keyLength == g.keyLength
    && Trim(f.location) == Trim(g.location)
    && f.line == g.line
    && Upper(Trim(f.cve)) == Upper(Trim(g.cve))
    && Trim(f.component) == Trim(g.component)
    && CompactEvidence(f.evidence) == CompactEvidence(g.evidence)
  }

  /** No part before the evidence holds the separator; the evidence may. */
  predicate BarFree(f: Finding) {
    && '|' !in Lower(Trim(f.scanner)) && '|' !in Lower(Trim(f.ruleId)) && '|' !in Upper(Trim(f.algorithm))
    && '|' !in Trim(f.location) && '|' !in Upper(Trim(f.cve)) && '|' !in Trim(f.component)
  }

  lemma KeysAgreeIff(f: Finding, g: Finding)
    requires BarFree(f) && BarFree(g)
    ensures FingerprintKey(f) == FingerprintKey(g) <==> SameNormalised(f, g)
  {
    hide Lower, Upper, Trim, Decimal, CompactEvidence, Joined;
    DecimalDigits(f.keyLength);
    DecimalDigits(f.line);
    DecimalDigits(g.keyLength);
    DecimalDigits(g.line);
    DecimalIsInjective(f.keyLength, g.keyLength);
    DecimalIsInjective(f.line, g.line);
    JoinedIsInjective(Parts(f), Parts(g), '|');
  }

  /** With bars in its parts a key may be read in two ways: two findings by different scanners under different rules
      share a fingerprint and are merged. */
  lemma BarsMayMerge(env: Env, f: Finding, g: Finding)
    requires env.now != 0 && SameIdentity(f.(scanner := g.scanner, ruleId := g.ruleId), g)
    requires f.scanner == "a" && f.ruleId == "b|c" && g.scanner == "a|b" && g.ruleId == "c"
    ensures |Dedup(env, [f, g])| == 1 && !SameNormalised(f, g)
  {
    hide Finalize, Joined, FingerprintKey, Parts, SameNormalised;
    ShiftedParts(f, g);
    KeysOfShifted(f, g, Parts(f)[2..]);
    FinalizedKey(env, f);
    FinalizedKey(env, g);
    PairStaysApart(env, f, g);
  }

  lemma ShiftedParts(f: Finding, g: Finding)
    requires SameIdentity(f.(scanner := g.scanner, ruleId := g.ruleId), g)
    requires f.scanner == "a" && f.ruleId == "b|c" && g.scanner == "a|b" && g.ruleId == "c"
    ensures Parts(f) == ["a", "b|c"] + Parts(f)[2..] && Parts(g) == ["a|b", "c"] + Parts(f)[2..]
    ensures Parts(f)[2..] != [] && !SameNormalised(f, g)
  {
    hide Decimal, CompactEvidence, TrimLeft, TrimRight, Lower, Upper;
    Untouched("a");
    Untouched("b|c");
    Untouched("a|b");
    Untouched("c");
  }

  /** Text without upper-case letters and without blanks at its ends. */
  lemma Untouched(s: string)
    requires s != "" && !IsSpace(s[0]) && !IsSpace(s[|s| - 1]) && forall i | 0 <= i < |s| :: !('A' <= s[i] <= 'Z')
    ensures Lower(Trim(s)) == s
  {
  }

  lemma KeysOfShifted(f: Finding, g: Finding, rest: seq<string>)
    requires rest != [] && Parts(f) == ["a", "b|c"] + rest && Parts(g) == ["a|b", "c"] + rest
    ensures FingerprintKey(f) == FingerprintKey(g)
  {
    hide Parts, Joined;
    BarShifted("a", "b", "c", rest);
    assert "b" + "|" + "c" == "b|c" && "a" + "|" + "b" == "a|b";
  }

  lemma BarShifted(a: string, b: string, c: string, rest: seq<string>)
    requires rest != []
    ensures Joined([a, b + "|" + c] + rest, '|') == Joined([a + "|" + b, c] + rest, '|')
  {
    var ps, qs := [a, b + "|" + c] + rest, [a + "|" + b, c] + rest;
    assert ps[1..] == [b + "|" + c] + rest && qs[1..] == [c] + rest;
    assert ps[1..][1..] == rest && qs[1..][1..] == rest;
    var r := ['|'] + Joined(rest, '|');
    assert Joined(ps, '|') == a + ['|'] + ((b + "|" + c) + r);
    assert Joined(qs, '|') == (a + "|" + b) + ['|'] + (c + r);
  }

  // ---------- apart or merged ----------

  /** The finding as its fingerprint sees it: with the rule id finalising gives it. */
  function Ruled(f: Finding): Finding {
    f.(ruleId := RuleIdFor(f))
  }

  lemma FinalizedKey(env: Env, f: Finding)
    ensures Finalize(env, f).fingerprint == FingerprintKey(Ruled(f))
  {
    hide FingerprintKey, RuleIdFor;
  }

  /** Two findings have one fingerprint exactly when none of the nine normalised parts differs. */
  lemma FingerprintsAgreeIff(env: Env, f: Finding, g: Finding)
    requires BarFree(Ruled(f)) && BarFree(Ruled(g))
    ensures Finalize(env, f).fingerprint == Finalize(env, g).fingerprint <==> SameNormalised(Ruled(f), Ruled(g))
  {
    hide FingerprintKey, Finalize, RuleIdFor, BarFree, SameNormalised;
    FinalizedKey(env, f);
    FinalizedKey(env, g);
    KeysAgreeIff(Ruled(f), Ruled(g));
  }

  lemma PairStaysApart(env: Env, f: Finding, g: Finding)
    requires env.now != 0
    ensures |Dedup(env, [f, g])| == if Finalize(env, f).fingerprint == Finalize(env, g).fingerprint then 1 else 2
  {
    hide Finalize, Dedup, GroupSignature, Distinct;
    var a, b := Finalize(env, f).fingerprint, Finalize(env, g).fingerprint;
    DedupSummarises(env, [f, g]);
    assert Fingerprints(env, [f, g]) == [] + [a] + [b];
    DistinctNext([], a);
    DistinctNext([a], b);
    assert [] + [a] == [a];
    NothingDistinct();
  }

  lemma NothingDistinct()
    ensures Distinct([]) == []
  {
  }

  /** The entries of a deduplicated list that a finding was merged into. */
  ghost predicate MergedInto(env: Env, fs: seq<Finding>, f: Finding, k: int) {
    0 <= k < |Dedup(env, fs)| && InGroup(env, f, Dedup(env, fs)[k].fingerprint)
  }

  /** Every finding is merged into exactly one entry. */
  lemma MergedOnce(env: Env, fs: seq<Finding>, f: Finding) returns (k: int)
    requires env.now != 0 && f in fs
    ensures MergedInto(env, fs, f, k) && forall j | MergedInto(env, fs, f, j) :: j == k
  {
    hide Finalize, Dedup, GroupSignature, Distinct;
    var out := Dedup(env, fs);
    DedupSummarises(env, fs);
    SettledOutput(env, fs);
    OrderIsDistinct(Fingerprints(env, fs));
    var i :| 0 <= i < |fs| && fs[i] == f;
    assert Fingerprints(env, fs)[i] in Distinct(Fingerprints(env, fs));
    k :| 0 <= k < |out| && Fingerprints(env, out)[k] == Finalize(env, f).fingerprint;
    forall j | 0 <= j < |out| ensures Fingerprints(env, out)[j] == out[j].fingerprint { assert out[j] in out; }
  }

  lemma SettledOutput(env: Env, fs: seq<Finding>)
    requires env.now != 0
    ensures forall g | g in Dedup(env, fs) :: Finalize(env, g).fingerprint == g.fingerprint
  {
    hide Finalize, Settled, GroupSignature;
    TabulateIsComplete(env, fs);
    TabulateFits(env, fs);
    var t, out := Tabulate(env, fs), Dedup(env, fs);
    forall g | g in out ensures Finalize(env, g).fingerprint == g.fingerprint {
      var i :| 0 <= i < |out| && out[i] == g;
      assert t.order[i] in t.byFingerprint;
      SettledStays(env, g);
    }
  }

  /** In a deduplicated list two findings end up in one entry exactly when none of the nine normalised parts differs. */
  lemma StayApartIff(env: Env, fs: seq<Finding>, f: Finding, g: Finding)
    requires env.now != 0 && f in fs && g in fs && BarFree(Ruled(f)) && BarFree(Ruled(g))
    ensures SameNormalised(Ruled(f), Ruled(g)) <==> exists k :: MergedInto(env, fs, f, k) && MergedInto(env, fs, g, k)
  {
    hide Finalize, Dedup, BarFree, SameNormalised, RuleIdFor;
    FingerprintsAgreeIff(env, f, g);
    var k := MergedOnce(env, fs, f);
  }

  // ---------- what an entry keeps ----------

  /** Finalising fills in what is missing and leaves what is there. */
  lemma FinalizeFillsIn(env: Env, f: Finding)
    ensures var g := Finalize(env, f);
            && SameIdentity(g, Ruled(f)) && g.title == f.title && SameRisk(g, f.(riskAction := g.riskAction))
            && g.kev == f.kev
            && (f.firstSeen != 0 ==> g.firstSeen == f.firstSeen) && (f.lastSeen != 0 ==> g.lastSeen == f.lastSeen)
            && (f.status != "" ==> g.status == f.status) && (f.status == "" ==> g.status == "open")
            && (f.recommendedAction != "" ==> g.recommendedAction == f.recommendedAction)
            && g.riskAction == g.recommendedAction
    ensures var g := Finalize(env, f);
            f.createdAt == 0 && f.updatedAt == 0 ==>
              && (f.firstSeen == 0 ==> g.firstSeen == env.now) && (f.lastSeen == 0 ==> g.lastSeen == env.now)
              && g.createdAt == env.now
  {
    hide FingerprintKey, RuleIdFor;
  }

  predicate SameRisk(f: Finding, g: Finding) {
    && f.severity == g.severity && f.riskScore == g.riskScore && f.riskLevel == g.riskLevel
    && f.riskAction == g.riskAction
  }

  predicate SameRecord(f: Finding, g: Finding) {
    && SameIdentity(f, g) && f.title == g.title && f.pqcClass == g.pqcClass && f.status == g.status
    && f.recommendedAction == g.recommendedAction
  }

  /** The first finding of the group. */
  ghost predicate FirstOf(env: Env, fs: seq<Finding>, fp: string, i: int) {
    0 <= i < |fs| && InGroup(env, fs[i], fp) && forall j | 0 <= j < i :: !InGroup(env, fs[j], fp)
  }

  function RankOf(env: Env, f: Finding): nat {
    SeverityRank(Finalize(env, f).severity)
  }

  /** The first of the most severe findings of the group. */
  ghost predicate WorstOf(env: Env, fs: seq<Finding>, fp: string, i: int) {
    && 0 <= i < |fs| && InGroup(env, fs[i], fp)
    && (forall j | 0 <= j < |fs| && InGroup(env, fs[j], fp) :: RankOf(env, fs[j]) <= RankOf(env, fs[i]))
    && (forall j | 0 <= j < i && InGroup(env, fs[j], fp) :: RankOf(env, fs[j]) < RankOf(env, fs[i]))
  }

  ghost predicate KeptFrom(env: Env, fs: seq<Finding>, fp: string, g: Finding) {
    && g.fingerprint == fp
    && (exists i :: 0 <= i < |fs| && FirstOf(env, fs, fp, i) && SameRecord(g, Finalize(env, fs[i])))
    && (exists i :: 0 <= i < |fs| && WorstOf(env, fs, fp, i) && SameRisk(g, Finalize(env, fs[i])))
  }

  lemma FirstNext(env: Env, fs: seq<Finding>, fp: string, i: int, f: Finding)
    requires FirstOf(env, fs, fp, i)
    ensures FirstOf(env, fs + [f], fp, i) && (fs + [f])[i] == fs[i]
  {
    hide Finalize, InGroup;
  }

  lemma WorstNext(env: Env, fs: seq<Finding>, fp: string, k: int, f: Finding)
    requires WorstOf(env, fs, fp, k)
    ensures InGroup(env, f, fp) && RankOf(env, f) > RankOf(env, fs[k]) ==> WorstOf(env, fs + [f], fp, |fs|)
    ensures (InGroup(env, f, fp) && RankOf(env, f) > RankOf(env, fs[k])) || WorstOf(env, fs + [f], fp, k)
  {
    hide Finalize, InGroup, RankOf;
    assert forall j | 0 <= j < |fs| :: (fs + [f])[j] == fs[j];
  }

  lemma MergedParts(g: Finding, f: Finding)
    requires g.fingerprint == f.fingerprint
    ensures MergeInto(g, f).fingerprint == g.fingerprint && SameRecord(MergeInto(g, f), g)
    ensures SeverityRank(f.severity) > SeverityRank(g.severity) ==> SameRisk(MergeInto(g, f), f)
    ensures SeverityRank(f.severity) > SeverityRank(g.severity) || SameRisk(MergeInto(g, f), g)
  {
    hide SeverityRank;
  }

  lemma KeptNext(env: Env, fs: seq<Finding>, fp: string, g: Finding, f: Finding)
    requires KeptFrom(env, fs, fp, g)
    ensures Finalize(env, f).fingerprint != fp ==> KeptFrom(env, fs + [f], fp, g)
    ensures Finalize(env, f).fingerprint == fp ==> KeptFrom(env, fs + [f], fp, MergeInto(g, Finalize(env, f)))
  {
    hide Finalize, MergeInto, FirstOf, WorstOf, SeverityRank;
    var all := fs + [f];
    var i :| 0 <= i < |fs| && FirstOf(env, fs, fp, i) && SameRecord(g, Finalize(env, fs[i]));
    var k :| 0 <= k < |fs| && WorstOf(env, fs, fp, k) && SameRisk(g, Finalize(env, fs[k]));
    FirstNext(env, fs, fp, i, f);
    WorstNext(env, fs, fp, k, f);
    if InGroup(env, f, fp) {
      MergedParts(g, Finalize(env, f));
      var w := if RankOf(env, f) > RankOf(env, fs[k]) then |fs| else k;
      assert WorstOf(env, all, fp, w) && SameRisk(MergeInto(g, Finalize(env, f)), Finalize(env, all[w]));
    }
  }

  lemma {:induction false} TableKeeps(env: Env, fs: seq<Finding>)
    ensures forall fp | fp in Tabulate(env, fs).byFingerprint ::
              KeptFrom(env, fs, fp, Tabulate(env, fs).byFingerprint[fp])
  {
    hide Finalize, MergeInto, KeptFrom;
    if fs != [] {
      var front, last := fs[..|fs| - 1], fs[|fs| - 1];
      TableKeeps(env, front);
      assert fs == front + [last];
      var before, f := Tabulate(env, front), Finalize(env, last);
      TabulateOrder(env, front);
      forall fp | fp in Tabulate(env, fs).byFingerprint
        ensures KeptFrom(env, fs, fp, Tabulate(env, fs).byFingerprint[fp])
      {
        if fp in before.byFingerprint {
          KeptNext(env, front, fp, before.byFingerprint[fp], last);
        } else {
          KeptFirst(env, front, last);
        }
      }
    }
  }

  lemma KeptFirst(env: Env, fs: seq<Finding>, f: Finding)
    requires Finalize(env, f).fingerprint !in Fingerprints(env, fs)
    ensures KeptFrom(env, fs + [f], Finalize(env, f).fingerprint, Finalize(env, f))
  {
    hide Finalize, SeverityRank;
    var fp, all := Finalize(env, f).fingerprint, fs + [f];
    forall j | 0 <= j < |fs| ensures all[j] == fs[j] && !InGroup(env, fs[j], fp) {
      assert Fingerprints(env, fs)[j] in Fingerprints(env, fs);
    }
    assert FirstOf(env, all, fp, |fs|) && WorstOf(env, all, fp, |fs|);
  }

  /** An entry is the record of the first finding of its group, with the severity and the risk of the first of the most
      severe ones. */
  lemma EntriesAreFirstAndWorst(env: Env, fs: seq<Finding>)
    ensures forall g | g in Dedup(env, fs) :: KeptFrom(env, fs, g.fingerprint, g)
  {
    hide Finalize, MergeInto, FirstOf, WorstOf, SameRecord, SameRisk;
    TabulateIsComplete(env, fs);
    TableKeeps(env, fs);
    var t, out := Tabulate(env, fs), Dedup(env, fs);
    forall g | g in out ensures KeptFrom(env, fs, g.fingerprint, g) {
      var i :| 0 <= i < |out| && out[i] == g;
      assert t.order[i] in t.byFingerprint;
    }
  }
}
