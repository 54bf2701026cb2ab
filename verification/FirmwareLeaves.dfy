/** Which images an analysis reaches, which certificates and algorithms they contribute, and what a container whose
    members cannot all be opened leaves out. */
module FirmwareLeaves {
  import opened Text
  import opened ArchiveBudget
  import opened Firmware

  // ---------- what the leaves contribute ----------

  /** The certificates of a report are, for every fingerprint in the leaf images, the last one found with it. */
  lemma CertificatesAreTheLastOnes(o: Oracles, r: Report, leaves: seq<Leaf>)
    requires r.Means(o, leaves)
    ensures forall c :: c in r.certificates <==> IsLastOf(AllCertificates(o, leaves), c)
    ensures forall c ::
              c in AllCertificates(o, leaves) <==>
              exists leaf :: leaf in leaves && c in o.scanImage(leaf.name, leaf.data).certificates
  {
    hide LastWith, Flatten, SubjectsAscend, Covers, Absorbs, StatusesFrom;
    var all := AllCertificates(o, leaves);
    FlattenMembers(leaf => LeafCertificates(o, leaf), leaves);
    forall c ensures c in r.certificates <==> IsLastOf(all, c) {
      assert LastWith(r.certificates, c.fingerprint) == LastWith(all, c.fingerprint);
      LastWithIsExact(r.certificates, c.fingerprint);
      LastWithIsExact(all, c.fingerprint);
      if IsLastOf(all, c) { LastIsUnique(all, c, LastWith(all, c.fingerprint).value); }
      if c in r.certificates { DistinctIsLast(r.certificates, c, LastWith(r.certificates, c.fingerprint).value); }
    }
    forall c
      ensures c in all <==> exists leaf :: leaf in leaves && c in o.scanImage(leaf.name, leaf.data).certificates
    {
      assert c in all <==> Occurs(leaf => LeafCertificates(o, leaf), leaves, c);
    }
  }

  lemma DistinctIsLast(certs: seq<Certificate>, c: Certificate, d: Certificate)
    requires DistinctFingerprints(certs) && c in certs && d in certs && c.fingerprint == d.fingerprint
    ensures c == d
  {
  }

  ghost predicate Implies(o: Oracles, certs: seq<Certificate>, f: Finding) {
    exists c, name :: c in certs && name in o.certAlgorithms(c) && f == o.algorithm(name)
  }

  lemma {:induction false} DerivedExactly(o: Oracles, names: seq<string>)
    ensures forall f :: f in Derived(o, names) <==> exists name :: name in names && f == o.algorithm(name)
  {
    if names != [] {
      DerivedExactly(o, names[..|names| - 1]);
      assert names == names[..|names| - 1] + [names[|names| - 1]];
    }
  }

  lemma {:induction false} ImpliedExactly(o: Oracles, certs: seq<Certificate>)
    ensures forall f :: f in FromCertificates(o, certs) <==> Implies(o, certs, f)
  {
    hide Derived;
    if certs != [] {
      var front, last := certs[..|certs| - 1], certs[|certs| - 1];
      ImpliedExactly(o, front);
      assert certs == front + [last];
      DerivedExactly(o, o.certAlgorithms(last));
    }
  }

  /** An image shows the algorithm, or holds a certificate that implies it. */
  ghost predicate Shows(o: Oracles, leaf: Leaf, g: Finding) {
    g in o.scanImage(leaf.name, leaf.data).algorithms || Implies(o, o.scanImage(leaf.name, leaf.data).certificates, g)
  }

  lemma AlgorithmOccursIff(o: Oracles, leaves: seq<Leaf>, g: Finding)
    ensures g in AllAlgorithms(o, leaves) <==> exists leaf :: leaf in leaves && Shows(o, leaf, g)
  {
    hide Flatten, Implies;
    FlattenMembers(leaf => LeafAlgorithms(o, leaf), leaves);
    forall leaf ensures g in LeafAlgorithms(o, leaf) <==> Shows(o, leaf, g) {
      ImpliedExactly(o, o.scanImage(leaf.name, leaf.data).certificates);
    }
    assert g in AllAlgorithms(o, leaves) <==> Occurs(leaf => LeafAlgorithms(o, leaf), leaves, g);
  }

  /** The statuses that call for something, the mildest first. */
  const STATUS_CLASSES: seq<set<string>> := [
    {"quantum_safe", "quantum_resistant"}, {"migration_recommended", "broken_classical"}, {"migration_required"}]

  ghost predicate InClass(status: string, n: int) {
    0 <= n < |STATUS_CLASSES| && status in STATUS_CLASSES[n]
  }

  /** The risk of a status grows with its class, and every other status is below all classes. */
  lemma RiskFollowsClasses(s: string, t: string, a: int, b: int)
    requires InClass(s, a)
    ensures InClass(t, b) ==> (RiskRank(s) <= RiskRank(t) <==> a <= b)
    ensures (forall n :: !InClass(t, n)) ==> RiskRank(t) < RiskRank(s)
  {
    assert InClass(t, 0) <==> t in {"quantum_safe", "quantum_resistant"};
    assert InClass(t, 1) <==> t in {"migration_recommended", "broken_classical"};
    assert InClass(t, 2) <==> t in {"migration_required"};
    assert |"migration_required"| == 18 && |"migration_recommended"| == 21 && |"broken_classical"| == 16;
    assert |"quantum_safe"| == 12 && |"quantum_resistant"| == 17;
  }

  // ---------- which images are reached ----------

  /** The input is a zip or tar archive that opens to these members, with this error at their end. */
  predicate OpensTo(o: Oracles, name: string, data: Bytes, k: Kind, members: seq<Member>, error: Option<string>) {
    if k == Zip then o.detect(name, data) == FormatZip && o.openZip(data) == Ok(members) && error == None
    else o.detect(name, data) == FormatTar && o.openTar(data) == TarStream(members, error)
  }

  lemma {:induction false} LeavesOfEntries(o: Oracles, lim: Limits, entries: seq<Entry>, depth: int)
    requires depth <= lim.maxDepth
    ensures LeavesOf(o, lim, entries, depth)
         == Flatten((e: Entry) => Leaves(o, lim, e.name, e.data, depth + 1), entries)
    decreases |entries|
  {
    hide Leaves;
    if entries != [] { LeavesOfEntries(o, lim, entries[..|entries| - 1], depth); }
  }

  lemma {:induction false} KeptMembers(fates: seq<Fate>)
    ensures forall e :: e in KeptOf(fates) <==> exists i :: 0 <= i < |fates| && fates[i] == Kept(e)
  {
    if fates != [] {
      var front, last := fates[..|fates| - 1], fates[|fates| - 1];
      KeptMembers(front);
      assert fates == front + [last];
      assert forall e :: Kept(e) in fates <==> Kept(e) in front || Kept(e) == last;
      assert forall e :: Kept(e) in fates <==> exists i :: 0 <= i < |fates| && fates[i] == Kept(e);
      assert forall e :: Kept(e) in front <==> exists i :: 0 <= i < |front| && front[i] == Kept(e);
    }
  }

  /** Exactly the members kept are looked into. */
  ghost predicate Reaches(o: Oracles, lim: Limits, fates: seq<Fate>, depth: int, leaf: Leaf) {
    exists i :: 0 <= i < |fates| && fates[i].Kept?
                && leaf in Leaves(o, lim, fates[i].entry.name, fates[i].entry.data, depth + 1)
  }

  /** The images reached through an archive are exactly those of the members kept; a member passed and not kept has its
      own warning, and members are left out only after a cap. */
  lemma ArchiveReaches(o: Oracles, lim: Limits, name: string, data: Bytes, depth: int, k: Kind, members: seq<Member>,
                       error: Option<string>)
    returns (fates: seq<Fate>)
    requires depth <= lim.maxDepth && OpensTo(o, name, data, k, members, error)
    ensures Accounts(k, o.safeName, members, lim, fates)
    ensures StopsRightly(k, o.safeName, members, error, lim, fates, Children(o, lim, name, data))
    ensures forall leaf :: leaf in Leaves(o, lim, name, data, depth) <==> Reaches(o, lim, fates, depth, leaf)
  {
    hide Accounts, StopsRightly, LeavesOf, KeptOf, Extract, Flatten;
    fates := EveryMemberIsAccountedFor(k, o.safeName, members, error, lim);
    var x := Extract(k, o.safeName, members, error, lim);
    assert Children(o, lim, name, data) == x;
    StoppedEntries(k, o.safeName, members, error, lim, fates, x);
    LeavesOfEntries(o, lim, x.entries, depth);
    var f := (e: Entry) => Leaves(o, lim, e.name, e.data, depth + 1);
    FlattenMembers(f, x.entries);
    KeptMembers(fates);
    forall leaf ensures leaf in Leaves(o, lim, name, data, depth) <==> Reaches(o, lim, fates, depth, leaf) {
      assert leaf in Leaves(o, lim, name, data, depth) <==> Occurs(f, x.entries, leaf);
      if Reaches(o, lim, fates, depth, leaf) {
        var i :| 0 <= i < |fates| && fates[i].Kept?
                 && leaf in Leaves(o, lim, fates[i].entry.name, fates[i].entry.data, depth + 1);
        assert fates[i].entry in x.entries;
        assert leaf in f(fates[i].entry);
      }
    }
  }

  lemma StoppedEntries(k: Kind, safeName: string -> Option<string>, members: seq<Member>, error: Option<string>,
                       lim: Limits, fates: seq<Fate>, x: Extraction)
    requires Accounts(k, safeName, members, lim, fates) && StopsRightly(k, safeName, members, error, lim, fates, x)
    ensures x.entries == KeptOf(fates)
  {
  }

  /** The warnings of looking into one member, or of being too deep to do so. */
  function BelowWarnings(o: Oracles, lim: Limits, mark: string, e: Entry, depth: int): seq<string> {
    if depth > lim.maxDepth then [mark + e.name + ": " + LIMIT_ERROR] else WarningsAt(o, lim, e.name, e.data, depth)
  }

  lemma {:induction false} WarningsOfEntries(o: Oracles, lim: Limits, format: Format, entries: seq<Entry>, depth: int)
    requires depth <= lim.maxDepth && format != FormatGzip
    ensures WarningsOf(o, lim, format, entries, depth)
         == Flatten((e: Entry) => BelowWarnings(o, lim, "child ", e, depth + 1), entries)
    decreases |entries|
  {
    hide WarningsAt;
    if entries != [] { WarningsOfEntries(o, lim, format, entries[..|entries| - 1], depth); }
  }

  /** An archive whose members all fit is looked into member by member, in order, each under its safe name, with the
      warnings of its members and nothing else but the error of its stream. */
  lemma FittingArchiveIsItsMembers(o: Oracles, lim: Limits, name: string, data: Bytes, depth: int, k: Kind,
                                   members: seq<Member>, error: Option<string>)
    requires depth <= lim.maxDepth && OpensTo(o, name, data, k, members, error) && AllFit(k, o.safeName, members, lim)
    ensures AllSafe(o.safeName, members)
    ensures Leaves(o, lim, name, data, depth)
         == Flatten((e: Entry) => Leaves(o, lim, e.name, e.data, depth + 1), Listed(o.safeName, members))
    ensures WarningsAt(o, lim, name, data, depth)
         == (if error.Some? then [error.value] else [])
            + Flatten((e: Entry) => BelowWarnings(o, lim, "child ", e, depth + 1), Listed(o.safeName, members))
  {
    hide Extract, LeavesOf, WarningsOf, Flatten, BelowWarnings, AllFit;
    EverythingIsExtractedIff(k, o.safeName, members, error, lim);
    var es := Listed(o.safeName, members);
    assert Children(o, lim, name, data) == Extraction(es, [], error);
    LeavesOfEntries(o, lim, es, depth);
    WarningsOfEntries(o, lim, o.detect(name, data), es, depth);
    assert OpeningWarnings(Extraction(es, [], error)) == if error.Some? then [error.value] else [];
  }

  /** An image reaches itself and nothing else, at any depth within the limit. */
  lemma ImageReachesItself(o: Oracles, lim: Limits, name: string, data: Bytes, depth: int)
    requires o.detect(name, data) == FormatImage
    ensures Leaves(o, lim, name, data, depth) == if depth <= lim.maxDepth then [Leaf(name, data)] else []
    ensures depth <= lim.maxDepth ==>
              WarningsAt(o, lim, name, data, depth) == o.scanImage(name, data).warnings
  {
  }

  /** What does not open reaches no image, and says why. */
  lemma UnopenedReachesNothing(o: Oracles, lim: Limits, name: string, data: Bytes, depth: int)
    requires depth <= lim.maxDepth
    ensures o.detect(name, data) == FormatZip && o.openZip(data).Err? ==>
              && Leaves(o, lim, name, data, depth) == []
              && WarningsAt(o, lim, name, data, depth) == [o.openZip(data).error]
    ensures o.detect(name, data) == FormatGzip && o.gunzip(data).Err? ==>
              && Leaves(o, lim, name, data, depth) == []
              && WarningsAt(o, lim, name, data, depth) == ["gzip: " + o.gunzip(data).error]
    ensures o.detect(name, data) == FormatGzip && o.gunzip(data).Ok?
            && !Readable(o.gunzip(data).value, lim.maxBytes) ==>
              && Leaves(o, lim, name, data, depth) == []
              && WarningsAt(o, lim, name, data, depth) == ["gzip: " + o.readError(o.gunzip(data).value)]
  {
    NoEntries(o, lim, o.detect(name, data), depth);
  }

  /** A gzip stream that can be read reaches what its content reaches, cut at the byte cap, under the name without its
      extension. */
  lemma GzipReachesItsContent(o: Oracles, lim: Limits, name: string, data: Bytes, depth: int, inner: Bytes)
    requires depth <= lim.maxDepth && o.detect(name, data) == FormatGzip && o.gunzip(data).Ok?
    requires inner == CutAt(o.gunzip(data).value.content, lim.maxBytes)
    requires Readable(o.gunzip(data).value, lim.maxBytes)
    ensures Leaves(o, lim, name, data, depth) == Leaves(o, lim, o.stripExtension(name), inner, depth + 1)
    ensures WarningsAt(o, lim, name, data, depth)
         == if depth + 1 > lim.maxDepth then ["gzip child: " + LIMIT_ERROR]
            else WarningsAt(o, lim, o.stripExtension(name), inner, depth + 1)
  {
    hide Leaves, WarningsAt;
    var m := o.gunzip(data).value;
    assert ReadAtMost(m, lim.maxBytes) == Some(inner);
    assert Children(o, lim, name, data) == Extraction([Entry(o.stripExtension(name), inner)], [], None);
    OneEntry(o, lim, name, data, depth, Entry(o.stripExtension(name), inner));
  }

  /** The stream does not fail before the cap. */
  predicate Readable(m: Member, maxBytes: int) {
    m.failsAt.Some? && maxBytes > 0 ==> m.failsAt.value >= maxBytes
  }

  function CutAt(content: Bytes, maxBytes: int): (r: Bytes)
    ensures r <= content && |r| == Min(|content|, Max(0, maxBytes))
  {
    if maxBytes <= 0 then [] else if maxBytes <= |content| then content[..maxBytes] else content
  }

  function Min(a: int, b: int): int {
    if a < b then a else b
  }

  lemma OneEntry(o: Oracles, lim: Limits, name: string, data: Bytes, depth: int, e: Entry)
    requires depth <= lim.maxDepth && o.detect(name, data) == FormatGzip
    requires Children(o, lim, name, data) == Extraction([e], [], None)
    ensures Leaves(o, lim, name, data, depth) == Leaves(o, lim, e.name, e.data, depth + 1)
    ensures WarningsAt(o, lim, name, data, depth)
         == if depth + 1 > lim.maxDepth then ["gzip child: " + LIMIT_ERROR]
            else WarningsAt(o, lim, e.name, e.data, depth + 1)
  {
    hide Children;
    assert [] + [e] == [e];
    NoEntries(o, lim, FormatGzip, depth);
    EntriesNext(o, lim, FormatGzip, [], e, depth);
    assert OpeningWarnings(Extraction([e], [], None)) == [];
  }

  /** Analysing makes a report for every image it reaches. */
  lemma {:induction false} ReportsCoverLeaves(o: Oracles, lim: Limits, name: string, data: Bytes, depth: int)
    ensures |Leaves(o, lim, name, data, depth)| <= ReportCount(o, lim, name, data, depth)
    decreases Remaining(lim, depth), 0
  {
    hide Children;
    if depth <= lim.maxDepth && o.detect(name, data) != FormatImage {
      ReportsCoverLeavesOf(o, lim, Children(o, lim, name, data).entries, depth);
    }
  }

  lemma {:induction false} ReportsCoverLeavesOf(o: Oracles, lim: Limits, entries: seq<Entry>, depth: int)
    requires depth <= lim.maxDepth
    ensures |LeavesOf(o, lim, entries, depth)| <= ReportCountOf(o, lim, entries, depth)
    decreases Remaining(lim, depth + 1), 1, |entries|
  {
    if entries != [] {
      var front, last := entries[..|entries| - 1], entries[|entries| - 1];
      ReportsCoverLeavesOf(o, lim, front, depth);
      ReportsCoverLeaves(o, lim, last.name, last.data, depth + 1);
    }
  }
}
