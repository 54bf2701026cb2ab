/** Static analysis of nested archives: each level merges its members' reports, re-adds what certificates
    imply, and deduplicates; the result should mean the union over the leaf images. */
module Firmware {
  import opened Text
  import opened ArchiveBudget
  import opened Names

  /** A library or algorithm finding.  `status` is the post-quantum status of an algorithm, `detail` whatever else
      the record holds. */
  datatype Finding = Finding(
    name: string, markers: set<string>, referenced: bool, status: string, detail: string, confidence: real)

  datatype Certificate = Certificate(fingerprint: string, subject: string, publicKey: string, signature: string)

  datatype Detection = Detection(
    libraries: seq<Finding>, algorithms: seq<Finding>, certificates: seq<Certificate>, warnings: seq<string>)

  datatype Format = FormatZip | FormatTar | FormatGzip | FormatImage

  datatype TarStream = TarStream(members: seq<Member>, error: Option<string>)

  /** The libraries and the image scanner.  `gunzip` yields the bytes up to the first error, if any. */
  datatype Oracles = Oracles(
    detect: (string, Bytes) -> Format,
    safeName: string -> Option<string>,
    openZip: Bytes -> Result<seq<Member>>,
    openTar: Bytes -> TarStream,
    gunzip: Bytes -> Result<Member>,
    readError: Member -> string,
    stripExtension: string -> string,
    scanImage: (string, Bytes) -> Detection,
    certAlgorithms: Certificate -> seq<string>,
    algorithm: string -> Finding)

  datatype Result<+T> = Ok(value: T) | Err(error: string)

  // ---------- what one level extracts ----------

  /** The children a container hands to the next level, with the warnings of opening it. */
  function Children(o: Oracles, lim: Limits, name: string, data: Bytes): Extraction {
    match o.detect(name, data)
    case FormatZip => (
      match o.openZip(data)
      case Err(e) => Extraction([], [], Some(e))
      case Ok(members) => Extract(Zip, o.safeName, members, None, lim))
    case FormatTar =>
      var stream := o.openTar(data);
      Extract(Tar, o.safeName, stream.members, stream.error, lim)
    case FormatGzip => (
      match o.gunzip(data)
      case Err(e) => Extraction([], ["gzip: " + e], None)
      case Ok(m) =>
        match ReadAtMost(m, lim.maxBytes)
        case None => Extraction([], ["gzip: " + o.readError(m)], None)
        case Some(inner) => Extraction([Entry(o.stripExtension(name), inner)], [], None))
    case FormatImage => Extraction([], [], None)
  }

  /** How many more levels may be entered. */
  function Remaining(lim: Limits, depth: int): nat {
    if depth > lim.maxDepth then 0 else lim.maxDepth - depth + 1
  }

  datatype Leaf = Leaf(name: string, data: Bytes)

  /** The images reached within the depth limit. */
  function Leaves(o: Oracles, lim: Limits, name: string, data: Bytes, depth: int): seq<Leaf>
    decreases Remaining(lim, depth), 0
  {
    if depth > lim.maxDepth then []
    else if o.detect(name, data) == FormatImage then [Leaf(name, data)]
    else LeavesOf(o, lim, Children(o, lim, name, data).entries, depth)
  }

  function LeavesOf(o: Oracles, lim: Limits, entries: seq<Entry>, depth: int): seq<Leaf>
    requires depth <= lim.maxDepth
    decreases Remaining(lim, depth + 1), 1, |entries|
  {
    if entries == [] then [] else
      var last := entries[|entries| - 1];
      LeavesOf(o, lim, entries[..|entries| - 1], depth) + Leaves(o, lim, last.name, last.data, depth + 1)
  }

  function ChildPrefix(format: Format, name: string): string {
    if format == FormatGzip then "gzip child: " else "child " + name + ": "
  }

  function OpeningWarnings(x: Extraction): seq<string> {
    x.warnings + (if x.error.Some? then [x.error.value] else [])
  }

  /** The warnings of a report: those of opening the container, then those of its children in order. */
  function WarningsAt(o: Oracles, lim: Limits, name: string, data: Bytes, depth: int): seq<string>
    requires depth <= lim.maxDepth
    decreases Remaining(lim, depth), 0
  {
    if o.detect(name, data) == FormatImage then o.scanImage(name, data).warnings else
      var x := Children(o, lim, name, data);
      OpeningWarnings(x) + WarningsOf(o, lim, o.detect(name, data), x.entries, depth)
  }

  function WarningsOf(o: Oracles, lim: Limits, format: Format, entries: seq<Entry>, depth: int): seq<string>
    requires depth <= lim.maxDepth
    decreases Remaining(lim, depth + 1), 1, |entries|
  {
    if entries == [] then [] else
      var last := entries[|entries| - 1];
      WarningsOf(o, lim, format, entries[..|entries| - 1], depth)
      + (if depth + 1 > lim.maxDepth then [ChildPrefix(format, last.name) + LIMIT_ERROR]
         else WarningsAt(o, lim, last.name, last.data, depth + 1))
  }

  function Derived(o: Oracles, names: seq<string>): seq<Finding> {
    if names == [] then [] else Derived(o, names[..|names| - 1]) + [o.algorithm(names[|names| - 1])]
  }

  /** The algorithm findings that certificates imply. */
  function FromCertificates(o: Oracles, certs: seq<Certificate>): seq<Finding> {
    if certs == [] then [] else
      FromCertificates(o, certs[..|certs| - 1]) + Derived(o, o.certAlgorithms(certs[|certs| - 1]))
  }

  /** Every algorithm occurrence in a leaf: detected in its strings, or implied by one of its certificates. */
  function LeafAlgorithms(o: Oracles, leaf: Leaf): seq<Finding> {
    var d := o.scanImage(leaf.name, leaf.data);
    d.algorithms + FromCertificates(o, d.certificates)
  }

  function LeafLibraries(o: Oracles, leaf: Leaf): seq<Finding> {
    o.scanImage(leaf.name, leaf.data).libraries
  }

  function LeafCertificates(o: Oracles, leaf: Leaf): seq<Certificate> {
    o.scanImage(leaf.name, leaf.data).certificates
  }

  function Flatten<X, Y>(f: X -> seq<Y>, xs: seq<X>): seq<Y> {
    if xs == [] then [] else Flatten(f, xs[..|xs| - 1]) + f(xs[|xs| - 1])
  }

  function AllAlgorithms(o: Oracles, leaves: seq<Leaf>): seq<Finding> {
    Flatten(leaf => LeafAlgorithms(o, leaf), leaves)
  }

  function AllLibraries(o: Oracles, leaves: seq<Leaf>): seq<Finding> {
    Flatten(leaf => LeafLibraries(o, leaf), leaves)
  }

  function AllCertificates(o: Oracles, leaves: seq<Leaf>): seq<Certificate> {
    Flatten(leaf => LeafCertificates(o, leaf), leaves)
  }

  // ---------- what a list of findings claims ----------

  /** All that a list claims about one name. */
  datatype Claim = Claim(markers: set<string>, referenced: bool, confidence: real)

  function ClaimOf(f: Finding): Claim {
    Claim(f.markers, f.referenced, f.confidence)
  }

  /** The claims about `name` joined, or None when it does not occur. */
  function Gist(fs: seq<Finding>, name: string): Option<Claim> {
    if fs == [] then None else
      var f := fs[|fs| - 1];
      Join(Gist(fs[..|fs| - 1], name), if f.name == name then Some(ClaimOf(f)) else None)
  }

  /** The least claim that covers both. */
  function Join(a: Option<Claim>, b: Option<Claim>): Option<Claim> {
    if a.None? then b else if b.None? then a else
      Some(Claim(a.value.markers + b.value.markers, a.value.referenced || b.value.referenced,
                 if a.value.confidence < b.value.confidence then b.value.confidence else a.value.confidence))
  }

  lemma JoinIsAssociative(a: Option<Claim>, b: Option<Claim>, c: Option<Claim>)
    ensures Join(a, Join(b, c)) == Join(Join(a, b), c)
  {
    if a.Some? && b.Some? && c.Some? {
      assert a.value.markers + (b.value.markers + c.value.markers)
        == (a.value.markers + b.value.markers) + c.value.markers;
    }
  }

  lemma JoinIsCommutative(a: Option<Claim>, b: Option<Claim>)
    ensures Join(a, b) == Join(b, a)
  {
    if a.Some? && b.Some? { assert a.value.markers + b.value.markers == b.value.markers + a.value.markers; }
  }

  lemma JoinIsIdempotent(a: Option<Claim>)
    ensures Join(a, a) == a
  {
    if a.Some? { assert a.value.markers + a.value.markers == a.value.markers; }
  }

  /** What absorbs a join absorbs each part. */
  lemma JoinAbsorbed(a: Option<Claim>, x: Option<Claim>, y: Option<Claim>)
    ensures Join(a, Join(x, y)) == a <==> Join(a, x) == a && Join(a, y) == a
  {
    JoinIsAssociative(a, x, y);
    if Join(a, Join(x, y)) == a && a.Some? && x.Some? && y.Some? {
      var am, xm, ym := a.value.markers, x.value.markers, y.value.markers;
      assert am + (xm + ym) == am;
      assert forall m | m in xm || m in ym :: m in am + (xm + ym);
      assert am + xm == am && am + ym == am;
    }
  }

  /** Same names, and the same claims about each. */
  ghost predicate Covers(fs: seq<Finding>, occurrences: seq<Finding>) {
    forall name :: Gist(fs, name) == Gist(occurrences, name)
  }

  lemma {:induction false} GistOfConcat(a: seq<Finding>, b: seq<Finding>, name: string)
    ensures Gist(a + b, name) == Join(Gist(a, name), Gist(b, name))
    decreases |b|
  {
    if b == [] {
      assert a + b == a;
    } else {
      assert (a + b)[..|a + b| - 1] == a + b[..|b| - 1];
      GistOfConcat(a, b[..|b| - 1], name);
      var f := b[|b| - 1];
      JoinIsAssociative(Gist(a, name), Gist(b[..|b| - 1], name), if f.name == name then Some(ClaimOf(f)) else None);
    }
  }

  lemma CoversConcat(a: seq<Finding>, x: seq<Finding>, b: seq<Finding>, y: seq<Finding>)
    requires Covers(a, x) && Covers(b, y)
    ensures Covers(a + b, x + y)
  {
    hide Gist, Join;
    forall name ensures Gist(a + b, name) == Gist(x + y, name) {
      GistOfConcat(a, b, name);
      GistOfConcat(x, y, name);
    }
  }

  /** The gist of a name, independently of order: it exists when the name occurs; its markers are exactly the
      occurrences' markers; it is referenced when one of them is; its confidence is the greatest of theirs. */
  ghost predicate ExactGist(fs: seq<Finding>, name: string, g: Option<Claim>) {
    && (g.None? <==> forall f | f in fs :: f.name != name)
    && (g.Some? ==>
          && (forall f | f in fs && f.name == name ::
                f.markers <= g.value.markers && f.confidence <= g.value.confidence)
          && (forall m | m in g.value.markers :: exists f :: f in fs && f.name == name && m in f.markers)
          && (g.value.referenced <==> exists f :: f in fs && f.name == name && f.referenced)
          && (exists f :: f in fs && f.name == name && f.confidence == g.value.confidence))
  }

  lemma {:induction false} GistIsExact(fs: seq<Finding>, name: string)
    ensures ExactGist(fs, name, Gist(fs, name))
  {
    if fs != [] {
      var front, last := fs[..|fs| - 1], fs[|fs| - 1];
      GistIsExact(front, name);
      assert fs == front + [last];
      ExactGistNext(front, last, name, Gist(front, name));
    }
  }

  lemma ExactGistNext(front: seq<Finding>, last: Finding, name: string, g: Option<Claim>)
    requires ExactGist(front, name, g)
    ensures ExactGist(front + [last], name, Join(g, if last.name == name then Some(ClaimOf(last)) else None))
  {
    var fs := front + [last];
    assert last in fs;
    assert forall f :: f in fs <==> f in front || f == last;
  }

  /** Findings already matched or beaten add nothing. */
  ghost predicate Absorbs(fs: seq<Finding>, extra: seq<Finding>) {
    forall name :: Join(Gist(fs, name), Gist(extra, name)) == Gist(fs, name)
  }

  lemma AbsorbedAddsNothing(fs: seq<Finding>, extra: seq<Finding>)
    requires Absorbs(fs, extra)
    ensures Covers(fs + extra, fs)
  {
    hide Gist, Join;
    forall name ensures Gist(fs + extra, name) == Gist(fs, name) { GistOfConcat(fs, extra, name); }
  }

  lemma AbsorbsConcat(fs: seq<Finding>, gs: seq<Finding>, x: seq<Finding>, y: seq<Finding>)
    requires Absorbs(fs, x) && Absorbs(gs, y)
    ensures Absorbs(fs + gs, x + y)
  {
    hide Gist, Join;
    forall name ensures Join(Gist(fs + gs, name), Gist(x + y, name)) == Gist(fs + gs, name) {
      GistOfConcat(fs, gs, name);
      GistOfConcat(x, y, name);
      JoinAbsorbs(Gist(fs, name), Gist(gs, name), Gist(x, name), Gist(y, name));
    }
  }

  lemma JoinAbsorbs(a: Option<Claim>, b: Option<Claim>, x: Option<Claim>, y: Option<Claim>)
    requires Join(a, x) == a && Join(b, y) == b
    ensures Join(Join(a, b), Join(x, y)) == Join(a, b)
  {
    hide Join;
    var ab := Join(a, b);
    JoinIsCommutative(a, b);
    JoinIsAssociative(b, a, x);
    JoinIsAssociative(a, b, y);
    JoinAbsorbed(ab, x, y);
  }

  // ---------- deduplication ----------

  function MergeFindings(prev: Finding, f: Finding): Finding {
    prev.(markers := prev.markers + f.markers, referenced := prev.referenced || f.referenced,
          confidence := if f.confidence > prev.confidence then f.confidence else prev.confidence)
  }

  function Tabulate(fs: seq<Finding>): map<string, Finding> {
    if fs == [] then map[] else
      var seen, f := Tabulate(fs[..|fs| - 1]), fs[|fs| - 1];
      seen[f.name := if f.name in seen then MergeFindings(seen[f.name], f) else f]
  }

  /** The table listed by ascending name. */
  ghost predicate ListsByName(out: seq<Finding>, table: map<string, Finding>) {
    && (forall i, j | 0 <= i < j < |out| :: Leq(out[i].name, out[j].name) && out[i].name != out[j].name)
    && (forall i | 0 <= i < |out| :: out[i].name in table && out[i] == table[out[i].name])
    && (forall name | name in table :: exists i :: 0 <= i < |out| && out[i].name == name)
  }

  /** dedupeAlgorithms and dedupeLibraries. */
  method DedupeFindings(fs: seq<Finding>) returns (out: seq<Finding>)
    ensures ListsByName(out, Tabulate(fs))
  {
    var seen: map<string, Finding> := map[];
    for i := 0 to |fs|
      invariant seen == Tabulate(fs[..i])
    {
      assert fs[..i + 1][..i] == fs[..i];
      var f := fs[i];
      if f.name in seen {
        seen := seen[f.name := MergeFindings(seen[f.name], f)];
      } else {
        seen := seen[f.name := f];
      }
    }
    assert fs[..|fs|] == fs;
    TabulateNames(fs);
    out := SortedByName(seen);
  }

  lemma {:induction false} TabulateNames(fs: seq<Finding>)
    ensures forall name | name in Tabulate(fs) :: Tabulate(fs)[name].name == name
  {
    if fs != [] { TabulateNames(fs[..|fs| - 1]); }
  }

  /** What is not merged comes from the first entry of the name. */
  lemma {:induction false} TabulateKeepsFirst(fs: seq<Finding>, name: string)
    requires name in Tabulate(fs)
    ensures exists i :: 0 <= i < |fs| && fs[i].name == name && (forall j | 0 <= j < i :: fs[j].name != name)
                        && Tabulate(fs)[name].status == fs[i].status && Tabulate(fs)[name].detail == fs[i].detail
  {
    var front, last := fs[..|fs| - 1], fs[|fs| - 1];
    if name in Tabulate(front) {
      TabulateKeepsFirst(front, name);
      var i :| 0 <= i < |front| && front[i].name == name && (forall j | 0 <= j < i :: front[j].name != name)
               && Tabulate(front)[name].status == front[i].status && Tabulate(front)[name].detail == front[i].detail;
      assert fs[i] == front[i] && forall j | 0 <= j < i :: fs[j] == front[j];
    } else {
      TabulateAbsent(front, name);
      assert fs[|fs| - 1].name == name;
      assert forall j | 0 <= j < |front| :: fs[j] == front[j];
    }
  }

  lemma {:induction false} TabulateAbsent(fs: seq<Finding>, name: string)
    ensures name !in Tabulate(fs) ==> forall j | 0 <= j < |fs| :: fs[j].name != name
  {
    if fs != [] {
      TabulateAbsent(fs[..|fs| - 1], name);
      assert forall j | 0 <= j < |fs| - 1 :: fs[j] == fs[..|fs| - 1][j];
    }
  }

  method SortedByName(table: map<string, Finding>) returns (out: seq<Finding>)
    requires forall name | name in table :: table[name].name == name
    ensures ListsByName(out, table)
  {
    var left := table.Keys;
    out := [];
    while left != {}
      invariant left <= table.Keys
      invariant forall i, j | 0 <= i < j < |out| :: Leq(out[i].name, out[j].name) && out[i].name != out[j].name
      invariant forall i | 0 <= i < |out| ::
                  out[i].name in table && out[i] == table[out[i].name] && out[i].name !in left
      invariant forall i, n | 0 <= i < |out| && n in left :: Leq(out[i].name, n)
      invariant forall n | n in table && n !in left :: exists i :: 0 <= i < |out| && out[i].name == n
    {
      ghost var least := LeastExists(left);
      var n :| n in left && forall m | m in left :: Leq(n, m);
      ghost var before := out;
      out := out + [table[n]];
      left := left - {n};
      assert forall i | 0 <= i < |before| :: out[i] == before[i];
      assert out[|before|].name == n;
    }
  }

  lemma {:induction false} TabulateGist(fs: seq<Finding>, name: string)
    ensures Gist(fs, name) == if name in Tabulate(fs) then Some(ClaimOf(Tabulate(fs)[name])) else None
  {
    if fs != [] { TabulateGist(fs[..|fs| - 1], name); }
  }

  /** Deduplication keeps every name and everything claimed about it. */
  lemma ListingCovers(out: seq<Finding>, fs: seq<Finding>)
    requires ListsByName(out, Tabulate(fs))
    ensures Covers(out, fs)
  {
    forall name ensures Gist(out, name) == Gist(fs, name) {
      TabulateGist(fs, name);
      GistOfListing(out, Tabulate(fs), name);
    }
  }

  lemma GistOfListing(out: seq<Finding>, table: map<string, Finding>, name: string)
    requires ListsByName(out, table)
    ensures Gist(out, name) == if name in table then Some(ClaimOf(table[name])) else None
  {
    hide Gist;
    GistIsExact(out, name);
    if name in table {
      var i :| 0 <= i < |out| && out[i].name == name;
      assert out[i] in out;
      assert Gist(out, name).value.markers == table[name].markers;
    }
  }

  // ---------- risk ----------

  /** `riskFromPQC`, with the rank `highestRisk` gives each level. */
  function RiskRank(status: string): nat {
    if status == "migration_required" then 3
    else if status in {"migration_recommended", "broken_classical"} then 2
    else if status in {"quantum_safe", "quantum_resistant"} then 1
    else 0
  }

  function MaxRank(fs: seq<Finding>): nat {
    if fs == [] then 0 else
      var front, r := MaxRank(fs[..|fs| - 1]), RiskRank(fs[|fs| - 1].status);
      if r > front then r else front
  }

  /** `highestRisk`, as the rank of the level. */
  method HighestRisk(fs: seq<Finding>) returns (best: nat)
    ensures best == MaxRank(fs)
  {
    best := 0;
    for i := 0 to |fs|
      invariant best == MaxRank(fs[..i])
    {
      assert fs[..i + 1][..i] == fs[..i];
      if RiskRank(fs[i].status) > best { best := RiskRank(fs[i].status); }
    }
    assert fs[..|fs|] == fs;
  }

  lemma {:induction false} MaxRankIsMaximum(fs: seq<Finding>)
    ensures forall f | f in fs :: RiskRank(f.status) <= MaxRank(fs)
    ensures MaxRank(fs) == 0 || exists f :: f in fs && RiskRank(f.status) == MaxRank(fs)
  {
    if fs != [] {
      MaxRankIsMaximum(fs[..|fs| - 1]);
      assert fs == fs[..|fs| - 1] + [fs[|fs| - 1]];
      assert fs[|fs| - 1] in fs;
    }
  }

  /** The status of every finding is the one its name has. */
  ghost predicate StatusByName(fs: seq<Finding>, statusOf: string -> string) {
    forall f | f in fs :: f.status == statusOf(f.name)
  }

  /** With status a function of the name, the highest risk depends only on which names occur. */
  lemma CoveredRank(fs: seq<Finding>, gs: seq<Finding>, statusOf: string -> string)
    requires Covers(fs, gs) && StatusByName(fs, statusOf) && StatusByName(gs, statusOf)
    ensures MaxRank(fs) == MaxRank(gs)
  {
    RankBelow(fs, gs, statusOf);
    RankBelow(gs, fs, statusOf);
  }

  lemma RankBelow(fs: seq<Finding>, gs: seq<Finding>, statusOf: string -> string)
    requires Covers(fs, gs) && StatusByName(fs, statusOf) && StatusByName(gs, statusOf)
    ensures MaxRank(fs) <= MaxRank(gs)
  {
    MaxRankIsMaximum(fs);
    MaxRankIsMaximum(gs);
    if MaxRank(fs) > 0 {
      var f :| f in fs && RiskRank(f.status) == MaxRank(fs);
      GistIsExact(fs, f.name);
      GistIsExact(gs, f.name);
      assert Gist(fs, f.name) == Gist(gs, f.name);
      var g :| g in gs && g.name == f.name;
    }
  }

  // ---------- certificates ----------

  ghost predicate IsLastOf(certs: seq<Certificate>, c: Certificate) {
    exists k :: 0 <= k < |certs| && certs[k] == c && forall j | k < j < |certs| :: certs[j].fingerprint != c.fingerprint
  }

  /** Every entry is the last certificate with its fingerprint, and every fingerprint has one. */
  ghost predicate LastByFingerprint(certs: seq<Certificate>, seen: map<string, Certificate>) {
    && (forall fp | fp in seen :: seen[fp].fingerprint == fp && seen[fp] in certs && IsLastOf(certs, seen[fp]))
    && (forall c | c in certs :: c.fingerprint in seen)
  }

  /** Ascending subjects; certificates with one subject stand in any order. */
  ghost predicate SubjectsAscend(certs: seq<Certificate>) {
    forall i, j | 0 <= i < j < |certs| :: Leq(certs[i].subject, certs[j].subject)
  }

  /** dedupeCerts keeps, per fingerprint, the last certificate of the list, and sorts by subject. */
  method DedupeCertificates(certs: seq<Certificate>) returns (out: seq<Certificate>)
    ensures forall c | c in out :: c in certs
    ensures SameLast(out, certs) && DistinctFingerprints(out)
    ensures SubjectsAscend(out)
  {
    hide IsLastOf, SubjectsAscend, SameLast;
    var seen: map<string, Certificate> := map[];
    for i := 0 to |certs|
      invariant LastByFingerprint(certs[..i], seen)
    {
      LastOfNext(certs[..i], certs[i]);
      assert certs[..i + 1] == certs[..i] + [certs[i]];
      seen := seen[certs[i].fingerprint := certs[i]];
    }
    assert certs[..|certs|] == certs;
    out := ListCertificates(seen);
    KeptAreLast(out, certs);
  }

  /** The values of the map by subject. */
  method ListCertificates(seen: map<string, Certificate>) returns (out: seq<Certificate>)
    requires forall fp | fp in seen :: seen[fp].fingerprint == fp
    ensures forall c | c in out :: c.fingerprint in seen && c == seen[c.fingerprint]
    ensures forall fp | fp in seen :: seen[fp] in out
    ensures forall i, j | 0 <= i < j < |out| :: out[i].fingerprint != out[j].fingerprint
    ensures SubjectsAscend(out)
  {
    hide Leq;
    var left := seen.Keys;
    out := [];
    while left != {}
      invariant left <= seen.Keys
      invariant forall i | 0 <= i < |out| ::
        out[i].fingerprint in seen && out[i] == seen[out[i].fingerprint] && out[i].fingerprint !in left
      invariant forall fp | fp in seen && fp !in left :: seen[fp] in out
      invariant forall i, j | 0 <= i < j < |out| :: out[i].fingerprint != out[j].fingerprint
      invariant forall i, fp | 0 <= i < |out| && fp in left :: Leq(out[i].subject, seen[fp].subject)
      invariant SubjectsAscend(out)
    {
      ghost var least := LeastSubject(seen, left);
      var fp :| fp in left && forall other | other in left :: Leq(seen[fp].subject, seen[other].subject);
      out := out + [seen[fp]];
      left := left - {fp};
    }
  }

  lemma LeastSubject(seen: map<string, Certificate>, left: set<string>) returns (fp: string)
    requires left != {} && left <= seen.Keys
    ensures fp in left && forall other | other in left :: Leq(seen[fp].subject, seen[other].subject)
  {
    var subjects := set f | f in left :: seen[f].subject;
    var some :| some in left;
    assert seen[some].subject in subjects;
    var least := LeastExists(subjects);
    fp :| fp in left && seen[fp].subject == least;
  }

  lemma LastOfNext(certs: seq<Certificate>, c: Certificate)
    ensures IsLastOf(certs + [c], c)
    ensures forall d | IsLastOf(certs, d) && d.fingerprint != c.fingerprint :: IsLastOf(certs + [c], d)
  {
    assert (certs + [c])[|certs|] == c;
    forall d | IsLastOf(certs, d) && d.fingerprint != c.fingerprint ensures IsLastOf(certs + [c], d) {
      var k :| 0 <= k < |certs| && certs[k] == d && forall j | k < j < |certs| :: certs[j].fingerprint != d.fingerprint;
      assert (certs + [c])[k] == d;
    }
  }

  /** The last certificate with this fingerprint. */
  function LastWith(certs: seq<Certificate>, fp: string): Option<Certificate> {
    if certs == [] then None
    else if certs[|certs| - 1].fingerprint == fp then Some(certs[|certs| - 1])
    else LastWith(certs[..|certs| - 1], fp)
  }

  ghost predicate SameLast(a: seq<Certificate>, b: seq<Certificate>) {
    forall fp :: LastWith(a, fp) == LastWith(b, fp)
  }

  lemma {:induction false} LastWithIsExact(certs: seq<Certificate>, fp: string)
    ensures LastWith(certs, fp).None? <==> forall c | c in certs :: c.fingerprint != fp
    ensures LastWith(certs, fp).Some? ==>
              LastWith(certs, fp).value.fingerprint == fp && IsLastOf(certs, LastWith(certs, fp).value)
  {
    if certs != [] {
      var front, last := certs[..|certs| - 1], certs[|certs| - 1];
      assert certs == front + [last];
      LastWithIsExact(front, fp);
      LastOfNext(front, last);
    }
  }

  lemma {:induction false} LastWithConcat(a: seq<Certificate>, b: seq<Certificate>, fp: string)
    ensures LastWith(a + b, fp) == if LastWith(b, fp).Some? then LastWith(b, fp) else LastWith(a, fp)
    decreases |b|
  {
    if b == [] {
      assert a + b == a;
    } else {
      assert (a + b)[..|a + b| - 1] == a + b[..|b| - 1];
      LastWithConcat(a, b[..|b| - 1], fp);
    }
  }

  lemma SameLastConcat(a: seq<Certificate>, x: seq<Certificate>, b: seq<Certificate>, y: seq<Certificate>)
    requires SameLast(a, x) && SameLast(b, y)
    ensures SameLast(a + b, x + y)
  {
    hide LastWith;
    forall fp ensures LastWith(a + b, fp) == LastWith(x + y, fp) {
      LastWithConcat(a, b, fp);
      LastWithConcat(x, y, fp);
    }
  }

  ghost predicate DistinctFingerprints(certs: seq<Certificate>) {
    forall i, j | 0 <= i < j < |certs| :: certs[i].fingerprint != certs[j].fingerprint
  }

  /** Keeping the last certificate of every fingerprint keeps which is the last. */
  lemma KeptAreLast(out: seq<Certificate>, certs: seq<Certificate>)
    requires forall c | c in out :: c in certs && IsLastOf(certs, c)
    requires forall c | c in certs :: exists d :: d in out && d.fingerprint == c.fingerprint
    ensures SameLast(out, certs)
  {
    hide LastWith;
    forall fp ensures LastWith(out, fp) == LastWith(certs, fp) {
      LastWithIsExact(out, fp);
      LastWithIsExact(certs, fp);
      if LastWith(certs, fp).Some? {
        var c := LastWith(certs, fp).value;
        var d :| d in out && d.fingerprint == fp;
        LastIsUnique(certs, c, LastWith(out, fp).value);
      }
    }
  }

  lemma LastIsUnique(certs: seq<Certificate>, c: Certificate, d: Certificate)
    requires IsLastOf(certs, c) && IsLastOf(certs, d) && c.fingerprint == d.fingerprint
    ensures c == d
  {
  }

  method DeriveAll(o: Oracles, certs: seq<Certificate>) returns (out: seq<Finding>)
    ensures out == FromCertificates(o, certs)
  {
    out := [];
    for i := 0 to |certs|
      invariant out == FromCertificates(o, certs[..i])
    {
      assert certs[..i + 1][..i] == certs[..i];
      var names := o.certAlgorithms(certs[i]);
      ghost var before := out;
      for j := 0 to |names|
        invariant out == before + Derived(o, names[..j])
      {
        assert names[..j + 1][..j] == names[..j];
        Associative(before, Derived(o, names[..j]), [o.algorithm(names[j])]);
        out := out + [o.algorithm(names[j])];
      }
      assert names[..|names|] == names;
    }
    assert certs[..|certs|] == certs;
  }

  lemma {:induction false} FewerCertificatesAbsorbed(o: Oracles, fs: seq<Finding>, certs: seq<Certificate>,
                                                     fewer: seq<Certificate>)
    requires Absorbs(fs, FromCertificates(o, certs)) && forall c | c in fewer :: c in certs
    ensures Absorbs(fs, FromCertificates(o, fewer))
    decreases |fewer|
  {
    hide Gist, Derived;
    if fewer != [] {
      var front, last := fewer[..|fewer| - 1], fewer[|fewer| - 1];
      FewerCertificatesAbsorbed(o, fs, certs, front);
      assert last in fewer;
      OneCertificateAbsorbed(o, fs, certs, last);
      forall name ensures Join(Gist(fs, name), Gist(FromCertificates(o, fewer), name)) == Gist(fs, name) {
        GistOfConcat(FromCertificates(o, front), Derived(o, o.certAlgorithms(last)), name);
        JoinAbsorbed(Gist(fs, name), Gist(FromCertificates(o, front), name),
                     Gist(Derived(o, o.certAlgorithms(last)), name));
      }
    } else {
      assert forall name :: Gist([], name) == None by { EmptyHasNoGist(); }
    }
  }

  lemma EmptyHasNoGist()
    ensures forall name :: Gist([], name) == None
  {
  }

  lemma {:induction false} OneCertificateAbsorbed(o: Oracles, fs: seq<Finding>, certs: seq<Certificate>, c: Certificate)
    requires Absorbs(fs, FromCertificates(o, certs)) && c in certs
    ensures Absorbs(fs, Derived(o, o.certAlgorithms(c)))
    decreases |certs|
  {
    hide Gist, Derived;
    var front, last := certs[..|certs| - 1], certs[|certs| - 1];
    forall name
      ensures Join(Gist(fs, name), Gist(FromCertificates(o, front), name)) == Gist(fs, name)
      ensures Join(Gist(fs, name), Gist(Derived(o, o.certAlgorithms(last)), name)) == Gist(fs, name)
    {
      GistOfConcat(FromCertificates(o, front), Derived(o, o.certAlgorithms(last)), name);
      JoinAbsorbed(Gist(fs, name), Gist(FromCertificates(o, front), name),
                   Gist(Derived(o, o.certAlgorithms(last)), name));
    }
    if c != last {
      assert certs == front + [last];
      OneCertificateAbsorbed(o, fs, front, c);
    }
  }

  lemma CertificatesConcat(o: Oracles, a: seq<Certificate>, b: seq<Certificate>)
    ensures FromCertificates(o, a + b) == FromCertificates(o, a) + FromCertificates(o, b)
    decreases |b|
  {
    hide Derived;
    if b == [] {
      assert a + b == a;
    } else {
      assert (a + b)[..|a + b| - 1] == a + b[..|b| - 1];
      CertificatesConcat(o, a, b[..|b| - 1]);
      Associative(FromCertificates(o, a), FromCertificates(o, b[..|b| - 1]), Derived(o, o.certAlgorithms(b[|b| - 1])));
    }
  }

  // ---------- what a report says about its leaves ----------

  ghost predicate HasStatus(occurrences: seq<Finding>, name: string, status: string) {
    exists g :: g in occurrences && g.name == name && g.status == status
  }

  /** No finding invents a status. */
  ghost predicate StatusesFrom(fs: seq<Finding>, occurrences: seq<Finding>) {
    forall f | f in fs :: HasStatus(occurrences, f.name, f.status)
  }

  /** The parts of a report to which finalizing gives the meaning of the leaves. */
  ghost predicate Ready(o: Oracles, algorithms: seq<Finding>, libraries: seq<Finding>, certs: seq<Certificate>,
                        leaves: seq<Leaf>) {
    && Covers(algorithms + FromCertificates(o, certs), AllAlgorithms(o, leaves))
    && Covers(libraries, AllLibraries(o, leaves))
    && StatusesFrom(algorithms + FromCertificates(o, certs), AllAlgorithms(o, leaves))
    && SameLast(certs, AllCertificates(o, leaves))
  }

  /** As `Ready`, with the certificates' algorithms present already. */
  ghost predicate Says(o: Oracles, algorithms: seq<Finding>, libraries: seq<Finding>, certs: seq<Certificate>,
                       leaves: seq<Leaf>) {
    && Covers(algorithms, AllAlgorithms(o, leaves))
    && Covers(libraries, AllLibraries(o, leaves))
    && Absorbs(algorithms, FromCertificates(o, certs))
    && StatusesFrom(algorithms + FromCertificates(o, certs), AllAlgorithms(o, leaves))
    && SameLast(certs, AllCertificates(o, leaves))
  }

  lemma SaysIsReady(o: Oracles, algorithms: seq<Finding>, libraries: seq<Finding>, certs: seq<Certificate>,
                    leaves: seq<Leaf>)
    requires Says(o, algorithms, libraries, certs, leaves)
    ensures Ready(o, algorithms, libraries, certs, leaves)
  {
    hide Gist, Join;
    AbsorbedAddsNothing(algorithms, FromCertificates(o, certs));
  }

  lemma {:induction false} FlattenConcat<X, Y>(f: X -> seq<Y>, a: seq<X>, b: seq<X>)
    ensures Flatten(f, a + b) == Flatten(f, a) + Flatten(f, b)
    decreases |b|
  {
    if b == [] {
      assert a + b == a;
    } else {
      assert (a + b)[..|a + b| - 1] == a + b[..|b| - 1];
      FlattenConcat(f, a, b[..|b| - 1]);
    }
  }

  lemma StatusesConcat(a: seq<Finding>, x: seq<Finding>, b: seq<Finding>, y: seq<Finding>)
    requires StatusesFrom(a, x) && StatusesFrom(b, y)
    ensures forall f | f in a || f in b :: HasStatus(x + y, f.name, f.status)
  {
    forall f | f in a || f in b ensures HasStatus(x + y, f.name, f.status) {
      if f in a {
        var g :| g in x && g.name == f.name && g.status == f.status;
        assert g in x + y;
      } else {
        var g :| g in y && g.name == f.name && g.status == f.status;
        assert g in x + y;
      }
    }
  }

  /** Appending a child's parts appends its leaves. */
  lemma SaysConcat(o: Oracles, a1: seq<Finding>, l1: seq<Finding>, c1: seq<Certificate>, leaves1: seq<Leaf>,
                   a2: seq<Finding>, l2: seq<Finding>, c2: seq<Certificate>, leaves2: seq<Leaf>)
    requires Says(o, a1, l1, c1, leaves1) && Says(o, a2, l2, c2, leaves2)
    ensures Says(o, a1 + a2, l1 + l2, c1 + c2, leaves1 + leaves2)
  {
    hide Gist, Join, HasStatus, Flatten, FromCertificates, LastWith;
    FlattenConcat(leaf => LeafAlgorithms(o, leaf), leaves1, leaves2);
    FlattenConcat(leaf => LeafLibraries(o, leaf), leaves1, leaves2);
    FlattenConcat(leaf => LeafCertificates(o, leaf), leaves1, leaves2);
    SameLastConcat(c1, AllCertificates(o, leaves1), c2, AllCertificates(o, leaves2));
    CertificatesConcat(o, c1, c2);
    CoversConcat(a1, AllAlgorithms(o, leaves1), a2, AllAlgorithms(o, leaves2));
    CoversConcat(l1, AllLibraries(o, leaves1), l2, AllLibraries(o, leaves2));
    AbsorbsConcat(a1, a2, FromCertificates(o, c1), FromCertificates(o, c2));
    StatusesConcat(a1 + FromCertificates(o, c1), AllAlgorithms(o, leaves1),
                   a2 + FromCertificates(o, c2), AllAlgorithms(o, leaves2));
  }

  lemma {:induction false} TabulateStatuses(fs: seq<Finding>)
    ensures forall name | name in Tabulate(fs) :: HasStatus(fs, name, Tabulate(fs)[name].status)
  {
    if fs != [] {
      var front, last := fs[..|fs| - 1], fs[|fs| - 1];
      TabulateStatuses(front);
      assert fs == front + [last] && last in fs;
      forall name | name in Tabulate(fs) ensures HasStatus(fs, name, Tabulate(fs)[name].status) {
        if name in Tabulate(front) {
          var g :| g in front && g.name == name && g.status == Tabulate(front)[name].status;
          assert g in fs;
        }
      }
    }
  }

  /** The parts after finalizing. */
  lemma FinalizedSays(o: Oracles, a: seq<Finding>, l: seq<Finding>, c: seq<Certificate>, leaves: seq<Leaf>,
                      a': seq<Finding>, l': seq<Finding>, c': seq<Certificate>)
    requires Ready(o, a, l, c, leaves)
    requires ListsByName(a', Tabulate(a + FromCertificates(o, c))) && ListsByName(l', Tabulate(l))
    requires (forall d | d in c' :: d in c) && SameLast(c', c)
    ensures Says(o, a', l', c', leaves)
  {
    hide Gist, LastWith, Tabulate, FromCertificates, AllAlgorithms, AllLibraries, AllCertificates;
    var derived := FromCertificates(o, c);
    ListingCovers(a', a + derived);
    ListingCovers(l', l);
    forall name ensures Join(Gist(a', name), Gist(derived, name)) == Gist(a', name) {
      GistOfConcat(a, derived, name);
      JoinIsAssociative(Gist(a, name), Gist(derived, name), Gist(derived, name));
      JoinIsIdempotent(Gist(derived, name));
    }
    FewerCertificatesAbsorbed(o, a', c, c');
    TabulateStatuses(a + derived);
    FewerCertificatesDerive(o, c, c');
    FinalizedStatuses(a', a + derived, FromCertificates(o, c'), derived, AllAlgorithms(o, leaves));
  }

  lemma FinalizedStatuses(a': seq<Finding>, all: seq<Finding>, fewer: seq<Finding>, derived: seq<Finding>,
                          occurrences: seq<Finding>)
    requires ListsByName(a', Tabulate(all)) && StatusesFrom(all, occurrences)
    requires forall name | name in Tabulate(all) :: HasStatus(all, name, Tabulate(all)[name].status)
    requires (forall f | f in fewer :: f in derived) && (forall f | f in derived :: f in all)
    ensures StatusesFrom(a' + fewer, occurrences)
  {
    hide Tabulate;
    forall f | f in a' + fewer ensures HasStatus(occurrences, f.name, f.status) {
      if f in fewer {
        assert f in all;
      } else {
        var i :| 0 <= i < |a'| && a'[i] == f;
        var g :| g in all && g.name == f.name && g.status == f.status;
        assert HasStatus(occurrences, g.name, g.status);
      }
    }
  }

  lemma {:induction false} FewerCertificatesDerive(o: Oracles, c: seq<Certificate>, fewer: seq<Certificate>)
    requires forall d | d in fewer :: d in c
    ensures forall f | f in FromCertificates(o, fewer) :: f in FromCertificates(o, c)
    decreases |fewer|
  {
    hide Derived;
    if fewer != [] {
      var front, last := fewer[..|fewer| - 1], fewer[|fewer| - 1];
      FewerCertificatesDerive(o, c, front);
      assert last in fewer;
      CertificateDerives(o, c, last);
    }
  }

  lemma {:induction false} CertificateDerives(o: Oracles, c: seq<Certificate>, d: Certificate)
    requires d in c
    ensures forall f | f in Derived(o, o.certAlgorithms(d)) :: f in FromCertificates(o, c)
    decreases |c|
  {
    hide Derived;
    var front, last := c[..|c| - 1], c[|c| - 1];
    if d != last {
      assert c == front + [last];
      CertificateDerives(o, front, d);
    }
  }

  // ---------- the analysis ----------

  datatype ChildReport = ChildReport(
    name: string, format: Format, sizeBytes: nat, libraries: seq<string>, algorithms: seq<string>,
    warnings: seq<string>)

  /** Exactly the names that occur, ascending. */
  ghost predicate ListsNamesOf(names: seq<string>, occurrences: seq<Finding>) {
    && (forall i, j | 0 <= i < j < |names| :: Leq(names[i], names[j]) && names[i] != names[j])
    && (forall n :: n in names <==> Gist(occurrences, n).Some?)
  }

  /** The line a container keeps about a member analysed at `depth`. */
  ghost predicate LineFits(o: Oracles, lim: Limits, e: Entry, depth: int, c: ChildReport)
    requires depth <= lim.maxDepth
  {
    && c.name == e.name && c.format == o.detect(e.name, e.data) && c.sizeBytes == |e.data|
    && ListsNamesOf(c.algorithms, AllAlgorithms(o, Leaves(o, lim, e.name, e.data, depth)))
    && ListsNamesOf(c.libraries, AllLibraries(o, Leaves(o, lim, e.name, e.data, depth)))
    && c.warnings == WarningsAt(o, lim, e.name, e.data, depth)
  }

  /** One line per member in order, or none when the members lie beyond the depth limit. */
  ghost predicate LinesFit(o: Oracles, lim: Limits, entries: seq<Entry>, depth: int, lines: seq<ChildReport>) {
    if depth > lim.maxDepth then lines == [] else
      |lines| == |entries| && forall i | 0 <= i < |lines| :: LineFits(o, lim, entries[i], depth, lines[i])
  }

  lemma LinesFitNext(o: Oracles, lim: Limits, entries: seq<Entry>, e: Entry, depth: int, lines: seq<ChildReport>,
                     c: ChildReport)
    requires depth <= lim.maxDepth && LinesFit(o, lim, entries, depth, lines) && LineFits(o, lim, e, depth, c)
    ensures LinesFit(o, lim, entries + [e], depth, lines + [c])
  {
    hide LineFits;
  }

  lemma ListedNames(fs: seq<Finding>, occurrences: seq<Finding>)
    requires Ascending(fs) && Covers(fs, occurrences)
    ensures ListsNamesOf(NamesOf(fs), occurrences)
  {
    hide Gist;
    var names := NamesOf(fs);
    forall n ensures n in names <==> Gist(occurrences, n).Some? {
      GistIsExact(fs, n);
      if n in names { var i :| 0 <= i < |names| && names[i] == n; assert fs[i] in fs; }
      if Gist(fs, n).Some? {
        var f :| f in fs && f.name == n;
        var i :| 0 <= i < |fs| && fs[i] == f;
        assert names[i] == n;
      }
    }
  }

  class Report {
    const fileName: string
    const format: Format
    const sizeBytes: nat
    var libraries: seq<Finding>
    var algorithms: seq<Finding>
    var certificates: seq<Certificate>
    var children: seq<ChildReport>
    var warnings: seq<string>
    var riskRank: nat

    constructor (fileName: string, format: Format, sizeBytes: nat)
      ensures libraries == [] && algorithms == [] && certificates == [] && children == [] && warnings == []
      ensures this.fileName == fileName && this.format == format && this.sizeBytes == sizeBytes
    {
      this.fileName, this.format, this.sizeBytes := fileName, format, sizeBytes;
      libraries, algorithms, certificates, children, warnings, riskRank := [], [], [], [], [], 0;
    }

    /** The report means its leaves; listings ascend by name. */
    ghost predicate Means(o: Oracles, leaves: seq<Leaf>)
      reads this
    {
      && Says(o, algorithms, libraries, certificates, leaves)
      && Ascending(algorithms) && Ascending(libraries)
      && DistinctFingerprints(certificates) && SubjectsAscend(certificates)
      && riskRank == MaxRank(algorithms)
    }

    /** The report is about this input: identity, warnings, and a line for every member. */
    ghost predicate About(o: Oracles, lim: Limits, name: string, data: Bytes, depth: int)
      requires depth <= lim.maxDepth
      reads this
    {
      && fileName == name && format == o.detect(name, data) && sizeBytes == |data|
      && warnings == WarningsAt(o, lim, name, data, depth)
      && LinesFit(o, lim, Children(o, lim, name, data).entries, depth + 1, children)
    }

    function Line(): ChildReport
      reads this
    {
      ChildReport(fileName, format, sizeBytes, NamesOf(libraries), NamesOf(algorithms), warnings)
    }

    lemma MeansLine(o: Oracles, lim: Limits, e: Entry, depth: int)
      requires depth <= lim.maxDepth && About(o, lim, e.name, e.data, depth)
      requires Means(o, Leaves(o, lim, e.name, e.data, depth))
      ensures LineFits(o, lim, e, depth, Line())
      ensures warnings == WarningsAt(o, lim, e.name, e.data, depth)
      ensures Says(o, algorithms, libraries, certificates, Leaves(o, lim, e.name, e.data, depth))
    {
      hide Covers, Ascending, LinesFit, Leaves, WarningsAt, AllAlgorithms, AllLibraries, ListsNamesOf, NamesOf;
      var leaves := Leaves(o, lim, e.name, e.data, depth);
      ListedNames(algorithms, AllAlgorithms(o, leaves));
      ListedNames(libraries, AllLibraries(o, leaves));
    }

    /** mergeReport. */
    method Merge(child: Report)
      requires child != this
      modifies this
      ensures libraries == old(libraries) + child.libraries
      ensures algorithms == old(algorithms) + child.algorithms
      ensures certificates == old(certificates) + child.certificates
      ensures warnings == old(warnings) + child.warnings
      ensures children == old(children) + [child.Line()]
    {
      libraries := libraries + child.libraries;
      algorithms := algorithms + child.algorithms;
      certificates := certificates + child.certificates;
      warnings := warnings + child.warnings;
      children := children + [child.Line()];
    }

    /** finalize. */
    method Finalize(o: Oracles, ghost leaves: seq<Leaf>)
      requires Ready(o, algorithms, libraries, certificates, leaves)
      modifies this
      ensures Means(o, leaves)
      ensures children == old(children) && warnings == old(warnings)
    {
      hide Ready, Says, ListsByName, MaxRank, Tabulate, FromCertificates, Ascending, SameLast, DistinctFingerprints,
           SubjectsAscend;
      var derived := DeriveAll(o, certificates);
      var a := DedupeFindings(algorithms + derived);
      var l := DedupeFindings(libraries);
      var c := DedupeCertificates(certificates);
      FinalizedSays(o, algorithms, libraries, certificates, leaves, a, l, c);
      ListingAscends(a, Tabulate(algorithms + derived));
      ListingAscends(l, Tabulate(libraries));
      libraries, algorithms, certificates := l, a, c;
      riskRank := HighestRisk(algorithms);
    }
  }

  function NamesOf(fs: seq<Finding>): seq<string> {
    seq(|fs|, i requires 0 <= i < |fs| => fs[i].name)
  }

  ghost predicate Ascending(fs: seq<Finding>) {
    forall i, j | 0 <= i < j < |fs| :: Leq(fs[i].name, fs[j].name) && fs[i].name != fs[j].name
  }

  lemma ListingAscends(out: seq<Finding>, table: map<string, Finding>)
    requires ListsByName(out, table)
    ensures Ascending(out)
  {
  }

  lemma NothingSaysNothing(o: Oracles)
    ensures Says(o, [], [], [], [])
  {
  }

  lemma FlattenOne<X, Y>(f: X -> seq<Y>, x: X)
    ensures Flatten(f, [x]) == f(x)
  {
    assert [x][..0] == [];
    assert Flatten(f, [x]) == Flatten(f, []) + f(x);
  }

  lemma LeafIsReady(o: Oracles, leaf: Leaf)
    ensures var d := o.scanImage(leaf.name, leaf.data); Ready(o, d.algorithms, d.libraries, d.certificates, [leaf])
  {
    hide Gist, FromCertificates, Flatten;
    FlattenOne(l => LeafAlgorithms(o, l), leaf);
    FlattenOne(l => LeafLibraries(o, l), leaf);
    FlattenOne(l => LeafCertificates(o, l), leaf);
  }

  /** Opening a container: the three format branches. */
  method OpenContainer(o: Oracles, lim: Limits, name: string, data: Bytes) returns (x: Extraction)
    ensures x == Children(o, lim, name, data)
  {
    x := Extraction([], [], None);
    match o.detect(name, data) {
      case FormatZip =>
        var members := o.openZip(data);
        if members.Err? { return Extraction([], [], Some(members.error)); }
        x := ExtractMembers(Zip, o.safeName, members.value, None, lim);
      case FormatTar =>
        var stream := o.openTar(data);
        x := ExtractMembers(Tar, o.safeName, stream.members, stream.error, lim);
      case FormatGzip =>
        var m := o.gunzip(data);
        if m.Err? { return Extraction([], ["gzip: " + m.error], None); }
        var inner := ReadAtMost(m.value, lim.maxBytes);
        if inner.None? { return Extraction([], ["gzip: " + o.readError(m.value)], None); }
        x := Extraction([Entry(o.stripExtension(name), inner.value)], [], None);
      case FormatImage =>
    }
  }

  /** Recursion over the levels: beyond the depth limit an error, otherwise a report that means the
      images reached within it.  `made` counts the reports made on the way. */
  method AnalyzeDepth(o: Oracles, lim: Limits, name: string, data: Bytes, depth: int)
    returns (r: Result<Report>, ghost made: nat)
    ensures r.Err? <==> depth > lim.maxDepth
    ensures r.Err? ==> r.error == LIMIT_ERROR
    ensures r.Ok? ==> fresh(r.value) && r.value.Means(o, Leaves(o, lim, name, data, depth))
    ensures r.Ok? ==> r.value.About(o, lim, name, data, depth)
    ensures made == ReportCount(o, lim, name, data, depth)
    decreases Remaining(lim, depth), 0
  {
    hide Says, Ready, Children, MaxRank, LinesFit;
    made := 0;
    if depth > lim.maxDepth { r := Err(LIMIT_ERROR); return; }
    var format := o.detect(name, data);
    var rep := new Report(name, format, |data|);
    made := 1;
    ghost var leaves := Leaves(o, lim, name, data, depth);
    if format == FormatImage {
      var d := o.scanImage(name, data);
      rep.libraries, rep.algorithms, rep.certificates := d.libraries, d.algorithms, d.certificates;
      rep.warnings := rep.warnings + d.warnings;
      assert rep.warnings == d.warnings;
      LeafIsReady(o, Leaf(name, data));
      NoLines(o, lim, name, data, depth);
    } else {
      var x := OpenContainer(o, lim, name, data);
      ghost var below := AnalyzeChildren(o, lim, rep, x, depth);
      made := made + below;
      SaysIsReady(o, rep.algorithms, rep.libraries, rep.certificates, leaves);
    }
    rep.Finalize(o, leaves);
    r := Ok(rep);
  }

  lemma NoLines(o: Oracles, lim: Limits, name: string, data: Bytes, depth: int)
    requires o.detect(name, data) == FormatImage
    ensures LinesFit(o, lim, Children(o, lim, name, data).entries, depth + 1, [])
  {
  }

  method AnalyzeChildren(o: Oracles, lim: Limits, rep: Report, x: Extraction, depth: int) returns (ghost made: nat)
    requires depth <= lim.maxDepth
    requires rep.algorithms == [] && rep.libraries == [] && rep.certificates == []
    requires rep.warnings == [] && rep.children == []
    modifies rep
    ensures Says(o, rep.algorithms, rep.libraries, rep.certificates, LeavesOf(o, lim, x.entries, depth))
    ensures rep.warnings == OpeningWarnings(x) + WarningsOf(o, lim, rep.format, x.entries, depth)
    ensures LinesFit(o, lim, x.entries, depth + 1, rep.children)
    ensures made == ReportCountOf(o, lim, x.entries, depth)
    decreases Remaining(lim, depth + 1), 1
  {
    hide Says, LinesFit, LineFits, Report.Means, Report.About, Report.Line, OpeningWarnings, ChildPrefix, Leaves,
         LeavesOf, WarningsAt, WarningsOf, ReportCount, ReportCountOf, Children, Remaining;
    NoEntries(o, lim, rep.format, depth);
    made := 0;
    rep.warnings := OpeningWarnings(x);
    ghost var opening := rep.warnings;
    NothingSaysNothing(o);
    NoEntriesNoLines(o, lim, depth + 1);
    for i := 0 to |x.entries|
      invariant Says(o, rep.algorithms, rep.libraries, rep.certificates, LeavesOf(o, lim, x.entries[..i], depth))
      invariant rep.warnings == opening + WarningsOf(o, lim, rep.format, x.entries[..i], depth)
      invariant LinesFit(o, lim, x.entries[..i], depth + 1, rep.children)
      invariant made == ReportCountOf(o, lim, x.entries[..i], depth)
    {
      var e := x.entries[i];
      var done := x.entries[..i];
      assert x.entries[..i + 1] == done + [e];
      EntriesNext(o, lim, rep.format, done, e, depth);
      RemainingDrops(lim, depth);
      ghost var before, warned := LeavesOf(o, lim, done, depth), WarningsOf(o, lim, rep.format, done, depth);
      var child, below := AnalyzeDepth(o, lim, e.name, e.data, depth + 1);
      made := made + below;
      if child.Err? {
        rep.warnings := rep.warnings + [ChildPrefix(rep.format, e.name) + child.error];
        Associative(opening, warned, [ChildPrefix(rep.format, e.name) + child.error]);
        assert before + [] == before;
        NoLinesBeyond(o, lim, done, e, depth + 1, rep.children);
      } else {
        child.value.MeansLine(o, lim, e, depth + 1);
        LinesFitNext(o, lim, done, e, depth + 1, rep.children, child.value.Line());
        SaysConcat(o, rep.algorithms, rep.libraries, rep.certificates, before,
                   child.value.algorithms, child.value.libraries, child.value.certificates,
                   Leaves(o, lim, e.name, e.data, depth + 1));
        Associative(opening, warned, child.value.warnings);
        rep.Merge(child.value);
      }
    }
    assert x.entries[..|x.entries|] == x.entries;
  }

  lemma RemainingDrops(lim: Limits, depth: int)
    requires depth <= lim.maxDepth
    ensures Remaining(lim, depth + 1) < Remaining(lim, depth)
  {
  }

  lemma NoEntries(o: Oracles, lim: Limits, format: Format, depth: int)
    requires depth <= lim.maxDepth
    ensures LeavesOf(o, lim, [], depth) == [] && WarningsOf(o, lim, format, [], depth) == []
    ensures ReportCountOf(o, lim, [], depth) == 0
  {
  }

  lemma EntriesNext(o: Oracles, lim: Limits, format: Format, done: seq<Entry>, e: Entry, depth: int)
    requires depth <= lim.maxDepth
    ensures LeavesOf(o, lim, done + [e], depth) == LeavesOf(o, lim, done, depth)
              + Leaves(o, lim, e.name, e.data, depth + 1)
    ensures WarningsOf(o, lim, format, done + [e], depth)
         == WarningsOf(o, lim, format, done, depth)
            + (if depth + 1 > lim.maxDepth then [ChildPrefix(format, e.name) + LIMIT_ERROR]
               else WarningsAt(o, lim, e.name, e.data, depth + 1))
    ensures ReportCountOf(o, lim, done + [e], depth)
         == ReportCountOf(o, lim, done, depth) + ReportCount(o, lim, e.name, e.data, depth + 1)
    ensures depth + 1 > lim.maxDepth ==> Leaves(o, lim, e.name, e.data, depth + 1) == []
  {
    hide Children, ChildPrefix, WarningsAt;
    assert (done + [e])[..|done|] == done;
  }

  lemma NoEntriesNoLines(o: Oracles, lim: Limits, depth: int)
    ensures LinesFit(o, lim, [], depth, [])
  {
  }

  lemma NoLinesBeyond(o: Oracles, lim: Limits, done: seq<Entry>, e: Entry, depth: int, lines: seq<ChildReport>)
    requires depth > lim.maxDepth && LinesFit(o, lim, done, depth, lines)
    ensures LinesFit(o, lim, done + [e], depth, lines)
  {
  }

  // ---------- a report is the union over its leaves ----------

  ghost predicate Occurs<X(!new), Y>(f: X -> seq<Y>, xs: seq<X>, y: Y) {
    exists x :: x in xs && y in f(x)
  }

  lemma {:induction false} FlattenMembers<X(!new), Y(!new)>(f: X -> seq<Y>, xs: seq<X>)
    ensures forall y :: y in Flatten(f, xs) <==> Occurs(f, xs, y)
  {
    if xs != [] {
      var front, last := xs[..|xs| - 1], xs[|xs| - 1];
      FlattenMembers(f, front);
      assert xs == front + [last];
    }
  }

  /** One finding per name, which attains the best confidence over all leaves and carries exactly their markers. */
  ghost predicate UnionOver(fs: seq<Finding>, f: Leaf -> seq<Finding>, leaves: seq<Leaf>) {
    && Ascending(fs)
    && (forall x | x in fs ::
          && (exists g :: Occurs(f, leaves, g) && g.name == x.name && g.confidence == x.confidence)
          && (forall m | m in x.markers :: exists g :: Occurs(f, leaves, g) && g.name == x.name && m in g.markers)
          && (x.referenced <==> exists g :: Occurs(f, leaves, g) && g.name == x.name && g.referenced))
    && (forall g | Occurs(f, leaves, g) ::
          exists x :: x in fs && x.name == g.name && g.confidence <= x.confidence && g.markers <= x.markers)
  }

  lemma AscendingGist(fs: seq<Finding>, x: Finding)
    requires Ascending(fs) && x in fs
    ensures Gist(fs, x.name) == Some(ClaimOf(x))
  {
    hide Gist;
    GistIsExact(fs, x.name);
    var g := Gist(fs, x.name);
    assert forall f | f in fs && f.name == x.name :: f == x;
    assert g.value.markers == x.markers;
  }

  lemma EntryIsExact(fs: seq<Finding>, f: Leaf -> seq<Finding>, leaves: seq<Leaf>, x: Finding)
    requires Ascending(fs) && Covers(fs, Flatten(f, leaves)) && x in fs
    ensures exists g :: Occurs(f, leaves, g) && g.name == x.name && g.confidence == x.confidence
    ensures forall m | m in x.markers :: exists g :: Occurs(f, leaves, g) && g.name == x.name && m in g.markers
    ensures x.referenced <==> exists g :: Occurs(f, leaves, g) && g.name == x.name && g.referenced
  {
    hide Gist, Flatten, Ascending, Occurs;
    FlattenMembers(f, leaves);
    AscendingGist(fs, x);
    GistIsExact(Flatten(f, leaves), x.name);
    assert ExactGist(Flatten(f, leaves), x.name, Some(ClaimOf(x)));
  }

  lemma OccurrenceIsCovered(fs: seq<Finding>, f: Leaf -> seq<Finding>, leaves: seq<Leaf>, g: Finding)
    requires Ascending(fs) && Covers(fs, Flatten(f, leaves)) && Occurs(f, leaves, g)
    ensures exists x :: x in fs && x.name == g.name && g.confidence <= x.confidence && g.markers <= x.markers
  {
    hide Gist, Flatten, Ascending, Occurs;
    FlattenMembers(f, leaves);
    assert g in Flatten(f, leaves);
    GistIsExact(Flatten(f, leaves), g.name);
    GistIsExact(fs, g.name);
    var x :| x in fs && x.name == g.name;
    AscendingGist(fs, x);
  }

  lemma CoveringIsUnion(fs: seq<Finding>, f: Leaf -> seq<Finding>, leaves: seq<Leaf>)
    requires Ascending(fs) && Covers(fs, Flatten(f, leaves))
    ensures UnionOver(fs, f, leaves)
  {
    hide Covers, Flatten, Ascending, Occurs;
    forall x | x in fs
      ensures exists g :: Occurs(f, leaves, g) && g.name == x.name && g.confidence == x.confidence
      ensures forall m | m in x.markers :: exists g :: Occurs(f, leaves, g) && g.name == x.name && m in g.markers
      ensures x.referenced <==> exists g :: Occurs(f, leaves, g) && g.name == x.name && g.referenced
    {
      EntryIsExact(fs, f, leaves, x);
    }
    forall g | Occurs(f, leaves, g)
      ensures exists x :: x in fs && x.name == g.name && g.confidence <= x.confidence && g.markers <= x.markers
    {
      OccurrenceIsCovered(fs, f, leaves, g);
    }
  }

  /** The algorithms and libraries of a report are the union over the leaf images, although the names implied
      by certificates are added again and deduplicated at every level. */
  lemma ReportIsUnionOverLeaves(o: Oracles, r: Report, leaves: seq<Leaf>)
    requires r.Means(o, leaves)
    ensures UnionOver(r.algorithms, leaf => LeafAlgorithms(o, leaf), leaves)
    ensures UnionOver(r.libraries, leaf => LeafLibraries(o, leaf), leaves)
  {
    hide Gist, Flatten, UnionOver;
    CoveringIsUnion(r.algorithms, leaf => LeafAlgorithms(o, leaf), leaves);
    CoveringIsUnion(r.libraries, leaf => LeafLibraries(o, leaf), leaves);
  }

  /** Each status occurring in the leaves is the one its name has. */
  ghost predicate StatusesAgree(o: Oracles, leaves: seq<Leaf>, statusOf: string -> string) {
    forall leaf, g | leaf in leaves && g in LeafAlgorithms(o, leaf) :: g.status == statusOf(g.name)
  }

  /** When status is a function of the name, the risk of a report is the highest risk of a leaf. */
  lemma RiskIsLeafMaximum(o: Oracles, algorithms: seq<Finding>, libraries: seq<Finding>, certs: seq<Certificate>,
                          leaves: seq<Leaf>, statusOf: string -> string)
    requires Says(o, algorithms, libraries, certs, leaves) && StatusesAgree(o, leaves, statusOf)
    ensures forall leaf | leaf in leaves :: MaxRank(LeafAlgorithms(o, leaf)) <= MaxRank(algorithms)
    ensures MaxRank(algorithms) == 0
            || exists leaf :: leaf in leaves && MaxRank(LeafAlgorithms(o, leaf)) == MaxRank(algorithms)
  {
    hide Gist, Flatten, MaxRank, LeafAlgorithms;
    var all := AllAlgorithms(o, leaves);
    FlattenMembers(l => LeafAlgorithms(o, l), leaves);
    assert StatusByName(all, statusOf);
    assert forall f | f in algorithms :: f in algorithms + FromCertificates(o, certs);
    CoveredRank(algorithms, all, statusOf);
    MaxRankIsMaximum(all);
    forall leaf | leaf in leaves ensures MaxRank(LeafAlgorithms(o, leaf)) <= MaxRank(all) {
      MaxRankIsMaximum(LeafAlgorithms(o, leaf));
    }
    if MaxRank(all) > 0 {
      var f :| f in all && RiskRank(f.status) == MaxRank(all);
      var leaf :| leaf in leaves && f in LeafAlgorithms(o, leaf);
      MaxRankIsMaximum(LeafAlgorithms(o, leaf));
      assert MaxRank(LeafAlgorithms(o, leaf)) == MaxRank(all);
    }
  }

  // ---------- how many reports ----------

  /** The reports that analysing makes, nested ones included. */
  function ReportCount(o: Oracles, lim: Limits, name: string, data: Bytes, depth: int): nat
    decreases Remaining(lim, depth), 0
  {
    if depth > lim.maxDepth then 0
    else if o.detect(name, data) == FormatImage then 1
    else 1 + ReportCountOf(o, lim, Children(o, lim, name, data).entries, depth)
  }

  function ReportCountOf(o: Oracles, lim: Limits, entries: seq<Entry>, depth: int): nat
    requires depth <= lim.maxDepth
    decreases Remaining(lim, depth + 1), 1, |entries|
  {
    if entries == [] then 0 else
      var last := entries[|entries| - 1];
      ReportCountOf(o, lim, entries[..|entries| - 1], depth) + ReportCount(o, lim, last.name, last.data, depth + 1)
  }

  function Power(m: nat, n: nat): nat {
    if n == 0 then 1 else m * Power(m, n - 1)
  }

  /** 1 + m + ... + m^(n-1). */
  function Powers(m: nat, n: nat): nat {
    if n == 0 then 0 else Powers(m, n - 1) + Power(m, n - 1)
  }

  lemma {:induction false} PowersNext(m: nat, n: nat)
    ensures Powers(m, n + 1) == 1 + m * Powers(m, n)
  {
    if n > 0 {
      PowersNext(m, n - 1);
      assert m * (Powers(m, n - 1) + Power(m, n - 1)) == m * Powers(m, n - 1) + m * Power(m, n - 1);
    }
  }

  /** A container hands on at most `maxEntries` members (a gzip stream: one), together within `maxBytes`. */
  lemma ChildrenFit(o: Oracles, lim: Limits, name: string, data: Bytes)
    ensures var x := Children(o, lim, name, data);
            && |x.entries| <= Max(1, lim.maxEntries)
            && TotalBytes(x.entries) <= Max(0, lim.maxBytes)
  {
    match o.detect(name, data)
    case FormatZip =>
      if o.openZip(data).Ok? { ExtractionFitsBudget(Zip, o.safeName, o.openZip(data).value, None, lim); }
    case FormatTar =>
      var stream := o.openTar(data);
      ExtractionFitsBudget(Tar, o.safeName, stream.members, stream.error, lim);
    case FormatGzip =>
    case FormatImage =>
  }

  /** Reading stops at the byte cap without failing before it. */
  predicate ReadsWhole(m: Member, maxBytes: int) {
    |m.content| <= Max(0, maxBytes) && (m.failsAt.Some? && maxBytes > 0 ==> m.failsAt.value >= maxBytes)
  }

  /** Unlike a zip or tar member, a gzip stream over the cap is cut, not dropped: it is handed on whole exactly when it
      fits the cap and does not fail before it. */
  lemma GzipIsWholeIff(o: Oracles, lim: Limits, name: string, data: Bytes)
    requires o.detect(name, data) == FormatGzip && o.gunzip(data).Ok?
    ensures var m := o.gunzip(data).value;
            Children(o, lim, name, data).entries == [Entry(o.stripExtension(name), m.content)] <==>
            ReadsWhole(m, lim.maxBytes)
  {
    var m := o.gunzip(data).value;
    var inner := ReadAtMost(m, lim.maxBytes);
    if lim.maxBytes == |m.content| { assert m.content[..lim.maxBytes] == m.content; }
    assert inner == Some(m.content) <==> ReadsWhole(m, lim.maxBytes);
    if inner.Some? {
      assert Children(o, lim, name, data).entries == [Entry(o.stripExtension(name), inner.value)];
      assert [Entry(o.stripExtension(name), inner.value)][0].data == inner.value;
    } else {
      assert Children(o, lim, name, data).entries == [];
    }
  }

  /** A stream of two bytes under a cap of one is handed on as its first byte. */
  lemma GzipMayBeCut()
    ensures exists o: Oracles, name, data, m: Member ::
              && o.gunzip(data) == Ok(m) && m.failsAt.None? && |m.content| == 2
              && Children(o, Limits(1, 1, 1), name, data) == Extraction([Entry("x", m.content[..1])], [], None)
              && m.content[..1] != m.content
  {
    var m := Member("x", true, 2, true, [1, 2], None);
    var o := Oracles(
      (name: string, data: Bytes) => FormatGzip, name => Some(name), data => Err(""), data => TarStream([], None),
      data => Ok(m), member => "", name => name, (name: string, data: Bytes) => Detection([], [], [], []), c => [],
      name => Finding(name, {}, true, "", "", 0.9));
    assert o.gunzip([]) == Ok(m);
    assert Children(o, Limits(1, 1, 1), "x", []) == Extraction([Entry("x", m.content[..1])], [], None);
  }

  /** With M the larger of 1 and `maxEntries`, an analysis from the top makes at most
      1 + M + ... + M^maxDepth reports. */
  lemma {:induction false} ReportsAreBounded(o: Oracles, lim: Limits, name: string, data: Bytes, depth: int)
    ensures ReportCount(o, lim, name, data, depth) <= Powers(Max(1, lim.maxEntries), Remaining(lim, depth))
    decreases Remaining(lim, depth), 0
  {
    hide Children, Powers;
    if depth <= lim.maxDepth {
      var m, below := Max(1, lim.maxEntries), Remaining(lim, depth + 1);
      var entries := Children(o, lim, name, data).entries;
      PowersNext(m, below);
      ChildrenFit(o, lim, name, data);
      if o.detect(name, data) != FormatImage {
        ReportsOfEntriesAreBounded(o, lim, entries, depth);
        assert |entries| * Powers(m, below) <= m * Powers(m, below) by { Scaled(|entries|, m, Powers(m, below)); }
      }
    }
  }

  lemma Scaled(a: nat, b: nat, c: nat)
    requires a <= b
    ensures a * c <= b * c && 0 <= b * c
  {
    assert b * c == a * c + (b - a) * c;
  }

  lemma {:induction false} ReportsOfEntriesAreBounded(o: Oracles, lim: Limits, entries: seq<Entry>, depth: int)
    requires depth <= lim.maxDepth
    ensures ReportCountOf(o, lim, entries, depth)
         <= |entries| * Powers(Max(1, lim.maxEntries), Remaining(lim, depth + 1))
    decreases Remaining(lim, depth + 1), 1, |entries|
  {
    hide Powers;
    if entries != [] {
      var front, last := entries[..|entries| - 1], entries[|entries| - 1];
      var each := Powers(Max(1, lim.maxEntries), Remaining(lim, depth + 1));
      ReportsOfEntriesAreBounded(o, lim, front, depth);
      ReportsAreBounded(o, lim, last.name, last.data, depth + 1);
      assert |entries| * each == (|entries| - 1) * each + each;
    }
  }
}
