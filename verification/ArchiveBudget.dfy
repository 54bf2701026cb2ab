/** Reading archives under caps: how many entries and how many bytes one extraction may return. */
module ArchiveBudget {
  import opened Text

  type Bytes = seq<bv8>

  datatype Limits = Limits(maxEntries: int, maxBytes: int, maxDepth: int)

  datatype Entry = Entry(name: string, data: Bytes)

  /** A member as the archive library presents it.  Reading past `failsAt` bytes is an error. */
  datatype Member = Member(name: string, regular: bool, declaredSize: nat, opens: bool, content: Bytes,
                           failsAt: Option<nat>)

  datatype Extraction = Extraction(entries: seq<Entry>, warnings: seq<string>, error: Option<string>)

  const LIMIT_ERROR := "firmware: safety limit exceeded"

  /** `io.ReadAll(io.LimitReader(r, n))`. */
  function ReadAtMost(m: Member, n: int): Option<Bytes> {
    if n <= 0 then Some([])
    else if m.failsAt.Some? && m.failsAt.value < n then None
    else Some(if n <= |m.content| then m.content[..n] else m.content)
  }

  /** The two formats differ in what they check before reading and in their messages. */
  datatype Kind = Zip | Tar

  function Prefix(k: Kind): string {
    if k == Zip then "zip: " else "tar: "
  }

  /** The reason to skip a member before reading it. */
  function SkipReason(k: Kind, m: Member, name: string, maxBytes: int): Option<string> {
    match k
    case Zip =>
      if !m.regular then Some("zip: skipped symlink " + name)
      else if maxBytes >= 0 && m.declaredSize > maxBytes then Some("zip: skipped oversized entry " + name)
      else if !m.opens then Some("zip: open failed " + name)
      else None
    case Tar => if !m.regular then Some("tar: skipped non-regular " + name) else None
  }

  /** What the remaining members add to `out`, of which `total` bytes have been read. */
  function ExtractFrom(k: Kind, safeName: string -> Option<string>, members: seq<Member>, streamError: Option<string>,
                       out: seq<Entry>, warnings: seq<string>, total: nat, lim: Limits): Extraction
    decreases |members|
  {
    if members == [] then Extraction(out, warnings, streamError)
    else
      var m, rest := members[0], members[1..];
      if |out| >= lim.maxEntries then Extraction(out, warnings + [Prefix(k) + "entry cap reached"], None)
      else match safeName(m.name)
        case None =>
          ExtractFrom(k, safeName, rest, streamError, out, warnings + [Prefix(k) + "skipped unsafe path " + m.name],
                      total, lim)
        case Some(name) =>
          match SkipReason(k, m, name, lim.maxBytes)
          case Some(reason) => ExtractFrom(k, safeName, rest, streamError, out, warnings + [reason], total, lim)
          case None =>
            match ReadAtMost(m, lim.maxBytes - total + 1)
            case None =>
              ExtractFrom(k, safeName, rest, streamError, out, warnings + [Prefix(k) + "read failed " + name], total,
                          lim)
            case Some(data) =>
              if total + |data| > lim.maxBytes then
                Extraction(out, warnings + [Prefix(k) + "decompressed cap reached"], Some(LIMIT_ERROR))
              else
                ExtractFrom(k, safeName, rest, streamError, out + [Entry(name, data)], warnings, total + |data|, lim)
  }

  function Extract(k: Kind, safeName: string -> Option<string>, members: seq<Member>, streamError: Option<string>,
                   lim: Limits)
    : Extraction
  {
    ExtractFrom(k, safeName, members, streamError, [], [], 0, lim)
  }

  /** The extraction loop. */
  method ExtractMembers(k: Kind, safeName: string -> Option<string>, members: seq<Member>, streamError: Option<string>,
                        lim: Limits)
    returns (r: Extraction)
    ensures r == Extract(k, safeName, members, streamError, lim)
  {
    hide SkipReason, ReadAtMost, Prefix;
    var out: seq<Entry> := [];
    var warnings: seq<string> := [];
    var total: nat := 0;
    var i := 0;
    assert members[0..] == members;
    while i < |members|
      invariant 0 <= i <= |members|
      invariant ExtractFrom(k, safeName, members[i..], streamError, out, warnings, total, lim)
             == Extract(k, safeName, members, streamError, lim)
    {
      assert members[i..][0] == members[i] && members[i..][1..] == members[i + 1..];
      var m := members[i];
      i := i + 1;
      if |out| >= lim.maxEntries {
        return Extraction(out, warnings + [Prefix(k) + "entry cap reached"], None);
      }
      var safe := safeName(m.name);
      if safe.None? {
        warnings := warnings + [Prefix(k) + "skipped unsafe path " + m.name];
        continue;
      }
      var skip := SkipReason(k, m, safe.value, lim.maxBytes);
      if skip.Some? {
        warnings := warnings + [skip.value];
        continue;
      }
      var data := ReadAtMost(m, lim.maxBytes - total + 1);
      if data.None? {
        warnings := warnings + [Prefix(k) + "read failed " + safe.value];
        continue;
      }
      total := total + |data.value|;
      if total > lim.maxBytes {
        return Extraction(out, warnings + [Prefix(k) + "decompressed cap reached"], Some(LIMIT_ERROR));
      }
      out := out + [Entry(safe.value, data.value)];
    }
    return Extraction(out, warnings, streamError);
  }

  // ---------- budgets ----------

  function TotalBytes(entries: seq<Entry>): nat {
    if entries == [] then 0 else TotalBytes(entries[..|entries| - 1]) + |entries[|entries| - 1].data|
  }

  /** The entry is one of the members, whole and under its safe name. */
  ghost predicate WholeMember(safeName: string -> Option<string>, members: seq<Member>, e: Entry) {
    exists m :: m in members && safeName(m.name) == Some(e.name) && e.data == m.content && m.regular
  }

  function Max(a: int, b: int): int {
    if a < b then b else a
  }

  lemma {:induction false} ExtractFromFits(k: Kind, safeName: string -> Option<string>, all: seq<Member>,
                                           members: seq<Member>,
                                           streamError: Option<string>, out: seq<Entry>,
                                           warnings: seq<string>, total: nat,
                                           lim: Limits)
    requires |out| <= Max(0, lim.maxEntries) && total == TotalBytes(out) <= Max(0, lim.maxBytes)
    requires (forall m | m in members :: m in all) && forall e | e in out :: WholeMember(safeName, all, e)
    ensures var r := ExtractFrom(k, safeName, members, streamError, out, warnings, total, lim);
            && |r.entries| <= Max(0, lim.maxEntries)
            && TotalBytes(r.entries) <= Max(0, lim.maxBytes)
            && forall e | e in r.entries :: WholeMember(safeName, all, e)
    decreases |members|
  {
    if members != [] && |out| < lim.maxEntries {
      var m, rest := members[0], members[1..];
      var safe := safeName(m.name);
      if safe.Some? {
        var skip := SkipReason(k, m, safe.value, lim.maxBytes);
        var data := ReadAtMost(m, lim.maxBytes - total + 1);
        if skip.None? && data.Some? && total + |data.value| <= lim.maxBytes {
          var e := Entry(safe.value, data.value);
          assert m in all && e.data == m.content;
          assert (out + [e])[..|out|] == out;
          ExtractFromFits(k, safeName, all, rest, streamError, out + [e], warnings, total + |data.value|, lim);
        } else if skip.Some? {
          ExtractFromFits(k, safeName, all, rest, streamError, out, warnings + [skip.value], total, lim);
        } else if data.None? {
          ExtractFromFits(k, safeName, all, rest, streamError, out,
                          warnings + [Prefix(k) + "read failed " + safe.value], total, lim);
        }
      } else {
        ExtractFromFits(k, safeName, all, rest, streamError, out,
                        warnings + [Prefix(k) + "skipped unsafe path " + m.name], total, lim);
      }
    }
  }

  /** One extraction returns at most `maxEntries` entries of together at most `maxBytes` bytes, and every
      entry is a whole regular member: what does not fit is dropped, never cut. */
  lemma ExtractionFitsBudget(k: Kind, safeName: string -> Option<string>, members: seq<Member>,
                             streamError: Option<string>, lim: Limits)
    ensures var r := Extract(k, safeName, members, streamError, lim);
            && |r.entries| <= Max(0, lim.maxEntries)
            && TotalBytes(r.entries) <= Max(0, lim.maxBytes)
            && forall e | e in r.entries :: WholeMember(safeName, members, e)
  {
    ExtractFromFits(k, safeName, members, members, streamError, [], [], 0, lim);
  }

  // ---------- every member is accounted for ----------

  /** What became of one member. */
  datatype Fate = Kept(entry: Entry) | Warned(text: string)

  function KeptOf(fates: seq<Fate>): seq<Entry> {
    if fates == [] then [] else
      var last := fates[|fates| - 1];
      KeptOf(fates[..|fates| - 1]) + (if last.Kept? then [last.entry] else [])
  }

  function ToldOf(fates: seq<Fate>): seq<string> {
    if fates == [] then [] else
      var last := fates[|fates| - 1];
      ToldOf(fates[..|fates| - 1]) + (if last.Warned? then [last.text] else [])
  }

  /** Reading the member would fail, with `room` bytes left under the cap. */
  predicate Unreadable(k: Kind, m: Member, maxBytes: int, room: int) {
    || !m.regular
    || (k == Zip && ((maxBytes >= 0 && m.declaredSize > maxBytes) || !m.opens))
    || (m.failsAt.Some? && 0 <= room && m.failsAt.value <= room)
  }

  predicate Oversized(m: Member, maxBytes: int) {
    maxBytes >= 0 && m.declaredSize > maxBytes
  }

  /** The warning about a member says what was wrong with it, and names it. */
  predicate Explains(k: Kind, m: Member, name: Option<string>, maxBytes: int, text: string) {
    && (name.None? ==> text == (if k == Zip then "zip: " else "tar: ") + "skipped unsafe path " + m.name)
    && (name.Some? && k == Tar ==>
          text == (if m.regular then "tar: read failed " else "tar: skipped non-regular ") + name.value)
    && (name.Some? && k == Zip && !m.regular ==> text == "zip: skipped symlink " + name.value)
    && (name.Some? && k == Zip && m.regular && Oversized(m, maxBytes) ==>
          text == "zip: skipped oversized entry " + name.value)
    && (name.Some? && k == Zip && m.regular && !Oversized(m, maxBytes) ==>
          text == (if m.opens then "zip: read failed " else "zip: open failed ") + name.value)
  }

  /** A member is kept whole under its safe name when it can be read and fits, and warned about when it cannot be
      read. */
  predicate FateFits(k: Kind, safeName: string -> Option<string>, m: Member, maxBytes: int, room: int, fate: Fate) {
    && (fate.Kept? ==>
          && safeName(m.name) == Some(fate.entry.name) && fate.entry.data == m.content
          && !Unreadable(k, m, maxBytes, room) && |m.content| <= room)
    && (fate.Warned? ==>
          && (safeName(m.name).None? || Unreadable(k, m, maxBytes, room))
          && Explains(k, m, safeName(m.name), maxBytes, fate.text))
  }

  /** The bytes still allowed once these fates have been met. */
  function Room(fates: seq<Fate>, maxBytes: int): int {
    maxBytes - TotalBytes(KeptOf(fates))
  }

  /** The first members met these fates, in order, each while the entry cap had not been reached. */
  ghost predicate Accounts(k: Kind, safeName: string -> Option<string>, members: seq<Member>, lim: Limits,
                           fates: seq<Fate>)
  {
    && |fates| <= |members|
    && forall i | 0 <= i < |fates| ::
         && |KeptOf(fates[..i])| < lim.maxEntries
         && FateFits(k, safeName, members[i], lim.maxBytes, Room(fates[..i], lim.maxBytes), fates[i])
  }

  /** Extraction stops at the end of the members, or earlier exactly at a cap: the entry cap, or a readable member that
      does not fit into the room left. */
  ghost predicate StopsRightly(k: Kind, safeName: string -> Option<string>, members: seq<Member>,
                               streamError: Option<string>, lim: Limits, fates: seq<Fate>, r: Extraction)
    requires |fates| <= |members|
  {
    var mark := if k == Zip then "zip: " else "tar: ";
    && r.entries == KeptOf(fates)
    && (|fates| == |members| ==> r.warnings == ToldOf(fates) && r.error == streamError)
    && (|fates| < |members| ==>
          var m, room := members[|fates|], Room(fates, lim.maxBytes);
          if |r.entries| >= lim.maxEntries then
            r.warnings == ToldOf(fates) + [mark + "entry cap reached"] && r.error == None
          else
            && safeName(m.name).Some? && !Unreadable(k, m, lim.maxBytes, room) && |m.content| > room
            && r.warnings == ToldOf(fates) + [mark + "decompressed cap reached"] && r.error == Some(LIMIT_ERROR))
  }

  lemma FatesNext(fates: seq<Fate>, fate: Fate)
    ensures KeptOf(fates + [fate]) == KeptOf(fates) + (if fate.Kept? then [fate.entry] else [])
    ensures ToldOf(fates + [fate]) == ToldOf(fates) + (if fate.Warned? then [fate.text] else [])
    ensures TotalBytes(KeptOf(fates + [fate]))
         == TotalBytes(KeptOf(fates)) + (if fate.Kept? then |fate.entry.data| else 0)
  {
    assert (fates + [fate])[..|fates|] == fates;
    var es := KeptOf(fates);
    assert KeptOf(fates + [fate]) == es + (if fate.Kept? then [fate.entry] else []);
    if fate.Kept? {
      assert (es + [fate.entry])[..|es|] == es;
    } else {
      assert es + [] == es;
    }
  }

  lemma AccountsNext(k: Kind, safeName: string -> Option<string>, members: seq<Member>, lim: Limits, fates: seq<Fate>,
                     fate: Fate)
    requires Accounts(k, safeName, members, lim, fates) && |fates| < |members| && |KeptOf(fates)| < lim.maxEntries
    requires FateFits(k, safeName, members[|fates|], lim.maxBytes, Room(fates, lim.maxBytes), fate)
    ensures Accounts(k, safeName, members, lim, fates + [fate])
  {
    hide FateFits, Room, KeptOf;
    var next := fates + [fate];
    forall i | 0 <= i < |next|
      ensures |KeptOf(next[..i])| < lim.maxEntries
      ensures FateFits(k, safeName, members[i], lim.maxBytes, Room(next[..i], lim.maxBytes), next[i])
    {
      assert next[..i] == if i < |fates| then fates[..i] else fates;
    }
  }

  function Added(fate: Fate): seq<Entry> {
    if fate.Kept? then [fate.entry] else []
  }

  function Told(fate: Fate): seq<string> {
    if fate.Warned? then [fate.text] else []
  }

  /** What the next member meets, with `total` bytes read; None when it does not fit any more. */
  function FateOf(k: Kind, safeName: string -> Option<string>, m: Member, lim: Limits, total: nat): Option<Fate> {
    if safeName(m.name).None? then Some(Warned(Prefix(k) + "skipped unsafe path " + m.name)) else
      var name := safeName(m.name).value;
      var skip := SkipReason(k, m, name, lim.maxBytes);
      var data := ReadAtMost(m, lim.maxBytes - total + 1);
      if skip.Some? then Some(Warned(skip.value))
      else if data.None? then Some(Warned(Prefix(k) + "read failed " + name))
      else if total + |data.value| > lim.maxBytes then None
      else Some(Kept(Entry(name, data.value)))
  }

  lemma FateOfFits(k: Kind, safeName: string -> Option<string>, m: Member, lim: Limits, total: nat)
    ensures FateOf(k, safeName, m, lim, total).None? <==>
              && safeName(m.name).Some? && !Unreadable(k, m, lim.maxBytes, lim.maxBytes - total)
              && |m.content| > lim.maxBytes - total
    ensures FateOf(k, safeName, m, lim, total).Some? ==>
              FateFits(k, safeName, m, lim.maxBytes, lim.maxBytes - total, FateOf(k, safeName, m, lim, total).value)
  {
    var data := ReadAtMost(m, lim.maxBytes - total + 1);
    if data.Some? && total + |data.value| <= lim.maxBytes { assert data.value == m.content; }
  }

  lemma ExtractionStep(k: Kind, safeName: string -> Option<string>, m: Member, rest: seq<Member>,
                       streamError: Option<string>, out: seq<Entry>, warnings: seq<string>, total: nat, lim: Limits)
    requires |out| < lim.maxEntries
    ensures FateOf(k, safeName, m, lim, total).None? ==>
              ExtractFrom(k, safeName, [m] + rest, streamError, out, warnings, total, lim)
              == Extraction(out, warnings + [Prefix(k) + "decompressed cap reached"], Some(LIMIT_ERROR))
    ensures FateOf(k, safeName, m, lim, total).Some? ==>
              var fate := FateOf(k, safeName, m, lim, total).value;
              ExtractFrom(k, safeName, [m] + rest, streamError, out, warnings, total, lim)
              == ExtractFrom(k, safeName, rest, streamError, out + Added(fate), warnings + Told(fate),
                             total + TotalBytes(Added(fate)), lim)
  {
    hide SkipReason, ReadAtMost, Prefix;
    assert ([m] + rest)[0] == m && ([m] + rest)[1..] == rest;
    assert out + [] == out && warnings + [] == warnings;
    var fate := FateOf(k, safeName, m, lim, total);
    if fate.Some? && fate.value.Kept? { assert TotalBytes([fate.value.entry]) == |fate.value.entry.data|; }
  }

  lemma {:induction false} AccountsFrom(k: Kind, safeName: string -> Option<string>, members: seq<Member>,
                                        streamError: Option<string>, lim: Limits, fates: seq<Fate>)
    returns (all: seq<Fate>)
    requires Accounts(k, safeName, members, lim, fates)
    ensures Accounts(k, safeName, members, lim, all)
    ensures StopsRightly(k, safeName, members, streamError, lim, all,
                         ExtractFrom(k, safeName, members[|fates|..], streamError, KeptOf(fates), ToldOf(fates),
                                     TotalBytes(KeptOf(fates)), lim))
    decreases |members| - |fates|
  {
    hide Accounts, FateOf, Unreadable, FateFits, KeptOf, ToldOf;
    var out, warnings, n := KeptOf(fates), ToldOf(fates), |fates|;
    WithinMembers(k, safeName, members, lim, fates);
    all := fates;
    if n < |members| && |out| < lim.maxEntries {
      var m, total := members[n], TotalBytes(out);
      assert members[n..] == [m] + members[n + 1..];
      ExtractionStep(k, safeName, m, members[n + 1..], streamError, out, warnings, total, lim);
      FateOfFits(k, safeName, m, lim, total);
      var fate := FateOf(k, safeName, m, lim, total);
      if fate.Some? {
        FatesNext(fates, fate.value);
        AccountsNext(k, safeName, members, lim, fates, fate.value);
        all := AccountsFrom(k, safeName, members, streamError, lim, fates + [fate.value]);
      }
    }
  }

  lemma WithinMembers(k: Kind, safeName: string -> Option<string>, members: seq<Member>, lim: Limits, fates: seq<Fate>)
    requires Accounts(k, safeName, members, lim, fates)
    ensures |fates| <= |members|
  {
  }

  /** Every member that was passed is an entry, whole and in order, or has its own warning; and extraction stopped early
      exactly at a cap. */
  lemma EveryMemberIsAccountedFor(k: Kind, safeName: string -> Option<string>, members: seq<Member>,
                                  streamError: Option<string>, lim: Limits)
    returns (fates: seq<Fate>)
    ensures Accounts(k, safeName, members, lim, fates)
    ensures StopsRightly(k, safeName, members, streamError, lim, fates, Extract(k, safeName, members, streamError, lim))
  {
    assert members[0..] == members;
    fates := AccountsFrom(k, safeName, members, streamError, lim, []);
  }

  // ---------- when everything is extracted ----------

  function ContentBytes(members: seq<Member>): nat {
    if members == [] then 0 else ContentBytes(members[..|members| - 1]) + |members[|members| - 1].content|
  }

  /** Every member has a safe name, can be read, and fits under both caps together with those before it. */
  ghost predicate AllFit(k: Kind, safeName: string -> Option<string>, members: seq<Member>, lim: Limits) {
    forall i {:trigger FitsAt(k, safeName, members, lim, i)} | 0 <= i < |members| ::
      FitsAt(k, safeName, members, lim, i)
  }

  predicate FitsAt(k: Kind, safeName: string -> Option<string>, members: seq<Member>, lim: Limits, i: nat)
    requires i < |members|
  {
    && i < lim.maxEntries && safeName(members[i].name).Some?
    && !Unreadable(k, members[i], lim.maxBytes, lim.maxBytes - ContentBytes(members[..i]))
    && ContentBytes(members[..i + 1]) <= lim.maxBytes
  }

  /** The members as entries, under their safe names. */
  function Listed(safeName: string -> Option<string>, members: seq<Member>): (es: seq<Entry>)
    requires forall m | m in members :: safeName(m.name).Some?
    ensures |es| == |members|
  {
    seq(|members|, i requires 0 <= i < |members| =>
      assert members[i] in members; Entry(safeName(members[i].name).value, members[i].content))
  }

  predicate AllSafe(safeName: string -> Option<string>, members: seq<Member>) {
    forall m | m in members :: safeName(m.name).Some?
  }

  /** As long as everything has been kept, entries and bytes are those of the members. */
  lemma {:induction false} KeptPrefix(safeName: string -> Option<string>, members: seq<Member>, fates: seq<Fate>)
    requires |fates| <= |members| && AllSafe(safeName, members[..|fates|])
    requires forall i | 0 <= i < |fates| ::
               fates[i].Kept? && safeName(members[i].name) == Some(fates[i].entry.name)
               && fates[i].entry.data == members[i].content
    ensures KeptOf(fates) == Listed(safeName, members[..|fates|]) && ToldOf(fates) == []
    ensures TotalBytes(KeptOf(fates)) == ContentBytes(members[..|fates|])
  {
    var n := |fates|;
    if n > 0 {
      var front := fates[..n - 1];
      forall m | m in members[..n - 1] ensures safeName(m.name).Some? { assert m in members[..n]; }
      KeptPrefix(safeName, members, front);
      FatesNext(front, fates[n - 1]);
      assert fates == front + [fates[n - 1]];
      assert members[..n][..n - 1] == members[..n - 1];
      assert Listed(safeName, members[..n]) == Listed(safeName, members[..n - 1]) + [fates[n - 1].entry];
    }
  }

  /** While the members fit, they are kept. */
  lemma {:induction false} FittingAreKept(k: Kind, safeName: string -> Option<string>, members: seq<Member>,
                                          lim: Limits, fates: seq<Fate>, n: nat)
    requires Accounts(k, safeName, members, lim, fates) && n <= |fates|
    requires forall i {:trigger FitsAt(k, safeName, members, lim, i)} | 0 <= i < n ::
               FitsAt(k, safeName, members, lim, i)
    ensures AllSafe(safeName, members[..n])
    ensures forall i | 0 <= i < n :: fates[i].Kept? && safeName(members[i].name) == Some(fates[i].entry.name)
                                     && fates[i].entry.data == members[i].content
    ensures KeptOf(fates[..n]) == Listed(safeName, members[..n]) && ToldOf(fates[..n]) == []
    ensures TotalBytes(KeptOf(fates[..n])) == ContentBytes(members[..n])
  {
    hide Unreadable, Explains, KeptOf, ToldOf, ContentBytes, TotalBytes, Listed;
    if n > 0 {
      FittingAreKept(k, safeName, members, lim, fates, n - 1);
      assert FitsAt(k, safeName, members, lim, n - 1);
      assert members[..n] == members[..n - 1] + [members[n - 1]];
    }
    forall i | 0 <= i < n ensures fates[..n][i] == fates[i] {}
    KeptPrefix(safeName, members, fates[..n]);
  }

  lemma {:induction false} NoWarningsAllKept(fates: seq<Fate>)
    requires ToldOf(fates) == []
    ensures forall i | 0 <= i < |fates| :: fates[i].Kept?
  {
    if fates != [] {
      NoWarningsAllKept(fates[..|fates| - 1]);
      forall i | 0 <= i < |fates| - 1 ensures fates[i] == fates[..|fates| - 1][i] {}
    }
  }

  lemma FittingIsExtracted(k: Kind, safeName: string -> Option<string>, members: seq<Member>,
                           streamError: Option<string>, lim: Limits)
    requires AllFit(k, safeName, members, lim)
    ensures AllSafe(safeName, members)
    ensures Extract(k, safeName, members, streamError, lim) == Extraction(Listed(safeName, members), [], streamError)
  {
    hide Extract, Unreadable, KeptOf, ToldOf, ContentBytes;
    var fates := EveryMemberIsAccountedFor(k, safeName, members, streamError, lim);
    var n := |fates|;
    FittingAreKept(k, safeName, members, lim, fates, n);
    assert fates[..n] == fates;
    if n < |members| {
      assert FitsAt(k, safeName, members, lim, n);
      ContentNext(members, n);
      assert false;
    }
    assert members[..n] == members;
  }

  lemma ContentNext(members: seq<Member>, n: nat)
    requires n < |members|
    ensures ContentBytes(members[..n + 1]) == ContentBytes(members[..n]) + |members[n].content|
  {
    assert members[..n + 1][..n] == members[..n];
  }

  lemma ExtractedFits(k: Kind, safeName: string -> Option<string>, members: seq<Member>, streamError: Option<string>,
                      lim: Limits)
    requires AllSafe(safeName, members)
    requires Extract(k, safeName, members, streamError, lim) == Extraction(Listed(safeName, members), [], streamError)
    ensures AllFit(k, safeName, members, lim)
  {
    hide Extract, Unreadable, KeptOf, ToldOf, ContentBytes, Explains;
    var fates := EveryMemberIsAccountedFor(k, safeName, members, streamError, lim);
    NoWarningsAllKept(fates);
    forall i {:trigger FitsAt(k, safeName, members, lim, i)} | 0 <= i < |members|
      ensures FitsAt(k, safeName, members, lim, i)
    {
      forall j | 0 <= j < i ensures fates[..i][j] == fates[j] {}
      forall m | m in members[..i] ensures safeName(m.name).Some? { assert m in members; }
      KeptPrefix(safeName, members, fates[..i]);
      ContentNext(members, i);
      assert members[i] in members;
    }
  }

  /** Extraction returns every member, whole and in order and without a warning, exactly when each of them has a safe
      name, can be read, and fits under both caps together with those before it. */
  lemma EverythingIsExtractedIff(k: Kind, safeName: string -> Option<string>, members: seq<Member>,
                                 streamError: Option<string>, lim: Limits)
    ensures AllFit(k, safeName, members, lim) <==>
              && AllSafe(safeName, members)
              && Extract(k, safeName, members, streamError, lim)
              == Extraction(Listed(safeName, members), [], streamError)
  {
    hide Extract, Listed;
    if AllFit(k, safeName, members, lim) { FittingIsExtracted(k, safeName, members, streamError, lim); }
    if AllSafe(safeName, members)
       && Extract(k, safeName, members, streamError, lim) == Extraction(Listed(safeName, members), [], streamError) {
      ExtractedFits(k, safeName, members, streamError, lim);
    }
  }
}
