/** Printable runs of an image, and the search for markers that start at a token boundary. */
module TokenScan {
  import opened Text

  // ---------- printable runs ----------

  predicate Printable(b: char) {
    ' ' <= b <= '~'
  }

  datatype Span = Span(start: nat, end: nat)

  function RunEnd(data: string, i: nat): (j: nat)
    requires i <= |data|
    ensures i <= j <= |data|
    ensures forall k | i <= k < j :: Printable(data[k])
    ensures j < |data| ==> !Printable(data[j])
    decreases |data| - i
  {
    if i < |data| && Printable(data[i]) then RunEnd(data, i + 1) else i
  }

  /** The printable runs of at least `minLen` bytes, left to right from `i`. */
  function Runs(data: string, minLen: int, i: nat): (r: seq<Span>)
    requires i <= |data|
    ensures forall s | s in r :: i <= s.start < s.end <= |data|
    decreases |data| - i
  {
    if i == |data| then [] else
      var j := RunEnd(data, i);
      if j == i then Runs(data, minLen, i + 1)
      else (if j - i >= minLen then [Span(i, j)] else []) + Runs(data, minLen, j)
  }

  predicate InBounds(data: string, spans: seq<Span>) {
    forall s | s in spans :: s.start <= s.end <= |data|
  }

  function Pieces(data: string, spans: seq<Span>): seq<string>
    requires InBounds(data, spans)
  {
    seq(|spans|, k requires 0 <= k < |spans| => assert spans[k] in spans; data[spans[k].start..spans[k].end])
  }

  ghost predicate MaximalRun(data: string, s: Span) {
    && s.start < s.end <= |data|
    && (forall k | s.start <= k < s.end :: Printable(data[k]))
    && (s.start == 0 || !Printable(data[s.start - 1]))
    && (s.end == |data| || !Printable(data[s.end]))
  }

  /** `Runs` lists exactly the maximal printable runs that are long enough, in order. */
  lemma {:induction false} RunsAreMaximal(data: string, minLen: int, i: nat)
    requires i <= |data| && (i == 0 || i == |data| || !Printable(data[i - 1]) || !Printable(data[i]))
    ensures forall s :: s in Runs(data, minLen, i) <==> MaximalRun(data, s) && i <= s.start && s.end - s.start >= minLen
    ensures forall a, b | 0 <= a < b < |Runs(data, minLen, i)| ::
              Runs(data, minLen, i)[a].end <= Runs(data, minLen, i)[b].start
    decreases |data| - i
  {
    if i < |data| {
      var j := RunEnd(data, i);
      if j == i {
        RunsAreMaximal(data, minLen, i + 1);
      } else {
        RunsAreMaximal(data, minLen, j);
        assert forall s | MaximalRun(data, s) && i <= s.start < j :: s == Span(i, j);
      }
    }
  }

  function AtLeast(minLen: int): int {
    if minLen < 1 then 4 else minLen
  }

  function Min(a: int, b: int): int {
    if a < b then a else b
  }

  /** The first `max` printable runs.  With `max` below one a single run of one byte still gets through, and
      then only: the cap is tested after a byte has been read, and what is pending is flushed regardless. */
  ghost predicate Extracted(data: string, minLen: int, max: int, out: seq<string>) {
    var runs := Pieces(data, Runs(data, AtLeast(minLen), 0));
    && (max >= 1 ==> out == runs[..Min(max, |runs|)])
    && (max < 1 ==> out == if minLen == 1 && data != "" && Printable(data[0]) then [data[..1]] else [])
  }

  /** The cap is exceeded exactly when it is below one, single bytes count, and the first byte is printable. */
  lemma CapExceededIff(data: string, minLen: int, max: int, out: seq<string>)
    requires Extracted(data, minLen, max, out)
    ensures |out| > (if max < 0 then 0 else max) <==> max < 1 && minLen == 1 && data != "" && Printable(data[0])
  {
    hide Runs, Pieces;
    if max >= 1 { assert |out| == Min(max, |Pieces(data, Runs(data, AtLeast(minLen), 0))|); }
  }

  method ExtractStrings(data: string, minLen: int, max: int) returns (out: seq<string>)
    ensures Extracted(data, minLen, max, out)
  {
    hide Runs, Pieces, RunEnd;
    var least := AtLeast(minLen);
    ghost var runs := Pieces(data, Runs(data, least, 0));
    out := [];
    ghost var start := 0;
    var cur := "";
    var i := 0;
    while i < |data|
      invariant start <= i <= |data| && cur == data[start..i]
      invariant RunEnd(data, start) == RunEnd(data, i)
      invariant max < 1 ==> i == 0 && start == 0 && out == []
      invariant max >= 1 ==> |out| < max
      invariant runs == out + Pieces(data, Runs(data, least, start))
    {
      var b := data[i];
      RunEndNext(data, i);
      if Printable(b) {
        cur := cur + [b];
      } else {
        RunsStep(data, least, start, i);
        FlushedAppends(out, cur, least, Pieces(data, Runs(data, least, i + 1)));
        out := Flushed(out, cur, least);
        cur := "";
        start := i + 1;
      }
      i := i + 1;
      if |out| >= max {
        if max >= 1 { assert runs[..max] == out; } else { assert i == 1 && Printable(b) ==> cur == data[..1]; }
        out := Flushed(out, cur, least);
        return;
      }
    }
    RunEndNext(data, i);
    RunsStep(data, least, start, i);
    FlushedAppends(out, cur, least, []);
    out := Flushed(out, cur, least);
  }

  /** The string is a longest printable run of at least `least` bytes. */
  ghost predicate IsRun(data: string, least: int, text: string) {
    exists s :: MaximalRun(data, s) && s.end - s.start >= least && text == data[s.start..s.end]
  }

  /** With a cap of at least one: every string is a longest printable run of sufficient length, and as long as the cap
      is not reached every such run is among them. */
  lemma ExtractedAreRuns(data: string, minLen: int, max: int, out: seq<string>)
    requires Extracted(data, minLen, max, out) && max >= 1
    ensures |out| <= max && forall text | text in out :: IsRun(data, AtLeast(minLen), text)
    ensures |out| < max ==> forall text | IsRun(data, AtLeast(minLen), text) :: text in out
  {
    hide Runs, MaximalRun;
    var least := AtLeast(minLen);
    var spans := Runs(data, least, 0);
    var runs := Pieces(data, spans);
    RunsAreMaximal(data, least, 0);
    forall text | text in out ensures IsRun(data, least, text) {
      var k :| 0 <= k < |out| && out[k] == text;
      assert spans[k] in spans && text == data[spans[k].start..spans[k].end];
    }
    if |out| < max {
      assert out == runs;
      forall text | IsRun(data, least, text) ensures text in out {
        var s :| MaximalRun(data, s) && s.end - s.start >= least && text == data[s.start..s.end];
        var k :| 0 <= k < |spans| && spans[k] == s;
        assert runs[k] == text;
      }
    }
  }

  lemma FlushedAppends(out: seq<string>, cur: string, minLen: int, rest: seq<string>)
    ensures out + (Flushed([], cur, minLen) + rest) == Flushed(out, cur, minLen) + rest
  {
  }

  lemma RunEndNext(data: string, i: nat)
    requires i <= |data|
    ensures RunEnd(data, i) == if i < |data| && Printable(data[i]) then RunEnd(data, i + 1) else i
  {
  }

  function Flushed(out: seq<string>, cur: string, minLen: int): seq<string> {
    if |cur| >= minLen then out + [cur] else out
  }

  lemma RunsNext(data: string, minLen: int, start: nat, i: nat)
    requires start <= i <= |data| && minLen >= 1 && RunEnd(data, start) == i
    ensures Runs(data, minLen, start)
         == (if i - start >= minLen then [Span(start, i)] else [])
           + (if i < |data| then Runs(data, minLen, i + 1) else [])
  {
    RunEndNext(data, i);
  }

  lemma PiecesOfConcat(data: string, a: seq<Span>, b: seq<Span>)
    requires InBounds(data, a) && InBounds(data, b)
    ensures InBounds(data, a + b) && Pieces(data, a + b) == Pieces(data, a) + Pieces(data, b)
  {
  }

  /** Closing the run from `start` to `i`. */
  lemma RunsStep(data: string, minLen: int, start: nat, i: nat)
    requires start <= i <= |data| && minLen >= 1 && RunEnd(data, start) == i
    ensures Pieces(data, Runs(data, minLen, start))
         == Flushed([], data[start..i], minLen) + (if i < |data| then Pieces(data, Runs(data, minLen, i + 1)) else [])
  {
    hide Runs, RunEnd;
    RunsNext(data, minLen, start, i);
    var head := if i - start >= minLen then [Span(start, i)] else [];
    var rest := if i < |data| then Runs(data, minLen, i + 1) else [];
    PiecesOfConcat(data, head, rest);
    assert Pieces(data, head) == Flushed([], data[start..i], minLen);
  }

  // ---------- tokens ----------

  predicate IsAlnum(b: char) {
    'a' <= b <= 'z' || 'A' <= b <= 'Z' || '0' <= b <= '9'
  }

  /** `m` occurs at `pos`, and the byte before it, if any, is not alphanumeric. */
  predicate TokenAt(text: string, m: string, pos: int) {
    OccursAt(text, m, pos) && (pos == 0 || !IsAlnum(text[pos - 1]))
  }

  ghost predicate TokenIn(text: string, m: string) {
    exists pos :: TokenAt(text, m, pos)
  }

  /** `strings.Index` of `m` in `text[from..]`, as a position of `text`; -1 when it does not occur. */
  function IndexFrom(text: string, m: string, from: nat): (r: int)
    requires from <= |text|
    ensures r == -1 || (from <= r && OccursAt(text, m, r))
    ensures forall pos | from <= pos && OccursAt(text, m, pos) :: 0 <= r <= pos
    decreases |text| - from
  {
    if OccursAt(text, m, from) then from else if from < |text| then IndexFrom(text, m, from + 1) else -1
  }

  /** The scan resumes one byte after each rejected occurrence, so overlapping ones are not missed. */
  method TokenContains(text: string, m: string) returns (found: bool)
    ensures found <==> TokenIn(text, m)
  {
    assert m == "" ==> TokenAt(text, m, 0);
    var idx := 0;
    while true
      invariant 0 <= idx <= |text|
      invariant forall pos | 0 <= pos < idx :: !TokenAt(text, m, pos)
      decreases |text| - idx
    {
      var pos := IndexFrom(text, m, idx);
      if pos < 0 {
        return false;
      }
      if pos == 0 || !IsAlnum(text[pos - 1]) {
        assert TokenAt(text, m, pos);
        return true;
      }
      idx := pos + 1;
      if idx >= |text| {
        return false;
      }
    }
  }

  // ---------- surfaces ----------

  datatype Surface = Surface(join: string, lower: string)

  function NewSurface(strs: seq<string>): Surface {
    Surface(Joined(strs, '\n'), Lower(Joined(strs, '\n')))
  }

  ghost function Found(surface: Surface, markers: seq<string>): seq<string> {
    if markers == [] then [] else
      var front, m := Found(surface, markers[..|markers| - 1]), markers[|markers| - 1];
      if m != "" && TokenIn(surface.lower, Lower(m)) then front + [m] else front
  }

  /** Every marker that occurs as a token, case-insensitively, in the order given. */
  method AllToken(surface: Surface, markers: seq<string>) returns (out: seq<string>)
    ensures out == Found(surface, markers)
  {
    out := [];
    for i := 0 to |markers|
      invariant out == Found(surface, markers[..i])
    {
      assert markers[..i + 1][..i] == markers[..i];
      if markers[i] != "" {
        var found := TokenContains(surface.lower, Lower(markers[i]));
        if found { out := out + [markers[i]]; }
      }
    }
    assert markers[..|markers|] == markers;
  }

  // ---------- joining the strings loses no boundary ----------

  ghost predicate InOneString(strs: seq<string>, m: string) {
    exists k :: 0 <= k < |strs| && TokenIn(Lower(strs[k]), Lower(m))
  }

  lemma OccurrenceWithin(a: string, b: string, m: string, pos: int)
    requires '\n' !in m && m != ""
    ensures OccursAt(a + ("\n" + b), m, pos) <==> OccursAt(a, m, pos) || OccursAt(b, m, pos - |a| - 1)
  {
    var t := a + ("\n" + b);
    assert t[|a|] == '\n' && t[|a| + 1..] == b;
    if OccursAt(a, m, pos) { assert t[pos..pos + |m|] == a[pos..pos + |m|]; }
    if OccursAt(b, m, pos - |a| - 1) { assert t[pos..pos + |m|] == b[pos - |a| - 1..pos - |a| - 1 + |m|]; }
    if OccursAt(t, m, pos) {
      assert forall j | pos <= j < pos + |m| :: t[j] == m[j - pos] && m[j - pos] != '\n';
      if pos + |m| <= |a| {
        assert a[pos..pos + |m|] == m;
      } else {
        assert b[pos - |a| - 1..pos - |a| - 1 + |m|] == m;
      }
    }
  }

  lemma TokenInPair(a: string, b: string, m: string)
    requires '\n' !in m && m != ""
    ensures TokenIn(a + ("\n" + b), m) <==> TokenIn(a, m) || TokenIn(b, m)
  {
    hide OccursAt;
    var t := a + ("\n" + b);
    forall pos ensures TokenAt(t, m, pos) <==> TokenAt(a, m, pos) || TokenAt(b, m, pos - |a| - 1) {
      OccurrenceWithin(a, b, m, pos);
      OccursInside(a, m, pos);
      OccursInside(b, m, pos - |a| - 1);
      OccursInside(t, m, pos);
    }
    if TokenIn(b, m) {
      var pos :| TokenAt(b, m, pos);
      assert TokenAt(b, m, pos + |a| + 1 - |a| - 1);
      assert TokenAt(t, m, pos + |a| + 1);
    }
  }

  lemma OccursInside(text: string, m: string, pos: int)
    ensures OccursAt(text, m, pos) ==> 0 <= pos <= |text| - |m|
  {
  }

  lemma LowerOfPair(a: string, b: string)
    ensures Lower(a + ("\n" + b)) == Lower(a) + ("\n" + Lower(b))
  {
  }

  lemma LowerKeepsNewlines(m: string)
    ensures '\n' in Lower(m) <==> '\n' in m
  {
    assert forall k | 0 <= k < |m| :: Lower(m)[k] == '\n' <==> m[k] == '\n';
    if '\n' in m {
      var k :| 0 <= k < |m| && m[k] == '\n';
      assert Lower(m)[k] == '\n';
    }
  }

  /** A marker without a newline is a token of the joined surface exactly when it is one of a single string. */
  lemma {:induction false} TokensStayInTheirString(strs: seq<string>, m: string)
    requires '\n' !in m && m != ""
    ensures TokenIn(NewSurface(strs).lower, Lower(m)) <==> InOneString(strs, m)
  {
    hide TokenIn, Lower;
    LowerKeepsNewlines(m);
    LowerLength(m);
    if |strs| == 0 {
      NothingInNothing(Lower(m));
      LowerLength("");
    } else if |strs| == 1 {
      assert TokenIn(Lower(strs[0]), Lower(m)) <==> InOneString(strs, m);
    } else {
      var front, last := strs[..|strs| - 1], strs[|strs| - 1];
      TokensStayInTheirString(front, m);
      JoinedNext(front, last, '\n');
      assert strs == front + [last];
      LowerOfPair(Joined(front, '\n'), last);
      TokenInPair(Lower(Joined(front, '\n')), Lower(last), Lower(m));
      assert InOneString(strs, m) <==> InOneString(front, m) || TokenIn(Lower(last), Lower(m)) by {
        forall k | 0 <= k < |front| ensures strs[k] == front[k] {}
      }
    }
  }

  lemma LowerLength(s: string)
    ensures |Lower(s)| == |s|
  {
  }

  lemma NothingInNothing(m: string)
    requires m != ""
    ensures !TokenIn("", m)
  {
  }

  /** Joining with newlines is faithful for a marker exactly when the marker holds no newline. */
  lemma JoiningIsFaithfulIff(m: string)
    requires m != ""
    ensures (forall strs :: TokenIn(NewSurface(strs).lower, Lower(m)) <==> InOneString(strs, m)) <==> '\n' !in m
  {
    if '\n' !in m {
      forall strs ensures TokenIn(NewSurface(strs).lower, Lower(m)) <==> InOneString(strs, m) {
        TokensStayInTheirString(strs, m);
      }
    } else {
      var k :| 0 <= k < |m| && m[k] == '\n';
      var strs := [m[..k], m[k + 1..]];
      assert Joined(strs, '\n') == m by {
        assert strs[1..] == [m[k + 1..]];
        assert m == m[..k] + ['\n'] + m[k + 1..];
      }
      assert TokenAt(Lower(m), Lower(m), 0);
      assert TokenIn(NewSurface(strs).lower, Lower(m));
      assert !InOneString(strs, m);
    }
  }

  /** What a reported marker means: it was asked for, and some single string holds it at a token boundary. */
  lemma {:induction false} FoundMeans(strs: seq<string>, markers: seq<string>, m: string)
    requires '\n' !in m
    ensures m in Found(NewSurface(strs), markers) <==> m in markers && m != "" && InOneString(strs, m)
    decreases |markers|
  {
    hide TokenIn, Lower, InOneString, NewSurface;
    if markers != [] {
      var front, last := markers[..|markers| - 1], markers[|markers| - 1];
      FoundMeans(strs, front, m);
      assert markers == front + [last];
      if m != "" { TokensStayInTheirString(strs, m); }
    }
  }

  /** Reported markers stand in the order they were asked for. */
  lemma {:induction false} FoundInOrder(surface: Surface, a: seq<string>, b: seq<string>)
    ensures Found(surface, a + b) == Found(surface, a) + Found(surface, b)
    decreases |b|
  {
    hide TokenIn, Lower;
    if b == [] {
      assert a + b == a;
    } else {
      assert (a + b)[..|a + b| - 1] == a + b[..|b| - 1];
      FoundInOrder(surface, a, b[..|b| - 1]);
    }
  }
}
