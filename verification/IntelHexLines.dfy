/** Exactly which lines of an Intel HEX file are bad, which carry data, and what the counters of a file count. */
module IntelHexLines {
  import opened Text
  import opened IntelHex

  const LOWER_DIGITS := "0123456789abcdef"
  const UPPER_DIGITS := "0123456789ABCDEF"

  /** The character is a hexadecimal digit for `v`. */
  predicate Denotes(c: char, v: int) {
    0 <= v < 16 && (c == LOWER_DIGITS[v] || c == UPPER_DIGITS[v])
  }

  lemma HexValIff(c: char, v: int)
    requires v >= 0
    ensures HexVal(c) == v <==> Denotes(c, v)
  {
  }

  /** Two digits for every byte, the higher one first. */
  predicate Spells(digits: string, body: seq<Byte>) {
    && |digits| == 2 * |body|
    && forall i | 0 <= i < |body| :: Denotes(digits[2 * i], body[i] / 16) && Denotes(digits[2 * i + 1], body[i] % 16)
  }

  lemma SpellsNext(digits: string, body: seq<Byte>)
    requires |digits| == 2 * |body| && body != []
    ensures var n := |body| - 1;
            Spells(digits, body) <==>
            Spells(digits[..2 * n], body[..n]) && Denotes(digits[2 * n], body[n] / 16)
            && Denotes(digits[2 * n + 1], body[n] % 16)
  {
    hide Denotes;
    var n := |body| - 1;
    assert forall i | 0 <= i < n ::
        body[..n][i] == body[i] && digits[..2 * n][2 * i] == digits[2 * i]
        && digits[..2 * n][2 * i + 1] == digits[2 * i + 1];
    if Spells(digits[..2 * n], body[..n]) {
      forall i | 0 <= i < n ensures Denotes(digits[2 * i], body[i] / 16) && Denotes(digits[2 * i + 1], body[i] % 16) {
        assert body[..n][i] == body[i];
      }
    }
  }

  /** Decoding gives the bytes that the digits spell, and nothing when they spell none. */
  lemma {:induction false} DecodeIff(digits: string, body: seq<Byte>)
    ensures DecodePairs(digits) == Some(body) <==> Spells(digits, body)
    decreases |digits|
  {
    hide HexVal, Denotes;
    if DecodePairs(digits).Some? { DecodedLength(digits); }
    if |digits| == 2 * |body| && body != [] {
      var n := |body| - 1;
      DecodeIff(digits[..2 * n], body[..n]);
      SpellsNext(digits, body);
      HexValIff(digits[2 * n], body[n] / 16);
      HexValIff(digits[2 * n + 1], body[n] % 16);
      DecodeStep(digits, body);
    }
  }

  lemma {:induction false} DecodedLength(digits: string)
    requires DecodePairs(digits).Some?
    ensures |digits| == 2 * |DecodePairs(digits).value|
  {
    if digits != "" { DecodedLength(digits[..|digits| - 2]); }
  }

  lemma DecodeStep(digits: string, body: seq<Byte>)
    requires |digits| == 2 * |body| && body != []
    ensures var n := |body| - 1;
            DecodePairs(digits) == Some(body) <==>
            DecodePairs(digits[..2 * n]) == Some(body[..n]) && HexVal(digits[2 * n]) == body[n] / 16
            && HexVal(digits[2 * n + 1]) == body[n] % 16
  {
    hide HexVal;
    var n := |body| - 1;
    assert body == body[..n] + [body[n]];
    var front := DecodePairs(digits[..2 * n]);
    var hi, lo := HexVal(digits[2 * n]), HexVal(digits[2 * n + 1]);
    if front.Some? && hi >= 0 && lo >= 0 {
      assert DecodePairs(digits) == Some(front.value + [16 * hi + lo]);
      if DecodePairs(digits) == Some(body) {
        assert (front.value + [16 * hi + lo])[..|front.value|] == front.value;
        assert body[n] == 16 * hi + lo;
      }
    }
  }

  // ---------- lines ----------

  /** The line, trimmed, is a colon and the spelling of `body`, of which length byte and checksum are right. */
  ghost predicate Holds(raw: string, body: seq<Byte>) {
    var line := Trim(raw);
    && line != "" && line[0] == ':' && Spells(Trim(line[1..]), body)
    && |body| >= 5 && 5 + body[0] <= |body| && Sum(body) % 256 == 0
  }

  /** A line is bad exactly when it is not blank and holds no record; a record's type byte says what it carries. */
  lemma ClassifyExactly(raw: string)
    ensures Classify(raw) == Blank <==> AllSpace(raw)
    ensures Classify(raw) == Bad <==> !AllSpace(raw) && forall body :: !Holds(raw, body)
    ensures forall body | Holds(raw, body) ::
              Classify(raw) == if body[3] == 0 then Data(body[4..4 + body[0]])
                               else if body[3] == 1 then End else Ignored
  {
    TrimmedAwayOnBothSides(raw);
    var line := Trim(raw);
    hide Trim, Spells, DecodePairs, Sum;
    if line != "" && line[0] == ':' {
      forall body ensures HexDecode(line[1..]) == Some(body) <==> Spells(Trim(line[1..]), body) {
        DecodeIff(Trim(line[1..]), body);
      }
      if HexDecode(line[1..]).Some? {
        var body := HexDecode(line[1..]).value;
        assert Holds(raw, body) <==> ClassifyBody(body) != Bad;
        assert forall other :: Holds(raw, other) ==> HexDecode(line[1..]) == Some(other);
      }
    }
  }

  // ---------- files ----------

  /** The first `n` lines come before any end record, and the next line, if any, is one. */
  ghost predicate EndsBefore(lines: seq<string>, n: nat) {
    && n <= |lines| && (n < |lines| ==> Classify(lines[n]) == End)
    && forall i | 0 <= i < n :: Classify(lines[i]) != End
  }

  function Lines(lines: seq<string>, n: nat, p: Line -> bool): set<int>
    requires n <= |lines|
  {
    set i | 0 <= i < n && p(Classify(lines[i]))
  }

  /** The payloads of the data lines, in order. */
  function Carried(lines: seq<string>): seq<Byte> {
    if lines == [] then [] else
      var front, last := Carried(lines[..|lines| - 1]), Classify(lines[|lines| - 1]);
      if last.Data? then front + last.payload else front
  }

  lemma LinesNext(lines: seq<string>, n: nat, p: Line -> bool)
    requires n < |lines|
    ensures |Lines(lines, n + 1, p)| == |Lines(lines, n, p)| + (if p(Classify(lines[n])) then 1 else 0)
  {
    hide Classify;
    assert Lines(lines, n + 1, p) == Lines(lines, n, p) + if p(Classify(lines[n])) then {n} else {};
  }

  predicate IsData(line: Line) { line.Data? }
  predicate IsBad(line: Line) { line.Bad? }

  /** The payloads, data lines and bad lines among the first `n`. */
  function Tally(lines: seq<string>, n: nat): Image
    requires n <= |lines|
  {
    Image(Carried(lines[..n]), |Lines(lines, n, IsData)|, |Lines(lines, n, IsBad)|)
  }

  lemma NothingTallied(lines: seq<string>)
    ensures Tally(lines, 0) == Image([], 0, 0)
  {
    assert Lines(lines, 0, IsData) == {} && Lines(lines, 0, IsBad) == {};
  }

  lemma TallyNext(lines: seq<string>, n: nat)
    requires n < |lines|
    ensures Tally(lines, n + 1) == Plus(Tally(lines, n), ImageOf(Classify(lines[n])))
  {
    hide Classify, Lines;
    LinesNext(lines, n, IsData);
    LinesNext(lines, n, IsBad);
    assert lines[..n + 1][..n] == lines[..n];
    assert Carried(lines[..n]) + [] == Carried(lines[..n]);
  }

  /** Among lines that are no end record. */
  lemma {:induction false} PrefixCounts(lines: seq<string>, n: nat)
    requires n <= |lines| && forall i | 0 <= i < n :: Classify(lines[i]) != End
    ensures ParseLines(lines[..n]) == Tally(lines, n)
  {
    hide Classify, Tally, Plus, ImageOf;
    if n == 0 {
      NothingTallied(lines);
    } else {
      var front, last := lines[..n - 1], lines[n - 1];
      PrefixCounts(lines, n - 1);
      TallyNext(lines, n - 1);
      assert lines[..n] == front + [last];
      LinesAccumulate(front, [last]);
      OneLine(last);
    }
  }

  lemma OneLine(line: string)
    requires Classify(line) != End
    ensures ParseLines([line]) == ImageOf(Classify(line))
  {
    hide Classify, ImageOf, Plus;
    assert [line][1..] == [] && ParseLines([]) == Image([], 0, 0);
    PlusAssociates(ImageOf(Classify(line)), Image([], 0, 0), Image([], 0, 0));
  }

  lemma {:induction false} FirstEnd(lines: seq<string>, n: nat) returns (m: nat)
    requires n <= |lines| && forall i | 0 <= i < n :: Classify(lines[i]) != End
    ensures EndsBefore(lines, m)
    decreases |lines| - n
  {
    hide Classify;
    if n == |lines| || Classify(lines[n]) == End { m := n; } else { m := FirstEnd(lines, n + 1); }
  }

  /** Up to the first end record: the image is the payloads in order, the record count the number of data lines, the bad
      count the number of bad lines. */
  lemma LinesCount(lines: seq<string>) returns (n: nat)
    ensures EndsBefore(lines, n)
    ensures ParseLines(lines) == Image(Carried(lines[..n]), |Lines(lines, n, IsData)|, |Lines(lines, n, IsBad)|)
  {
    hide Classify, ParseLines, Plus, Lines, Carried;
    n := FirstEnd(lines, 0);
    PrefixCounts(lines, n);
    assert lines == lines[..n] + lines[n..];
    assert forall line | line in lines[..n] :: Classify(line) != End;
    LinesAccumulate(lines[..n], lines[n..]);
    StopsThere(lines, n);
    PlusAssociates(ParseLines(lines[..n]), Image([], 0, 0), Image([], 0, 0));
  }

  lemma StopsThere(lines: seq<string>, n: nat)
    requires EndsBefore(lines, n)
    ensures ParseLines(lines[n..]) == Image([], 0, 0)
  {
    hide Classify;
    assert n < |lines| ==> lines[n..][0] == lines[n];
  }

  /** The lines of a text are what stands between its newlines. */
  lemma {:induction false} SplitExactly(text: string)
    ensures Joined(Split(text), '\n') == text && forall line | line in Split(text) :: '\n' !in line
  {
    if text != "" {
      var rest := Split(text[1..]);
      SplitExactly(text[1..]);
      assert text == [text[0]] + text[1..];
      if text[0] == '\n' {
        assert Split(text)[1..] == rest && Split(text)[0] == "";
      } else {
        assert Split(text)[1..] == rest[1..] && Split(text)[0] == [text[0]] + rest[0];
      }
    }
  }
}
