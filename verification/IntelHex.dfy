/** Intel HEX: the parser of the firmware analyser, and a printer it undoes. */
module IntelHex {
  import opened Text

  type Byte = b: int | 0 <= b < 256

  function HexVal(c: char): (v: int)
    ensures -1 <= v < 16
  {
    if '0' <= c <= '9' then c as int - '0' as int
    else if 'a' <= c <= 'f' then c as int - 'a' as int + 10
    else if 'A' <= c <= 'F' then c as int - 'A' as int + 10
    else -1
  }

  /** Pairs of digits to bytes; None for an odd length or a character that is no digit. */
  function DecodePairs(s: string): Option<seq<Byte>> {
    if s == "" then Some([])
    else if |s| == 1 then None
    else match DecodePairs(s[..|s| - 2])
      case None => None
      case Some(front) =>
        var hi, lo := HexVal(s[|s| - 2]), HexVal(s[|s| - 1]);
        if hi < 0 || lo < 0 then None else Some(front + [16 * hi + lo])
  }

  function HexDecode(s: string): Option<seq<Byte>> {
    DecodePairs(Trim(s))
  }

  function Sum(bytes: seq<Byte>): nat {
    if bytes == [] then 0 else Sum(bytes[..|bytes| - 1]) + bytes[|bytes| - 1]
  }

  datatype Line = Blank | Bad | Data(payload: seq<Byte>) | End | Ignored

  function Classify(raw: string): Line {
    var line := Trim(raw);
    if line == "" then Blank
    else if line[0] != ':' then Bad
    else match HexDecode(line[1..])
      case None => Bad
      case Some(body) => ClassifyBody(body)
  }

  function ClassifyBody(body: seq<Byte>): Line {
    if |body| < 5 || Sum(body) % 256 != 0 then Bad
    else
      var recLen, recType := body[0], body[3];
      if 4 + recLen + 1 > |body| then Bad
      else if recType == 0 then Data(body[4..4 + recLen])
      else if recType == 1 then End
      else Ignored
  }

  datatype Image = Image(bytes: seq<Byte>, records: nat, bad: nat)

  function Plus(a: Image, b: Image): Image {
    Image(a.bytes + b.bytes, a.records + b.records, a.bad + b.bad)
  }

  function ImageOf(line: Line): Image {
    match line
    case Data(payload) => Image(payload, 1, 0)
    case Bad => Image([], 0, 1)
    case _ => Image([], 0, 0)
  }

  function ParseLines(lines: seq<string>): Image {
    if lines == [] || Classify(lines[0]) == End then Image([], 0, 0)
    else Plus(ImageOf(Classify(lines[0])), ParseLines(lines[1..]))
  }

  /** `strings.Split(text, "\n")`. */
  function Split(text: string): (lines: seq<string>)
    ensures lines != []
  {
    if text == "" then [""]
    else
      var rest := Split(text[1..]);
      if text[0] == '\n' then [""] + rest else [[text[0]] + rest[0]] + rest[1..]
  }

  function Parse(text: string): Image {
    ParseLines(Split(text))
  }

  // ---------- the loops of the source ----------

  method Decode(text: string) returns (r: Option<seq<Byte>>)
    ensures r == HexDecode(text)
  {
    var s := Trim(text);
    hide Trim;
    if |s| % 2 != 0 {
      OddLengthFails(s);
      return None;
    }
    var out: seq<Byte> := [];
    for i := 0 to |s| / 2
      invariant DecodePairs(s[..2 * i]) == Some(out)
    {
      var hi, lo := HexVal(s[2 * i]), HexVal(s[2 * i + 1]);
      assert s[..2 * (i + 1)][..2 * i] == s[..2 * i];
      if hi < 0 || lo < 0 {
        FailureStays(s, i + 1);
        return None;
      }
      out := out + [16 * hi + lo];
    }
    assert s[..|s|] == s;
    return Some(out);
  }

  lemma {:induction false} OddLengthFails(s: string)
    requires |s| % 2 == 1
    ensures DecodePairs(s) == None
  {
    if |s| > 1 { OddLengthFails(s[..|s| - 2]); }
  }

  lemma {:induction false} FailureStays(s: string, n: nat)
    requires |s| % 2 == 0 && 2 * n <= |s| && DecodePairs(s[..2 * n]) == None
    ensures DecodePairs(s) == None
    decreases |s|
  {
    if 2 * n == |s| {
      assert s[..|s|] == s;
    } else {
      assert s[..|s| - 2][..2 * n] == s[..2 * n];
      FailureStays(s[..|s| - 2], n);
    }
  }

  method ParseIntelHex(text: string) returns (out: seq<Byte>, records: nat, bad: nat)
    ensures Image(out, records, bad) == Parse(text)
  {
    out, records, bad := [], 0, 0;
    var lines := Split(text);
    var i := 0;
    StartsEmpty(lines);
    hide *;
    while i < |lines|
      invariant 0 <= i <= |lines|
      invariant Plus(Image(out, records, bad), ParseLines(lines[i..])) == Parse(text)
    {
      ParseStep(Image(out, records, bad), lines, i);
      var stop;
      out, records, bad, stop := ParseLine(lines[i], out, records, bad);
      if stop { return; }
      i := i + 1;
    }
    NothingLeft(Image(out, records, bad), lines);
  }

  lemma StartsEmpty(lines: seq<string>)
    ensures Plus(Image([], 0, 0), ParseLines(lines[0..])) == ParseLines(lines)
  {
    hide ParseLines;
    assert lines[0..] == lines;
  }

  lemma NothingLeft(a: Image, lines: seq<string>)
    ensures Plus(a, ParseLines(lines[|lines|..])) == a
  {
  }

  lemma ParseStep(a: Image, lines: seq<string>, i: nat)
    requires i < |lines|
    ensures Plus(a, ParseLines(lines[i..]))
         == if Classify(lines[i]) == End then Plus(a, ImageOf(End))
            else Plus(Plus(a, ImageOf(Classify(lines[i]))), ParseLines(lines[i + 1..]))
    ensures Plus(a, ImageOf(End)) == a
  {
    hide Classify;
    assert lines[i..][0] == lines[i] && lines[i..][1..] == lines[i + 1..];
    PlusAssociates(a, ImageOf(Classify(lines[i])), ParseLines(lines[i + 1..]));
  }

  /** The loop body: one line's effect on the buffer and the two counters. */
  method ParseLine(raw: string, out0: seq<Byte>, records0: nat, bad0: nat)
    returns (out: seq<Byte>, records: nat, bad: nat, stop: bool)
    ensures Image(out, records, bad) == Plus(Image(out0, records0, bad0), ImageOf(Classify(raw)))
    ensures stop <==> Classify(raw) == End
  {
    out, records, bad, stop := out0, records0, bad0, false;
    assert out0 + [] == out0;
    var line := Trim(raw);
    hide Trim;
    if line == "" { return; }
    if line[0] != ':' {
      bad := bad + 1;
      return;
    }
    var decoded := Decode(line[1..]);
    if decoded.None? || |decoded.value| < 5 {
      bad := bad + 1;
      return;
    }
    var body := decoded.value;
    var sum := AddUp(body);
    if sum != 0 {
      bad := bad + 1;
      return;
    }
    var recLen, recType := body[0], body[3];
    if 4 + recLen + 1 > |body| {
      bad := bad + 1;
      return;
    }
    if recType == 0 {
      out := out + body[4..4 + recLen];
      records := records + 1;
    } else if recType == 1 {
      stop := true;
    }
  }

  /** The checksum loop: addition of bytes that wraps around. */
  method AddUp(body: seq<Byte>) returns (sum: Byte)
    ensures sum == Sum(body) % 256
  {
    sum := 0;
    for i := 0 to |body|
      invariant sum == Sum(body[..i]) % 256
    {
      assert body[..i + 1][..i] == body[..i];
      sum := (sum + body[i]) % 256;
    }
    assert body[..|body|] == body;
  }

  lemma EmptyPlus(a: Image)
    ensures Plus(Image([], 0, 0), a) == a
  {
  }

  lemma PlusAssociates(a: Image, b: Image, c: Image)
    ensures Plus(a, Plus(b, c)) == Plus(Plus(a, b), c)
    ensures Plus(a, Image([], 0, 0)) == a
  {
  }

  // ---------- the printer ----------

  /** An address and up to 255 bytes; `kind` 0 is a data record, 1 the end-of-file record, others extend addresses. */
  datatype Record = Record(kind: Byte, address: nat, payload: seq<Byte>, upper: bool, crlf: bool)

  predicate WellFormed(r: Record) {
    |r.payload| <= 255 && r.address < 65536
  }

  function Header(r: Record): seq<Byte>
    requires WellFormed(r)
  {
    [|r.payload|, r.address / 256, r.address % 256, r.kind]
  }

  function Body(r: Record): seq<Byte>
    requires WellFormed(r)
  {
    var unsummed := Header(r) + r.payload;
    unsummed + [(256 - Sum(unsummed) % 256) % 256]
  }

  function Digit(v: int, upper: bool): (c: char)
    requires 0 <= v < 16
    ensures HexVal(c) == v && !IsSpace(c) && c != '\n'
  {
    if v < 10 then '0' + v as char else (if upper then 'A' else 'a') + (v - 10) as char
  }

  function HexText(body: seq<Byte>, upper: bool): (s: string)
    ensures |s| == 2 * |body|
    ensures forall i | 0 <= i < |s| :: !IsSpace(s[i]) && s[i] != '\n'
  {
    if body == [] then ""
    else
      var b := body[|body| - 1];
      HexText(body[..|body| - 1], upper) + [Digit(b / 16, upper), Digit(b % 16, upper)]
  }

  function PrintRecord(r: Record): string
    requires WellFormed(r)
  {
    ":" + HexText(Body(r), r.upper) + (if r.crlf then "\r" else "")
  }

  function PrintLines(rs: seq<Record>): (lines: seq<string>)
    requires forall r | r in rs :: WellFormed(r)
    ensures |lines| == |rs|
  {
    seq(|rs|, i requires 0 <= i < |rs| => PrintRecord(rs[i]))
  }

  function JoinLines(lines: seq<string>, tail: string): string {
    if lines == [] then tail else lines[0] + "\n" + JoinLines(lines[1..], tail)
  }

  /** The records, an end-of-file record, and whatever follows it. */
  function Print(rs: seq<Record>, end: Record, tail: string): string
    requires (forall r | r in rs :: WellFormed(r)) && WellFormed(end)
  {
    JoinLines(PrintLines(rs) + [PrintRecord(end)], tail)
  }

  function Payloads(rs: seq<Record>): seq<Byte> {
    if rs == [] then [] else (if rs[0].kind == 0 then rs[0].payload else []) + Payloads(rs[1..])
  }

  function DataCount(rs: seq<Record>): nat {
    if rs == [] then 0 else (if rs[0].kind == 0 then 1 else 0) + DataCount(rs[1..])
  }

  // ---------- one line ----------

  lemma {:induction false} DecodePrinted(body: seq<Byte>, upper: bool)
    ensures DecodePairs(HexText(body, upper)) == Some(body)
  {
    if body != [] {
      DecodePrinted(body[..|body| - 1], upper);
      var s := HexText(body, upper);
      assert s[..|s| - 2] == HexText(body[..|body| - 1], upper);
      assert body[..|body| - 1] + [body[|body| - 1]] == body;
    }
  }

  lemma {:induction false} SumOfUpdate(body: seq<Byte>, i: nat, b: Byte)
    requires i < |body|
    ensures Sum(body[i := b]) == Sum(body) - body[i] + b
  {
    var last := |body| - 1;
    if i == last {
      assert body[i := b][..last] == body[..last];
    } else {
      assert body[i := b][..last] == body[..last][i := b];
      SumOfUpdate(body[..last], i, b);
    }
  }

  lemma BodySumsToZero(r: Record)
    requires WellFormed(r)
    ensures Sum(Body(r)) % 256 == 0
  {
    var unsummed := Header(r) + r.payload;
    assert Body(r)[..|unsummed|] == unsummed;
  }

  /** A line made of a colon, digits and an optional carriage return is judged by what its digits decode to. */
  lemma DigitsDecide(digits: string, crlf: bool)
    requires forall i | 0 <= i < |digits| :: !IsSpace(digits[i])
    ensures Classify(":" + digits + (if crlf then "\r" else ""))
         == match DecodePairs(digits) case None => Bad case Some(body) => ClassifyBody(body)
  {
    hide Trim, IsSpace, DecodePairs, ClassifyBody;
    LineTrims(digits, crlf);
    NoBlanksNoTrim(digits);
    assert (":" + digits)[1..] == digits;
  }

  lemma LineTrims(digits: string, crlf: bool)
    requires forall i | 0 <= i < |digits| :: !IsSpace(digits[i])
    ensures Trim(":" + digits + (if crlf then "\r" else "")) == ":" + digits
  {
    var core, end := ":" + digits, if crlf then "\r" else "";
    assert "" + core + end == core + end;
    TrimAround("", core, end);
    BlankTrims(crlf);
    assert TrimLeft("") + core + TrimRight(end) == core;
  }

  lemma BlankTrims(crlf: bool)
    ensures TrimRight(if crlf then "\r" else "") == ""
  {
    if crlf { assert "\r"[..0] == ""; }
  }

  lemma NoBlanksNoTrim(s: string)
    requires forall i | 0 <= i < |s| :: !IsSpace(s[i])
    ensures Trim(s) == s
  {
  }

  lemma PrintedRecordIsRead(r: Record)
    requires WellFormed(r)
    ensures Classify(PrintRecord(r)) == if r.kind == 0 then Data(r.payload) else if r.kind == 1 then End else Ignored
  {
    DigitsDecide(HexText(Body(r), r.upper), r.crlf);
    DecodePrinted(Body(r), r.upper);
    BodySumsToZero(r);
    hide Classify, DecodePairs, HexText, Sum;
    assert Body(r)[4..4 + |r.payload|] == r.payload;
  }

  // ---------- whole files ----------

  lemma {:induction false} SplitLine(line: string, rest: string)
    requires '\n' !in line
    ensures Split(line + "\n" + rest) == [line] + Split(rest)
  {
    var text := line + "\n" + rest;
    if line == "" {
      assert text[1..] == rest;
    } else {
      assert text[1..] == line[1..] + "\n" + rest;
      SplitLine(line[1..], rest);
      assert [line[0]] + line[1..] == line;
    }
  }

  lemma {:induction false} SplitJoined(lines: seq<string>, tail: string)
    requires forall l | l in lines :: '\n' !in l
    ensures Split(JoinLines(lines, tail)) == lines + Split(tail)
  {
    if lines == [] {
      assert [] + Split(tail) == Split(tail);
    } else {
      SplitJoined(lines[1..], tail);
      SplitLine(lines[0], JoinLines(lines[1..], tail));
      hide Split;
      Associative([lines[0]], lines[1..], Split(tail));
      assert [lines[0]] + lines[1..] == lines;
    }
  }

  lemma {:induction false} LinesAccumulate(a: seq<string>, b: seq<string>)
    requires forall l | l in a :: Classify(l) != End
    ensures ParseLines(a + b) == Plus(ParseLines(a), ParseLines(b))
  {
    hide Classify, ImageOf, Plus;
    if a == [] {
      assert a + b == b;
      EmptyPlus(ParseLines(b));
    } else {
      assert (a + b)[1..] == a[1..] + b && (a + b)[0] == a[0];
      LinesAccumulate(a[1..], b);
      PlusAssociates(ImageOf(Classify(a[0])), ParseLines(a[1..]), ParseLines(b));
    }
  }

  ghost predicate PlainLine(line: string) {
    Classify(line) != End && '\n' !in line
  }

  lemma PrintedLineIsPlain(r: Record)
    requires WellFormed(r) && r.kind != 1
    ensures PlainLine(PrintRecord(r))
    ensures ImageOf(Classify(PrintRecord(r))) == Image(Payloads([r]), DataCount([r]), 0)
  {
    PrintedRecordIsRead(r);
    hide Classify;
    assert [r][1..] == [];
  }

  lemma PrintedLinesArePlain(rs: seq<Record>)
    requires forall r | r in rs :: WellFormed(r) && r.kind != 1
    ensures forall l | l in PrintLines(rs) :: PlainLine(l)
  {
    forall l | l in PrintLines(rs) ensures PlainLine(l) {
      var i :| 0 <= i < |rs| && l == PrintRecord(rs[i]);
      PrintedLineIsPlain(rs[i]);
    }
  }

  lemma LineThenLines(line: string, rest: seq<string>)
    requires Classify(line) != End
    ensures ParseLines([line] + rest) == Plus(ImageOf(Classify(line)), ParseLines(rest))
  {
    hide Classify, ImageOf, Plus;
    assert ([line] + rest)[1..] == rest;
  }

  lemma PayloadsNext(rs: seq<Record>)
    requires rs != []
    ensures Payloads(rs) == Payloads([rs[0]]) + Payloads(rs[1..])
    ensures DataCount(rs) == DataCount([rs[0]]) + DataCount(rs[1..])
  {
    assert [rs[0]][1..] == [];
  }

  lemma NothingPrinted()
    ensures ParseLines(PrintLines([])) == Image(Payloads([]), DataCount([]), 0)
  {
    hide Classify;
  }

  lemma {:induction false} PrintedLinesParse(rs: seq<Record>)
    requires forall r | r in rs :: WellFormed(r) && r.kind != 1
    ensures ParseLines(PrintLines(rs)) == Image(Payloads(rs), DataCount(rs), 0)
  {
    hide Classify, ImageOf, PrintRecord, ParseLines, Payloads, DataCount, WellFormed;
    if rs == [] {
      NothingPrinted();
    } else {
      PrintedLineIsPlain(rs[0]);
      PrintedLinesParse(rs[1..]);
      LineThenLines(PrintRecord(rs[0]), PrintLines(rs[1..]));
      PayloadsNext(rs);
      assert PrintLines(rs) == [PrintRecord(rs[0])] + PrintLines(rs[1..]);
    }
  }

  lemma EndStops(end: Record, rest: seq<string>)
    requires WellFormed(end) && end.kind == 1
    ensures ParseLines([PrintRecord(end)] + rest) == Image([], 0, 0)
  {
    PrintedRecordIsRead(end);
  }

  /** Parsing undoes printing: any records with any addresses and extension records, in either hex case
      and with either line ending, followed by an end-of-file record and then anything at all. */
  lemma ParseUndoesPrint(rs: seq<Record>, end: Record, tail: string)
    requires (forall r | r in rs :: WellFormed(r) && r.kind != 1) && WellFormed(end) && end.kind == 1
    ensures Parse(Print(rs, end, tail)) == Image(Payloads(rs), DataCount(rs), 0)
  {
    PrintedLinesArePlain(rs);
    DamagedFile(PrintLines(rs), end, tail);
    PrintedLinesParse(rs);
  }

  /** A file whose lines before the end record are `lines`, printed or damaged. */
  lemma DamagedFile(lines: seq<string>, end: Record, tail: string)
    requires (forall l | l in lines :: PlainLine(l)) && WellFormed(end) && end.kind == 1
    ensures Parse(JoinLines(lines + [PrintRecord(end)], tail)) == ParseLines(lines)
  {
    var all := lines + [PrintRecord(end)];
    assert '\n' !in PrintRecord(end);
    SplitJoined(all, tail);
    assert all + Split(tail) == lines + ([PrintRecord(end)] + Split(tail));
    LinesAccumulate(lines, [PrintRecord(end)] + Split(tail));
    EndStops(end, Split(tail));
    PlusAssociates(ParseLines(lines), Image([], 0, 0), Image([], 0, 0));
  }

  // ---------- one wrong digit ----------

  /** The byte the pair around position `p` spells once digit `p` is `c`. */
  function NewByte(s: string, p: nat, c: char): int
    requires p < |s| && |s| % 2 == 0
  {
    if p % 2 == 0 then 16 * HexVal(c) + HexVal(s[p + 1]) else 16 * HexVal(s[p - 1]) + HexVal(c)
  }

  lemma {:induction false} DecodeUpdated(s: string, p: nat, c: char, body: seq<Byte>)
    requires p < |s| && DecodePairs(s) == Some(body) && HexVal(c) >= 0 && HexVal(c) != HexVal(s[p])
    ensures |s| == 2 * |body| && 0 <= NewByte(s, p, c) < 256 && NewByte(s, p, c) != body[p / 2]
    ensures DecodePairs(s[p := c]) == Some(body[p / 2 := NewByte(s, p, c)])
  {
    hide DecodePairs, HexVal;
    var n, last := |s| - 2, |body| - 1;
    DecodeLength(s, body);
    DecodeLast(s, body);
    if p < n {
      DecodeUpdated(s[..n], p, c, body[..last]);
      assert s[p := c][..n] == s[..n][p := c];
      DecodeMore(s[p := c], body[..last][p / 2 := NewByte(s, p, c)]);
      assert body[..last][p / 2 := NewByte(s, p, c)] + [body[last]] == body[p / 2 := NewByte(s, p, c)];
    } else {
      NewByteDiffers(s, p, c);
      assert s[p := c][..n] == s[..n];
      DecodeMore(s[p := c], body[..last]);
      assert body[..last] + [NewByte(s, p, c)] == body[p / 2 := NewByte(s, p, c)];
    }
  }

  lemma NewByteDiffers(s: string, p: nat, c: char)
    requires |s| % 2 == 0 && |s| - 2 <= p < |s|
    requires HexVal(c) >= 0 && HexVal(c) != HexVal(s[p]) && HexVal(s[|s| - 2]) >= 0 && HexVal(s[|s| - 1]) >= 0
    ensures 0 <= NewByte(s, p, c) < 256 && NewByte(s, p, c) != 16 * HexVal(s[|s| - 2]) + HexVal(s[|s| - 1])
    ensures NewByte(s, p, c) == 16 * HexVal(s[p := c][|s| - 2]) + HexVal(s[p := c][|s| - 1])
    ensures p / 2 == |s| / 2 - 1
  {
    hide HexVal;
  }

  lemma DecodeLast(s: string, body: seq<Byte>)
    requires DecodePairs(s) == Some(body) && s != ""
    ensures |s| >= 2 && body != [] && DecodePairs(s[..|s| - 2]) == Some(body[..|body| - 1])
    ensures HexVal(s[|s| - 2]) >= 0 && HexVal(s[|s| - 1]) >= 0
    ensures body[|body| - 1] == 16 * HexVal(s[|s| - 2]) + HexVal(s[|s| - 1])
  {
    hide HexVal;
    var front := DecodePairs(s[..|s| - 2]).value;
    assert body[..|body| - 1] == front;
  }

  lemma DecodeMore(s: string, front: seq<Byte>)
    requires |s| >= 2 && DecodePairs(s[..|s| - 2]) == Some(front)
    requires HexVal(s[|s| - 2]) >= 0 && HexVal(s[|s| - 1]) >= 0
    ensures DecodePairs(s) == Some(front + [16 * HexVal(s[|s| - 2]) + HexVal(s[|s| - 1])])
  {
    hide HexVal;
  }

  lemma {:induction false} DecodeLength(s: string, body: seq<Byte>)
    requires DecodePairs(s) == Some(body)
    ensures |s| == 2 * |body|
  {
    if |s| >= 2 { DecodeLength(s[..|s| - 2], DecodePairs(s[..|s| - 2]).value); }
  }

  /** The line of `r` with digit `p` replaced by `c`. */
  function Damaged(r: Record, p: nat, c: char): string
    requires WellFormed(r) && p < 2 * |Body(r)|
  {
    ":" + HexText(Body(r), r.upper)[p := c] + (if r.crlf then "\r" else "")
  }

  lemma DamagedRecordIsBad(r: Record, p: nat, c: char)
    requires WellFormed(r) && p < 2 * |Body(r)|
    requires HexVal(c) >= 0 && HexVal(c) != HexVal(HexText(Body(r), r.upper)[p])
    ensures Classify(Damaged(r, p, c)) == Bad
  {
    hide Classify, DecodePairs, HexText, Sum, Body, IsSpace, HexVal;
    var s, body := HexText(Body(r), r.upper), Body(r);
    DecodePrinted(body, r.upper);
    DecodeUpdated(s, p, c, body);
    var b: Byte := NewByte(s, p, c);
    DigitIsNoBlank(c);
    DigitsDecide(s[p := c], r.crlf);
    BodySumsToZero(r);
    SumOfUpdate(body, p / 2, b);
    ShiftedSumIsNonzero(Sum(body), body[p / 2], b);
  }

  lemma DigitIsNoBlank(c: char)
    requires HexVal(c) >= 0
    ensures !IsSpace(c) && c != '\n'
  {
  }

  lemma ShiftedSumIsNonzero(sum: int, a: Byte, b: Byte)
    requires sum % 256 == 0 && a != b
    ensures (sum - a + b) % 256 != 0
  {
  }

  /** One changed digit in one record: exactly that record's bytes are lost, exactly one record is
      reported bad, and the bytes of every other record stay in place. */
  lemma WrongDigitDropsOneRecord(rs: seq<Record>, end: Record, tail: string, k: nat, p: nat, c: char)
    requires (forall r | r in rs :: WellFormed(r) && r.kind != 1) && WellFormed(end) && end.kind == 1
    requires k < |rs| && p < 2 * |Body(rs[k])|
    requires HexVal(c) >= 0 && HexVal(c) != HexVal(HexText(Body(rs[k]), rs[k].upper)[p])
    ensures Parse(JoinLines(PrintLines(rs)[k := Damaged(rs[k], p, c)] + [PrintRecord(end)], tail))
         == Image(Payloads(rs[..k]) + Payloads(rs[k + 1..]), DataCount(rs[..k]) + DataCount(rs[k + 1..]), 1)
  {
    hide ParseLines, Classify, Payloads, DataCount, PrintRecord, JoinLines, HexVal, HexText, Body;
    var a, x, b := PrintLines(rs[..k]), Damaged(rs[k], p, c), PrintLines(rs[k + 1..]);
    DamagedRecordIsBad(rs[k], p, c);
    DigitIsNoBlank(c);
    PrintedLinesArePlain(rs[..k]);
    PrintedLinesArePlain(rs[k + 1..]);
    DamagedLinesParse(rs[..k], x, rs[k + 1..]);
    assert PrintLines(rs)[k := x] == a + ([x] + b);
    DamagedFile(a + ([x] + b), end, tail);
  }

  lemma DamagedLinesParse(before: seq<Record>, x: string, after: seq<Record>)
    requires forall r | r in before :: WellFormed(r) && r.kind != 1
    requires forall r | r in after :: WellFormed(r) && r.kind != 1
    requires Classify(x) == Bad
    ensures ParseLines(PrintLines(before) + ([x] + PrintLines(after)))
         == Image(Payloads(before) + Payloads(after), DataCount(before) + DataCount(after), 1)
  {
    hide Classify, PrintLines, Payloads, DataCount, ParseLines;
    PrintedLinesArePlain(before);
    PrintedLinesParse(before);
    PrintedLinesParse(after);
    LinesAccumulate(PrintLines(before), [x] + PrintLines(after));
    LineThenLines(x, PrintLines(after));
  }
}
