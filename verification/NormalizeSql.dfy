/** The SQL normaliser behind migration checksums: a scanner with one character of lookahead. */
module NormalizeSql {
  import opened Text

  datatype Mode = Plain | LineComment | DollarQuote

  predicate IsBlank(c: char) {
    c == '\n' || c == '\r' || c == '\t' || c == ' '
  }

  /** The next two characters are the same. */
  predicate Paired(s: string) {
    |s| > 1 && s[1] == s[0]
  }

  /** One round of the loop: what is written, how many characters are consumed, and the flags after it. */
  datatype Round = Round(out: string, consumed: nat, mode: Mode, lastSpace: bool)

  function Step(s: string, mode: Mode, lastSpace: bool): (r: Round)
    requires s != ""
    ensures 1 <= r.consumed <= |s|
  {
    var c := s[0];
    match mode
    case LineComment =>
      if c == '\n' then Round(" ", 1, Plain, true) else Round("", 1, LineComment, lastSpace)
    case DollarQuote =>
      if c == '$' && Paired(s) then Round("$$", 2, Plain, lastSpace) else Round([c], 1, DollarQuote, lastSpace)
    case Plain =>
      if IsBlank(c) then Round(if lastSpace then "" else " ", 1, Plain, true)
      else if c == '-' && Paired(s) then Round("", 2, LineComment, lastSpace)
      else if c == '$' && Paired(s) then Round("$$", 2, DollarQuote, lastSpace)
      else Round([c], 1, Plain, false)
  }

  /** The output of the remaining rounds, before the final trim. */
  function Scan(s: string, mode: Mode, lastSpace: bool): string
    decreases |s|
  {
    if s == "" then "" else
      var r := Step(s, mode, lastSpace);
      r.out + Scan(s[r.consumed..], r.mode, r.lastSpace)
  }

  function Normalized(s: string): string {
    Trim(Scan(s, Plain, false))
  }

  function ModeOf(inLineComment: bool, inDollarQuote: bool): Mode {
    if inLineComment then LineComment else if inDollarQuote then DollarQuote else Plain
  }

  /** The loop of the source. */
  method Normalize(s: string) returns (r: string)
    ensures r == Normalized(s)
  {
    hide Trim;
    var out := "";
    var lastSpace, inLineComment, inDollarQuote := false, false, false;
    var i := 0;
    while i < |s|
      invariant 0 <= i <= |s| && !(inLineComment && inDollarQuote)
      invariant Scan(s, Plain, false) == out + Scan(s[i..], ModeOf(inLineComment, inDollarQuote), lastSpace)
    {
      ghost var round := Step(s[i..], ModeOf(inLineComment, inDollarQuote), lastSpace);
      ghost var before, at := out, i;
      var c := s[i];
      var paired := i + 1 < |s| && s[i + 1] == c;
      if inLineComment {
        if c == '\n' {
          inLineComment, lastSpace := false, true;
          out := out + " ";
        }
      } else if inDollarQuote {
        out := out + [c];
        if c == '$' && paired {
          out := out + "$";
          i := i + 1;
          inDollarQuote := false;
        }
      } else if IsBlank(c) {
        if !lastSpace {
          out := out + " ";
          lastSpace := true;
        }
      } else if c == '-' && paired {
        inLineComment := true;
        i := i + 1;
      } else if c == '$' && paired {
        inDollarQuote := true;
        out := out + "$$";
        i := i + 1;
      } else {
        lastSpace := false;
        out := out + [c];
      }
      i := i + 1;
      assert out == before + round.out && i == at + round.consumed
          && round.mode == ModeOf(inLineComment, inDollarQuote) && round.lastSpace == lastSpace;
      hide Step, ModeOf;
      assert s[at..][round.consumed..] == s[i..];
      Associative(before, round.out, Scan(s[i..], round.mode, round.lastSpace));
    }
    assert s[i..] == "" && out + "" == out;
    r := Trim(out);
  }

  // ---------- cutting the text ----------

  /** Where a prefix leaves the scanner; `pending` is the character that would pair with an equal next
      one, or "". */
  datatype Scanner = Scanner(mode: Mode, lastSpace: bool, pending: string, out: string)

  predicate MayPair(c: char, mode: Mode) {
    (c == '-' && mode == Plain) || (c == '$' && mode != LineComment)
  }

  function Run(s: string, mode: Mode, lastSpace: bool): Scanner
    decreases |s|
  {
    if s == "" then Scanner(mode, lastSpace, "", "") else
      var r := Step(s, mode, lastSpace);
      if |s| == 1 && MayPair(s[0], mode) then Scanner(r.mode, r.lastSpace, s, r.out)
      else var rest := Run(s[r.consumed..], r.mode, r.lastSpace); rest.(out := r.out + rest.out)
  }

  lemma StepIsLocal(a: string, b: string, mode: Mode, lastSpace: bool)
    requires a != "" && (|a| > 1 || !MayPair(a[0], mode) || b == "" || b[0] != a[0])
    ensures Step(a + b, mode, lastSpace) == Step(a, mode, lastSpace)
  {
    assert (a + b)[0] == a[0] && (|a| > 1 ==> (a + b)[1] == a[1]);
  }

  /** Scanning may be cut anywhere except between two characters that pair up. */
  lemma {:induction false} ScanSplits(a: string, b: string, mode: Mode, lastSpace: bool)
    requires var r := Run(a, mode, lastSpace); r.pending == "" || b == "" || r.pending != [b[0]]
    ensures var r := Run(a, mode, lastSpace); Scan(a + b, mode, lastSpace) == r.out + Scan(b, r.mode, r.lastSpace)
    decreases |a|
  {
    if a == "" {
      assert a + b == b;
    } else {
      StepIsLocal(a, b, mode, lastSpace);
      var r := Step(a, mode, lastSpace);
      var rest := Run(a[r.consumed..], r.mode, r.lastSpace);
      hide Step, MayPair;
      assert (a + b)[r.consumed..] == a[r.consumed..] + b;
      if |a| == 1 && MayPair(a[0], mode) {
        assert a[r.consumed..] + b == b;
      } else {
        ScanSplits(a[r.consumed..], b, r.mode, r.lastSpace);
        Associative(r.out, rest.out, Scan(b, rest.mode, rest.lastSpace));
      }
    }
  }

  // ---------- whitespace runs ----------

  predicate AllBlank(w: string) {
    forall i | 0 <= i < |w| :: IsBlank(w[i])
  }

  lemma {:induction false} BlanksCollapse(w: string, b: string, lastSpace: bool)
    requires AllBlank(w) && (w != "" || lastSpace)
    ensures Scan(w + b, Plain, lastSpace) == (if lastSpace then "" else " ") + Scan(b, Plain, true)
    decreases |w|
  {
    if w == "" {
      assert w + b == b;
    } else {
      assert (w + b)[1..] == w[1..] + b;
      BlanksCollapse(w[1..], b, true);
    }
  }

  lemma BlanksCutCleanly(a: string, w: string, b: string)
    requires Run(a, Plain, false).mode == Plain && w != "" && AllBlank(w)
    ensures var r := Run(a, Plain, false);
            Scan(a + w + b, Plain, false) == r.out + ((if r.lastSpace then "" else " ") + Scan(b, Plain, true))
  {
    var r := Run(a, Plain, false);
    PendingPairs(a, Plain, false);
    assert a + w + b == a + (w + b) && (w + b)[0] == w[0] && IsBlank(w[0]);
    ScanSplits(a, w + b, Plain, false);
    BlanksCollapse(w, b, r.lastSpace);
  }

  lemma {:induction false} PendingPairs(a: string, mode: Mode, lastSpace: bool)
    ensures Run(a, mode, lastSpace).pending in {"", "-", "$"}
    ensures Run(a, mode, lastSpace).mode == LineComment ==> Run(a, mode, lastSpace).pending == ""
    decreases |a|
  {
    if a != "" {
      var r := Step(a, mode, lastSpace);
      if |a| == 1 && MayPair(a[0], mode) {
        assert a == [a[0]];
      } else {
        PendingPairs(a[r.consumed..], r.mode, r.lastSpace);
      }
    }
  }

  /** Outside comments and dollar quotes, any nonempty run of blanks may be replaced by any other. */
  lemma ReflowingKeepsNormalForm(a: string, w: string, w': string, b: string)
    requires Run(a, Plain, false).mode == Plain
    requires w != "" && AllBlank(w) && w' != "" && AllBlank(w')
    ensures Normalized(a + w + b) == Normalized(a + w' + b)
  {
    BlanksCutCleanly(a, w, b);
    BlanksCutCleanly(a, w', b);
  }

  // ---------- line comments ----------

  lemma {:induction false} CommentVanishes(t: string, b: string, lastSpace: bool)
    requires '\n' !in t && (b == "" || b[0] == '\n')
    ensures Scan(t + b, LineComment, lastSpace) == if b == "" then "" else " " + Scan(b[1..], Plain, true)
    decreases |t|
  {
    if t == "" {
      assert t + b == b;
    } else {
      assert (t + b)[1..] == t[1..] + b;
      CommentVanishes(t[1..], b, lastSpace);
    }
  }

  /** Inside a line comment, the text up to the newline, or to the end, may be replaced by any other. */
  lemma CommentTextIsIgnored(a: string, t: string, t': string, b: string)
    requires Run(a, Plain, false).mode == LineComment
    requires '\n' !in t && '\n' !in t' && (b == "" || b[0] == '\n')
    ensures Normalized(a + t + b) == Normalized(a + t' + b)
  {
    var r := Run(a, Plain, false);
    PendingPairs(a, Plain, false);
    assert a + t + b == a + (t + b) && a + t' + b == a + (t' + b);
    ScanSplits(a, t + b, Plain, false);
    ScanSplits(a, t' + b, Plain, false);
    CommentVanishes(t, b, r.lastSpace);
    CommentVanishes(t', b, r.lastSpace);
  }

  // ---------- dollar quotes ----------

  /** The first "$$" of body + "$$" is the one at its end. */
  predicate Unbroken(body: string) {
    && (forall i | 0 <= i < |body| - 1 :: !(body[i] == '$' && body[i + 1] == '$'))
    && (body != "" ==> body[|body| - 1] != '$')
  }

  lemma {:induction false} QuoteIsCopied(body: string, b: string, lastSpace: bool)
    requires Unbroken(body)
    ensures Scan(body + "$$" + b, DollarQuote, lastSpace) == body + "$$" + Scan(b, Plain, lastSpace)
    decreases |body|
  {
    var s := body + "$$" + b;
    if body == "" {
      assert s[2..] == b;
    } else {
      assert s[1..] == body[1..] + "$$" + b;
      assert Step(s, DollarQuote, lastSpace) == Round([body[0]], 1, DollarQuote, lastSpace);
      hide Step;
      QuoteIsCopied(body[1..], b, lastSpace);
      Associative([body[0]], body[1..] + "$$", Scan(b, Plain, lastSpace));
      assert [body[0]] + (body[1..] + "$$") == body + "$$";
    }
  }

  lemma OpeningQuote(x: string, lastSpace: bool)
    ensures Scan("$$" + x, Plain, lastSpace) == "$$" + Scan(x, DollarQuote, lastSpace)
  {
    var s := "$$" + x;
    assert s[0] == s[1] == '$' && s[2..] == x;
  }

  /** A closed dollar-quoted body is copied verbatim: only what stands before and after it is normalised. */
  lemma ClosedQuoteIsVerbatim(a: string, body: string, b: string)
    requires Run(a, Plain, false).mode == Plain && Run(a, Plain, false).pending != "$" && Unbroken(body)
    ensures var r := Run(a, Plain, false);
            Normalized(a + ("$$" + body + "$$" + b))
            == TrimLeft(r.out) + ("$$" + body + "$$") + TrimRight(Scan(b, Plain, r.lastSpace))
  {
    hide Scan, Step, Run, Trim;
    var r := Run(a, Plain, false);
    var s := "$$" + body + "$$" + b;
    ScanSplits(a, s, Plain, false);
    var q, rest := "$$" + body + "$$", Scan(b, Plain, r.lastSpace);
    assert s == "$$" + (body + "$$" + b);
    OpeningQuote(body + "$$" + b, r.lastSpace);
    QuoteIsCopied(body, b, r.lastSpace);
    Associative("$$", body + "$$", rest);
    assert "$$" + (body + "$$") == q;
    Associative(r.out, q, rest);
    TrimAround(r.out, q, rest);
  }

  lemma {:induction false} BlanksVanish(w: string, b: string)
    requires AllBlank(w)
    ensures Scan(w + b, Plain, true) == Scan(b, Plain, true)
  {
    if w == "" {
      assert w + b == b;
    } else {
      BlanksCollapse(w, b, true);
      assert "" + Scan(b, Plain, true) == Scan(b, Plain, true);
    }
  }

  lemma {:induction false} TrimRightKeepsStart(s: string)
    requires !AllSpace(s)
    ensures TrimRight(" " + s) == " " + TrimRight(s)
  {
    var front, last := s[..|s| - 1], s[|s| - 1];
    assert s == front + [last];
    assert (" " + s)[..|s|] == " " + front && (" " + s)[|s|] == last;
    if IsSpace(last) { TrimRightKeepsStart(front); }
  }

  lemma {:induction false} CommentForgetsSpace(s: string)
    ensures Scan(s, LineComment, true) == Scan(s, LineComment, false)
  {
    if s != "" && s[0] != '\n' { CommentForgetsSpace(s[1..]); }
  }

  /** A pending space matters only to a blank, or inside the quote that follows at once. */
  lemma PendingSpaceForgotten(b: string)
    requires b != "" && !IsBlank(b[0]) && !(b[0] == '$' && Paired(b))
    ensures Scan(b, Plain, true) == Scan(b, Plain, false)
  {
    if b[0] == '-' && Paired(b) { CommentForgetsSpace(b[2..]); }
  }

  /** What one more space in front does to the text after a quote. */
  lemma SpaceInFrontShows(b: string)
    requires b != "" && !IsBlank(b[0])
    ensures TrimRight(" " + Scan(b, Plain, true)) == TrimRight(Scan(b, Plain, false)) <==> Normalized(b) == ""
  {
    hide Step, TrimRight, TrimLeft, Trim, IsSpace;
    var with, without := Scan(b, Plain, true), Scan(b, Plain, false);
    TrimmedAwayOnBothSides(without);
    TrimmedAway(without);
    TrimmedAway(" " + with);
    assert forall c :: c in " " + with <==> c == ' ' || c in with;
    BlankIsSpace();
    if b[0] == '$' && Paired(b) {
      OpeningQuote(b[2..], true);
      OpeningQuote(b[2..], false);
      assert b == "$$" + b[2..];
      assert '$' in with && '$' in without;
      assert TrimRight(" " + with)[0] == ' ' && TrimRight(without)[0] == '$';
    } else {
      PendingSpaceForgotten(b);
      if !AllSpace(with) { TrimRightKeepsStart(with); }
    }
  }

  lemma BlankIsSpace()
    ensures IsSpace(' ') && !IsSpace('$')
  {
  }

  /** Entering a quote does not clear the pending-space flag.  So blanks right after a closed quote leave no trace
      exactly when a blank was pending before the quote, or more blanks or nothing visible follow. */
  lemma BlanksAfterQuoteVanishIff(a: string, body: string, w: string, b: string)
    requires Run(a, Plain, false).mode == Plain && Run(a, Plain, false).pending != "$" && Unbroken(body)
    requires w != "" && AllBlank(w)
    ensures Normalized(a + ("$$" + body + "$$" + (w + b))) == Normalized(a + ("$$" + body + "$$" + b)) <==>
            Run(a, Plain, false).lastSpace || (b != "" && IsBlank(b[0])) || Normalized(b) == ""
  {
    ClosedQuoteIsVerbatim(a, body, w + b);
    ClosedQuoteIsVerbatim(a, body, b);
    var r, q := Run(a, Plain, false), "$$" + body + "$$";
    var x, y := TrimRight(Scan(w + b, Plain, r.lastSpace)), TrimRight(Scan(b, Plain, r.lastSpace));
    SamePrefix(TrimLeft(r.out) + q, x, y);
    if r.lastSpace {
      BlanksVanish(w, b);
    } else {
      BlanksCollapse(w, b, false);
      BlanksAfterPlain(b);
    }
  }

  lemma BlanksAfterPlain(b: string)
    ensures TrimRight(" " + Scan(b, Plain, true)) == TrimRight(Scan(b, Plain, false)) <==>
            (b != "" && IsBlank(b[0])) || Normalized(b) == ""
  {
    if b == "" {
      assert " " + Scan(b, Plain, true) == " " && " "[..0] == "";
    } else if IsBlank(b[0]) {
      assert Scan(b, Plain, true) == "" + Scan(b[1..], Plain, true) == Scan(b[1..], Plain, true);
    } else {
      SpaceInFrontShows(b);
    }
  }

  lemma SamePrefix(a: string, x: string, y: string)
    ensures a + x == a + y <==> x == y
  {
    if a + x == a + y { assert x == (a + x)[|a|..] && y == (a + y)[|a|..]; }
  }

  /** At a concrete pair of statements: the space after the closing quote is lost, or kept, depending on a space
      before the opening one. */
  lemma ClosingSpaceMayBeLost()
    ensures Normalized("a $$x$$ b") == Normalized("a $$x$$b")
    ensures Normalized("a$$x$$ b") != Normalized("a$$x$$b")
  {
    hide Run, Scan, Step, Normalized;
    RunOfLetter('a');
    RunOfLetterAndSpace('a');
    LetterIsNormal('b');
    assert "a " == ['a', ' '] && "a" == ['a'] && "b" == ['b'];
    assert "a $$x$$ b" == "a " + ("$$" + "x" + "$$" + (" " + "b")) && "a $$x$$b" == "a " + ("$$" + "x" + "$$" + "b");
    assert "a$$x$$ b" == "a" + ("$$" + "x" + "$$" + (" " + "b")) && "a$$x$$b" == "a" + ("$$" + "x" + "$$" + "b");
    BlanksAfterQuoteVanishIff("a ", "x", " ", "b");
    BlanksAfterQuoteVanishIff("a", "x", " ", "b");
  }

  predicate Ordinary(c: char) {
    c != '-' && c != '$' && !IsSpace(c)
  }

  lemma RunOfLetter(c: char)
    requires Ordinary(c)
    ensures Run([c], Plain, false) == Scanner(Plain, false, "", [c])
  {
    assert [c][1..] == "" && [c] + "" == [c];
  }

  lemma RunOfLetterAndSpace(c: char)
    requires Ordinary(c)
    ensures Run([c, ' '], Plain, false).mode == Plain && Run([c, ' '], Plain, false).pending == ""
    ensures Run([c, ' '], Plain, false).lastSpace
  {
    assert [c, ' '][1..] == " " && " "[1..] == "";
    assert Step([c, ' '], Plain, false) == Round([c], 1, Plain, false);
    assert Run(" ", Plain, false).lastSpace;
  }

  lemma LetterIsNormal(c: char)
    requires Ordinary(c)
    ensures Normalized([c]) == [c]
  {
    assert [c][1..] == "";
    assert Scan([c], Plain, false) == [c] + "" == [c];
  }
}
