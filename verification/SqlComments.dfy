/** What the SQL normaliser does with ordinary text and with line comments. */
module SqlComments {
  import opened Text
  import opened NormalizeSql

  // ---------- ordinary text ----------

  /** No blanks, and no two dashes or dollars side by side. */
  predicate Unpaired(t: string) {
    && (forall i | 0 <= i < |t| :: !IsBlank(t[i]))
    && (forall i | 0 <= i < |t| - 1 :: t[i] == t[i + 1] ==> t[i] != '-' && t[i] != '$')
  }

  /** The two texts may be put side by side without their ends pairing up. */
  predicate Apart(t: string, b: string) {
    t != "" && b != "" && t[|t| - 1] == b[0] ==> b[0] != '-' && b[0] != '$'
  }

  lemma {:induction false} TextIsCopied(t: string, b: string, lastSpace: bool)
    requires t != "" && Unpaired(t) && Apart(t, b)
    ensures Scan(t + b, Plain, lastSpace) == t + Scan(b, Plain, false)
    decreases |t|
  {
    var s := t + b;
    assert s[0] == t[0] && (|t| > 1 ==> s[1] == t[1]) && s[1..] == t[1..] + b;
    assert Step(s, Plain, lastSpace) == Round([t[0]], 1, Plain, false);
    hide Step;
    if |t| == 1 {
      assert t[1..] + b == b;
    } else {
      assert forall i | 0 <= i < |t[1..]| :: t[1..][i] == t[i + 1];
      TextIsCopied(t[1..], b, false);
      assert [t[0]] + (t[1..] + Scan(b, Plain, false)) == t + Scan(b, Plain, false);
    }
  }

  /** Text without blanks, doubled dashes and doubled dollars is its own normal form: no character is lost, single
      dashes and dollars included. */
  lemma OrdinaryTextIsNormal(t: string)
    requires t != "" && Unpaired(t) && !IsSpace(t[0]) && !IsSpace(t[|t| - 1])
    ensures Normalized(t) == t
  {
    hide IsSpace;
    TextIsCopied(t, "", false);
    assert t + "" == t;
    var s := Scan(t, Plain, false);
    assert s == t + "" == t;
    NothingToTrim(t);
  }

  lemma NothingToTrim(t: string)
    requires t != "" && !IsSpace(t[0]) && !IsSpace(t[|t| - 1])
    ensures Trim(t) == t
  {
  }

  // ---------- line comments ----------

  lemma CommentOpens(x: string, lastSpace: bool)
    ensures Scan("--" + x, Plain, lastSpace) == Scan(x, LineComment, lastSpace)
  {
    var s := "--" + x;
    assert s[0] == s[1] == '-' && s[2..] == x;
  }

  /** A line comment writes one space, whatever its text and whether or not a space is there already. */
  lemma CommentWritesASpace(a: string, t: string, b: string)
    requires Run(a, Plain, false).mode == Plain && Run(a, Plain, false).pending != "-" && '\n' !in t
    ensures Scan(a + ("--" + t + "\n" + b), Plain, false)
         == Run(a, Plain, false).out + (" " + Scan(b, Plain, true))
  {
    hide Step, Run, Scan;
    var r := Run(a, Plain, false);
    var x := "--" + t + "\n" + b;
    ScanSplits(a, x, Plain, false);
    assert x == "--" + (t + ("\n" + b));
    CommentOpens(t + ("\n" + b), r.lastSpace);
    CommentVanishes(t, "\n" + b, r.lastSpace);
    assert ("\n" + b)[1..] == b;
  }

  /** A comment at the end of the text leaves no trace. */
  lemma LastCommentVanishes(a: string, t: string)
    requires Run(a, Plain, false).mode == Plain && Run(a, Plain, false).pending != "-" && '\n' !in t
    ensures Normalized(a + ("--" + t)) == Normalized(a)
  {
    hide Step, Run, Trim;
    var r := Run(a, Plain, false);
    ScanSplits(a, "--" + t, Plain, false);
    CommentOpens(t, r.lastSpace);
    CommentVanishes(t, "", r.lastSpace);
    ScanSplits(a, "", Plain, false);
    assert t + "" == t && a + "" == a;
  }

  lemma {:induction false} TrimLeftDrops(a: string, s: string)
    requires AllSpace(a)
    ensures TrimLeft(a + s) == TrimLeft(s)
  {
    if a == "" {
      assert a + s == s;
    } else {
      assert (a + s)[0] == a[0] && (a + s)[1..] == a[1..] + s;
      TrimLeftDrops(a[1..], s);
    }
  }

  lemma {:induction false} TrimRightDrops(s: string, b: string)
    requires AllSpace(b)
    ensures TrimRight(s + b) == TrimRight(s)
  {
    if b == "" {
      assert s + b == s;
    } else {
      assert (s + b)[..|s + b| - 1] == s + b[..|b| - 1];
      TrimRightDrops(s, b[..|b| - 1]);
    }
  }

  /** The trimmed length of two texts with something visible in each, put side by side. */
  lemma TrimsBothEnds(a: string, m: string, b: string)
    requires !AllSpace(a) && !AllSpace(b)
    ensures Trim(a + m + b) == TrimLeft(a) + m + TrimRight(b)
  {
    hide IsSpace, TrimLeft, TrimRight;
    TrimmedAwayLeft(a);
    TrimmedAway(b);
    var l := LeftCut(a);
    var r := RightCut(b);
    var q := TrimLeft(a) + m + TrimRight(b);
    assert a + m + b == l + (q + r);
    TrimLeftDrops(l, q + r);
    assert (q + r)[0] == TrimLeft(a)[0];
    assert q[|q| - 1] == TrimRight(b)[|TrimRight(b)| - 1];
    StartsVisibly(q + r);
    TrimRightDrops(q, r);
    EndsVisibly(q);
  }

  lemma StartsVisibly(s: string)
    requires s != "" && !IsSpace(s[0])
    ensures TrimLeft(s) == s
  {
  }

  lemma EndsVisibly(s: string)
    requires s != "" && !IsSpace(s[|s| - 1])
    ensures TrimRight(s) == s
  {
  }

  /** One more space between two texts shows after trimming exactly when there is something visible on both sides. */
  lemma SpaceShowsIff(a: string, b: string)
    ensures Trim(a + " " + b) == Trim(a + b) <==> AllSpace(a) || AllSpace(b)
  {
    hide TrimLeft, TrimRight, Trim;
    var space := " ";
    assert AllSpace(space) && a + b == a + "" + b;
    if AllSpace(a) {
      TrimsOnlyRight(a + space, b);
      TrimsOnlyRight(a, b);
      assert forall c :: c in a + space <==> c in a || c == ' ';
    } else if AllSpace(b) {
      TrimsOnlyLeft(a, space + b);
      TrimsOnlyLeft(a, b);
      assert a + space + b == a + (space + b);
      assert forall c :: c in space + b <==> c in b || c == ' ';
    } else {
      TrimsBothEnds(a, space, b);
      TrimsBothEnds(a, "", b);
    }
  }

  lemma TrimsOnlyRight(a: string, b: string)
    requires AllSpace(a)
    ensures Trim(a + b) == Trim(b)
  {
    TrimLeftDrops(a, b);
  }

  lemma TrimsOnlyLeft(a: string, b: string)
    requires AllSpace(b)
    ensures Trim(a + b) == Trim(a)
  {
    hide TrimRight;
    TrimmedAwayLeft(a);
    if AllSpace(a) {
      assert forall c :: c in a + b <==> c in a || c in b;
      TrimmedAwayLeft(a + b);
    } else {
      var l := LeftCut(a);
      assert a + b == l + (TrimLeft(a) + b);
      TrimLeftDrops(l, TrimLeft(a) + b);
      StartsVisibly(TrimLeft(a) + b);
      TrimRightDrops(TrimLeft(a), b);
    }
  }

  /** Stripping a line comment, that is, leaving only the newline that ends it, keeps the normal form exactly when no
      space is pending before the comment, or nothing visible stands before it or after it. */
  lemma StrippingKeepsNormalFormIff(a: string, t: string, b: string)
    requires Run(a, Plain, false).mode == Plain && Run(a, Plain, false).pending != "-" && '\n' !in t
    ensures Normalized(a + ("--" + t + "\n" + b)) == Normalized(a + ("\n" + b)) <==>
            || !Run(a, Plain, false).lastSpace
            || AllSpace(Run(a, Plain, false).out) || AllSpace(Scan(b, Plain, true))
  {
    hide Step, Run, Scan, Trim;
    var r, rest := Run(a, Plain, false), Scan(b, Plain, true);
    CommentWritesASpace(a, t, b);
    var newline := "\n";
    assert AllBlank(newline);
    BlanksCutCleanly(a, newline, b);
    assert a + newline + b == a + ("\n" + b);
    assert r.out + (" " + rest) == r.out + " " + rest && "" + rest == rest;
    SpaceShowsIff(r.out, rest);
  }

  /** At a concrete statement: a comment after a space is not stripped without a trace. */
  lemma CommentMayChangeNormalForm()
    ensures Normalized("a --c\nb") != Normalized("a \nb")
  {
    hide Run, Scan, Step, Normalized;
    RunOfLetterAndSpace('a');
    LetterAndSpaceOut('a');
    LetterScan('b');
    assert "a " == ['a', ' '] && "b" == ['b'];
    assert "a --c\nb" == "a " + ("--" + "c" + "\n" + "b") && "a \nb" == "a " + ("\n" + "b");
    StrippingKeepsNormalFormIff("a ", "c", "b");
    assert 'a' in ['a', ' '] && 'b' in "b";
  }

  lemma LetterAndSpaceOut(c: char)
    requires Ordinary(c)
    ensures Run([c, ' '], Plain, false).out == [c, ' ']
  {
    assert [c, ' '][1..] == " " && " "[1..] == "";
    assert Step([c, ' '], Plain, false) == Round([c], 1, Plain, false);
    assert Run(" ", Plain, false).out == " " + "" == " ";
  }

  lemma LetterScan(c: char)
    requires Ordinary(c)
    ensures Scan([c], Plain, true) == [c]
  {
    assert [c][1..] == "";
    assert Scan([c], Plain, true) == [c] + "" == [c];
  }
}
