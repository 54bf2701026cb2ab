/** The few string operations of Go's `strings` package that the modelled code relies on, and two facts
    about sequences. */
module Text {

  datatype Option<+T> = None | Some(value: T)

  /** `unicode.IsSpace`: the White_Space code points. */
  predicate IsSpace(c: char) {
    || c in {'\t', '\n', '\U{000B}', '\U{000C}', '\r', ' ', '\U{0085}', '\U{00A0}', '\U{1680}'}
    || '\U{2000}' <= c <= '\U{200A}'
    || c in {'\U{2028}', '\U{2029}', '\U{202F}', '\U{205F}', '\U{3000}'}
  }

  function TrimLeft(s: string): (r: string)
    ensures |r| <= |s|
    ensures r != "" ==> !IsSpace(r[0])
  {
    if s != "" && IsSpace(s[0]) then TrimLeft(s[1..]) else s
  }

  function TrimRight(s: string): (r: string)
    ensures |r| <= |s| && r <= s
    ensures r != "" ==> !IsSpace(r[|r| - 1])
  {
    if s != "" && IsSpace(s[|s| - 1]) then TrimRight(s[..|s| - 1]) else s
  }

  /** `strings.TrimSpace`. */
  function Trim(s: string): (r: string) {
    TrimRight(TrimLeft(s))
  }

  /** ASCII part of `strings.ToLower`. */
  function Lower(s: string): (r: string)
    ensures |r| == |s|
  {
    seq(|s|, i requires 0 <= i < |s| => if 'A' <= s[i] <= 'Z' then s[i] + 32 as char else s[i])
  }

  /** ASCII part of `strings.ToUpper`. */
  function Upper(s: string): (r: string)
    ensures |r| == |s|
  {
    seq(|s|, i requires 0 <= i < |s| => if 'a' <= s[i] <= 'z' then s[i] - 32 as char else s[i])
  }

  predicate OccursAt(text: string, m: string, pos: int) {
    0 <= pos <= |text| - |m| && text[pos..pos + |m|] == m
  }

  lemma Associative<T>(a: seq<T>, b: seq<T>, c: seq<T>)
    ensures a + (b + c) == a + b + c
  {
  }

  /** Trimming stops at the first nonblank from either side. */
  lemma {:induction false} TrimLeftStops(a: string, b: string)
    requires b != "" && !IsSpace(b[0])
    ensures TrimLeft(a + b) == TrimLeft(a) + b
  {
    if a == "" {
      assert a + b == b;
    } else {
      assert (a + b)[1..] == a[1..] + b;
      if IsSpace(a[0]) { TrimLeftStops(a[1..], b); }
    }
  }

  lemma {:induction false} TrimRightStops(a: string, b: string)
    requires a != "" && !IsSpace(a[|a| - 1])
    ensures TrimRight(a + b) == a + TrimRight(b)
  {
    if b == "" {
      assert a + b == a;
    } else {
      assert (a + b)[..|a + b| - 1] == a + b[..|b| - 1];
      if IsSpace(b[|b| - 1]) { TrimRightStops(a, b[..|b| - 1]); }
    }
  }

  lemma TrimAround(a: string, q: string, b: string)
    requires q != "" && !IsSpace(q[0]) && !IsSpace(q[|q| - 1])
    ensures Trim(a + q + b) == TrimLeft(a) + q + TrimRight(b)
  {
    assert a + q + b == a + (q + b);
    TrimLeftStops(a, q + b);
    assert TrimLeft(a) + (q + b) == (TrimLeft(a) + q) + b;
    TrimRightStops(TrimLeft(a) + q, b);
  }

  predicate AllSpace(s: string) {
    forall c | c in s :: IsSpace(c)
  }

  lemma {:induction false} TrimmedAway(s: string)
    ensures TrimRight(s) == "" <==> AllSpace(s)
  {
    if s != "" {
      var front, last := s[..|s| - 1], s[|s| - 1];
      assert s == front + [last];
      if IsSpace(last) { TrimmedAway(front); } else { assert last in s; }
    }
  }

  lemma {:induction false} TrimmedAwayLeft(s: string)
    ensures TrimLeft(s) == "" <==> AllSpace(s)
  {
    if s != "" {
      assert s == [s[0]] + s[1..];
      if IsSpace(s[0]) { TrimmedAwayLeft(s[1..]); } else { assert s[0] in s; }
    }
  }

  lemma TrimmedAwayOnBothSides(s: string)
    ensures Trim(s) == "" <==> AllSpace(s)
  {
    TrimmedAwayLeft(s);
    TrimmedAway(TrimLeft(s));
    if TrimLeft(s) != "" { assert TrimLeft(s)[0] in TrimLeft(s); }
  }

  /** `Trim` cuts exactly the blanks around the text. */
  lemma TrimIsExact(s: string)
    ensures exists a, b :: s == a + Trim(s) + b && AllSpace(a) && AllSpace(b)
    ensures var t := Trim(s); t != "" ==> !IsSpace(t[0]) && !IsSpace(t[|t| - 1])
  {
    var a := LeftCut(s);
    var b := RightCut(TrimLeft(s));
    assert s == a + (Trim(s) + b) == a + Trim(s) + b;
    if Trim(s) != "" { assert Trim(s)[0] == TrimLeft(s)[0]; }
  }

  lemma {:induction false} LeftCut(s: string) returns (a: string)
    ensures s == a + TrimLeft(s) && AllSpace(a)
  {
    if s != "" && IsSpace(s[0]) {
      a := LeftCut(s[1..]);
      a := [s[0]] + a;
      assert s == [s[0]] + s[1..];
    } else {
      a := "";
    }
  }

  lemma {:induction false} RightCut(s: string) returns (b: string)
    ensures s == TrimRight(s) + b && AllSpace(b)
  {
    if s != "" && IsSpace(s[|s| - 1]) {
      b := RightCut(s[..|s| - 1]);
      b := b + [s[|s| - 1]];
      assert s == s[..|s| - 1] + [s[|s| - 1]];
    } else {
      b := "";
    }
  }

  lemma TrimTwice(s: string)
    ensures Trim(Trim(s)) == Trim(s)
  {
    var t := Trim(s);
    if t != "" {
      assert t <= TrimLeft(s);
      assert t[0] == TrimLeft(s)[0];
    }
  }

  /** The text after the last `c`. */
  function AfterLast(s: string, c: char): string {
    if s == "" || s[|s| - 1] == c then "" else AfterLast(s[..|s| - 1], c) + [s[|s| - 1]]
  }

  lemma {:induction false} AfterLastIsSuffix(a: string, c: char, t: string)
    requires c !in t
    ensures AfterLast(a + [c] + t, c) == t
    decreases |t|
  {
    var s := a + [c] + t;
    if t == "" {
      assert s[|s| - 1] == c;
    } else {
      assert s[..|s| - 1] == a + [c] + t[..|t| - 1];
      AfterLastIsSuffix(a, c, t[..|t| - 1]);
      assert t[..|t| - 1] + [t[|t| - 1]] == t;
    }
  }

  /** A separator absent from both right-hand sides splits a concatenation in one way only. */
  lemma LastSplitIsUnique(a: string, t: string, b: string, u: string, c: char)
    requires c !in t && c !in u && a + [c] + t == b + [c] + u
    ensures a == b && t == u
  {
    AfterLastIsSuffix(a, c, t);
    AfterLastIsSuffix(b, c, u);
    assert a == (a + [c] + t)[..|a + [c] + t| - |t| - 1];
    assert b == (b + [c] + u)[..|b + [c] + u| - |u| - 1];
  }

  /** Two pairs joined by one separator give the same text exactly when they are the same pair, or one left part
      swallows the separator and the start of the other right part. */
  lemma JoinsCollideIff(a: string, t: string, b: string, u: string, c: char)
    ensures a + [c] + t == b + [c] + u <==>
              || (a == b && t == u)
              || (exists m :: b == a + [c] + m && t == m + [c] + u)
              || (exists m :: a == b + [c] + m && u == m + [c] + t)
  {
    var s, r := a + [c] + t, b + [c] + u;
    if s == r {
      if |a| == |b| {
        assert a == s[..|a|] == b && t == s[|a| + 1..] == u;
      } else if |a| < |b| {
        Swallowed(a, t, b, u, c);
      } else {
        Swallowed(b, u, a, t, c);
      }
    }
    forall m | b == a + [c] + m && t == m + [c] + u ensures s == r {}
    forall m | a == b + [c] + m && u == m + [c] + t ensures s == r {}
  }

  lemma Swallowed(a: string, t: string, b: string, u: string, c: char)
    requires a + [c] + t == b + [c] + u && |a| < |b|
    ensures exists m :: b == a + [c] + m && t == m + [c] + u
  {
    var s := a + [c] + t;
    var m := b[|a| + 1..];
    assert b == s[..|b|] && a == s[..|a|] && s[|a|] == c && t == s[|a| + 1..];
    assert b == a + [c] + m;
    assert t == m + [c] + u;
  }

  /** A separator absent from both left-hand sides splits a concatenation in one way only. */
  lemma FirstSplitIsUnique(a: string, t: string, b: string, u: string, c: char)
    requires c !in a && c !in b && a + [c] + t == b + [c] + u
    ensures a == b && t == u
  {
    JoinsCollideIff(a, t, b, u, c);
    forall m ensures c in a + [c] + m && c in b + [c] + m {
      assert (a + [c] + m)[|a|] == c && (b + [c] + m)[|b|] == c;
    }
  }

  /** `strings.Join` with a one-character separator. */
  function Joined(parts: seq<string>, sep: char): string {
    if parts == [] then ""
    else if |parts| == 1 then parts[0]
    else parts[0] + [sep] + Joined(parts[1..], sep)
  }

  /** When no part but the last holds the separator, the joined text determines the parts. */
  lemma {:induction false} JoinedIsInjective(a: seq<string>, b: seq<string>, sep: char)
    requires |a| == |b|
    requires forall i | 0 <= i < |a| - 1 :: sep !in a[i] && sep !in b[i]
    ensures Joined(a, sep) == Joined(b, sep) <==> a == b
  {
    if |a| > 1 && Joined(a, sep) == Joined(b, sep) {
      FirstSplitIsUnique(a[0], Joined(a[1..], sep), b[0], Joined(b[1..], sep), sep);
      JoinedIsInjective(a[1..], b[1..], sep);
      assert a == [a[0]] + a[1..] && b == [b[0]] + b[1..];
    }
  }

  lemma {:induction false} JoinedNext(parts: seq<string>, last: string, sep: char)
    requires parts != []
    ensures Joined(parts + [last], sep) == Joined(parts, sep) + ([sep] + last)
  {
    var all := parts + [last];
    assert all[0] == parts[0] && all[1..] == parts[1..] + [last];
    if |parts| == 1 {
      assert all[1..] == [last];
      assert Joined(all, sep) == parts[0] + [sep] + last;
    } else {
      JoinedNext(parts[1..], last, sep);
      assert parts[0] + [sep] + (Joined(parts[1..], sep) + ([sep] + last))
        == (parts[0] + [sep] + Joined(parts[1..], sep)) + ([sep] + last);
    }
  }

  lemma MultisetWithout<T>(a: seq<T>, w: T, b: seq<T>)
    ensures multiset(a + b) == multiset(a + [w] + b) - multiset{w}
  {
    assert multiset(a + [w] + b) == multiset(a) + multiset{w} + multiset(b);
    assert multiset(a + b) == multiset(a) + multiset(b);
  }

  /** The last element of one ordering sits somewhere in any other; without it the rest are reorderings too. */
  lemma FindLast<T>(p: seq<T>, q: seq<T>) returns (a: seq<T>, b: seq<T>)
    requires p != [] && multiset(p) == multiset(q)
    ensures q == a + [p[|p| - 1]] + b && multiset(a + b) == multiset(p[..|p| - 1])
  {
    var front, w := p[..|p| - 1], p[|p| - 1];
    assert p == front + [w] + [];
    assert front + [] == front;
    MultisetWithout(front, w, []);
    assert w in multiset(q);
    var k :| 0 <= k < |q| && q[k] == w;
    a, b := q[..k], q[k + 1..];
    assert q == a + [w] + b;
    MultisetWithout(a, w, b);
  }

  lemma ReorderingsOfNothing<T>(q: seq<T>)
    requires multiset(q) == multiset{}
    ensures q == []
  {
    assert |multiset(q)| == |q|;
  }
}
