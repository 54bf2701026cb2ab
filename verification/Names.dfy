/** Ordering of names, for the listings sorted by name. */
module Names {

  /** Go's `<` on strings, reflexively closed. */
  predicate Leq(a: string, b: string) {
    a == "" || (b != "" && (a[0] < b[0] || (a[0] == b[0] && Leq(a[1..], b[1..]))))
  }

  lemma {:induction false} LeqIsTotal(a: string, b: string)
    ensures Leq(a, b) || Leq(b, a)
    ensures Leq(a, b) && Leq(b, a) ==> a == b
  {
    if a != "" && b != "" {
      LeqIsTotal(a[1..], b[1..]);
      assert a == [a[0]] + a[1..] && b == [b[0]] + b[1..];
    }
  }

  lemma {:induction false} LeqIsTransitive(a: string, b: string, c: string)
    requires Leq(a, b) && Leq(b, c)
    ensures Leq(a, c)
  {
    if a != "" { LeqIsTransitive2(a, b, c); }
  }

  lemma {:induction false} LeqIsTransitive2(a: string, b: string, c: string)
    requires Leq(a, b) && Leq(b, c) && a != ""
    ensures Leq(a, c)
    decreases |a|
  {
    if a[0] == b[0] == c[0] && a[1..] != "" {
      LeqIsTransitive2(a[1..], b[1..], c[1..]);
    }
  }

  lemma {:induction false} LeastExists(names: set<string>) returns (least: string)
    requires names != {}
    ensures least in names && forall n | n in names :: Leq(least, n)
    decreases |names|
  {
    var n :| n in names;
    if names == {n} {
      LeqIsTotal(n, n);
      return n;
    }
    var rest := names - {n};
    assert names == rest + {n};
    least := LeastExists(rest);
    LeqIsTotal(least, n);
    LeqIsTotal(n, n);
    if !Leq(least, n) {
      forall m | m in names ensures Leq(n, m) {
        if m != n { LeqIsTransitive(n, least, m); }
      }
      least := n;
    }
  }
}
