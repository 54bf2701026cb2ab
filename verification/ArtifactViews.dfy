/** What each filter of a view lets through, and where the updates of the graph put objects and edges. */
module ArtifactViews {
  import opened Text
  import opened ArtifactGraph

  const LEVELS: seq<string> := ["INFO", "LOW", "MEDIUM", "HIGH", "CRITICAL"]

  const NO_FILTER := Filters({}, "", false, {}, "")

  // ---------- the filters ----------

  /** The level of a risk, up to letter case. */
  ghost predicate HasLevel(risk: string, n: int) {
    0 <= n < |LEVELS| && Upper(risk) == LEVELS[n]
  }

  lemma LevelsDiffer(a: int, b: int)
    requires 0 <= a < |LEVELS| && 0 <= b < |LEVELS| && LEVELS[a] == LEVELS[b]
    ensures a == b
  {
    assert LEVELS[0][0] == 'I' && LEVELS[1][0] == 'L' && LEVELS[2][0] == 'M' && LEVELS[3][0] == 'H'
        && LEVELS[4][0] == 'C';
  }

  lemma OrderOfLevel(risk: string, n: int)
    requires HasLevel(risk, n)
    ensures RiskOrder(risk) == n
  {
    hide Upper;
    assert "INFO"[0] == 'I' && "LOW"[0] == 'L' && "MEDIUM"[0] == 'M' && "HIGH"[0] == 'H' && "CRITICAL"[0] == 'C';
  }

  lemma OrderOfOther(risk: string)
    requires Upper(risk) !in LEVELS
    ensures RiskOrder(risk) == 0
  {
    hide Upper;
    assert LEVELS[1] in LEVELS && LEVELS[2] in LEVELS && LEVELS[3] in LEVELS && LEVELS[4] in LEVELS;
  }

  lemma OrderIsALevel(risk: string) returns (n: int)
    ensures HasLevel(risk, n) || (Upper(risk) !in LEVELS && n == 0)
  {
    if Upper(risk) in LEVELS {
      n :| 0 <= n < |LEVELS| && LEVELS[n] == Upper(risk);
    } else {
      n := 0;
    }
  }

  /** A minimum risk keeps exactly what stands at or above it in INFO, LOW, MEDIUM, HIGH, CRITICAL. */
  lemma MinRiskIsAThreshold(f: Filters, o: Object, least: int, level: int)
    requires HasLevel(f.minRisk, least) && HasLevel(o.risk, level)
    ensures Keeps(f, o) <==> Keeps(f.(minRisk := ""), o) && least <= level
  {
    OrderOfLevel(f.minRisk, least);
    OrderOfLevel(o.risk, level);
    hide RiskOrder, Upper;
    assert f.minRisk != "" by { NamedRiskIsNotEmpty(f.minRisk, least); }
  }

  lemma NamedRiskIsNotEmpty(risk: string, n: int)
    requires HasLevel(risk, n)
    ensures risk != ""
  {
    assert |Upper(risk)| == |risk|;
    assert LEVELS[n] != "";
  }

  /** A minimum risk that is no level keeps everything, and a risk that is no level counts as INFO. */
  lemma OtherRisksAreLowest(f: Filters, o: Object)
    ensures Upper(f.minRisk) !in LEVELS ==> (Keeps(f, o) <==> Keeps(f.(minRisk := ""), o))
    ensures Upper(o.risk) !in LEVELS ==> (Keeps(f, o) <==> Keeps(f, o.(risk := "INFO")))
  {
    if Upper(f.minRisk) !in LEVELS { OrderOfOther(f.minRisk); }
    if Upper(o.risk) !in LEVELS { OrderOfOther(o.risk); }
    assert Upper("INFO") == LEVELS[0];
    OrderOfLevel("INFO", 0);
    hide RiskOrder;
  }

  /** Every filter decides on its own. */
  lemma FiltersAreIndependent(f: Filters, o: Object)
    ensures Keeps(NO_FILTER, o)
    ensures Keeps(f, o) <==>
              && Keeps(NO_FILTER.(kinds := f.kinds), o) && Keeps(NO_FILTER.(minRisk := f.minRisk), o)
              && Keeps(NO_FILTER.(quantumOnly := f.quantumOnly), o) && Keeps(NO_FILTER.(pqcStatus := f.pqcStatus), o)
              && Keeps(NO_FILTER.(source := f.source), o)
    ensures Keeps(NO_FILTER.(kinds := f.kinds), o) <==> f.kinds == {} || o.kind in f.kinds
    ensures Keeps(NO_FILTER.(quantumOnly := f.quantumOnly), o) <==> (f.quantumOnly ==> o.quantumRisk != "")
    ensures Keeps(NO_FILTER.(pqcStatus := f.pqcStatus), o) <==> f.pqcStatus == {} || o.pqcStatus in f.pqcStatus
    ensures Keeps(NO_FILTER.(source := f.source), o) <==> f.source == "" || o.source == f.source
  {
    hide RiskOrder;
    assert |Upper(o.quantumRisk)| == |o.quantumRisk|;
  }

  // ---------- views ----------

  lemma {:induction false} KeptExactly(f: Filters, os: seq<Object>)
    ensures forall o :: o in Kept(f, os) <==> o in os && Keeps(f, o)
  {
    hide Keeps;
    if os != [] {
      KeptExactly(f, os[..|os| - 1]);
      assert os == os[..|os| - 1] + [os[|os| - 1]];
    }
  }

  /** What is kept stands in the order of the original. */
  lemma {:induction false} KeptInOrder(f: Filters, a: seq<Object>, b: seq<Object>)
    ensures Kept(f, a + b) == Kept(f, a) + Kept(f, b)
    decreases |b|
  {
    hide Keeps;
    if b == [] {
      assert a + b == a;
    } else {
      assert (a + b)[..|a + b| - 1] == a + b[..|b| - 1];
      KeptInOrder(f, a, b[..|b| - 1]);
    }
  }

  lemma {:induction false} InsideExactly(os: seq<Object>, rs: seq<Relation>)
    ensures forall r :: r in Inside(os, rs) <==> r in rs && HasId(os, r.source) && HasId(os, r.target)
  {
    hide HasId;
    if rs != [] {
      InsideExactly(os, rs[..|rs| - 1]);
      assert rs == rs[..|rs| - 1] + [rs[|rs| - 1]];
    }
  }

  ghost predicate KeptId(g: State, f: Filters, id: string) {
    exists o :: o in g.objects && o.id == id && Keeps(f, o)
  }

  /** A view holds exactly the objects its filters keep, and exactly the edges between two of them. */
  lemma ViewHoldsExactly(g: State, f: Filters)
    requires Valid(g)
    ensures forall o :: o in View(g, f).objects <==> o in g.objects && Keeps(f, o)
    ensures forall r ::
              r in View(g, f).relations <==>
              r in g.relations && KeptId(g, f, r.source) && KeptId(g, f, r.target)
  {
    hide Keeps, IndexExact, EdgesExact, Kept, Inside;
    ViewIsInduced(g, f);
    KeptExactly(f, g.objects);
    var os := Kept(f, g.objects);
    InsideExactly(os, g.relations);
    forall id ensures HasId(os, id) <==> KeptId(g, f, id) {
      if KeptId(g, f, id) {
        var o :| o in g.objects && o.id == id && Keeps(f, o);
        assert o in os;
        var i :| 0 <= i < |os| && os[i] == o;
      }
      if HasId(os, id) {
        var i :| 0 <= i < |os| && os[i].id == id;
        assert os[i] in os;
      }
    }
  }

  // ---------- updates ----------

  /** Adding leaves every place but that of its own id, which is a new one at the end for a new id. */
  lemma AddKeepsPlaces(g: State, o: Object)
    requires IndexExact(g) && Trim(o.id) != ""
    ensures var g' := Add(g, o);
            && |g'.objects| == |g.objects| + (if HasId(g.objects, o.id) then 0 else 1)
            && (forall i | 0 <= i < |g.objects| ::
                  g'.objects[i] == if g.objects[i].id == o.id then o else g.objects[i])
            && (!HasId(g.objects, o.id) ==> g'.objects[|g.objects|] == o)
            && g'.relations == g.relations && g'.edges == g.edges
  {
    IndexIsHasId(g, o.id);
    hide Trim;
  }

  /** Relating either changes nothing or appends the edge; blank or equal ends and unknown ends change nothing. */
  lemma RelateAppends(g: State, r: Relation)
    requires Valid(g)
    ensures Relate(g, r) == g || Relate(g, r) == g.(relations := g.relations + [r], edges := g.edges + {KeyOf(r)})
    ensures r.source == r.target || !HasId(g.objects, r.source) || !HasId(g.objects, r.target) ==> Relate(g, r) == g
    ensures r.source != r.target && HasId(g.objects, r.source) && HasId(g.objects, r.target)
            && KeyOf(r) !in (set q | q in g.relations :: KeyOf(q)) ==>
              Relate(g, r).relations == g.relations + [r]
  {
    IndexIsHasId(g, r.source);
    IndexIsHasId(g, r.target);
    if r.source in g.index && r.target in g.index {
      NonblankIsNonempty(g.objects[g.index[r.source]].id);
      NonblankIsNonempty(g.objects[g.index[r.target]].id);
    }
    hide Trim, KeyOf;
  }
}
