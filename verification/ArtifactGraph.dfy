/** The artifact graph: two ordered slices with an index of object positions and a set of edge keys. */
module ArtifactGraph {
  import opened Text

  datatype Object = Object(id: string, kind: string, name: string, source: string, risk: string,
                           quantumRisk: string, pqcStatus: string)

  datatype Relation = Relation(source: string, target: string, kind: string, evidence: string)

  datatype State = State(objects: seq<Object>, relations: seq<Relation>, index: map<string, nat>, edges: set<string>)

  const EMPTY := State([], [], map[], {})

  function EdgeKey(kind: string, source: string, target: string): string {
    kind + ['\0'] + source + ['\0'] + target
  }

  function KeyOf(r: Relation): string {
    EdgeKey(r.kind, r.source, r.target)
  }

  // ---------- the operations on values ----------

  /** `index[o.id]` is in range in every graph the operations build; elsewhere the index is not consulted. */
  function Add(g: State, o: Object): State {
    if Trim(o.id) == "" then g
    else if o.id in g.index then
      if g.index[o.id] < |g.objects| then g.(objects := g.objects[g.index[o.id] := o]) else g
    else g.(objects := g.objects + [o], index := g.index[o.id := |g.objects|])
  }

  function Relate(g: State, r: Relation): State {
    if r.source == "" || r.target == "" || r.source == r.target then g
    else if r.source !in g.index || r.target !in g.index || KeyOf(r) in g.edges then g
    else g.(relations := g.relations + [r], edges := g.edges + {KeyOf(r)})
  }

  function AddAll(g: State, os: seq<Object>): State {
    if os == [] then g else Add(AddAll(g, os[..|os| - 1]), os[|os| - 1])
  }

  function RelateAll(g: State, rs: seq<Relation>): State {
    if rs == [] then g else Relate(RelateAll(g, rs[..|rs| - 1]), rs[|rs| - 1])
  }

  function Merge(g: State, h: State): State {
    RelateAll(AddAll(g, h.objects), h.relations)
  }

  datatype Filters = Filters(kinds: set<string>, minRisk: string, quantumOnly: bool, pqcStatus: set<string>,
                             source: string)

  function RiskOrder(risk: string): nat {
    var r := Upper(risk);
    if r == "CRITICAL" then 4 else if r == "HIGH" then 3 else if r == "MEDIUM" then 2 else if r == "LOW" then 1 else 0
  }

  predicate Keeps(f: Filters, o: Object) {
    && (f.kinds != {} ==> o.kind in f.kinds)
    && (f.source != "" ==> o.source == f.source)
    && (f.quantumOnly ==> Upper(o.quantumRisk) != "")
    && (f.minRisk != "" && RiskOrder(f.minRisk) > 0 ==> RiskOrder(o.risk) >= RiskOrder(f.minRisk))
    && (f.pqcStatus != {} ==> o.pqcStatus in f.pqcStatus)
  }

  function Kept(f: Filters, os: seq<Object>): seq<Object> {
    if os == [] then [] else Kept(f, os[..|os| - 1]) + (if Keeps(f, os[|os| - 1]) then [os[|os| - 1]] else [])
  }

  function View(g: State, f: Filters): State {
    RelateAll(AddAll(EMPTY, Kept(f, g.objects)), g.relations)
  }

  // ---------- the class ----------

  class Graph {
    var objects: seq<Object>
    var relations: seq<Relation>
    var index: map<string, nat>
    var edges: set<string>

    function Value(): State
      reads this
    {
      State(objects, relations, index, edges)
    }

    constructor ()
      ensures Value() == EMPTY
    {
      objects, relations, index, edges := [], [], map[], {};
    }

    method AddObject(o: Object)
      requires IndexExact(Value())
      modifies this
      ensures Value() == Add(old(Value()), o)
    {
      hide Trim;
      if Trim(o.id) == "" { return; }
      if o.id in index {
        objects := objects[index[o.id] := o];
        return;
      }
      index := index[o.id := |objects|];
      objects := objects + [o];
    }

    method Get(id: string) returns (r: Option<Object>)
      requires IndexExact(Value())
      ensures r == Lookup(Value(), id)
    {
      r := if id in index then Some(objects[index[id]]) else None;
    }

    method RelateObjects(r: Relation)
      modifies this
      ensures Value() == Relate(old(Value()), r)
    {
      hide KeyOf;
      if r.source == "" || r.target == "" || r.source == r.target { return; }
      if r.source !in index { return; }
      if r.target !in index { return; }
      if KeyOf(r) in edges { return; }
      edges := edges + {KeyOf(r)};
      relations := relations + [r];
    }

    method MergeFrom(other: Graph)
      requires IndexExact(Value())
      modifies this
      ensures IndexExact(Value()) && Value() == Merge(old(Value()), old(other.Value()))
    {
      hide Add, Relate, IndexExact;
      var os, rs := other.objects, other.relations;
      for i := 0 to |os|
        invariant IndexExact(Value()) && Value() == AddAll(old(Value()), os[..i])
        invariant other != this ==> other.Value() == old(other.Value())
      {
        assert os[..i + 1][..i] == os[..i];
        AddKeepsIndex(Value(), os[i]);
        AddObject(os[i]);
      }
      assert os[..|os|] == os;
      RelateEach(rs);
    }

    /** The second loop of Merge and of View. */
    method RelateEach(rs: seq<Relation>)
      requires IndexExact(Value())
      modifies this
      ensures IndexExact(Value()) && Value() == RelateAll(old(Value()), rs)
    {
      hide Relate, IndexExact;
      for i := 0 to |rs|
        invariant IndexExact(Value()) && Value() == RelateAll(old(Value()), rs[..i])
      {
        assert rs[..i + 1][..i] == rs[..i];
        RelateKeepsIndex(Value(), rs[i]);
        RelateObjects(rs[i]);
      }
      assert rs[..|rs|] == rs;
    }

    method ViewOf(f: Filters) returns (out: Graph)
      ensures fresh(out) && out.Value() == View(Value(), f) && IndexExact(out.Value())
    {
      hide Add, Relate, AddAll, Kept, RelateAll, Keeps, IndexExact;
      EmptyIsExact();
      KeptNone(f);
      out := new Graph();
      var os, rs := objects, relations;
      for i := 0 to |os|
        invariant fresh(out) && IndexExact(out.Value()) && out.Value() == AddAll(EMPTY, Kept(f, os[..i]))
      {
        KeptNext(f, os[..i], os[i]);
        assert os[..i + 1] == os[..i] + [os[i]];
        if Keeps(f, os[i]) {
          AddAllNext(Kept(f, os[..i]), os[i]);
          AddKeepsIndex(out.Value(), os[i]);
          out.AddObject(os[i]);
        }
      }
      assert os[..|os|] == os;
      out.RelateEach(rs);
    }
  }

  lemma KeptNone(f: Filters)
    ensures AddAll(EMPTY, Kept(f, [])) == EMPTY
  {
  }

  lemma AddAllNext(os: seq<Object>, o: Object)
    ensures AddAll(EMPTY, os + [o]) == Add(AddAll(EMPTY, os), o)
  {
    hide Add;
    assert (os + [o])[..|os|] == os;
  }

  // ---------- agreement of the parts ----------

  /** Every object stands where the index says, under its own id, and no id is blank. */
  predicate IndexExact(g: State) {
    && (forall id | id in g.index :: g.index[id] < |g.objects| && g.objects[g.index[id]].id == id)
    && (forall i | 0 <= i < |g.objects| :: g.objects[i].id in g.index && g.index[g.objects[i].id] == i)
    && (forall i | 0 <= i < |g.objects| :: Trim(g.objects[i].id) != "")
  }

  /** Edges join two different stored objects, and the edge set holds exactly their keys, each once. */
  ghost predicate EdgesExact(g: State) {
    && (forall r | r in g.relations :: r.source in g.index && r.target in g.index && r.source != r.target)
    && (forall i, j | 0 <= i < j < |g.relations| :: KeyOf(g.relations[i]) != KeyOf(g.relations[j]))
    && g.edges == set r | r in g.relations :: KeyOf(r)
  }

  ghost predicate Valid(g: State) {
    IndexExact(g) && EdgesExact(g)
  }

  function Lookup(g: State, id: string): Option<Object>
    requires IndexExact(g)
  {
    if id in g.index then Some(g.objects[g.index[id]]) else None
  }

  lemma AddKeepsIndex(g: State, o: Object)
    requires IndexExact(g)
    ensures IndexExact(Add(g, o))
  {
    hide Trim;
  }

  lemma RelateKeepsIndex(g: State, r: Relation)
    requires IndexExact(g)
    ensures IndexExact(Relate(g, r))
  {
    hide Trim, KeyOf;
  }

  lemma AddKeepsEdges(g: State, o: Object)
    requires EdgesExact(g)
    ensures EdgesExact(Add(g, o))
  {
    hide Trim, KeyOf;
  }

  lemma RelateKeepsEdges(g: State, r: Relation)
    requires EdgesExact(g)
    ensures EdgesExact(Relate(g, r))
  {
    hide KeyOf;
    var g' := Relate(g, r);
    if g' != g {
      assert forall i | 0 <= i < |g.relations| :: KeyOf(g.relations[i]) in g.edges;
      assert forall q :: q in g'.relations <==> q in g.relations || q == r;
    }
  }

  lemma {:induction false} AddAllKeepsValid(g: State, os: seq<Object>)
    requires Valid(g)
    ensures Valid(AddAll(g, os))
  {
    hide Add, IndexExact, EdgesExact;
    if os != [] {
      AddAllKeepsValid(g, os[..|os| - 1]);
      AddKeepsIndex(AddAll(g, os[..|os| - 1]), os[|os| - 1]);
      AddKeepsEdges(AddAll(g, os[..|os| - 1]), os[|os| - 1]);
    }
  }

  lemma {:induction false} RelateAllKeepsValid(g: State, rs: seq<Relation>)
    requires Valid(g)
    ensures Valid(RelateAll(g, rs)) && RelateAll(g, rs).index == g.index && RelateAll(g, rs).objects == g.objects
  {
    hide IndexExact, EdgesExact, KeyOf;
    if rs != [] {
      RelateAllKeepsValid(g, rs[..|rs| - 1]);
      RelateKeepsIndex(RelateAll(g, rs[..|rs| - 1]), rs[|rs| - 1]);
      RelateKeepsEdges(RelateAll(g, rs[..|rs| - 1]), rs[|rs| - 1]);
    }
  }

  /** A history of updates; the graph merged in may be any other state. */
  datatype Op = OpAdd(o: Object) | OpRelate(r: Relation) | OpMerge(other: State)

  function Do(g: State, op: Op): State {
    match op
    case OpAdd(o) => Add(g, o)
    case OpRelate(r) => Relate(g, r)
    case OpMerge(other) => Merge(g, other)
  }

  function After(ops: seq<Op>): State {
    if ops == [] then EMPTY else Do(After(ops[..|ops| - 1]), ops[|ops| - 1])
  }

  /** Every sequence of Add, Relate and Merge keeps index, edge set and slices in agreement. */
  lemma {:induction false} HistoriesStayValid(ops: seq<Op>)
    ensures Valid(After(ops))
  {
    hide Add, Relate, IndexExact, EdgesExact;
    if ops == [] {
      EmptyIsValid();
    } else {
      var g := After(ops[..|ops| - 1]);
      HistoriesStayValid(ops[..|ops| - 1]);
      match ops[|ops| - 1] {
        case OpAdd(o) => AddKeepsIndex(g, o); AddKeepsEdges(g, o);
        case OpRelate(r) => RelateKeepsIndex(g, r); RelateKeepsEdges(g, r);
        case OpMerge(other) => MergeKeepsValid(g, other);
      }
    }
  }

  lemma EmptyIsValid()
    ensures Valid(EMPTY)
  {
  }

  lemma MergeKeepsValid(g: State, h: State)
    requires Valid(g)
    ensures Valid(Merge(g, h))
  {
    AddAllKeepsValid(g, h.objects);
    RelateAllKeepsValid(AddAll(g, h.objects), h.relations);
  }

  /** Adding changes exactly one lookup. */
  lemma AddThenLookup(g: State, o: Object, id: string)
    requires IndexExact(g) && Trim(o.id) != ""
    ensures IndexExact(Add(g, o)) && Lookup(Add(g, o), id) == if id == o.id then Some(o) else Lookup(g, id)
  {
    AddKeepsIndex(g, o);
    hide Trim;
  }

  // ---------- views ----------

  predicate HasId(os: seq<Object>, id: string) {
    exists i :: 0 <= i < |os| && os[i].id == id
  }

  /** The relations whose endpoints are both among `os`. */
  function Inside(os: seq<Object>, rs: seq<Relation>): seq<Relation> {
    if rs == [] then [] else
      var r := rs[|rs| - 1];
      Inside(os, rs[..|rs| - 1]) + (if HasId(os, r.source) && HasId(os, r.target) then [r] else [])
  }

  ghost predicate DistinctIds(os: seq<Object>) {
    forall i, j | 0 <= i < j < |os| :: os[i].id != os[j].id
  }

  lemma AddNew(g: State, o: Object)
    requires IndexExact(g) && Trim(o.id) != "" && !HasId(g.objects, o.id)
    ensures IndexExact(Add(g, o)) && Add(g, o).objects == g.objects + [o]
    ensures Add(g, o).relations == g.relations && Add(g, o).edges == g.edges
  {
    AddKeepsIndex(g, o);
    IndexIsHasId(g, o.id);
    hide Trim;
  }

  lemma {:induction false} AddAllDistinct(os: seq<Object>)
    requires DistinctIds(os) && forall o | o in os :: Trim(o.id) != ""
    ensures IndexExact(AddAll(EMPTY, os)) && AddAll(EMPTY, os).objects == os
    ensures AddAll(EMPTY, os).relations == [] && AddAll(EMPTY, os).edges == {}
  {
    hide Trim, Add, IndexExact;
    if os == [] {
      EmptyIsExact();
    } else {
      var front, last := os[..|os| - 1], os[|os| - 1];
      AddAllDistinct(front);
      AddNew(AddAll(EMPTY, front), last);
      assert front + [last] == os;
    }
  }

  lemma EmptyIsExact()
    ensures IndexExact(EMPTY)
  {
  }

  lemma {:induction false} RelateAllInside(g: State, rs: seq<Relation>)
    requires IndexExact(g) && g.relations == [] && g.edges == {}
    requires forall i, j | 0 <= i < j < |rs| :: KeyOf(rs[i]) != KeyOf(rs[j])
    requires forall r | r in rs :: r.source != "" && r.target != "" && r.source != r.target
    ensures RelateAll(g, rs).relations == Inside(g.objects, rs)
    ensures RelateAll(g, rs).index == g.index && RelateAll(g, rs).objects == g.objects
    ensures RelateAll(g, rs).edges <= set r | r in rs :: KeyOf(r)
  {
    hide KeyOf, IndexExact, HasId, Inside, Relate;
    if rs == [] {
      InsideNothing(g.objects);
    } else {
      var front, last := rs[..|rs| - 1], rs[|rs| - 1];
      RelateAllInside(g, front);
      assert KeyOf(last) !in (set r | r in front :: KeyOf(r));
      IndexIsHasId(g, last.source);
      IndexIsHasId(g, last.target);
      RelateNext(RelateAll(g, front), last);
      InsideNext(g.objects, front, last);
      assert rs == front + [last];
      assert RelateAll(g, rs).relations == Inside(g.objects, rs);
    }
  }

  lemma RelateNext(g: State, r: Relation)
    requires r.source != "" && r.target != "" && r.source != r.target && KeyOf(r) !in g.edges
    requires (r.source in g.index <==> HasId(g.objects, r.source))
              && (r.target in g.index <==> HasId(g.objects, r.target))
    ensures var h := Relate(g, r);
            && h.relations == (if HasId(g.objects, r.source) && HasId(g.objects, r.target) then g.relations + [r]
                               else g.relations)
            && h.index == g.index && h.objects == g.objects && h.edges <= g.edges + {KeyOf(r)}
  {
    hide KeyOf, HasId;
  }

  lemma IndexIsHasId(g: State, id: string)
    requires IndexExact(g)
    ensures id in g.index <==> HasId(g.objects, id)
  {
    hide Trim;
  }

  lemma {:induction false} KeptIsDistinct(f: Filters, os: seq<Object>)
    requires DistinctIds(os)
    ensures DistinctIds(Kept(f, os)) && forall o | o in Kept(f, os) :: o in os
  {
    hide Keeps;
    if os != [] {
      KeptIsDistinct(f, os[..|os| - 1]);
      var front, last := os[..|os| - 1], os[|os| - 1];
      forall i | 0 <= i < |Kept(f, front)| ensures Kept(f, front)[i].id != last.id {
        assert Kept(f, front)[i] in front;
      }
    }
  }

  lemma NonblankIsNonempty(s: string)
    requires Trim(s) != ""
    ensures s != ""
  {
  }

  lemma EndpointsAreNonempty(g: State)
    requires Valid(g)
    ensures forall r | r in g.relations :: r.source != "" && r.target != "" && r.source != r.target
    ensures forall i, j | 0 <= i < j < |g.relations| :: KeyOf(g.relations[i]) != KeyOf(g.relations[j])
  {
    hide KeyOf, Trim;
    forall r | r in g.relations ensures r.source != "" && r.target != "" {
      NonblankIsNonempty(g.objects[g.index[r.source]].id);
      NonblankIsNonempty(g.objects[g.index[r.target]].id);
    }
  }

  lemma KeptObjectsFit(g: State, f: Filters)
    requires IndexExact(g)
    ensures DistinctIds(g.objects) && DistinctIds(Kept(f, g.objects))
    ensures forall o | o in Kept(f, g.objects) :: Trim(o.id) != ""
  {
    hide Keeps, Trim;
    KeptIsDistinct(f, g.objects);
  }

  /** A view is exactly the induced subgraph: the kept objects and the relations among them, in order. */
  lemma ViewIsInduced(g: State, f: Filters)
    requires Valid(g)
    ensures var v := View(g, f);
            v.objects == Kept(f, g.objects) && v.relations == Inside(Kept(f, g.objects), g.relations) && Valid(v)
  {
    hide Kept, KeyOf, Trim, IndexExact, EdgesExact, DistinctIds, AddAll, RelateAll, Inside;
    var os := Kept(f, g.objects);
    KeptObjectsFit(g, f);
    AddAllDistinct(os);
    EndpointsAreNonempty(g);
    EmptyIsValid();
    AddAllKeepsValid(EMPTY, os);
    RelateAllInside(AddAll(EMPTY, os), g.relations);
    RelateAllKeepsValid(AddAll(EMPTY, os), g.relations);
  }

  lemma {:induction false} KeptTwice(f: Filters, h: Filters, os: seq<Object>)
    ensures Kept(f, Kept(h, os)) == Kept(h, Kept(f, os))
    ensures Kept(f, Kept(f, os)) == Kept(f, os)
  {
    hide Keeps;
    if os != [] {
      var front, last := os[..|os| - 1], os[|os| - 1];
      KeptTwice(f, h, front);
      KeptNext(f, front, last);
      KeptNext(h, front, last);
      KeptNext(f, Kept(h, front), last);
      KeptNext(h, Kept(f, front), last);
      KeptNext(f, Kept(f, front), last);
      assert os == front + [last];
    }
  }

  lemma KeptNext(f: Filters, os: seq<Object>, o: Object)
    ensures Kept(f, os + [o]) == if Keeps(f, o) then Kept(f, os) + [o] else Kept(f, os)
  {
    hide Keeps;
    assert (os + [o])[..|os|] == os;
    assert Kept(f, os) + [] == Kept(f, os);
  }

  lemma InsideNothing(os: seq<Object>)
    ensures Inside(os, []) == []
  {
  }

  lemma InsideNext(os: seq<Object>, rs: seq<Relation>, r: Relation)
    ensures Inside(os, rs + [r])
         == if HasId(os, r.source) && HasId(os, r.target) then Inside(os, rs) + [r] else Inside(os, rs)
  {
    assert (rs + [r])[..|rs|] == rs;
    assert Inside(os, rs) + [] == Inside(os, rs);
  }

  /** Restricting to `os` what was already restricted to a larger `ps`. */
  lemma {:induction false} InsideTwice(os: seq<Object>, ps: seq<Object>, rs: seq<Relation>)
    requires forall id | HasId(os, id) :: HasId(ps, id)
    ensures Inside(os, Inside(ps, rs)) == Inside(os, rs)
  {
    hide HasId, Inside;
    if rs == [] {
      InsideNothing(os);
      InsideNothing(ps);
    } else {
      var front, last := rs[..|rs| - 1], rs[|rs| - 1];
      InsideTwice(os, ps, front);
      InsideNext(os, front, last);
      InsideNext(ps, front, last);
      InsideNext(os, Inside(ps, front), last);
      assert rs == front + [last];
      assert Inside(ps, front) + [] == Inside(ps, front) && Inside(os, front) + [] == Inside(os, front);
    }
  }

  lemma KeptIdsAreIds(f: Filters, os: seq<Object>)
    requires DistinctIds(os)
    ensures forall id | HasId(Kept(f, os), id) :: HasId(os, id)
  {
    KeptIsDistinct(f, os);
    forall id | HasId(Kept(f, os), id) ensures HasId(os, id) {
      var i :| 0 <= i < |Kept(f, os)| && Kept(f, os)[i].id == id;
      assert Kept(f, os)[i] in os;
    }
  }

  /** Viewing a view again changes nothing, and two views can be taken in either order. */
  lemma ViewsAreIdempotentAndCommute(g: State, f: Filters, h: Filters)
    requires Valid(g)
    ensures var v, w := View(g, f), View(View(g, f), f); w.objects == v.objects && w.relations == v.relations
    ensures var v, w := View(View(g, f), h), View(View(g, h), f); v.objects == w.objects && v.relations == w.relations
  {
    hide View, IndexExact, Keeps, KeyOf;
    TwoViews(g, f, f);
    TwoViews(g, f, h);
    TwoViews(g, h, f);
    ViewIsInduced(g, f);
    KeptTwice(f, h, g.objects);
  }

  lemma TwoViews(g: State, f: Filters, h: Filters)
    requires Valid(g)
    ensures var w, os := View(View(g, f), h), Kept(h, Kept(f, g.objects));
            w.objects == os && w.relations == Inside(os, g.relations)
  {
    hide View, Keeps, KeyOf, EdgesExact;
    ViewIsInduced(g, f);
    ViewIsInduced(View(g, f), h);
    KeptIsDistinct(f, g.objects);
    KeptIdsAreIds(h, Kept(f, g.objects));
    InsideTwice(Kept(h, Kept(f, g.objects)), Kept(f, g.objects), g.relations);
  }

  // ---------- merging ----------

  /** Without NUL in the ids an edge key determines the edge. */
  lemma EdgeKeysDecide(r: Relation, q: Relation)
    requires '\0' !in r.source && '\0' !in r.target && '\0' !in q.source && '\0' !in q.target
    requires KeyOf(r) == KeyOf(q)
    ensures r.kind == q.kind && r.source == q.source && r.target == q.target
  {
    LastSplitIsUnique(r.kind + ['\0'] + r.source, r.target, q.kind + ['\0'] + q.source, q.target, '\0');
    LastSplitIsUnique(r.kind, r.source, q.kind, q.source, '\0');
  }

  ghost predicate NulFree(g: State) {
    forall id | id in g.index :: '\0' !in id
  }

  predicate HasEdge(g: State, kind: string, source: string, target: string) {
    exists r :: r in g.relations && r.kind == kind && r.source == source && r.target == target
  }

  lemma {:induction false} AddAllLookup(g: State, os: seq<Object>, id: string)
    requires IndexExact(g) && DistinctIds(os) && forall o | o in os :: Trim(o.id) != ""
    ensures IndexExact(AddAll(g, os))
    ensures forall i | 0 <= i < |os| && os[i].id == id :: Lookup(AddAll(g, os), id) == Some(os[i])
    ensures !HasId(os, id) ==> Lookup(AddAll(g, os), id) == Lookup(g, id)
    ensures AddAll(g, os).relations == g.relations && AddAll(g, os).edges == g.edges
  {
    hide Trim;
    if os != [] {
      var front, last := os[..|os| - 1], os[|os| - 1];
      AddAllLookup(g, front, id);
      AddThenLookup(AddAll(g, front), last, id);
      hide IndexExact, Lookup;
      if HasId(front, id) { var i :| 0 <= i < |front| && front[i].id == id; assert os[i].id == id; }
      if last.id == id { assert os[|os| - 1].id == id; }
    }
  }

  lemma {:induction false} RelateAllEdges(g: State, rs: seq<Relation>, kind: string, source: string, target: string)
    requires Valid(g) && NulFree(g)
    requires forall r | r in rs :: r.source in g.index && r.target in g.index && r.source != r.target
                                   && r.source != "" && r.target != ""
    ensures HasEdge(RelateAll(g, rs), kind, source, target) <==>
            || HasEdge(g, kind, source, target)
            || exists r :: r in rs && r.kind == kind && r.source == source && r.target == target
  {
    if rs != [] {
      var front, last := rs[..|rs| - 1], rs[|rs| - 1];
      assert rs == front + [last];
      RelateAllEdges(g, front, kind, source, target);
      RelateAllKeepsValid(g, front);
      RelateEdge(RelateAll(g, front), last, kind, source, target);
    }
  }

  lemma RelateEdge(g: State, r: Relation, kind: string, source: string, target: string)
    requires Valid(g) && NulFree(g)
    requires r.source in g.index && r.target in g.index && r.source != r.target && r.source != "" && r.target != ""
    ensures HasEdge(Relate(g, r), kind, source, target) <==>
            HasEdge(g, kind, source, target) || (r.kind == kind && r.source == source && r.target == target)
  {
    hide KeyOf, Trim;
    if KeyOf(r) in g.edges {
      var q :| q in g.relations && KeyOf(q) == KeyOf(r);
      EdgeKeysDecide(r, q);
    } else {
      assert r in Relate(g, r).relations;
      assert forall q :: q in Relate(g, r).relations <==> q in g.relations || q == r;
    }
  }

  lemma MergedIds(g: State, h: State)
    requires IndexExact(g) && IndexExact(h)
    ensures DistinctIds(h.objects) && forall o | o in h.objects :: Trim(o.id) != ""
    ensures IndexExact(AddAll(g, h.objects))
    ensures forall id: string ::
              (id in AddAll(g, h.objects).index <==> id in g.index || id in h.index)
              && Lookup(AddAll(g, h.objects), id) == if id in h.index then Lookup(h, id) else Lookup(g, id)
    ensures AddAll(g, h.objects).relations == g.relations
  {
    hide Trim, AddAll;
    assert DistinctIds(h.objects);
    AddAllLookup(g, h.objects, "");
    forall id: string
      ensures Lookup(AddAll(g, h.objects), id) == if id in h.index then Lookup(h, id) else Lookup(g, id)
    {
      AddAllLookup(g, h.objects, id);
      IndexIsHasId(h, id);
    }
  }

  /** Merging is union: on objects, where the right-hand graph wins, and on edges. */
  lemma MergeIsUnion(g: State, h: State, id: string, kind: string, source: string, target: string)
    requires Valid(g) && Valid(h) && NulFree(g) && NulFree(h)
    ensures Valid(Merge(g, h))
    ensures Lookup(Merge(g, h), id) == if id in h.index then Lookup(h, id) else Lookup(g, id)
    ensures HasEdge(Merge(g, h), kind, source, target) <==>
            HasEdge(g, kind, source, target) || HasEdge(h, kind, source, target)
  {
    hide KeyOf, Trim, IndexExact, AddAll, RelateAll;
    var both := AddAll(g, h.objects);
    MergeKeepsValid(g, h);
    MergedIds(g, h);
    AddAllKeepsValid(g, h.objects);
    EndpointsAreNonempty(h);
    assert NulFree(both) by {
      forall i | i in both.index ensures '\0' !in i { assert i in g.index || i in h.index; }
    }
    RelateAllKeepsValid(both, h.relations);
    RelateAllEdges(both, h.relations, kind, source, target);
  }

  /** One left end swallows the NUL and the start of the other right end. */
  ghost predicate Overlap(s: string, t: string, s': string, t': string) {
    || (exists m :: s' == s + ['\0'] + m && t == m + ['\0'] + t')
    || (exists m :: s == s' + ['\0'] + m && t' == m + ['\0'] + t)
  }

  /** Two edges of kinds without NUL share a key exactly when they are the same edge or overlap at a NUL. */
  lemma EdgeKeysCollideIff(k: string, s: string, t: string, k': string, s': string, t': string)
    requires '\0' !in k && '\0' !in k'
    ensures EdgeKey(k, s, t) == EdgeKey(k', s', t') <==>
            k == k' && ((s == s' && t == t') || Overlap(s, t, s', t'))
  {
    var nul := ['\0'];
    assert EdgeKey(k, s, t) == k + nul + (s + nul + t) && EdgeKey(k', s', t') == k' + nul + (s' + nul + t');
    if EdgeKey(k, s, t) == EdgeKey(k', s', t') {
      FirstSplitIsUnique(k, s + nul + t, k', s' + nul + t', '\0');
    }
    JoinsCollideIff(s, t, s', t', '\0');
  }

  ghost predicate KindsNulFree(g: State) {
    forall r | r in g.relations :: '\0' !in r.kind
  }

  /** Relating two different stored objects adds nothing exactly when the edge is there already, or an edge of its kind
      overlaps it at a NUL. */
  lemma RelateAddsNothingIff(g: State, r: Relation)
    requires Valid(g) && KindsNulFree(g) && '\0' !in r.kind
    requires r.source in g.index && r.target in g.index && r.source != r.target
    ensures Relate(g, r) == g <==>
              || HasEdge(g, r.kind, r.source, r.target)
              || exists q :: q in g.relations && q.kind == r.kind && Overlap(q.source, q.target, r.source, r.target)
  {
    NonblankIsNonempty(g.objects[g.index[r.source]].id);
    NonblankIsNonempty(g.objects[g.index[r.target]].id);
    hide Trim, KeyOf, Overlap, IndexExact;
    forall q | q in g.relations
      ensures KeyOf(q) == KeyOf(r) <==>
              q.kind == r.kind && ((q.source == r.source && q.target == r.target)
                                   || Overlap(q.source, q.target, r.source, r.target))
    {
      KeysCollideIff(q, r);
    }
    assert Relate(g, r) == g <==> KeyOf(r) in g.edges by {
      if KeyOf(r) !in g.edges { assert KeyOf(r) in Relate(g, r).edges; }
    }
  }

  lemma KeysCollideIff(q: Relation, r: Relation)
    requires '\0' !in q.kind && '\0' !in r.kind
    ensures KeyOf(q) == KeyOf(r) <==>
            q.kind == r.kind && ((q.source == r.source && q.target == r.target)
                                 || Overlap(q.source, q.target, r.source, r.target))
  {
    EdgeKeysCollideIff(q.kind, q.source, q.target, r.kind, r.source, r.target);
  }

  function Plain(id: string): Object {
    Object(id, "", "", "", "", "", "")
  }

  const NUL_HISTORY: seq<Op> := [
    OpAdd(Plain("a\0b")), OpAdd(Plain("c")), OpAdd(Plain("a")), OpAdd(Plain("b\0c")),
    OpRelate(Relation("a\0b", "c", "uses", "")), OpRelate(Relation("a", "b\0c", "uses", ""))]

  lemma AfterNext(ops: seq<Op>, op: Op)
    ensures After(ops + [op]) == Do(After(ops), op)
  {
    assert (ops + [op])[..|ops|] == ops;
  }

  lemma AddedIds(g: State, id: string)
    requires Trim(id) != "" && id !in g.index
    ensures Add(g, Plain(id)).index == g.index[id := |g.objects|]
    ensures Add(g, Plain(id)).relations == g.relations && Add(g, Plain(id)).edges == g.edges
  {
  }

  lemma LetterEndsTrim(s: string)
    requires s != "" && !IsSpace(s[0]) && !IsSpace(s[|s| - 1])
    ensures Trim(s) == s
  {
  }

  /** A history in which the last edge is dropped although its ends are stored and no such edge is. */
  lemma NulMayHideAnEdge()
    ensures var g := After(NUL_HISTORY);
            && g == After(NUL_HISTORY[..5])
            && "a" in g.index && "b\0c" in g.index
            && !HasEdge(g, "uses", "a", "b\0c")
  {
    hide Trim, Add, Relate;
    var h := NUL_HISTORY;
    var g4 := After(h[..4]);
    FourObjects();
    var first, second := Relation("a\0b", "c", "uses", ""), Relation("a", "b\0c", "uses", "");
    assert h[..5] == h[..4] + [OpRelate(first)] && h == h[..5] + [OpRelate(second)];
    AfterNext(h[..4], OpRelate(first));
    AfterNext(h[..5], OpRelate(second));
    OverlappingEdges(g4, first, second);
  }

  lemma OverlappingEdges(g: State, first: Relation, second: Relation)
    requires first == Relation("a\0b", "c", "uses", "") && second == Relation("a", "b\0c", "uses", "")
    requires g.index.Keys == {"a\0b", "c", "a", "b\0c"} && g.relations == [] && g.edges == {}
    ensures var g' := Relate(g, first);
            Relate(g', second) == g' && g'.index == g.index && !HasEdge(g', "uses", "a", "b\0c")
  {
    assert "a\0b"[0] == 'a' && |"a\0b"| == 3 && |"c"| == 1 && |"a"| == 1;
    assert EdgeKey("uses", "a\0b", "c") == "uses\0a\0b\0c" == EdgeKey("uses", "a", "b\0c");
    assert [] + [first] == [first];
  }

  lemma FourObjects()
    ensures var g := After(NUL_HISTORY[..4]);
            g.index.Keys == {"a\0b", "c", "a", "b\0c"} && g.relations == [] && g.edges == {}
  {
    LetterEndsTrim("a\0b");
    LetterEndsTrim("c");
    LetterEndsTrim("a");
    LetterEndsTrim("b\0c");
    hide Trim, Add;
    var h := NUL_HISTORY;
    assert |"a\0b"| == 3 && |"b\0c"| == 3 && |"a"| == 1 && |"c"| == 1 && "a\0b"[0] == 'a' && "b\0c"[0] == 'b';
    assert h[..0] == [] && h[..1] == [] + [h[0]] && h[..2] == h[..1] + [h[1]];
    assert h[..3] == h[..2] + [h[2]] && h[..4] == h[..3] + [h[3]];
    AfterNext([], h[0]);
    AfterNext(h[..1], h[1]);
    AfterNext(h[..2], h[2]);
    AfterNext(h[..3], h[3]);
    AddedIds(After([]), "a\0b");
    AddedIds(After(h[..1]), "c");
    AddedIds(After(h[..2]), "a");
    AddedIds(After(h[..3]), "b\0c");
  }
}
