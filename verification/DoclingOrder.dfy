/** Reading order of a parsed document: a depth-first walk over possibly cyclic references. */
module DoclingOrder {
  import opened Lists

  /** Identity of a JSON object of the document. */
  type ItemId = nat

  /** What a child entry resolves to; dangling references and non-objects resolve to nothing. */
  datatype Ref = Nothing | To(id: ItemId)

  datatype Item = Item(hasProvenance: bool, children: seq<Ref>)

  type Items = map<ItemId, Item>

  /** The places where a walk starts, in order. */
  datatype Document = Document(items: Items, body: Ref, furniture: Ref,
                               texts: seq<Ref>, tables: seq<Ref>, pictures: seq<Ref>, groups: seq<Ref>)
  {
    function Roots(): seq<Ref> {
      [body, furniture] + texts + tables + pictures + groups
    }
  }

  // ---------------------------------------------------------------- reachability

  predicate IsItem(items: Items, ref: Ref) {
    ref.To? && ref.id in items
  }

  ghost predicate IsChild(items: Items, parent: ItemId, child: ItemId) {
    parent in items && child in items && To(child) in items[parent].children
  }

  ghost predicate IsRoute(items: Items, p: seq<ItemId>) {
    p != [] && p[0] in items && forall i, j :: 0 <= i && j == i + 1 && j < |p| ==> IsChild(items, p[i], p[j])
  }

  ghost predicate IsRouteTo(items: Items, p: seq<ItemId>, from: ItemId, to: ItemId) {
    IsRoute(items, p) && p[0] == from && p[|p| - 1] == to
  }

  ghost predicate Reaches(items: Items, from: ItemId, to: ItemId) {
    exists p :: IsRouteTo(items, p, from, to)
  }

  /** Some entry of `refs` leads to item `to`. */
  ghost predicate AnyReaches(items: Items, refs: seq<Ref>, to: ItemId) {
    exists i :: 0 <= i < |refs| && refs[i].To? && Reaches(items, refs[i].id, to)
  }

  lemma ReachesItself(items: Items, id: ItemId)
    requires id in items
    ensures Reaches(items, id, id)
  {
    assert IsRouteTo(items, [id], id, id);
  }

  lemma ReachesThroughChild(items: Items, parent: ItemId, child: ItemId, to: ItemId)
    requires IsChild(items, parent, child) && Reaches(items, child, to)
    ensures Reaches(items, parent, to)
  {
    var p :| IsRouteTo(items, p, child, to);
    assert IsRouteTo(items, [parent] + p, parent, to);
  }

  ghost predicate IsClosed(items: Items, seen: set<ItemId>) {
    forall a, b :: a in seen && IsChild(items, a, b) ==> b in seen
  }

  lemma {:induction false} ClosedSetKeepsRoutes(items: Items, seen: set<ItemId>, p: seq<ItemId>)
    requires IsClosed(items, seen) && IsRoute(items, p) && p[0] in seen
    ensures p[|p| - 1] in seen
  {
    if |p| > 1 {
      assert IsChild(items, p[0], p[1]);
      ClosedSetKeepsRoutes(items, seen, p[1..]);
    }
  }

  // ---------------------------------------------------------------- the walk

  /** Items met so far, and those with provenance in the order of their first visit. */
  datatype Trace = Trace(seen: set<ItemId>, ordered: seq<ItemId>)

  ghost function Unseen(items: Items, t: Trace): nat {
    |items.Keys - t.seen|
  }

  lemma UnseenShrinks(items: Items, t: Trace, u: Trace)
    requires t.seen <= u.seen
    ensures Unseen(items, u) <= Unseen(items, t)
    ensures (exists id :: id in items && id in u.seen && id !in t.seen) ==> Unseen(items, u) < Unseen(items, t)
  {
    var a, b := items.Keys - u.seen, items.Keys - t.seen;
    SubsetIsSmaller(a, b);
  }

  ghost function Enter(items: Items, id: ItemId, t: Trace): Trace
    requires id in items
  {
    Trace(t.seen + {id}, if items[id].hasProvenance then t.ordered + [id] else t.ordered)
  }

  ghost function Visit(items: Items, ref: Ref, t: Trace): (r: Trace)
    ensures t.seen <= r.seen
    decreases Unseen(items, t), 0
  {
    if IsItem(items, ref) && ref.id !in t.seen then
      UnseenShrinks(items, t, Enter(items, ref.id, t));
      VisitAll(items, items[ref.id].children, Enter(items, ref.id, t))
    else t
  }

  ghost function VisitAll(items: Items, refs: seq<Ref>, t: Trace): (r: Trace)
    ensures t.seen <= r.seen
    decreases Unseen(items, t), |refs| + 1
  {
    if refs == [] then t
    else
      UnseenShrinks(items, t, Visit(items, refs[0], t));
      VisitAll(items, refs[1..], Visit(items, refs[0], t))
  }

  // ---------------------------------------------------------------- what a walk achieves

  /** The order lists each seen item with provenance exactly once. */
  ghost predicate IsConsistent(items: Items, t: Trace) {
    && t.seen <= items.Keys && HasNoDuplicates(t.ordered)
    && forall id :: id in t.ordered <==> id in t.seen && items[id].hasProvenance
  }

  /** Everything found since `t` has all its children among the seen. */
  ghost predicate IsExhausted(items: Items, t: Trace, r: Trace) {
    forall a, b :: a in r.seen && a !in t.seen && IsChild(items, a, b) ==> b in r.seen
  }

  /** From `t`, walking `refs` led to `r`. */
  ghost predicate IsGoodWalk(items: Items, refs: seq<Ref>, t: Trace, r: Trace) {
    && IsConsistent(items, r) && t.seen <= r.seen && t.ordered <= r.ordered && IsExhausted(items, t, r)
    && (forall i :: 0 <= i < |refs| && IsItem(items, refs[i]) ==> refs[i].id in r.seen)
    && (forall id :: id in r.seen && id !in t.seen ==> AnyReaches(items, refs, id))
  }

  lemma {:induction false} VisitIsGood(items: Items, ref: Ref, t: Trace)
    requires IsConsistent(items, t)
    ensures IsGoodWalk(items, [ref], t, Visit(items, ref, t))
    decreases Unseen(items, t), 0
  {
    if IsItem(items, ref) && ref.id !in t.seen {
      var inside, children := Enter(items, ref.id, t), items[ref.id].children;
      var r := Visit(items, ref, t);
      UnseenShrinks(items, t, inside);
      assert IsConsistent(items, inside);
      VisitAllIsGood(items, children, inside);
      forall id | id in r.seen && id !in t.seen
        ensures AnyReaches(items, [ref], id)
      {
        assert [ref][0] == ref;
        if id == ref.id {
          ReachesItself(items, id);
        } else {
          var i :| 0 <= i < |children| && children[i].To? && Reaches(items, children[i].id, id);
          assert IsChild(items, ref.id, children[i].id) by {
            var p :| IsRouteTo(items, p, children[i].id, id);
          }
          ReachesThroughChild(items, ref.id, children[i].id, id);
        }
      }
      assert IsExhausted(items, t, r) by {
        forall a, b | a in r.seen && a !in t.seen && IsChild(items, a, b)
          ensures b in r.seen
        {
          if a == ref.id {
            var i :| 0 <= i < |children| && children[i] == To(b);
          }
        }
      }
    }
  }

  lemma {:induction false} VisitAllIsGood(items: Items, refs: seq<Ref>, t: Trace)
    requires IsConsistent(items, t)
    ensures IsGoodWalk(items, refs, t, VisitAll(items, refs, t))
    decreases Unseen(items, t), |refs| + 1
  {
    if refs != [] {
      var next := Visit(items, refs[0], t);
      UnseenShrinks(items, t, next);
      VisitIsGood(items, refs[0], t);
      VisitAllIsGood(items, refs[1..], next);
      GoodWalksCompose(items, refs, t, next, VisitAll(items, refs, t));
    }
  }

  lemma GoodWalksCompose(items: Items, refs: seq<Ref>, t: Trace, next: Trace, r: Trace)
    requires refs != [] && IsGoodWalk(items, [refs[0]], t, next) && IsGoodWalk(items, refs[1..], next, r)
    ensures IsGoodWalk(items, refs, t, r)
  {
    forall i | 0 <= i < |refs| && IsItem(items, refs[i])
      ensures refs[i].id in r.seen
    {
      if i == 0 {
        assert [refs[0]][0] == refs[0];
      } else {
        assert refs[1..][i - 1] == refs[i];
      }
    }
    forall id | id in r.seen && id !in t.seen
      ensures AnyReaches(items, refs, id)
    {
      if id !in next.seen {
        var i :| 0 <= i < |refs[1..]| && refs[1..][i].To? && Reaches(items, refs[1..][i].id, id);
        assert refs[i + 1] == refs[1..][i];
      } else {
        var i :| 0 <= i < |[refs[0]]| && [refs[0]][i].To? && Reaches(items, [refs[0]][i].id, id);
        assert refs[0].To? && Reaches(items, refs[0].id, id);
      }
    }
  }

  /** The reading order holds exactly the items with provenance that a root reaches, each once. */
  ghost predicate IsReadingOrder(document: Document, ordered: seq<ItemId>) {
    && HasNoDuplicates(ordered)
    && forall id :: id in ordered <==>
         id in document.items && document.items[id].hasProvenance && AnyReaches(document.items, document.Roots(), id)
  }

  lemma WholeWalkIsReadingOrder(document: Document)
    ensures IsReadingOrder(document, VisitAll(document.items, document.Roots(), Trace({}, [])).ordered)
  {
    var items, roots, start := document.items, document.Roots(), Trace({}, []);
    VisitAllIsGood(items, roots, start);
    var r := VisitAll(items, roots, start);
    forall id | AnyReaches(items, roots, id)
      ensures id in r.seen
    {
      var i :| 0 <= i < |roots| && roots[i].To? && Reaches(items, roots[i].id, id);
      var p :| IsRouteTo(items, p, roots[i].id, id);
      ClosedSetKeepsRoutes(items, r.seen, p);
    }
  }

  /** An item not yet seen comes before all it newly leads to. */
  lemma VisitListsSelfFirst(items: Items, id: ItemId, t: Trace)
    requires IsConsistent(items, t) && id in items && id !in t.seen && items[id].hasProvenance
    ensures t.ordered + [id] <= Visit(items, To(id), t).ordered
  {
    UnseenShrinks(items, t, Enter(items, id, t));
    assert IsConsistent(items, Enter(items, id, t));
    VisitAllIsGood(items, items[id].children, Enter(items, id, t));
  }

  // ---------------------------------------------------------------- the code

  class Walker {
    const items: Items
    var seen: set<ItemId>
    var ordered: seq<ItemId>

    constructor (items: Items)
      ensures this.items == items && seen == {} && ordered == []
    {
      this.items := items;
      seen := {};
      ordered := [];
    }

    ghost function State(): Trace
      reads this
    {
      Trace(seen, ordered)
    }

    method Walk(ref: Ref)
      modifies this
      ensures State() == old(Visit(items, ref, State()))
      decreases Unseen(items, State()), 0
    {
      if !ref.To? || ref.id !in items || ref.id in seen {
        return;
      }
      ghost var before := State();
      seen := seen + {ref.id};
      if items[ref.id].hasProvenance {
        ordered := ordered + [ref.id];
      }
      UnseenShrinks(items, before, State());
      WalkAll(items[ref.id].children);
    }

    method WalkAll(refs: seq<Ref>)
      modifies this
      ensures State() == old(VisitAll(items, refs, State()))
      decreases Unseen(items, State()), |refs| + 1
    {
      ghost var before := State();
      for i := 0 to |refs|
        invariant before.seen <= seen
        invariant VisitAll(items, refs[i..], State()) == VisitAll(items, refs, before)
      {
        UnseenShrinks(items, before, State());
        assert refs[i..][1..] == refs[i + 1..];
        Walk(refs[i]);
      }
    }
  }

  lemma RootsInOrder(document: Document, orphans: seq<Ref>)
    requires orphans == document.texts + document.tables + document.pictures + document.groups
    ensures VisitAll(document.items, document.Roots(), Trace({}, []))
         == VisitAll(document.items, orphans,
                     Visit(document.items, document.furniture, Visit(document.items, document.body, Trace({}, []))))
  {
    var roots := document.Roots();
    assert roots == [document.body, document.furniture] + orphans;
    assert roots[0] == document.body && roots[1..][0] == document.furniture && roots[1..][1..] == orphans;
  }

  method ReadingOrder(document: Document) returns (ordered: seq<ItemId>)
    ensures IsReadingOrder(document, ordered)
    ensures ordered == VisitAll(document.items, document.Roots(), Trace({}, [])).ordered
  {
    var walker := new Walker(document.items);
    ghost var start := walker.State();
    walker.Walk(document.body);
    walker.Walk(document.furniture);
    var orphans := document.texts + document.tables + document.pictures + document.groups;
    walker.WalkAll(orphans);
    RootsInOrder(document, orphans);
    WholeWalkIsReadingOrder(document);
    ordered := walker.ordered;
  }
}
