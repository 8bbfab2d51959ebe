/** The configuration tree as it is built: nodes linked by `next`, `first_child` and `parent`,
    and two cursors moved through them. Each method does what its function in `ConfigModel`
    says, and leaves the pointers in the shape of a forest.
 */
module ConfigTree {
  import opened ConfigModel
  import opened ConfigProofs

  class Directive {
    const line: Line   // `directive` and `args`
    var next: Directive?
    var firstChild: Directive?
    var parent: Directive?
    var last: Directive?

    constructor (line: Line)
      ensures this.line == line && next == null && firstChild == null && parent == null && last == null
    {
      this.line := line;
      next, firstChild, parent, last := null, null, null, null;
    }
  }

  /** The forest the pointers stand for: the open sections, outermost first; for each of them and
      for the top level, the finished nodes in it; the children of every finished node and the tree
      under it; and the builder's place. */
  datatype Shape = Shape(levels: seq<seq<Directive>>, stack: seq<Directive>,
                         kids: map<Directive, seq<Directive>>, val: map<Directive, Tree>, z: Zip)
  {
    ghost predicate Fits() {
      |levels| == |stack| + 1 == |z.open| + 1
    }

    function Trees(i: nat): seq<Tree>
      requires i <= |z.open|
    {
      if i == 0 then z.top else z.open[i - 1].kids
    }

    /** All nodes at a level: the finished ones, and the open one behind them. */
    ghost function Full(i: nat): seq<Directive>
      requires Fits() && i <= |stack|
    {
      levels[i] + if i < |stack| then [stack[i]] else []
    }

    ghost function Owner(i: nat): Directive?
      requires i <= |stack|
    {
      if i == 0 then null else stack[i - 1]
    }

    ghost function Nodes(): set<Directive> {
      val.Keys + set x | x in stack
    }
  }

  /** The nodes `list` are finished, with the trees `ts` under them. */
  ghost predicate Stands(list: seq<Directive>, val: map<Directive, Tree>, ts: seq<Tree>) {
    |list| == |ts| && forall i :: 0 <= i < |list| ==> list[i] in val && val[list[i]] == ts[i]
  }

  ghost predicate StandsFor(x: Directive, kids: seq<Directive>, val: map<Directive, Tree>, t: Tree) {
    match t
    case Leaf(text) => x.line == Plain(text) && kids == []
    case Section(name, args, ts) => x.line == Open(name, args) && Stands(kids, val, ts)
  }

  ghost predicate AllStand(kids: map<Directive, seq<Directive>>, val: map<Directive, Tree>) {
    kids.Keys == val.Keys && forall x {:trigger StandsFor(x, kids[x], val, val[x])} :: x in val ==> StandsFor(x, kids[x], val, val[x])
  }

  ghost predicate Shaped(s: Shape) {
    && s.Fits()
    && AllStand(s.kids, s.val)
    && (forall i {:trigger Stands(s.levels[i], s.val, s.Trees(i))} ::
          0 <= i < |s.levels| ==> Stands(s.levels[i], s.val, s.Trees(i)))
    && (forall i :: 0 <= i < |s.stack| ==>
          s.stack[i] !in s.val && s.stack[i].line == Open(s.z.open[i].name, s.z.open[i].args))
    && (forall i, j :: 0 <= i < j < |s.stack| ==> s.stack[i] != s.stack[j])
  }

  ghost function Head(list: seq<Directive>): Directive? {
    if list == [] then null else list[0]
  }

  ghost function Last(list: seq<Directive>): Directive? {
    if list == [] then null else list[|list| - 1]
  }

  /** The pointers of one node, as values. */
  datatype Links = Links(next: Directive?, firstChild: Directive?, parent: Directive?)

  ghost function Following(list: seq<Directive>, i: nat): Directive? {
    if i + 1 < |list| then list[i + 1] else null
  }

  /** `list` is linked by `next`, and `owner` is the parent of all of it. */
  ghost predicate Chain(h: map<Directive, Links>, list: seq<Directive>, owner: Directive?) {
    forall i :: 0 <= i < |list| ==>
      && list[i] in h && h[list[i]].parent == owner
      && h[list[i]].next == Following(list, i)
  }

  ghost predicate ListUnder(h: map<Directive, Links>, list: seq<Directive>, owner: Directive?) {
    Chain(h, list, owner) && (owner != null ==> owner in h && h[owner].firstChild == Head(list))
  }

  /** The pointers of all nodes are those of the shape. */
  ghost predicate Wired(s: Shape, h: map<Directive, Links>) {
    && Shaped(s) && h.Keys == s.Nodes()
    && (forall x {:trigger ListUnder(h, s.kids[x], x)} :: x in s.val ==> ListUnder(h, s.kids[x], x))
    && (forall i {:trigger ListUnder(h, s.Full(i), s.Owner(i))} :: 0 <= i < |s.levels| ==> ListUnder(h, s.Full(i), s.Owner(i)))
  }

  // ----- what the builder does to the shape

  /** Finished nodes `ds`, known by `kids` and `val`, put behind those at the innermost level. */
  ghost function Appended(s: Shape, ds: seq<Directive>, kids: map<Directive, seq<Directive>>,
                          val: map<Directive, Tree>, ts: seq<Tree>): Shape
    requires s.Fits()
  {
    var n := |s.stack|;
    Shape(s.levels[n := s.levels[n] + ds], s.stack, s.kids + kids, s.val + val, s.z.AddAll(ts))
  }

  ghost predicate Extends(val': map<Directive, Tree>, val: map<Directive, Tree>) {
    forall x :: x in val ==> x in val' && val'[x] == val[x]
  }

  lemma StandsGrows(list: seq<Directive>, val: map<Directive, Tree>, val': map<Directive, Tree>, ts: seq<Tree>)
    requires Stands(list, val, ts) && Extends(val', val)
    ensures Stands(list, val', ts)
  {
  }

  lemma StandsJoined(a: seq<Directive>, b: seq<Directive>, val: map<Directive, Tree>, ta: seq<Tree>, tb: seq<Tree>)
    requires Stands(a, val, ta) && Stands(b, val, tb)
    ensures Stands(a + b, val, ta + tb)
  {
  }

  lemma StandsForGrows(x: Directive, kids: seq<Directive>, val: map<Directive, Tree>, val': map<Directive, Tree>, t: Tree)
    requires StandsFor(x, kids, val, t) && Extends(val', val)
    ensures StandsFor(x, kids, val', t)
  {
    if t.Section? {
      StandsGrows(kids, val, val', t.kids);
    }
  }

  lemma AllStandJoined(k1: map<Directive, seq<Directive>>, v1: map<Directive, Tree>,
                       k2: map<Directive, seq<Directive>>, v2: map<Directive, Tree>)
    requires AllStand(k1, v1) && AllStand(k2, v2) && v1.Keys !! v2.Keys
    ensures AllStand(k1 + k2, v1 + v2) && Extends(v1 + v2, v1) && Extends(v1 + v2, v2)
  {
    var v := v1 + v2;
    forall x | x in v ensures StandsFor(x, (k1 + k2)[x], v, v[x]) {
      if x in v2 {
        StandsForGrows(x, k2[x], v2, v, v2[x]);
      } else {
        StandsForGrows(x, k1[x], v1, v, v1[x]);
      }
    }
  }

  lemma LevelsGrow(s: Shape, val': map<Directive, Tree>, i: nat)
    requires Shaped(s) && Extends(val', s.val) && i < |s.levels|
    ensures Stands(s.levels[i], val', s.Trees(i))
  {
    StandsGrows(s.levels[i], s.val, val', s.Trees(i));
  }

  lemma AppendedShaped(s: Shape, ds: seq<Directive>, kids: map<Directive, seq<Directive>>,
                       val: map<Directive, Tree>, ts: seq<Tree>)
    requires Shaped(s) && AllStand(kids, val) && Stands(ds, val, ts)
    requires s.Nodes() !! val.Keys
    ensures Shaped(Appended(s, ds, kids, val, ts))
  {
    var s', n := Appended(s, ds, kids, val, ts), |s.stack|;
    AllStandJoined(s.kids, s.val, kids, val);
    forall i | 0 <= i < |s'.levels| ensures Stands(s'.levels[i], s'.val, s'.Trees(i)) {
      LevelsGrow(s, s'.val, i);
      if i == n {
        StandsGrows(ds, val, s'.val, ts);
        StandsJoined(s.levels[n], ds, s'.val, s.Trees(n), ts);
      }
    }
  }

  ghost function Opened(s: Shape, d: Directive, name: string, args: string): Shape {
    Shape(s.levels + [[]], s.stack + [d], s.kids, s.val, s.z.OpenSection(name, args))
  }

  lemma OpenedShaped(s: Shape, d: Directive, name: string, args: string)
    requires Shaped(s) && d !in s.Nodes() && d.line == Open(name, args)
    ensures Shaped(Opened(s, d, name, args))
  {
    var s' := Opened(s, d, name, args);
    forall i | 0 <= i < |s'.levels| ensures Stands(s'.levels[i], s'.val, s'.Trees(i)) {
      if i < |s.levels| {
        LevelsGrow(s, s.val, i);
      }
    }
  }

  /** The innermost open section is finished; no pointer changes. */
  ghost function Closed(s: Shape): Shape
    requires s.Fits() && s.stack != []
  {
    var n := |s.stack| - 1;
    var d, f := s.stack[n], s.z.open[n];
    Shape(s.levels[..n] + [s.levels[n] + [d]], s.stack[..n], s.kids[d := s.levels[n + 1]],
          s.val[d := Section(f.name, f.args, f.kids)], s.z.CloseSection())
  }

  lemma ClosedShaped(s: Shape)
    requires Shaped(s) && s.stack != []
    ensures Shaped(Closed(s)) && Closed(s).Nodes() == s.Nodes()
  {
    var s' := Closed(s);
    ClosedAllStand(s);
    forall i | 0 <= i < |s'.levels| ensures Stands(s'.levels[i], s'.val, s'.Trees(i)) {
      ClosedLevelStands(s, i);
    }
  }

  lemma ClosedLevelStands(s: Shape, i: nat)
    requires Shaped(s) && s.stack != [] && i < |s.stack|
    ensures Stands(Closed(s).levels[i], Closed(s).val, Closed(s).Trees(i))
  {
    var s', n := Closed(s), |s.stack| - 1;
    var d, f := s.stack[n], s.z.open[n];
    assert Extends(s'.val, s.val);
    LevelsGrow(s, s'.val, i);
    if i == n {
      StandsJoined(s.levels[n], [d], s'.val, s.Trees(n), [Section(f.name, f.args, f.kids)]);
    }
  }

  lemma ClosedAllStand(s: Shape)
    requires Shaped(s) && s.stack != []
    ensures AllStand(Closed(s).kids, Closed(s).val)
  {
    var s', n := Closed(s), |s.stack| - 1;
    var d := s.stack[n];
    LevelsGrow(s, s'.val, n + 1);
    forall x | x in s'.val ensures StandsFor(x, s'.kids[x], s'.val, s'.val[x]) {
      if x != d {
        StandsForGrows(x, s.kids[x], s.val, s'.val, s.val[x]);
      }
    }
  }

  lemma ClosedLevels(s: Shape)
    requires s.Fits() && s.stack != []
    ensures var s', n := Closed(s), |s.stack| - 1;
            && s'.Fits() && s.Full(n + 1) == s.levels[n + 1]
            && (forall i :: 0 <= i < |s'.levels| ==> s'.Full(i) == s.Full(i) && s'.Owner(i) == s.Owner(i))
  {
  }

  lemma ClosedWired(s: Shape, h: map<Directive, Links>)
    requires Wired(s, h) && s.stack != []
    ensures Wired(Closed(s), h)
  {
    ClosedShaped(s);
    ClosedLevels(s);
    var s', n := Closed(s), |s.stack| - 1;
    assert ListUnder(h, s.Full(n + 1), s.Owner(n + 1));
    forall i | 0 <= i < |s'.levels| ensures ListUnder(h, s'.Full(i), s'.Owner(i)) {
      assert ListUnder(h, s.Full(i), s.Owner(i));
    }
  }

  /** Every open section finished. */
  ghost function Collapsed(s: Shape): (r: Shape)
    requires s.Fits()
    ensures r.Fits() && r.stack == []
    decreases |s.stack|
  {
    if s.stack == [] then s else Collapsed(Closed(s))
  }

  lemma CollapsedWired(s: Shape, h: map<Directive, Links>)
    requires Wired(s, h)
    ensures var r := Collapsed(s);
            && Wired(r, h) && r.Nodes() == s.Nodes()
            && r.levels[0] == s.Full(0) && r.z.top == s.z.Collapse()
    decreases |s.stack|
  {
    if s.stack != [] {
      ClosedShaped(s);
      ClosedWired(s, h);
      CollapsedWired(Closed(s), h);
      assert Closed(s).Full(0) == s.Full(0);
    } else {
      assert s.Full(0) == s.levels[0];
    }
  }

  /** From `h` to `h'`, only nodes under `own` have got a new `next`, and only `own` a new `firstChild`. */
  ghost predicate TouchedUnder(h: map<Directive, Links>, h': map<Directive, Links>, own: Directive?) {
    forall x :: x in h ==>
      && x in h' && h'[x].parent == h[x].parent
      && (h'[x].next == h[x].next || h[x].parent == own)
      && (h'[x].firstChild == h[x].firstChild || x == own)
  }

  lemma ListKept(h: map<Directive, Links>, h': map<Directive, Links>, own: Directive?, list: seq<Directive>, owner: Directive?)
    requires TouchedUnder(h, h', own) && ListUnder(h, list, owner) && owner != own
    ensures ListUnder(h', list, owner)
  {
  }

  /** What lies elsewhere keeps its pointers. */
  lemma RestKept(s: Shape, h: map<Directive, Links>, h': map<Directive, Links>)
    requires Wired(s, h) && TouchedUnder(h, h', s.Owner(|s.stack|))
    ensures forall x :: x in s.val ==> ListUnder(h', s.kids[x], x)
    ensures forall i :: 0 <= i < |s.stack| ==> ListUnder(h', s.Full(i), s.Owner(i))
  {
    var own := s.Owner(|s.stack|);
    forall x | x in s.val ensures ListUnder(h', s.kids[x], x) {
      ListKept(h, h', own, s.kids[x], x);
    }
    forall i | 0 <= i < |s.stack| ensures ListUnder(h', s.Full(i), s.Owner(i)) {
      ListKept(h, h', own, s.Full(i), s.Owner(i));
    }
  }

  /** The pointers after `ap_add_node` has linked `d` behind `list`, under `own`. */
  ghost function Linked(h: map<Directive, Links>, list: seq<Directive>, own: Directive?, d: Directive): map<Directive, Links>
    requires ListUnder(h, list, own)
  {
    var h0 := if list != [] then h[list[|list| - 1] := h[list[|list| - 1]].(next := d)]
              else if own != null then h[own := h[own].(firstChild := d)] else h;
    h0[d := Links(null, null, own)]
  }

  lemma LinkedAtEnd(h: map<Directive, Links>, list: seq<Directive>, own: Directive?, d: Directive)
    requires ListUnder(h, list, own) && d !in h
    ensures var h' := Linked(h, list, own, d);
            h'.Keys == h.Keys + {d} && TouchedUnder(h, h', own) && ListUnder(h', list + [d], own)
  {
    var h', n := Linked(h, list, own, d), |list|;
    forall i | 0 <= i < n ensures list[i] in h' && h'[list[i]].parent == own && h'[list[i]].next == (list + [d])[i + 1] {
      if i + 1 < n {
        assert h[list[i]].next == Following(list, i) && h[list[n - 1]].next == Following(list, n - 1);
      }
    }
  }

  /** The innermost level as a list. */
  lemma InnermostLevel(s: Shape, h: map<Directive, Links>)
    requires Wired(s, h)
    ensures s.Full(|s.stack|) == s.levels[|s.stack|]
    ensures ListUnder(h, s.levels[|s.stack|], s.Owner(|s.stack|))
  {
    assert ListUnder(h, s.Full(|s.stack|), s.Owner(|s.stack|));
  }

  ghost function AddedLeaf(s: Shape, d: Directive, text: string): Shape
    requires s.Fits()
  {
    Appended(s, [d], map[d := []], map[d := Leaf(text)], [Leaf(text)])
  }

  /** Finished nodes put behind the innermost level, once their pointers are right. */
  lemma AppendedWired(s: Shape, h: map<Directive, Links>, h': map<Directive, Links>, ds: seq<Directive>,
                      kids: map<Directive, seq<Directive>>, val: map<Directive, Tree>, ts: seq<Tree>)
    requires Wired(s, h) && AllStand(kids, val) && Stands(ds, val, ts) && s.Nodes() !! val.Keys
    requires TouchedUnder(h, h', s.Owner(|s.stack|)) && h'.Keys == h.Keys + val.Keys
    requires ListUnder(h', s.levels[|s.stack|] + ds, s.Owner(|s.stack|))
    requires forall x :: x in val ==> ListUnder(h', kids[x], x)
    ensures Wired(Appended(s, ds, kids, val, ts), h')
  {
    var s' := Appended(s, ds, kids, val, ts);
    AppendedShaped(s, ds, kids, val, ts);
    RestKept(s, h, h');
    LevelsAppended(s, ds, kids, val, ts);
    forall x | x in s'.val ensures ListUnder(h', s'.kids[x], x) {
      if x !in val {
        assert x in s.val && s'.kids[x] == s.kids[x];
      }
    }
    forall i | 0 <= i < |s'.levels| ensures ListUnder(h', s'.Full(i), s'.Owner(i)) {
    }
  }

  lemma LeafStands(d: Directive, text: string)
    requires d.line == Plain(text)
    ensures var kids: map<Directive, seq<Directive>>, val := map[d := []], map[d := Leaf(text)];
            kids.Keys == {d} && val.Keys == {d} && AllStand(kids, val) && Stands([d], val, [Leaf(text)])
  {
  }

  lemma AddedLeafWired(s: Shape, h: map<Directive, Links>, d: Directive, text: string)
    requires Wired(s, h) && d !in h && d.line == Plain(text)
    ensures ListUnder(h, s.levels[|s.stack|], s.Owner(|s.stack|))
    ensures Wired(AddedLeaf(s, d, text), Linked(h, s.levels[|s.stack|], s.Owner(|s.stack|), d))
  {
    InnermostLevel(s, h);
    var n := |s.stack|;
    var kids: map<Directive, seq<Directive>>, val := map[d := []], map[d := Leaf(text)];
    LinkedAtEnd(h, s.levels[n], s.Owner(n), d);
    LeafStands(d, text);
    AppendedWired(s, h, Linked(h, s.levels[n], s.Owner(n), d), [d], kids, val, [Leaf(text)]);
  }

  lemma LevelsAppended(s: Shape, ds: seq<Directive>, kids: map<Directive, seq<Directive>>, val: map<Directive, Tree>, ts: seq<Tree>)
    requires s.Fits()
    ensures var s', n := Appended(s, ds, kids, val, ts), |s.stack|;
            && s'.Fits() && s'.Full(n) == s.levels[n] + ds && s'.Owner(n) == s.Owner(n)
            && (forall i :: 0 <= i < n ==> s'.Full(i) == s.Full(i) && s'.Owner(i) == s.Owner(i))
            && s'.Nodes() == s.Nodes() + val.Keys
  {
  }

  lemma LevelsOpened(s: Shape, d: Directive, name: string, args: string)
    requires s.Fits()
    ensures var s', n := Opened(s, d, name, args), |s.stack|;
            && s'.Fits() && s'.Full(n) == s.levels[n] + [d] && s'.Owner(n) == s.Owner(n)
            && s'.Full(n + 1) == [] && s'.Owner(n + 1) == d
            && (forall i :: 0 <= i < n ==> s'.Full(i) == s.Full(i) && s'.Owner(i) == s.Owner(i))
            && s'.Nodes() == s.Nodes() + {d}
  {
    assert forall i :: 0 <= i < |s.stack| ==> (s.stack + [d])[i] == s.stack[i];
  }

  lemma OpenedWith(s: Shape, h: map<Directive, Links>, h': map<Directive, Links>, d: Directive)
    requires Wired(s, h) && d !in h && d.line.Open? && h'.Keys == h.Keys + {d}
    requires TouchedUnder(h, h', s.Owner(|s.stack|)) && h'[d].firstChild == null
    requires ListUnder(h', s.levels[|s.stack|] + [d], s.Owner(|s.stack|))
    ensures Wired(Opened(s, d, d.line.name, d.line.args), h')
  {
    OpenedShaped(s, d, d.line.name, d.line.args);
    RestKept(s, h, h');
    OpenedLevels(s, h', d, d.line.name, d.line.args);
  }

  lemma OpenedLevels(s: Shape, h': map<Directive, Links>, d: Directive, name: string, args: string)
    requires s.Fits() && d in h' && h'[d].firstChild == null
    requires forall i :: 0 <= i < |s.stack| ==> ListUnder(h', s.Full(i), s.Owner(i))
    requires ListUnder(h', s.levels[|s.stack|] + [d], s.Owner(|s.stack|))
    ensures var s' := Opened(s, d, name, args);
            && s'.Fits() && s'.Nodes() == s.Nodes() + {d}
            && forall i :: 0 <= i < |s'.levels| ==> ListUnder(h', s'.Full(i), s'.Owner(i))
  {
    LevelsOpened(s, d, name, args);
    var s', n := Opened(s, d, name, args), |s.stack|;
    assert ListUnder(h', s'.Full(n + 1), s'.Owner(n + 1));
  }

  lemma OpenedWired(s: Shape, h: map<Directive, Links>, d: Directive)
    requires Wired(s, h) && d !in h && d.line.Open?
    ensures ListUnder(h, s.levels[|s.stack|], s.Owner(|s.stack|))
    ensures Wired(Opened(s, d, d.line.name, d.line.args), Linked(h, s.levels[|s.stack|], s.Owner(|s.stack|), d))
  {
    InnermostLevel(s, h);
    var n := |s.stack|;
    LinkedAtEnd(h, s.levels[n], s.Owner(n), d);
    OpenedWith(s, h, Linked(h, s.levels[n], s.Owner(n), d), d);
  }

  lemma EmptyWired()
    ensures Wired(Shape([[]], [], map[], map[], EMPTY), map[])
  {
    var s := Shape([[]], [], map[], map[], EMPTY);
    assert s.Full(0) == [] && s.Nodes() == {} && s.Fits();
    assert Stands(s.levels[0], s.val, s.Trees(0));
    assert Shaped(s);
  }

  // ----- every node is in some list

  ghost predicate AtLevel(s: Shape, x: Directive, i: nat)
    requires s.Fits()
  {
    i <= |s.stack| && x in s.Full(i)
  }

  ghost predicate Under(s: Shape, x: Directive, y: Directive) {
    y in s.kids && x in s.kids[y]
  }

  ghost predicate Placed(s: Shape, x: Directive)
    requires s.Fits()
  {
    (exists i :: AtLevel(s, x, i)) || exists y :: y in s.kids && Under(s, x, y)
  }

  ghost predicate AllPlaced(s: Shape) {
    s.Fits() && forall x {:trigger Placed(s, x)} :: x in s.Nodes() ==> Placed(s, x)
  }

  lemma OpenedPlaced(s: Shape, d: Directive, name: string, args: string)
    requires AllPlaced(s)
    ensures AllPlaced(Opened(s, d, name, args))
  {
    LevelsOpened(s, d, name, args);
    var s', n := Opened(s, d, name, args), |s.stack|;
    assert s.Full(n) == s.levels[n];
    assert AtLevel(s', d, n);
    forall x | x in s.Nodes() ensures Placed(s', x) {
      assert Placed(s, x);
      if i: nat :| AtLevel(s, x, i) {
        assert AtLevel(s', x, i);
      } else {
        var y :| y in s.kids && Under(s, x, y);
        assert Under(s', x, y);
      }
    }
  }

  lemma AppendedPlaced(s: Shape, ds: seq<Directive>, kids: map<Directive, seq<Directive>>, val: map<Directive, Tree>, ts: seq<Tree>)
    requires AllPlaced(s) && kids.Keys == val.Keys && s.kids.Keys !! val.Keys
    requires forall x :: x in val ==> x in ds || exists y :: y in kids && x in kids[y]
    ensures AllPlaced(Appended(s, ds, kids, val, ts))
  {
    LevelsAppended(s, ds, kids, val, ts);
    var s', n := Appended(s, ds, kids, val, ts), |s.stack|;
    assert s.Full(n) == s.levels[n];
    forall x | x in s'.Nodes() ensures Placed(s', x) {
      if x in val {
        if x in ds {
          assert AtLevel(s', x, n);
        } else {
          var y :| y in kids && x in kids[y];
          assert Under(s', x, y);
        }
      } else {
        assert Placed(s, x);
        if i: nat :| AtLevel(s, x, i) {
          assert AtLevel(s', x, i);
        } else {
          var y :| y in s.kids && Under(s, x, y);
          assert Under(s', x, y);
        }
      }
    }
  }

  lemma ClosedPlaced(s: Shape)
    requires Shaped(s) && AllPlaced(s) && s.stack != []
    ensures AllPlaced(Closed(s))
  {
    ClosedShaped(s);
    ClosedLevels(s);
    var s', n := Closed(s), |s.stack| - 1;
    var d := s.stack[n];
    forall x | x in s'.Nodes() ensures Placed(s', x) {
      assert Placed(s, x);
      if i: nat :| AtLevel(s, x, i) {
        if i == n + 1 {
          assert Under(s', x, d);
        } else {
          assert AtLevel(s', x, i);
        }
      } else {
        var y :| y in s.kids && Under(s, x, y);
        assert Under(s', x, y);
      }
    }
  }

  lemma CollapsedPlaced(s: Shape)
    requires Shaped(s) && AllPlaced(s)
    ensures AllPlaced(Collapsed(s))
    decreases |s.stack|
  {
    if s.stack != [] {
      ClosedShaped(s);
      ClosedPlaced(s);
      CollapsedPlaced(Closed(s));
    }
  }

  lemma EmptyBuilt()
    ensures WellBuilt(NOTHING)
  {
    EmptyWired();
    assert NOTHING.s.Nodes() == {};
  }

  lemma AddedLeafIsLast(s: Shape, d: Directive, text: string)
    requires s.Fits()
    ensures var s' := AddedLeaf(s, d, text);
            s'.Fits() && s'.Owner(|s'.stack|) == s.Owner(|s.stack|) && Last(s'.levels[|s'.stack|]) == d
  {
  }

  lemma OpenedIsLast(s: Shape, d: Directive, name: string, args: string)
    requires s.Fits()
    ensures var s' := Opened(s, d, name, args);
            s'.Fits() && s'.Owner(|s'.stack|) == d && Last(s'.levels[|s'.stack|]) == null
  {
  }

  /** From `h` to `h'`, the node `d` has been linked behind `list`, under `own`. */
  ghost predicate LinkedIn(h: map<Directive, Links>, h': map<Directive, Links>, list: seq<Directive>, own: Directive?, d: Directive) {
    && h'.Keys == h.Keys + {d} && h'[d] == Links(null, null, own)
    && forall x {:trigger h'[x]} :: x in h && x != d ==>
         && h'[x].next == (if x == Last(list) then d else h[x].next)
         && h'[x].firstChild == (if list == [] && x == own then d else h[x].firstChild)
         && h'[x].parent == h[x].parent
  }

  lemma LinkedIsLinkedIn(h: map<Directive, Links>, list: seq<Directive>, own: Directive?, d: Directive)
    requires ListUnder(h, list, own) && d !in h
    ensures LinkedIn(h, Linked(h, list, own, d), list, own, d)
  {
  }

  lemma LeafPlaced(s: Shape, d: Directive, text: string)
    requires AllPlaced(s) && d !in s.kids
    ensures AllPlaced(AddedLeaf(s, d, text))
  {
    AppendedPlaced(s, [d], map[d := []], map[d := Leaf(text)], [Leaf(text)]);
  }

  /** What adding the plain node `d` will come to. */
  lemma PlanLeaf(t: Forest, d: Directive) returns (t': Forest, list: seq<Directive>)
    requires d !in t.h && d.line.Plain?
    ensures ListUnder(t.h, list, Parent(t)) && Last(list) == Current(t)
    ensures LinkedIn(t.h, t'.h, list, Parent(t), d)
    ensures Parent(t') == Parent(t) && Current(t') == d
    ensures t'.s.z == t.s.z.AddAll([Leaf(d.line.text)])
    ensures Roots(t') == Roots(t) + if t.s.stack == [] then [d] else []
  {
    var s, h := t.s, t.h;
    InnermostLevel(s, h);
    list := s.levels[|s.stack|];
    LinkedIsLinkedIn(h, list, Parent(t), d);
    AddedLeafWired(s, h, d, d.line.text);
    AddedLeafIsLast(s, d, d.line.text);
    LeafPlaced(s, d, d.line.text);
    LevelsAppended(s, [d], map[d := []], map[d := Leaf(d.line.text)], [Leaf(d.line.text)]);
    t' := Built(AddedLeaf(s, d, d.line.text), Linked(h, list, Parent(t), d));
  }

  /** What opening the section `d` will come to. */
  lemma PlanSection(t: Forest, d: Directive) returns (t': Forest, list: seq<Directive>)
    requires d !in t.h && d.line.Open?
    ensures ListUnder(t.h, list, Parent(t)) && Last(list) == Current(t)
    ensures LinkedIn(t.h, t'.h, list, Parent(t), d)
    ensures Parent(t') == d && Current(t') == null
    ensures t'.s.z == t.s.z.OpenSection(d.line.name, d.line.args)
    ensures Roots(t') == Roots(t) + if t.s.stack == [] then [d] else []
  {
    var s, h := t.s, t.h;
    InnermostLevel(s, h);
    list := s.levels[|s.stack|];
    LinkedIsLinkedIn(h, list, Parent(t), d);
    OpenedWired(s, h, d);
    OpenedIsLast(s, d, d.line.name, d.line.args);
    OpenedPlaced(s, d, d.line.name, d.line.args);
    LevelsOpened(s, d, d.line.name, d.line.args);
    t' := Built(Opened(s, d, d.line.name, d.line.args), Linked(h, list, Parent(t), d));
  }

  lemma Plan(t: Forest, d: Directive, child: bool) returns (t': Forest, list: seq<Directive>)
    requires d !in t.h && if child then d.line.Open? else d.line.Plain?
    ensures ListUnder(t.h, list, Parent(t)) && Last(list) == Current(t)
    ensures LinkedIn(t.h, t'.h, list, Parent(t), d)
    ensures Parent(t') == (if child then d else Parent(t)) && Current(t') == (if child then null else d)
    ensures t'.s.z == if child then t.s.z.OpenSection(d.line.name, d.line.args) else t.s.z.AddAll([Leaf(d.line.text)])
    ensures Roots(t') == Roots(t) + if t.s.stack == [] then [d] else []
  {
    if child {
      t', list := PlanSection(t, d);
    } else {
      t', list := PlanLeaf(t, d);
    }
  }

  /** A shape with pointers that have it. */
  datatype Built = Built(s: Shape, h: map<Directive, Links>)

  ghost predicate WellBuilt(b: Built) {
    Wired(b.s, b.h) && AllPlaced(b.s)
  }

  const NOTHING := Built(Shape([[]], [], map[], map[], EMPTY), map[])

  type Forest = b: Built | WellBuilt(b) ghost witness (EmptyBuilt(); NOTHING)

  ghost predicate Holds(x: Directive, l: Links)
    reads x`next, x`firstChild, x`parent
  {
    x.next == l.next && x.firstChild == l.firstChild && x.parent == l.parent
  }

  /** The values of `h` are in the heap. */
  ghost predicate InHeap(h: map<Directive, Links>)
    reads h.Keys`next, h.Keys`firstChild, h.Keys`parent
  {
    forall x {:trigger h[x]} :: x in h ==> Holds(x, h[x])
  }

  ghost function Parent(t: Forest): Directive? {
    t.s.Owner(|t.s.stack|)
  }

  ghost function Current(t: Forest): Directive? {
    Last(t.s.levels[|t.s.stack|])
  }

  /** The nodes at top level, the open one last if there is one. */
  ghost function Roots(t: Forest): seq<Directive> {
    t.s.Full(0)
  }

  /** `parent` is the innermost open section, and `current` the last finished node in it. */
  ghost predicate At(t: Forest, parent: Directive?, current: Directive?) {
    parent == Parent(t) && current == Current(t)
  }

  // ----- closing a section

  /** What moving up a level comes to. */
  lemma PlanClose(t: Forest) returns (t': Forest)
    requires t.s.stack != []
    ensures t'.h == t.h && t'.s.z == t.s.z.CloseSection()
    ensures Roots(t') == Roots(t)
    ensures Parent(t) != null && Parent(t) in t.h && Current(t') == Parent(t)
    ensures t.h[Parent(t)].parent == Parent(t')
  {
    ClosedWired(t.s, t.h);
    ClosedPlaced(t.s);
    ClosedLevels(t.s);
    var n := |t.s.stack| - 1;
    assert ListUnder(t.h, t.s.Full(n), t.s.Owner(n));
    assert t.s.Full(n)[|t.s.levels[n]|] == t.s.stack[n];
    t' := Built(Closed(t.s), t.h);
  }

  /** Every open section taken to end here. */
  lemma PlanCollapse(t: Forest) returns (t': Forest)
    ensures t'.h == t.h && t'.s.stack == [] && t'.s.z.top == t.s.z.Collapse()
    ensures Roots(t') == Roots(t)
  {
    CollapsedWired(t.s, t.h);
    CollapsedPlaced(t.s);
    t' := Built(Collapsed(t.s), t.h);
    assert t'.s.Full(0) == t'.s.levels[0];
  }

  // ----- splicing in what a section that is run on read holds

  /** The pointers once the list `ds` of `h2` hangs behind `list` of `h`, and the first `k` of `ds` know `own`. */
  ghost function Joined(h: map<Directive, Links>, list: seq<Directive>, own: Directive?,
                        h2: map<Directive, Links>, ds: seq<Directive>, k: nat): map<Directive, Links>
    requires k <= |ds|
  {
    map x | x in h.Keys + h2.Keys ::
      if x in h2 then (if x in ds[..k] then h2[x].(parent := own) else h2[x])
      else if x == Last(list) then h[x].(next := Head(ds))
      else if list == [] && x == own then h[x].(firstChild := Head(ds))
      else h[x]
  }

  lemma JoinedList(h: map<Directive, Links>, list: seq<Directive>, own: Directive?, h2: map<Directive, Links>, ds: seq<Directive>)
    requires ListUnder(h, list, own) && Chain(h2, ds, null) && h.Keys !! h2.Keys
    ensures ListUnder(Joined(h, list, own, h2, ds, |ds|), list + ds, own)
  {
    var h', n := Joined(h, list, own, h2, ds, |ds|), |list|;
    forall i | 0 <= i < |list + ds|
      ensures var x := (list + ds)[i];
              x in h' && h'[x].parent == own && h'[x].next == Following(list + ds, i)
    {
      if i < n {
        assert h[list[i]].next == Following(list, i) && h[list[n - 1]].next == Following(list, n - 1);
      } else {
        assert ds[i - n] in h2 && h2[ds[i - n]].next == Following(ds, i - n);
      }
    }
  }

  lemma JoinedTouched(h: map<Directive, Links>, list: seq<Directive>, own: Directive?, h2: map<Directive, Links>, ds: seq<Directive>)
    requires ListUnder(h, list, own) && h.Keys !! h2.Keys
    ensures TouchedUnder(h, Joined(h, list, own, h2, ds, |ds|), own)
  {
  }

  lemma JoinedInner(h: map<Directive, Links>, list: seq<Directive>, own: Directive?, h2: map<Directive, Links>, ds: seq<Directive>,
                    inner: seq<Directive>, x: Directive)
    requires Chain(h2, ds, null) && ListUnder(h2, inner, x)
    ensures ListUnder(Joined(h, list, own, h2, ds, |ds|), inner, x)
  {
    var h' := Joined(h, list, own, h2, ds, |ds|);
    forall i | 0 <= i < |inner| ensures inner[i] in h' && h'[inner[i]] == h2[inner[i]] {
      assert h2[inner[i]].parent == x;
    }
  }

  /** Where `next` leads from the node in front of `ds[k]`. */
  lemma JoinedNext(h: map<Directive, Links>, list: seq<Directive>, own: Directive?, h2: map<Directive, Links>, ds: seq<Directive>, k: nat)
    requires ListUnder(h, list, own) && Chain(h2, ds, null) && h.Keys !! h2.Keys
    requires k <= |ds| && (k == 0 ==> list != [])
    ensures var h', x := Joined(h, list, own, h2, ds, k), if k == 0 then list[|list| - 1] else ds[k - 1];
            x in h' && h'[x].next == if k < |ds| then ds[k] else null
    ensures k < |ds| ==> ds[k] in h2
  {
    if k > 0 {
      assert ds[k - 1] in h2 && h2[ds[k - 1]].next == Following(ds, k - 1);
    }
  }

  lemma JoinedStep(h: map<Directive, Links>, list: seq<Directive>, own: Directive?, h2: map<Directive, Links>, ds: seq<Directive>, k: nat)
    requires Chain(h2, ds, null) && k < |ds|
    ensures var h', h'' := Joined(h, list, own, h2, ds, k), Joined(h, list, own, h2, ds, k + 1);
            h''.Keys == h'.Keys && ds[k] in h' && h'' == h'[ds[k] := h'[ds[k]].(parent := own)]
  {
    assert ds[..k + 1] == ds[..k] + [ds[k]];
  }

  lemma SplicedInner(s2: Shape, h: map<Directive, Links>, list: seq<Directive>, own: Directive?, h2: map<Directive, Links>, ds: seq<Directive>)
    requires Wired(s2, h2) && Chain(h2, ds, null)
    ensures forall x :: x in s2.val ==> ListUnder(Joined(h, list, own, h2, ds, |ds|), s2.kids[x], x)
  {
    forall x | x in s2.val ensures ListUnder(Joined(h, list, own, h2, ds, |ds|), s2.kids[x], x) {
      JoinedInner(h, list, own, h2, ds, s2.kids[x], x);
    }
  }

  lemma WholeForest(s: Shape, h: map<Directive, Links>)
    requires Wired(s, h) && s.stack == []
    ensures AllStand(s.kids, s.val) && Stands(s.levels[0], s.val, s.z.top) && h.Keys == s.val.Keys
  {
    assert Stands(s.levels[0], s.val, s.Trees(0));
  }

  lemma SplicedWired(s: Shape, h: map<Directive, Links>, s2: Shape, h2: map<Directive, Links>)
    requires Wired(s, h) && Wired(s2, h2) && h.Keys !! h2.Keys && s2.stack == []
    ensures ListUnder(h, s.levels[|s.stack|], s.Owner(|s.stack|)) && Chain(h2, s2.levels[0], null)
    ensures Wired(Appended(s, s2.levels[0], s2.kids, s2.val, s2.z.top),
                  Joined(h, s.levels[|s.stack|], s.Owner(|s.stack|), h2, s2.levels[0], |s2.levels[0]|))
  {
    InnermostLevel(s, h);
    InnermostLevel(s2, h2);
    var list, own, ds := s.levels[|s.stack|], s.Owner(|s.stack|), s2.levels[0];
    var h' := Joined(h, list, own, h2, ds, |ds|);
    JoinedList(h, list, own, h2, ds);
    JoinedTouched(h, list, own, h2, ds);
    SplicedInner(s2, h, list, own, h2, ds);
    WholeForest(s2, h2);
    JoinedKeys(h, list, own, h2, ds);
    AppendedWired(s, h, h', ds, s2.kids, s2.val, s2.z.top);
  }

  lemma SplicedPlaced(s: Shape, h: map<Directive, Links>, s2: Shape, h2: map<Directive, Links>)
    requires Wired(s, h) && Wired(s2, h2) && h.Keys !! h2.Keys && s2.stack == [] && AllPlaced(s) && AllPlaced(s2)
    ensures AllPlaced(Appended(s, s2.levels[0], s2.kids, s2.val, s2.z.top))
  {
    assert s2.Full(0) == s2.levels[0];
    forall x | x in s2.val ensures x in s2.levels[0] || exists y :: y in s2.kids && x in s2.kids[y] {
      assert Placed(s2, x);
      if i: nat :| AtLevel(s2, x, i) {
        assert i == 0;
      } else {
        var y :| y in s2.kids && Under(s2, x, y);
      }
    }
    AppendedPlaced(s, s2.levels[0], s2.kids, s2.val, s2.z.top);
  }

  lemma SplicedPlace(s: Shape, s2: Shape, ds: seq<Directive>, conf: Directive?)
    requires s.Fits()
    ensures var s', n := Appended(s, ds, s2.kids, s2.val, s2.z.top), |s.stack|;
            && s'.Fits() && |s'.stack| == n && s'.Owner(n) == s.Owner(n) && s'.levels[n] == s.levels[n] + ds
            && s'.Full(0) == s.Full(0) + (if n == 0 then ds else [])
            && (conf == Head(s.Full(0)) ==>
                  Head(s'.Full(0)) == if conf != null then conf else if s.levels[n] == [] then Head(ds) else Last(s.levels[n]))
  {
    var s' := Appended(s, ds, s2.kids, s2.val, s2.z.top);
    assert s'.Full(0) == s.Full(0) + if |s.stack| == 0 then ds else [];
  }

  lemma JoinedKeys(h: map<Directive, Links>, list: seq<Directive>, own: Directive?, h2: map<Directive, Links>, ds: seq<Directive>)
    ensures Joined(h, list, own, h2, ds, |ds|).Keys == h.Keys + h2.Keys
  {
  }

  /** What splicing in the forest `t2` will come to. */
  lemma PlanSplice(t: Forest, t2: Forest, conf: Directive?) returns (t': Forest, list: seq<Directive>)
    requires t.h.Keys !! t2.h.Keys && t2.s.stack == []
    ensures ListUnder(t.h, list, Parent(t)) && Last(list) == Current(t) && Chain(t2.h, Roots(t2), null)
    ensures t'.h == Joined(t.h, list, Parent(t), t2.h, Roots(t2), |Roots(t2)|) && t'.h.Keys == t.h.Keys + t2.h.Keys
    ensures conf == Head(Roots(t)) ==> Head(Roots(t')) == if conf != null then conf else if list == [] then Head(Roots(t2)) else Last(list)
    ensures Parent(t') == Parent(t) && Current(t') == Last(list + Roots(t2))
    ensures t'.s.z == t.s.z.AddAll(t2.s.z.top)
    ensures Roots(t') == Roots(t) + if t.s.stack == [] then Roots(t2) else []
  {
    var s, s2, ds := t.s, t2.s, t2.s.levels[0];
    SplicedWired(s, t.h, s2, t2.h);
    NothingYet(t2);
    list := s.levels[|s.stack|];
    SplicedPlace(s, s2, ds, conf);
    JoinedKeys(t.h, list, Parent(t), t2.h, ds);
    SplicedPlaced(s, t.h, s2, t2.h);
    t' := Built(Appended(s, ds, s2.kids, s2.val, s2.z.top), Joined(t.h, list, Parent(t), t2.h, ds, |ds|));
  }

  // ----- walking along the pointers

  /** The parent chain is the stack of open sections. */
  lemma ParentOfOpen(t: Forest, i: nat)
    requires i < |t.s.stack|
    ensures t.s.stack[i] in t.h && t.h[t.s.stack[i]].parent == t.s.Owner(i)
    ensures t.s.stack[i].line == Open(t.s.z.open[i].name, t.s.z.open[i].args)
  {
    assert ListUnder(t.h, t.s.Full(i), t.s.Owner(i));
    assert t.s.Full(i)[|t.s.levels[i]|] == t.s.stack[i];
  }

  lemma RootsChained(t: Forest)
    ensures Chain(t.h, Roots(t), null)
  {
    assert ListUnder(t.h, t.s.Full(0), t.s.Owner(0));
  }

  lemma NothingYet(t: Forest)
    ensures Roots(t) == [] ==> t.s.stack == [] && Parent(t) == null && Current(t) == null
    ensures Parent(t) == null <==> t.s.stack == []
    ensures t.s.stack == [] ==> Roots(t) == t.s.levels[0]
  {
  }

  // ----- every node is reached once

  /** A list from `first_child` of its owner, or the one at top level. */
  ghost predicate ListOf(t: Forest, own: Directive?, list: seq<Directive>) {
    ListUnder(t.h, list, own) && (own == null ==> list == Roots(t))
  }

  lemma {:induction false} ChainUnique(h: map<Directive, Links>, a: seq<Directive>, b: seq<Directive>, own: Directive?)
    requires Chain(h, a, own) && Chain(h, b, own) && Head(a) == Head(b)
    ensures a == b
  {
    if a != [] {
      ChainTail(h, a, own);
      ChainTail(h, b, own);
      ChainUnique(h, a[1..], b[1..], own);
      assert a == [a[0]] + a[1..] && b == [b[0]] + b[1..];
    }
  }

  lemma ChainTail(h: map<Directive, Links>, a: seq<Directive>, own: Directive?)
    requires Chain(h, a, own) && a != []
    ensures Chain(h, a[1..], own) && Head(a[1..]) == h[a[0]].next
  {
    assert h[a[0]].next == Following(a, 0);
    forall i | 0 <= i < |a[1..]| ensures h[a[1..][i]].next == Following(a[1..], i) {
      assert h[a[i + 1]].next == Following(a, i + 1);
    }
  }

  lemma {:induction false} ChainFrom(h: map<Directive, Links>, a: seq<Directive>, own: Directive?, k: nat)
    requires Chain(h, a, own) && k < |a|
    ensures Chain(h, a[k..], own)
  {
    if k > 0 {
      ChainTail(h, a, own);
      ChainFrom(h, a[1..], own, k - 1);
      assert a[1..][k - 1..] == a[k..];
    }
  }

  /** A node is in one list only, under its own parent, and in one place of it. */
  lemma ReachedOnce(t: Forest, own1: Directive?, list1: seq<Directive>, i: nat, own2: Directive?, list2: seq<Directive>, j: nat)
    requires ListOf(t, own1, list1) && ListOf(t, own2, list2)
    requires i < |list1| && j < |list2| && list1[i] == list2[j]
    ensures own1 == own2 == t.h[list1[i]].parent && list1 == list2 && i == j
  {
    assert own1 == own2;
    if own1 != null {
      ChainUnique(t.h, list1, list2, own1);
    }
    ChainFrom(t.h, list1, own1, i);
    ChainFrom(t.h, list1, own1, j);
    ChainUnique(t.h, list1[i..], list1[j..], own1);
  }

  // ----- every node is reached

  function IndexOf(stack: seq<Directive>, x: Directive): (i: nat)
    ensures i <= |stack| && (i < |stack| ==> stack[i] == x) && (x in stack ==> i < |stack|)
  {
    if stack == [] || stack[0] == x then 0 else 1 + IndexOf(stack[1..], x)
  }

  /** The nodes in the section `y`, finished or open. */
  ghost function Below(t: Forest, y: Directive): seq<Directive> {
    if y in t.s.kids then t.s.kids[y]
    else
      var i := IndexOf(t.s.stack, y);
      if i < |t.s.stack| then t.s.Full(i + 1) else []
  }

  /** They are what the pointers lead to from `y`. */
  lemma BelowIsLinked(t: Forest, y: Directive)
    requires y in t.h
    ensures ListOf(t, y, Below(t, y))
  {
    if y in t.s.val {
      assert ListUnder(t.h, t.s.kids[y], y);
    } else {
      OpenIsLinked(t, IndexOf(t.s.stack, y));
    }
  }

  lemma OpenIsLinked(t: Forest, i: nat)
    requires i < |t.s.stack|
    ensures ListUnder(t.h, t.s.Full(i + 1), t.s.stack[i])
  {
    assert ListUnder(t.h, t.s.Full(i + 1), t.s.Owner(i + 1));
  }

  lemma ChildKnowsParent(t: Forest, x: Directive, y: Directive)
    requires y in t.h && x in Below(t, y)
    ensures x in t.h && t.h[x].parent == y
  {
    BelowIsLinked(t, y);
    var i :| 0 <= i < |Below(t, y)| && Below(t, y)[i] == x;
  }

  lemma RootKnowsNone(t: Forest, x: Directive)
    requires x in Roots(t)
    ensures x in t.h && t.h[x].parent == null
  {
    RootsChained(t);
    var i :| 0 <= i < |Roots(t)| && Roots(t)[i] == x;
  }

  /** A way down from `roots`, each step to a node below the one before. */
  ghost predicate IsRoute(roots: seq<Directive>, below: map<Directive, seq<Directive>>, route: seq<Directive>) {
    && route != []
    && var n := |route| - 1;
       if n == 0 then route[0] in roots
       else IsRoute(roots, below, route[..n]) && route[n - 1] in below && route[n] in below[route[n - 1]]
  }

  lemma RouteOn(roots: seq<Directive>, below: map<Directive, seq<Directive>>, route: seq<Directive>, x: Directive)
    requires IsRoute(roots, below, route) && route[|route| - 1] in below && x in below[route[|route| - 1]]
    ensures IsRoute(roots, below, route + [x])
  {
    assert (route + [x])[..|route|] == route;
  }

  /** Parents lead back up. */
  ghost predicate Kin(roots: seq<Directive>, below: map<Directive, seq<Directive>>, h: map<Directive, Links>) {
    && (forall x :: x in roots ==> x in h && h[x].parent == null)
    && forall y :: y in below ==> forall x :: x in below[y] ==> x in h && h[x].parent == y
  }

  lemma {:induction false} RouteUnique(roots: seq<Directive>, below: map<Directive, seq<Directive>>, h: map<Directive, Links>,
                                       a: seq<Directive>, b: seq<Directive>)
    requires Kin(roots, below, h) && IsRoute(roots, below, a) && IsRoute(roots, below, b) && a[|a| - 1] == b[|b| - 1]
    ensures a == b
    decreases |a|
  {
    var m, n := |a| - 1, |b| - 1;
    if m > 0 && n > 0 {
      RouteUnique(roots, below, h, a[..m], b[..n]);
      assert a == a[..m] + [a[m]] && b == b[..n] + [b[n]];
    }
  }

  ghost function AllBelow(t: Forest): map<Directive, seq<Directive>> {
    map y | y in t.h :: Below(t, y)
  }

  lemma ForestIsKin(t: Forest)
    ensures Kin(Roots(t), AllBelow(t), t.h)
  {
    forall x | x in Roots(t) ensures x in t.h && t.h[x].parent == null {
      RootKnowsNone(t, x);
    }
    forall y | y in t.h ensures forall x :: x in Below(t, y) ==> x in t.h && t.h[x].parent == y {
      forall x | x in Below(t, y) ensures x in t.h && t.h[x].parent == y {
        ChildKnowsParent(t, x, y);
      }
    }
  }

  lemma OpenIsBelow(t: Forest, i: nat)
    requires i < |t.s.stack|
    ensures Below(t, t.s.stack[i]) == t.s.Full(i + 1)
  {
    assert IndexOf(t.s.stack, t.s.stack[i]) == i;
  }

  function TreeSize(t: Tree): nat
    decreases t, 1
  {
    match t
    case Leaf(_) => 1
    case Section(_, _, kids) => 1 + SumSizes(kids)
  }

  function SumSizes(ts: seq<Tree>): nat
    decreases ts, 0
  {
    if ts == [] then 0 else TreeSize(ts[0]) + SumSizes(ts[1..])
  }

  lemma {:induction false} PartIsSmaller(ts: seq<Tree>, i: nat)
    requires i < |ts|
    ensures TreeSize(ts[i]) <= SumSizes(ts)
  {
    if i > 0 {
      PartIsSmaller(ts[1..], i - 1);
    }
  }

  /** The finished nodes with more under them. */
  ghost function Larger(t: Forest, x: Directive): set<Directive>
    requires x in t.s.val
  {
    set y | y in t.s.val && TreeSize(t.s.val[y]) > TreeSize(t.s.val[x])
  }

  lemma UpIsLarger(t: Forest, x: Directive, y: Directive)
    requires y in t.s.kids && x in t.s.kids[y]
    ensures x in t.s.val && y in t.s.val && |Larger(t, y)| < |Larger(t, x)|
  {
    NodeStands(t, y);
    var i :| 0 <= i < |t.s.kids[y]| && t.s.kids[y][i] == x;
    PartIsSmaller(t.s.val[y].kids, i);
    assert Larger(t, y) < Larger(t, x) by {
      assert y in Larger(t, x) && y !in Larger(t, y);
    }
    SubsetSmaller(Larger(t, y), Larger(t, x));
  }

  lemma NodeStands(t: Forest, y: Directive)
    requires y in t.s.kids
    ensures y in t.s.val && StandsFor(y, t.s.kids[y], t.s.val, t.s.val[y])
    ensures t.s.kids[y] != [] ==> t.s.val[y].Section?
  {
  }

  lemma SubsetSmaller<T>(a: set<T>, b: set<T>)
    requires a < b
    ensures |a| < |b|
  {
    var rest := b - a;
    assert b == a + rest && rest != {};
  }

  /** How far a node is from the top level, at most. */
  ghost function Rank(t: Forest, x: Directive): nat {
    if x in t.s.val then |t.s.stack| + 1 + |Larger(t, x)| else IndexOf(t.s.stack, x)
  }

  lemma OneUpFromLevel(t: Forest, x: Directive, i: nat) returns (y: Directive?)
    requires x in t.h && AtLevel(t.s, x, i) && (x !in t.s.val ==> i == IndexOf(t.s.stack, x))
    ensures if y == null then x in Roots(t) else y in t.h && x in Below(t, y) && Rank(t, y) < Rank(t, x)
  {
    if i == 0 {
      y := null;
    } else {
      y := t.s.stack[i - 1];
      InSection(t, x, i - 1);
      OpenRank(t, i - 1);
    }
  }

  lemma InSection(t: Forest, x: Directive, i: nat)
    requires i < |t.s.stack| && x in t.s.Full(i + 1)
    ensures t.s.stack[i] in t.h && x in Below(t, t.s.stack[i])
  {
    OpenIsBelow(t, i);
    ParentOfOpen(t, i);
  }

  lemma OpenRank(t: Forest, i: nat)
    requires i < |t.s.stack|
    ensures Rank(t, t.s.stack[i]) == i
  {
    assert IndexOf(t.s.stack, t.s.stack[i]) == i;
  }

  lemma OpenAtLevel(t: Forest, x: Directive)
    requires x in t.h && x !in t.s.val
    ensures IndexOf(t.s.stack, x) < |t.s.stack| && AtLevel(t.s, x, IndexOf(t.s.stack, x))
  {
    var i := IndexOf(t.s.stack, x);
    assert t.s.Full(i)[|t.s.levels[i]|] == x;
  }

  /** Every node is at the top level or below another. */
  lemma OneUp(t: Forest, x: Directive) returns (y: Directive?)
    requires x in t.h
    ensures if y == null then x in Roots(t) else y in t.h && x in Below(t, y) && Rank(t, y) < Rank(t, x)
  {
    if x !in t.s.val {
      OpenAtLevel(t, x);
      y := OneUpFromLevel(t, x, IndexOf(t.s.stack, x));
    } else {
      assert Placed(t.s, x);
      if i: nat :| AtLevel(t.s, x, i) {
        y := OneUpFromLevel(t, x, i);
      } else {
        y :| y in t.s.kids && Under(t.s, x, y);
        UpIsLarger(t, x, y);
      }
    }
  }

  /** There is a way down to every node. */
  lemma {:induction false} RouteTo(t: Forest, x: Directive) returns (route: seq<Directive>)
    requires x in t.h
    ensures IsRoute(Roots(t), AllBelow(t), route) && route[|route| - 1] == x
    decreases Rank(t, x)
  {
    var y := OneUp(t, x);
    if y == null {
      route := [x];
    } else {
      var up := RouteTo(t, y);
      RouteOn(Roots(t), AllBelow(t), up, x);
      route := up + [x];
    }
  }

  /** Every node is reached from the top level, by exactly one way. */
  lemma ReachedExactlyOnce(t: Forest, x: Directive) returns (route: seq<Directive>)
    requires x in t.h
    ensures var roots, below := Roots(t), AllBelow(t);
            && IsRoute(roots, below, route) && route[|route| - 1] == x
            && forall other :: IsRoute(roots, below, other) && other[|other| - 1] == x ==> other == route
  {
    route := RouteTo(t, x);
    ForestIsKin(t);
    var roots, below := Roots(t), AllBelow(t);
    forall other | IsRoute(roots, below, other) && other[|other| - 1] == x ensures other == route {
      RouteUnique(roots, below, t.h, other, route);
    }
  }
}
