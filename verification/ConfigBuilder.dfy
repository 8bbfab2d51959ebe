/** The builder of the configuration tree, as it moves two cursors through linked nodes. Each
    method does what its function in `ConfigModel` says, and leaves the pointers in the shape
    of a forest.
 */
module ConfigBuilder {
  import opened Sequences
  import opened ConfigModel
  import opened ConfigTree
  import opened ConfigProofs

  // ----- ap_add_node

  /** What `ap_add_node` does to the pointers. */
  method AddNode(parent: Directive?, current: Directive?, toadd: Directive, child: bool,
                 ghost h: map<Directive, Links>, ghost h': map<Directive, Links>, ghost list: seq<Directive>)
      returns (parent': Directive?, current': Directive?)
    requires ListUnder(h, list, parent) && InHeap(h) && current == Last(list)
    requires toadd !in h && Holds(toadd, Links(null, null, null))
    requires LinkedIn(h, h', list, parent, toadd)
    modifies h.Keys`next, h.Keys`firstChild, toadd`parent
    ensures InHeap(h')
    ensures parent' == (if child then toadd else parent) && current' == (if child then null else toadd)
  {
    if current == null {
      if parent != null {
        parent.firstChild := toadd;
        toadd.parent := parent;
      }
      if child {
        return toadd, null;
      }
      return parent, toadd;
    }
    current.next := toadd;
    toadd.parent := parent;
    if child {
      return toadd, null;
    }
    return parent, toadd;
  }

  /** A node added at the builder's place. */
  method AddHere(parent: Directive?, current: Directive?, toadd: Directive, child: bool, ghost t: Forest)
      returns (parent': Directive?, current': Directive?, ghost t': Forest)
    requires InHeap(t.h) && At(t, parent, current)
    requires toadd !in t.h && Holds(toadd, Links(null, null, null))
    requires if child then toadd.line.Open? else toadd.line.Plain?
    modifies t.h.Keys`next, t.h.Keys`firstChild, toadd`parent
    ensures InHeap(t'.h) && t'.h.Keys == t.h.Keys + {toadd}
    ensures At(t', parent', current')
    ensures t'.s.z == if child then t.s.z.OpenSection(toadd.line.name, toadd.line.args)
                      else t.s.z.AddAll([Leaf(toadd.line.text)])
    ensures Roots(t') == Roots(t) + if t.s.stack == [] then [toadd] else []
    ensures parent' == (if child then toadd else parent) && current' == (if child then null else toadd)
  {
    ghost var list;
    t', list := Plan(t, toadd, child);
    parent', current' := AddNode(parent, current, toadd, child, t.h, t'.h, list);
  }

  // ----- ap_build_config_sub

  /** What a section run on read has given, hung behind the current node. */
  method HangBehind(parent: Directive?, current: Directive?, subTree: Directive?,
                    ghost h: map<Directive, Links>, ghost list: seq<Directive>,
                    ghost h2: map<Directive, Links>, ghost ds: seq<Directive>)
      returns (current': Directive?)
    requires InHeap(h) && InHeap(h2) && h.Keys !! h2.Keys
    requires ListUnder(h, list, parent) && Chain(h2, ds, null)
    requires current == Last(list) && subTree == Head(ds)
    modifies h.Keys`next, h.Keys`firstChild, h2.Keys`parent
    ensures current' == if list == [] then subTree else current
    ensures InHeap(Joined(h, list, parent, h2, ds, if list == [] && ds != [] then 1 else 0))
  {
    current' := current;
    if current' != null {
      current'.next := subTree;
    } else {
      current' := subTree;
      if parent != null {
        parent.firstChild := current';
      }
      if current' != null {
        current'.parent := parent;
      }
    }
  }

  method StepAlong(current: Directive, parent: Directive?, ghost h: map<Directive, Links>) returns (current': Directive)
    requires InHeap(h) && current in h && h[current].next != null && h[current].next in h
    modifies h[current].next`parent
    ensures current' == h[current].next
    ensures InHeap(h[current' := h[current'].(parent := parent)])
  {
    current' := current.next;
    current'.parent := parent;
  }

  /** The node in front of `ds[k]`. */
  ghost predicate InFront(x: Directive, list: seq<Directive>, ds: seq<Directive>, k: nat) {
    && k <= |ds| && (k == 0 ==> list != [])
    && x == if k == 0 then list[|list| - 1] else ds[k - 1]
  }

  method WalkOne(parent: Directive?, current: Directive, ghost k: nat,
                 ghost h: map<Directive, Links>, ghost list: seq<Directive>,
                 ghost h2: map<Directive, Links>, ghost ds: seq<Directive>)
      returns (current': Directive)
    requires h.Keys !! h2.Keys && ListUnder(h, list, parent) && Chain(h2, ds, null)
    requires InFront(current, list, ds, k) && InHeap(Joined(h, list, parent, h2, ds, k))
    requires current.next != null
    modifies h2.Keys`parent
    ensures k < |ds| && InFront(current', list, ds, k + 1)
    ensures InHeap(Joined(h, list, parent, h2, ds, k + 1))
  {
    JoinedNext(h, list, parent, h2, ds, k);
    JoinedStep(h, list, parent, h2, ds, k);
    current' := StepAlong(current, parent, Joined(h, list, parent, h2, ds, k));
  }

  /** The walk to the end of what was hung behind, with `parent` set on the way. */
  method WalkToEnd(parent: Directive?, current: Directive,
                   ghost h: map<Directive, Links>, ghost list: seq<Directive>,
                   ghost h2: map<Directive, Links>, ghost ds: seq<Directive>, ghost start: nat)
      returns (current': Directive)
    requires h.Keys !! h2.Keys && ListUnder(h, list, parent) && Chain(h2, ds, null)
    requires InFront(current, list, ds, start) && InHeap(Joined(h, list, parent, h2, ds, start))
    modifies h2.Keys`parent
    ensures current' == Last(list + ds)
    ensures InHeap(Joined(h, list, parent, h2, ds, |ds|))
  {
    ghost var k := start;
    current' := current;
    while current'.next != null
      invariant InFront(current', list, ds, k) && InHeap(Joined(h, list, parent, h2, ds, k))
      decreases |ds| - k
    {
      current' := WalkOne(parent, current', k, h, list, h2, ds);
      k := k + 1;
    }
    JoinedNext(h, list, parent, h2, ds, k);
    assert k == |ds|;
  }

  /** The part of `ap_build_config_sub` that takes in what a section run on read has given. */
  method TakeIn(parent: Directive?, current: Directive?, conftree: Directive?, subTree: Directive?,
                ghost h: map<Directive, Links>, ghost list: seq<Directive>,
                ghost h2: map<Directive, Links>, ghost ds: seq<Directive>, ghost h': map<Directive, Links>)
      returns (current': Directive?, conftree': Directive?)
    requires h' == Joined(h, list, parent, h2, ds, |ds|)
    requires InHeap(h) && InHeap(h2) && h.Keys !! h2.Keys
    requires ListUnder(h, list, parent) && Chain(h2, ds, null)
    requires current == Last(list) && subTree == Head(ds)
    modifies h.Keys`next, h.Keys`firstChild, h2.Keys`parent
    ensures current' == Last(list + ds)
    ensures conftree' == if conftree != null then conftree else if list == [] then subTree else current
    ensures InHeap(h')
  {
    current' := HangBehind(parent, current, subTree, h, list, h2, ds);
    conftree' := conftree;
    if current' != null {
      if conftree' == null {
        conftree' := current';
      }
      current' := WalkToEnd(parent, current', h, list, h2, ds, if list == [] then 1 else 0);
    }
  }

  method Splice(parent: Directive?, current: Directive?, conftree: Directive?, subTree: Directive?, ghost t: Forest, ghost t2: Forest)
      returns (current': Directive?, conftree': Directive?, ghost t': Forest)
    requires InHeap(t.h) && At(t, parent, current) && conftree == Head(Roots(t))
    requires InHeap(t2.h) && t2.s.stack == [] && subTree == Head(Roots(t2))
    requires t.h.Keys !! t2.h.Keys
    modifies t.h.Keys`next, t.h.Keys`firstChild, t2.h.Keys`parent
    ensures InHeap(t'.h) && t'.h.Keys == t.h.Keys + t2.h.Keys
    ensures At(t', parent, current')
    ensures t'.s.z == t.s.z.AddAll(t2.s.z.top)
    ensures Roots(t') == Roots(t) + if t.s.stack == [] then Roots(t2) else []
    ensures conftree' == Head(Roots(t'))
  {
    ghost var list;
    t', list := PlanSplice(t, t2, conftree);
    current', conftree' := TakeIn(parent, current, conftree, subTree, t.h, list, t2.h, Roots(t2), t'.h);
  }

  // ----- reading lines

  datatype Read = EndOfFile | Got(line: Line)

  class ConfigFile {
    var rest: seq<Line>

    /** `ap_varbuf_cfg_getline` on tokenised lines */
    method GetLine() returns (r: Read)
      modifies this`rest
      ensures old(rest) == [] ==> r == EndOfFile && rest == []
      ensures old(rest) != [] ==> r.Got? && old(rest) == [r.line] + rest
    {
      if rest == [] {
        return EndOfFile;
      }
      r := Got(rest[0]);
      rest := rest[1..];
    }
  }

  /** `ap_soak_end_container` */
  method SoakEndContainer(file: ConfigFile, name: string) returns (r: Result<()>)
    modifies file`rest
    ensures r.Ok? ==> Soak(old(file.rest), name) == Ok(file.rest)
    ensures r.Err? ==> Soak(old(file.rest), name) == Err(r.error)
    ensures |file.rest| <= |old(file.rest)|
    decreases |file.rest|
  {
    while true
      invariant |file.rest| <= |old(file.rest)|
      invariant Soak(old(file.rest), name) == Soak(file.rest, name)
      decreases |file.rest|
    {
      var got := file.GetLine();
      match got
      case EndOfFile =>
        return Err(BeforeEnd(name));
      case Got(Close(saw)) =>
        return if SameName(saw, name) then Ok(()) else Err(Expected(name, saw));
      case Got(Open(inner, _)) =>
        r := SoakEndContainer(file, inner);
        if r.Err? { return; }
      case Got(Conditional(inner, _, _)) =>
        r := SoakEndContainer(file, inner);
        if r.Err? { return; }
      case Got(Plain(_)) =>
      case Got(Blank) =>
    }
  }

  // ----- one line

  /** The two cursors and the root. */
  datatype Place = Place(parent: Directive?, current: Directive?, conftree: Directive?)

  /** The root once a line is done: the first node there is. */
  function Root(p: Place): Directive? {
    if p.conftree != null then p.conftree else if p.parent != null then p.parent else p.current
  }

  /** What the root's shortcut names is at top level. */
  ghost predicate LastOnChain(conftree: Directive?, t: Forest)
    reads if conftree == null then {} else {conftree}`last
  {
    conftree != null && conftree.last != null ==> conftree.last in Roots(t)
  }

  ghost predicate Stays(t: Forest, p: Place)
    reads t.h.Keys`next, t.h.Keys`firstChild, t.h.Keys`parent, if Root(p) == null then {} else {Root(p)}`last
  {
    InHeap(t.h) && At(t, p.parent, p.current) && Root(p) == Head(Roots(t)) && LastOnChain(Root(p), t)
  }

  /** A line read; the tree is where it was. */
  method FetchLine(file: ConfigFile, p: Place, ghost t: Forest) returns (got: Read)
    requires Stays(t, p)
    modifies file`rest
    ensures Stays(t, p)
    ensures old(file.rest) == [] ==> got == EndOfFile && file.rest == []
    ensures old(file.rest) != [] ==> got.Got? && old(file.rest) == [got.line] + file.rest
  {
    got := file.GetLine();
  }

  lemma RootAfter(p: Place, p': Place, t: Forest, t': Forest, d: Directive)
    requires p.conftree == Root(p) == Head(Roots(t)) && p.parent == Parent(t)
    requires p' == Place(p.parent, d, p.conftree) || p' == Place(d, null, p.conftree)
    requires Roots(t') == Roots(t) + if t.s.stack == [] then [d] else []
    requires LastOnChain(p.conftree, t) && d.last == null
    ensures Root(p') == Head(Roots(t')) && Roots(t) <= Roots(t')
    ensures LastOnChain(Root(p'), t')
  {
    NothingYet(t);
  }

  method PlaceNode(newdir: Directive, p: Place, ghost t: Forest) returns (p': Place, ghost t': Forest)
    requires newdir.line.Plain? || newdir.line.Open?
    requires newdir !in t.h && Holds(newdir, Links(null, null, null)) && newdir.last == null
    requires Stays(t, p) && p.conftree == Root(p)
    modifies t.h.Keys`next, t.h.Keys`firstChild, newdir`parent
    ensures Stays(t', p') && t'.h.Keys == t.h.Keys + {newdir}
    ensures t'.s.z == if newdir.line.Open? then t.s.z.OpenSection(newdir.line.name, newdir.line.args)
                      else t.s.z.AddAll([Leaf(newdir.line.text)])
    ensures Roots(t) <= Roots(t')
  {
    var parent, current;
    parent, current, t' := AddHere(p.parent, p.current, newdir, newdir.line.Open?, t);
    p' := Place(parent, current, p.conftree);
    RootAfter(p, p', t, t', newdir);
  }

  /** A plain line or the start of a section. */
  method AddLine(line: Line, p: Place, ghost t: Forest) returns (p': Place, ghost t': Forest, ghost added: set<Directive>)
    requires line.Plain? || line.Open?
    requires Stays(t, p) && p.conftree == Root(p)
    modifies t.h.Keys`next, t.h.Keys`firstChild
    ensures Stays(t', p')
    ensures t'.s.z == if line.Open? then t.s.z.OpenSection(line.name, line.args) else t.s.z.AddAll([Leaf(line.text)])
    ensures t'.h.Keys == t.h.Keys + added && fresh(added)
    ensures Roots(t) <= Roots(t')
  {
    var newdir := new Directive(line);
    p', t' := PlaceNode(newdir, p, t);
    added := {newdir};
  }

  /** The end of a section: up a level. */
  method CloseLine(p: Place, ghost t: Forest) returns (p': Place, ghost t': Forest)
    requires Stays(t, p) && p.conftree == Root(p) && p.parent != null
    ensures Stays(t', p') && t'.s.z == t.s.z.CloseSection() && t'.h == t.h
    ensures Roots(t) <= Roots(t')
  {
    NothingYet(t);
    t' := PlanClose(t);
    var current := p.parent;
    p' := Place(current.parent, current, p.conftree);
  }

  /** `ap_build_config_sub`: one line, with what it pulls in when it is run on read. */
  method BuildConfigSub(line: Line, file: ConfigFile, p: Place, ghost t: Forest)
      returns (r: Result<Place>, ghost t': Forest, ghost added: set<Directive>)
    requires Stays(t, p) && p.conftree == Root(p)
    modifies file`rest, t.h.Keys`next, t.h.Keys`firstChild
    ensures r.Err? ==> Sub([line] + old(file.rest), t.s.z) == Err(r.error)
    ensures r.Ok? ==> Sub([line] + old(file.rest), t.s.z) == Ok(Step(t'.s.z, file.rest))
    ensures r.Ok? ==> Stays(t', r.value) && t'.h.Keys == t.h.Keys + added && fresh(added)
    ensures r.Ok? ==> Roots(t) <= Roots(t')
    ensures |file.rest| <= |old(file.rest)|
    decreases |file.rest|, 1
  {
    t', added := t, {};
    NothingYet(t);
    assert ([line] + file.rest)[1..] == file.rest;
    match line {
      case Blank =>
        r := Ok(p);
      case Close(saw) =>
        r := CheckClose(saw, p, t);
        if r.Ok? {
          var p';
          p', t' := CloseLine(p, t);
          r := Ok(p');
        }
      case Conditional(name, _, taken) =>
        SubPulls(line, file.rest, t.s.z);
        ghost var t2;
        r, t', t2 := ConditionalLine(name, taken, file, p, t);
        added := t2.h.Keys;
      case _ =>
        var p';
        p', t', added := AddLine(line, p, t);
        r := Ok(p');
    }
  }

  /** What a section that is run on read pulls in, and the lines behind it. */
  ghost function Pulled(lines: seq<Line>, name: string, taken: bool): Result<Parsed> {
    if taken then
      (match Cont(lines, name, EMPTY)
       case Err(e) => Err(e)
       case Ok(c) => Ok(Parsed(c.forest, c.rest)))
    else
      match Soak(lines, name)
      case Err(e) => Err(e)
      case Ok(rest) => Ok(Parsed([], rest))
  }

  lemma SubPulls(line: Line, rest: seq<Line>, z: Zip)
    requires line.Conditional?
    ensures var m, s := Pulled(rest, line.name, line.taken), Sub([line] + rest, z);
            if m.Ok? then s == Ok(Step(z.AddAll(m.value.forest), m.value.rest)) else s == Err(m.error)
  {
    assert ([line] + rest)[1..] == rest;
    AddNone(z);
  }

  method ConditionalLine(name: string, taken: bool, file: ConfigFile, p: Place, ghost t: Forest)
      returns (r: Result<Place>, ghost t': Forest, ghost t2: Forest)
    requires Stays(t, p) && p.conftree == Root(p)
    modifies file`rest, t.h.Keys`next, t.h.Keys`firstChild
    ensures r.Err? ==> Pulled(old(file.rest), name, taken) == Err(r.error)
    ensures r.Ok? ==> Pulled(old(file.rest), name, taken) == Ok(Parsed(t2.s.z.top, file.rest))
    ensures r.Ok? ==> t'.s.z == t.s.z.AddAll(t2.s.z.top)
    ensures r.Ok? ==> Stays(t', r.value) && t'.h.Keys == t.h.Keys + t2.h.Keys && fresh(t2.h.Keys)
    ensures r.Ok? ==> Roots(t) <= Roots(t')
    ensures |file.rest| <= |old(file.rest)|
    decreases |file.rest|, 0, 3
  {
    var sub;
    sub, t2 := RunOnRead(file, name, taken);
    t' := t;
    if sub.Err? {
      r := Err(sub.error);
    } else {
      var p';
      p', t' := SpliceLine(p, sub.value, t, t2);
      r := Ok(p');
    }
  }

  /** Whether the line that ends a section ends the innermost one. */
  method CheckClose(saw: string, p: Place, ghost t: Forest) returns (r: Result<Place>)
    requires Stays(t, p)
    ensures r.Ok? <==> t.s.z.open != [] && SameName(saw, t.s.z.Innermost())
    ensures r.Err? ==> r.error == if t.s.z.open == [] then NoSectionOpen(saw) else Expected(t.s.z.Innermost(), saw)
    ensures r.Ok? ==> p.parent != null
  {
    NothingYet(t);
    if p.parent == null {
      return Err(NoSectionOpen(saw));
    }
    ParentOfOpen(t, |t.s.stack| - 1);
    if !SameName(saw, p.parent.line.name) {
      return Err(Expected(p.parent.line.name, saw));
    }
    return Ok(p);
  }

  lemma RootSpliced(p: Place, p': Place, t: Forest, t2: Forest, t': Forest)
    requires p.conftree == Root(p) == Head(Roots(t))
    requires At(t', p'.parent, p'.current) && p'.conftree == Head(Roots(t'))
    requires Roots(t') == Roots(t) + if t.s.stack == [] then Roots(t2) else []
    requires LastOnChain(p.conftree, t) && LastOnChain(Head(Roots(t2)), t2)
    ensures Root(p') == Head(Roots(t')) && Roots(t) <= Roots(t')
    ensures LastOnChain(Root(p'), t')
  {
    NothingYet(t);
    NothingYet(t');
  }

  method SpliceLine(p: Place, subTree: Directive?, ghost t: Forest, ghost t2: Forest) returns (p': Place, ghost t': Forest)
    requires Stays(t, p) && p.conftree == Root(p)
    requires InHeap(t2.h) && t2.s.stack == [] && subTree == Head(Roots(t2)) && LastOnChain(subTree, t2) && t.h.Keys !! t2.h.Keys
    modifies t.h.Keys`next, t.h.Keys`firstChild, t2.h.Keys`parent
    ensures Stays(t', p') && t'.h.Keys == t.h.Keys + t2.h.Keys
    ensures t'.s.z == t.s.z.AddAll(t2.s.z.top)
    ensures Roots(t) <= Roots(t')
  {
    var current, conftree;
    current, conftree, t' := Splice(p.parent, p.current, p.conftree, subTree, t, t2);
    p' := Place(p.parent, current, conftree);
    RootSpliced(p, p', t, t2, t');
  }

  /** What the command of a section run on read does: build its lines, or skip them. */
  method RunOnRead(file: ConfigFile, name: string, taken: bool) returns (r: Result<Directive?>, ghost t: Forest)
    modifies file`rest
    ensures |file.rest| <= |old(file.rest)|
    ensures r.Err? ==> Pulled(old(file.rest), name, taken) == Err(r.error)
    ensures r.Ok? ==> InHeap(t.h) && t.s.stack == [] && r.value == Head(Roots(t)) && LastOnChain(r.value, t) && fresh(t.h.Keys)
    ensures r.Ok? ==> Pulled(old(file.rest), name, taken) == Ok(Parsed(t.s.z.top, file.rest))
    decreases |file.rest|, 0, 2
  {
    if taken {
      r, t := BuildContConfig(file, name);
    } else {
      t := Nothing();
      var s := SoakEndContainer(file, name);
      r := if s.Ok? then Ok(null) else Err(s.error);
    }
  }

  ghost function Nothing(): (t: Forest)
    ensures t == NOTHING
  {
    EmptyBuilt();
    NOTHING
  }

  /** A line built in, and the root set if this gave the first node. */
  method LineIn(line: Line, file: ConfigFile, p: Place, ghost t: Forest)
      returns (r: Result<Place>, ghost t': Forest, ghost added: set<Directive>)
    requires Stays(t, p) && p.conftree == Root(p)
    modifies file`rest, t.h.Keys`next, t.h.Keys`firstChild
    ensures r.Err? ==> Sub([line] + old(file.rest), t.s.z) == Err(r.error)
    ensures r.Ok? ==> Sub([line] + old(file.rest), t.s.z) == Ok(Step(t'.s.z, file.rest))
    ensures r.Ok? ==> Stays(t', r.value) && r.value.conftree == Root(r.value)
    ensures r.Ok? ==> t'.h.Keys == t.h.Keys + added && fresh(added) && Roots(t) <= Roots(t')
    ensures |file.rest| <= |old(file.rest)|
    decreases |file.rest|, 2
  {
    r, t', added := BuildConfigSub(line, file, p, t);
    if r.Ok? {
      r := Ok(r.value.(conftree := Root(r.value)));
    }
  }

  lemma ContUnfolds(lines: seq<Line>, name: string, z: Zip)
    ensures lines == [] ==> Cont(lines, name, z) == Ok(Contents(z.Collapse(), [], false))
    ensures EndsSection(lines, name, z) ==> Cont(lines, name, z) == Ok(Contents(z.Collapse(), lines[1..], true))
    ensures lines != [] && !EndsSection(lines, name, z) ==>
              var s := Sub(lines, z); Cont(lines, name, z) == if s.Err? then Err(s.error) else Cont(s.value.rest, name, s.value.z)
  {
  }

  /** One turn of the loop of `ap_build_cont_config`: whether the section has ended, or else the line built in. */
  method ContLine(file: ConfigFile, name: string, p: Place, ghost t: Forest)
      returns (r: Result<Place>, done: bool, ghost t': Forest, ghost added: set<Directive>)
    requires Stays(t, p) && p.conftree == Root(p)
    modifies file`rest, t.h.Keys`next, t.h.Keys`firstChild
    ensures done ==> r == Ok(p) && t' == t && InHeap(t.h)
    ensures done ==> var c := Cont(old(file.rest), name, t.s.z); c.Ok? && c.value.forest == t.s.z.Collapse() && c.value.rest == file.rest
    ensures r.Err? ==> Cont(old(file.rest), name, t.s.z) == Err(r.error)
    ensures r.Ok? && !done ==> Cont(old(file.rest), name, t.s.z) == Cont(file.rest, name, t'.s.z)
    ensures r.Ok? ==> Stays(t', r.value) && r.value.conftree == Root(r.value)
    ensures r.Ok? ==> t'.h.Keys == t.h.Keys + added && fresh(added)
    ensures |file.rest| <= |old(file.rest)| && (done || r.Err? || |file.rest| < |old(file.rest)|)
    decreases |file.rest|, 0, 0
  {
    ghost var lines := file.rest;
    var got := FetchLine(file, p, t);
    NothingYet(t);
    t' := t;
    ContUnfolds(lines, name, t.s.z);
    if got.EndOfFile? || (got.line.Close? && SameName(got.line.name, name) && p.parent == null) {
      return Ok(p), true, t, {};
    }
    done := false;
    r, t', added := LineIn(got.line, file, p, t);
  }

  /** `ap_build_cont_config` */
  method BuildContConfig(file: ConfigFile, name: string) returns (r: Result<Directive?>, ghost t: Forest)
    modifies file`rest
    ensures |file.rest| <= |old(file.rest)|
    ensures r.Err? ==> Pulled(old(file.rest), name, true) == Err(r.error)
    ensures r.Ok? ==> InHeap(t.h) && t.s.stack == [] && r.value == Head(Roots(t)) && LastOnChain(r.value, t) && fresh(t.h.Keys)
    ensures r.Ok? ==> Pulled(old(file.rest), name, true) == Ok(Parsed(t.s.z.top, file.rest))
    decreases |file.rest|, 0, 1
  {
    t := Nothing();
    var p, done := Place(null, null, null), false;
    while !done
      invariant |file.rest| <= |old(file.rest)|
      invariant Stays(t, p) && p.conftree == Root(p) && fresh(t.h.Keys)
      invariant !done ==> Cont(old(file.rest), name, EMPTY) == Cont(file.rest, name, t.s.z)
      invariant done ==> var c := Cont(old(file.rest), name, EMPTY); c.Ok? && c.value.forest == t.s.z.Collapse() && c.value.rest == file.rest
      decreases |file.rest|, !done
    {
      var s;
      ghost var added;
      s, done, t, added := ContLine(file, name, p, t);
      if s.Err? {
        return Err(s.error), t;
      }
      p := s.value;
    }
    r := Ok(p.conftree);
    t := PlanCollapse(t);
  }

  // ----- ap_build_config

  /** From a node of the chain to its end. */
  method ChainEnd(from: Directive, ghost h: map<Directive, Links>, ghost list: seq<Directive>) returns (current: Directive)
    requires InHeap(h) && Chain(h, list, null) && from in list
    ensures current == Last(list)
  {
    ghost var k: nat :| k < |list| && list[k] == from;
    current := from;
    while current.next != null
      invariant k < |list| && current == list[k]
      decreases |list| - k
    {
      current := current.next;
      k := k + 1;
    }
  }

  /** Where the next file is to be appended, with the shortcut brought up to date. */
  method FindLast(conftree: Directive, ghost t: Forest) returns (current: Directive)
    requires InHeap(t.h) && conftree == Head(Roots(t)) && LastOnChain(conftree, t)
    modifies conftree`last
    ensures current == Last(Roots(t)) && conftree.last == current && LastOnChain(conftree, t)
  {
    RootsChained(t);
    current := conftree;
    if conftree.last != null {
      current := conftree.last;
    }
    current := ChainEnd(current, t.h, Roots(t));
    conftree.last := current;
  }

  /** The walk up has come to `p`, the innermost of `k` sections whose names are still to be listed. */
  ghost predicate WalkedUp(t: Forest, k: nat, p: Directive?, names: seq<string>) {
    k <= |t.s.stack| && p == t.s.Owner(k) && names + Unclosed(t.s.z.open[..k]) == Unclosed(t.s.z.open)
  }

  lemma WalkStart(t: Forest)
    ensures WalkedUp(t, |t.s.stack|, Parent(t), [])
  {
    assert t.s.z.open[..|t.s.stack|] == t.s.z.open;
  }

  lemma {:induction false} UnclosedStep(open: seq<Frame>, k: nat, names: seq<string>)
    requires 0 < k <= |open| && names + Unclosed(open[..k]) == Unclosed(open)
    ensures names + [open[k - 1].name] + Unclosed(open[..k - 1]) == Unclosed(open)
  {
    var inner := open[..k];
    assert inner[..|inner| - 1] == open[..k - 1] && inner[|inner| - 1] == open[k - 1];
    assert Unclosed(inner) == [open[k - 1].name] + Unclosed(open[..k - 1]);
    Assoc(names, [open[k - 1].name], Unclosed(open[..k - 1]));
  }

  lemma WalkStep(t: Forest, k: nat, p: Directive?, names: seq<string>)
    requires WalkedUp(t, k, p, names)
    ensures p == null ==> names == Unclosed(t.s.z.open)
    ensures p != null ==> k > 0 && p in t.h && p.line.Open? && WalkedUp(t, k - 1, t.h[p].parent, names + [p.line.name])
  {
    if k > 0 {
      ParentOfOpen(t, k - 1);
      UnclosedStep(t.s.z.open, k, names);
    }
  }

  /** The sections still open, as the error message lists them. */
  method ListUnclosed(parent: Directive?, ghost t: Forest) returns (names: seq<string>)
    requires InHeap(t.h) && parent == Parent(t)
    ensures names == Unclosed(t.s.z.open)
  {
    ghost var k: nat := |t.s.stack|;
    var p := parent;
    names := [];
    WalkStart(t);
    while p != null
      invariant WalkedUp(t, k, p, names)
      decreases k
    {
      WalkStep(t, k, p, names);
      names := names + [p.line.name];
      p := p.parent;
      k := k - 1;
    }
    WalkStep(t, k, p, names);
  }

  lemma BuildUnfolds(line: Line, rest: seq<Line>, z: Zip)
    ensures var s := Sub([line] + rest, z);
            Build([line] + rest, z) == if s.Err? then Err(s.error) else Build(s.value.rest, s.value.z)
  {
  }

  /** Every line of the file built in. */
  method BuildLines(file: ConfigFile, start: Place, ghost t: Forest) returns (r: Result<Place>, ghost t': Forest)
    requires Stays(t, start) && start.conftree == Root(start)
    modifies file`rest, t.h.Keys`next, t.h.Keys`firstChild
    ensures r.Err? ==> Build(old(file.rest), t.s.z) == Err(r.error)
    ensures r.Ok? ==> Build(old(file.rest), t.s.z) == Build([], t'.s.z)
    ensures r.Ok? ==> Stays(t', r.value) && r.value.conftree == Root(r.value)
    ensures r.Ok? ==> fresh(t'.h.Keys - t.h.Keys) && Roots(t) <= Roots(t')
  {
    t' := t;
    var p := start;
    while true
      invariant Build(old(file.rest), t.s.z) == Build(file.rest, t'.s.z)
      invariant Stays(t', p) && p.conftree == Root(p)
      invariant fresh(t'.h.Keys - t.h.Keys) && Roots(t) <= Roots(t')
      decreases |file.rest|
    {
      var got := FetchLine(file, p, t');
      if got.EndOfFile? {
        return Ok(p), t';
      }
      BuildUnfolds(got.line, file.rest, t'.s.z);
      ghost var added;
      r, t', added := LineIn(got.line, file, p, t');
      if r.Err? {
        return;
      }
      p := r.value;
    }
  }

  /** `ap_build_config`: the lines of one more file, behind what `conftree` holds. */
  method BuildConfig(file: ConfigFile, conftree: Directive?, ghost t: Forest) returns (r: Result<Directive?>, ghost t': Forest)
    requires InHeap(t.h) && t.s.stack == [] && conftree == Head(Roots(t)) && LastOnChain(conftree, t)
    modifies file`rest, t.h.Keys
    ensures r.Err? ==> Build(old(file.rest), t.s.z) == Err(r.error)
    ensures r.Ok? ==> Build(old(file.rest), t.s.z) == Ok(t'.s.z.top)
    ensures r.Ok? ==> InHeap(t'.h) && t'.s.stack == [] && r.value == Head(Roots(t')) && LastOnChain(r.value, t')
    ensures r.Ok? ==> fresh(t'.h.Keys - t.h.Keys) && Roots(t) <= Roots(t')
  {
    NothingYet(t);
    RootsChained(t);
    var p := Place(null, null, conftree);
    if conftree != null {
      var last := FindLast(conftree, t);
      p := Place(null, last, conftree);
    }
    var s;
    s, t' := BuildLines(file, p, t);
    if s.Err? {
      return Err(s.error), t';
    }
    NothingYet(t');
    if s.value.parent != null {
      var names := ListUnclosed(s.value.parent, t');
      return Err(NotClosed(names)), t';
    }
    r := Ok(s.value.conftree);
  }

  // ----- reading the tree back

  lemma NodeOf(t: Forest, x: Directive)
    requires x in t.s.val
    ensures x in t.s.kids && StandsFor(x, t.s.kids[x], t.s.val, t.s.val[x])
    ensures ListUnder(t.h, t.s.kids[x], x)
  {
  }

  lemma ShowFrom(lines: seq<Line>, ts: seq<Tree>, k: nat)
    requires k < |ts|
    ensures lines + ShowAll(ts[k..]) == lines + Show(ts[k]) + ShowAll(ts[k + 1..])
  {
    assert ts[k..][1..] == ts[k + 1..];
    assert ShowAll(ts[k..]) == Show(ts[k]) + ShowAll(ts[k + 1..]);
  }

  /** The lines under a node and its later siblings, found by `next` and `first_child` alone. */
  method Flatten(first: Directive?, ghost t: Forest, ghost list: seq<Directive>, ghost owner: Directive?, ghost ts: seq<Tree>)
      returns (lines: seq<Line>)
    requires InHeap(t.h) && Chain(t.h, list, owner) && Stands(list, t.s.val, ts) && first == Head(list)
    ensures lines == ShowAll(ts)
    decreases ts
  {
    ghost var k: nat := 0;
    var d := first;
    lines := [];
    while d != null
      invariant k <= |list| && d == (if k < |list| then list[k] else null)
      invariant lines + ShowAll(ts[k..]) == ShowAll(ts)
      decreases |list| - k
    {
      ShowFrom(lines, ts, k);
      var own := FlattenNode(d, t);
      lines := lines + own;
      d := d.next;
      k := k + 1;
    }
  }

  method FlattenNode(d: Directive, ghost t: Forest) returns (lines: seq<Line>)
    requires InHeap(t.h) && d in t.s.val
    ensures lines == Show(t.s.val[d])
    decreases t.s.val[d]
  {
    NodeOf(t, d);
    lines := [d.line];
    if d.line.Open? {
      var inner := Flatten(d.firstChild, t, t.s.kids[d], d, t.s.val[d].kids);
      lines := lines + inner + [Close(Lower(d.line.name))];
    }
  }

  /** A file read into a fresh tree, and the tree read back. */
  method ReadBack(file: ConfigFile) returns (r: Result<seq<Line>>)
    modifies file`rest
    ensures r.Err? ==> Build(old(file.rest), EMPTY) == Err(r.error)
    ensures r.Ok? ==> Build(old(file.rest), EMPTY).Ok? && r.value == ShowAll(Build(old(file.rest), EMPTY).value)
    ensures r.Ok? && NoConditionals(old(file.rest)) ==> r.value == Normal(old(file.rest))
  {
    var root;
    ghost var t;
    root, t := BuildConfig(file, null, Nothing());
    if root.Err? {
      return Err(root.error);
    }
    NothingYet(t);
    RootsChained(t);
    WholeForest(t.s, t.h);
    var lines := Flatten(root.value, t, Roots(t), null, t.s.z.top);
    if NoConditionals(old(file.rest)) {
      ParsePrintRoundTrip(old(file.rest), t.s.z.top);
    }
    r := Ok(lines);
  }
}
