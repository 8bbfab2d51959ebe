/** How the names of an Include directive are expanded: directories are entered in order of their
    names, wildcards are matched part by part, and the first error ends it all.
 */
module Includes {
  import opened Wrappers

  type Path = seq<string>

  /** A directory is known by a number, so that one may lie inside itself. */
  datatype Target = File(key: nat) | Dir(node: nat)

  /** A name in a directory; `isDir` is what the entry itself says, which for a link is no. */
  datatype Entry = Entry(name: string, target: Target, isDir: bool)

  /** The directories that can be opened, and the files that cannot be read in without error. */
  datatype FileSystem = FileSystem(dirs: map<nat, seq<Entry>>, bad: set<nat>)

  datatype Error = TooDeep | CannotOpen | BadFile(key: nat) | NoMatch

  /** The files gone through, in order, the last of them with the error if it is of a file. */
  datatype Outcome = Outcome(visited: seq<Path>, error: Option<Error>)

  const MAX_DEPTH: nat := 128

  // ----- names in order

  /** `strcmp(a, b) < 0` */
  predicate Less(a: string, b: string) {
    b != "" && (a == "" || a[0] < b[0] || (a[0] == b[0] && Less(a[1..], b[1..])))
  }

  function Insert(e: Entry, es: seq<Entry>): seq<Entry> {
    if es == [] || Less(e.name, es[0].name) then [e] + es else [es[0]] + Insert(e, es[1..])
  }

  function Sort(es: seq<Entry>): seq<Entry> {
    if es == [] then [] else Insert(es[0], Sort(es[1..]))
  }

  /** The entries without `.` and `..`. */
  function Real(es: seq<Entry>): seq<Entry> {
    if es == [] then [] else (if es[0].name == "." || es[0].name == ".." then [] else [es[0]]) + Real(es[1..])
  }

  // ----- process_resource_config_nofnmatch

  function Visit(fs: FileSystem, at: Target, path: Path, depth: nat): Outcome
    requires depth <= MAX_DEPTH
    decreases MAX_DEPTH - depth, 0
  {
    match at
    case File(key) => Outcome([path], if key in fs.bad then Some(BadFile(key)) else None)
    case Dir(node) =>
      if depth == MAX_DEPTH then Outcome([], Some(TooDeep))
      else if node !in fs.dirs then Outcome([], Some(CannotOpen))
      else VisitAll(fs, Sort(Real(fs.dirs[node])), path, depth + 1)
  }

  function VisitAll(fs: FileSystem, es: seq<Entry>, path: Path, depth: nat): Outcome
    requires depth <= MAX_DEPTH
    decreases MAX_DEPTH - depth, 1 + |es|
  {
    if es == [] then Outcome([], None)
    else
      var first := Visit(fs, es[0].target, path + [es[0].name], depth);
      if first.error.Some? then first
      else
        var rest := VisitAll(fs, es[1..], path, depth);
        Outcome(first.visited + rest.visited, rest.error)
  }

  // ----- process_resource_config_fnmatch

  /** A part of a name between slashes: as it is, or a wildcard with the names it matches. */
  datatype Part = Literal(name: string) | Wild(matches: set<string>)

  /** What a name stands for in a directory; a name that is not there cannot be opened later. */
  function Lookup(es: seq<Entry>, name: string): Option<Target> {
    if es == [] then None else if es[0].name == name then Some(es[0].target) else Lookup(es[1..], name)
  }

  function Child(dirs: map<nat, seq<Entry>>, at: Target, name: string): Option<Target> {
    if at.Dir? && at.node in dirs then Lookup(dirs[at.node], name) else None
  }

  /** The entries a wildcard picks; inside a path only directories. */
  function Picked(es: seq<Entry>, names: set<string>, inside: bool): seq<Entry> {
    if es == [] then []
    else (if es[0].name in names && (inside ==> es[0].isDir) then [es[0]] else []) + Picked(es[1..], names, inside)
  }

  function Match(fs: FileSystem, at: Target, path: Path, parts: seq<Part>, optional: bool): Outcome
    decreases |parts|, 0
  {
    if parts == [] then Visit(fs, at, path, 0)
    else match parts[0]
      case Literal(name) =>
        (match Child(fs.dirs, at, name)
         case None => Outcome([], Some(CannotOpen))
         case Some(t) => Match(fs, t, path + [name], parts[1..], optional))
      case Wild(names) =>
        if at.File? || at.node !in fs.dirs then Outcome([], Some(CannotOpen))
        else
          var es := Sort(Picked(Real(fs.dirs[at.node]), names, |parts| > 1));
          if es == [] then Outcome([], if optional then None else Some(NoMatch))
          else MatchAll(fs, es, path, parts[1..], optional)
  }

  function MatchAll(fs: FileSystem, es: seq<Entry>, path: Path, parts: seq<Part>, optional: bool): Outcome
    decreases |parts|, 1 + |es|
  {
    if es == [] then Outcome([], None)
    else
      var first := Match(fs, es[0].target, path + [es[0].name], parts, optional);
      if first.error.Some? then first
      else
        var rest := MatchAll(fs, es[1..], path, parts, optional);
        Outcome(first.visited + rest.visited, rest.error)
  }

  // ----- the order of names

  lemma {:induction false} LessTotal(a: string, b: string)
    ensures !Less(a, a) && !(Less(a, b) && Less(b, a)) && (a != b ==> Less(a, b) || Less(b, a))
  {
    if a != "" && b != "" {
      LessTotal(a[1..], b[1..]);
      assert a == [a[0]] + a[1..] && b == [b[0]] + b[1..];
    }
    if a != "" && a != b {
      LessTotal(a[1..], a[1..]);
    }
  }

  lemma {:induction false} LessTrans(a: string, b: string, c: string)
    requires Less(a, b) && Less(b, c)
    ensures Less(a, c)
  {
    if a != "" && a[0] == b[0] == c[0] {
      LessTrans(a[1..], b[1..], c[1..]);
    }
  }

  /** The names agree up to `i`, where the first ends or has the smaller character. */
  ghost predicate SmallerAt(a: string, b: string, i: int) {
    0 <= i <= |a| && i < |b| && a[..i] == b[..i] && (i < |a| ==> a[i] < b[i])
  }

  /** The order of names is that of `strcmp`. */
  lemma {:induction false} LessIs(a: string, b: string)
    ensures Less(a, b) <==> exists i :: SmallerAt(a, b, i)
  {
    if a != "" && b != "" && a[0] == b[0] {
      LessIs(a[1..], b[1..]);
      if i :| SmallerAt(a[1..], b[1..], i) {
        assert a[..i + 1] == [a[0]] + a[1..][..i] && b[..i + 1] == [b[0]] + b[1..][..i];
        assert SmallerAt(a, b, i + 1);
      }
      if i :| SmallerAt(a, b, i) {
        assert i > 0;
        assert a[1..][..i - 1] == a[..i][1..] && b[1..][..i - 1] == b[..i][1..];
        assert SmallerAt(a[1..], b[1..], i - 1);
      }
    } else if Less(a, b) {
      assert SmallerAt(a, b, 0);
    } else if i :| SmallerAt(a, b, i) {
      FirstApart(a, b, i);
    }
  }

  lemma FirstApart(a: string, b: string, i: int)
    requires SmallerAt(a, b, i)
    ensures b != "" && (a == "" || a[0] == b[0] || a[0] < b[0])
  {
    if i > 0 {
      assert a[..i][0] == a[0] && b[..i][0] == b[0];
    }
  }

  /** The entries gone through are all but `.` and `..`. */
  lemma {:induction false} RealIs(es: seq<Entry>, e: Entry)
    ensures e in Real(es) <==> e in es && e.name != "." && e.name != ".."
  {
    if es != [] {
      RealIs(es[1..], e);
      assert es == [es[0]] + es[1..];
    }
  }

  /** A wildcard picks the entries it matches, inside a path only those that are directories by themselves. */
  lemma {:induction false} PickedIs(es: seq<Entry>, names: set<string>, inside: bool, e: Entry)
    ensures e in Picked(es, names, inside) <==> e in es && e.name in names && (inside ==> e.isDir)
  {
    if es != [] {
      PickedIs(es[1..], names, inside, e);
      assert es == [es[0]] + es[1..];
    }
  }

  /** Sorting keeps the entries. */
  lemma {:induction false} SortIs(es: seq<Entry>)
    ensures multiset(Sort(es)) == multiset(es)
  {
    if es != [] {
      SortIs(es[1..]);
      InsertIs(es[0], Sort(es[1..]));
      assert es == [es[0]] + es[1..];
    }
  }

  lemma {:induction false} InsertIs(e: Entry, es: seq<Entry>)
    ensures multiset(Insert(e, es)) == multiset(es) + multiset{e}
  {
    if es != [] && !Less(e.name, es[0].name) {
      InsertIs(e, es[1..]);
      assert es == [es[0]] + es[1..];
    }
  }

  ghost predicate Distinct(es: seq<Entry>) {
    forall i, j :: 0 <= i < j < |es| ==> es[i].name != es[j].name
  }

  ghost predicate Ascending(es: seq<Entry>) {
    forall i, j :: 0 <= i < j < |es| ==> Less(es[i].name, es[j].name)
  }

  ghost predicate Named(es: seq<Entry>, name: string) {
    exists i :: 0 <= i < |es| && es[i].name == name
  }

  lemma {:induction false} LookupNamed(es: seq<Entry>, name: string)
    ensures Lookup(es, name).Some? <==> Named(es, name)
  {
    if es != [] {
      LookupNamed(es[1..], name);
      assert forall i :: 0 < i < |es| ==> es[1..][i - 1] == es[i];
      if es[0].name == name {
        assert Named(es, name);
      } else if Named(es, name) {
        var i :| 0 <= i < |es| && es[i].name == name;
        assert es[1..][i - 1].name == name;
      } else {
        assert forall i :: 0 <= i < |es[1..]| ==> es[1..][i] == es[i + 1];
      }
    }
  }

  /** A new name goes where it belongs, and the others are found as before. */
  lemma {:induction false} InsertKeeps(e: Entry, es: seq<Entry>, name: string)
    requires Ascending(es) && !Named(es, e.name)
    ensures Ascending(Insert(e, es))
    ensures Lookup(Insert(e, es), name) == if name == e.name then Some(e.target) else Lookup(es, name)
  {
    if es == [] {
    } else if Less(e.name, es[0].name) {
      assert ([e] + es)[1..] == es;
      forall j | 1 <= j < |es| ensures Less(e.name, es[j].name) {
        LessTrans(e.name, es[0].name, es[j].name);
      }
    } else {
      var rest := es[1..];
      assert forall i :: 0 <= i < |rest| ==> rest[i] == es[i + 1];
      assert es[0].name != e.name;
      InsertKeeps(e, rest, name);
      LessTotal(e.name, es[0].name);
      var out := Insert(e, rest);
      forall j | 0 <= j < |out| ensures Less(es[0].name, out[j].name) {
        InsertFrom(e, rest, j);
      }
      assert ([es[0]] + out)[1..] == out;
    }
  }

  lemma {:induction false} InsertFrom(e: Entry, es: seq<Entry>, j: nat)
    requires j < |Insert(e, es)|
    ensures Insert(e, es)[j] == e || Insert(e, es)[j] in es
  {
    if es != [] && !Less(e.name, es[0].name) && j > 0 {
      InsertFrom(e, es[1..], j - 1);
    }
  }

  lemma {:induction false} SortKeeps(es: seq<Entry>, name: string)
    requires Distinct(es)
    ensures Ascending(Sort(es)) && Lookup(Sort(es), name) == Lookup(es, name)
  {
    if es != [] {
      SortKeeps(es[1..], name);
      SortKeeps(es[1..], es[0].name);
      LookupNamed(Sort(es[1..]), es[0].name);
      LookupNamed(es[1..], es[0].name);
      assert !Named(es[1..], es[0].name);
      InsertKeeps(es[0], Sort(es[1..]), name);
    }
  }

  lemma InRest(es: seq<Entry>, x: Entry)
    requires es != [] && Distinct(es) && x in es[1..]
    ensures x in es && x.name != es[0].name
  {
    var j :| 0 <= j < |es[1..]| && es[1..][j] == x;
    assert es[j + 1] == x;
  }

  ghost predicate AllIn(part: seq<Entry>, es: seq<Entry>) {
    forall i :: 0 <= i < |part| ==> part[i] in es
  }

  /** A selection from the rest, with the first in front of it or not. */
  lemma SelectionKeeps(es: seq<Entry>, rest: seq<Entry>)
    requires es != [] && Distinct(es) && Distinct(rest) && AllIn(rest, es[1..])
    ensures Distinct([es[0]] + rest) && AllIn([es[0]] + rest, es) && AllIn(rest, es)
  {
    forall i | 0 <= i < |rest| ensures rest[i] in es && rest[i].name != es[0].name {
      InRest(es, rest[i]);
    }
  }

  lemma TailDistinct(es: seq<Entry>)
    requires es != [] && Distinct(es)
    ensures Distinct(es[1..])
  {
  }

  lemma {:induction false} RealKeeps(es: seq<Entry>)
    requires Distinct(es)
    ensures Distinct(Real(es)) && AllIn(Real(es), es)
  {
    if es != [] {
      TailDistinct(es);
      RealKeeps(es[1..]);
      SelectionKeeps(es, Real(es[1..]));
      assert [] + Real(es[1..]) == Real(es[1..]);
    }
  }

  lemma {:induction false} PickedKeeps(es: seq<Entry>, names: set<string>, inside: bool)
    requires Distinct(es)
    ensures Distinct(Picked(es, names, inside)) && AllIn(Picked(es, names, inside), es)
  {
    if es != [] {
      TailDistinct(es);
      PickedKeeps(es[1..], names, inside);
      SelectionKeeps(es, Picked(es[1..], names, inside));
      assert [] + Picked(es[1..], names, inside) == Picked(es[1..], names, inside);
    }
  }

  // ----- the order of the files

  /** The first part in which the two differ is less. */
  ghost predicate PathLess(p: Path, q: Path) {
    exists i :: 0 <= i < |p| && i < |q| && p[..i] == q[..i] && Less(p[i], q[i])
  }

  ghost predicate Increasing(vs: seq<Path>) {
    forall i, j :: 0 <= i < j < |vs| ==> PathLess(vs[i], vs[j])
  }

  ghost predicate StartsWith(p: Path, path: Path) {
    |path| <= |p| && p[..|path|] == path
  }

  ghost predicate AllUnder(vs: seq<Path>, path: Path) {
    forall k :: 0 <= k < |vs| ==> StartsWith(vs[k], path)
  }

  /** All are under `path`, by one of the names of `es`. */
  ghost predicate Below(vs: seq<Path>, path: Path, es: seq<Entry>) {
    forall k :: 0 <= k < |vs| ==> StartsWith(vs[k], path) && |vs[k]| > |path| && Named(es, vs[k][|path|])
  }

  ghost predicate WellNamed(fs: FileSystem) {
    forall n :: n in fs.dirs ==> Distinct(fs.dirs[n])
  }

  lemma ParentPath(p: Path, path: Path, name: string)
    requires StartsWith(p, path + [name])
    ensures StartsWith(p, path) && |p| > |path| && p[|path|] == name
  {
    assert p[..|path|] == p[..|path| + 1][..|path|];
    assert p[|path|] == p[..|path| + 1][|path|];
  }

  /** The files under the first name, and those under later ones. */
  lemma JoinOrdered(es: seq<Entry>, path: Path, a: seq<Path>, b: seq<Path>)
    requires es != [] && Ascending(es)
    requires Increasing(a) && AllUnder(a, path + [es[0].name])
    requires Increasing(b) && Below(b, path, es[1..])
    ensures Increasing(a + b) && Below(a + b, path, es) && Below(a, path, es)
  {
    forall k | 0 <= k < |a| ensures StartsWith(a[k], path) && |a[k]| > |path| && a[k][|path|] == es[0].name {
      ParentPath(a[k], path, es[0].name);
    }
    forall k | 0 <= k < |b| ensures Named(es, b[k][|path|]) && Less(es[0].name, b[k][|path|]) {
      var i :| 0 <= i < |es[1..]| && es[1..][i].name == b[k][|path|];
      assert es[i + 1].name == b[k][|path|];
    }
    assert Named(es, es[0].name);
    forall i, j | 0 <= i < |a| && 0 <= j < |b| ensures PathLess(a[i], b[j]) {
      assert a[i][..|path|] == path == b[j][..|path|];
    }
  }

  lemma BelowIsUnder(vs: seq<Path>, path: Path, es: seq<Entry>)
    requires Below(vs, path, es)
    ensures AllUnder(vs, path)
  {
  }

  lemma {:induction false} VisitOrdered(fs: FileSystem, at: Target, path: Path, depth: nat)
    requires WellNamed(fs) && depth <= MAX_DEPTH
    ensures Increasing(Visit(fs, at, path, depth).visited) && AllUnder(Visit(fs, at, path, depth).visited, path)
    decreases MAX_DEPTH - depth, 0
  {
    if at.Dir? && depth < MAX_DEPTH && at.node in fs.dirs {
      RealKeeps(fs.dirs[at.node]);
      var es := Sort(Real(fs.dirs[at.node]));
      SortKeeps(Real(fs.dirs[at.node]), "");
      VisitAllOrdered(fs, es, path, depth + 1);
      BelowIsUnder(VisitAll(fs, es, path, depth + 1).visited, path, es);
    }
  }

  lemma {:induction false} VisitAllOrdered(fs: FileSystem, es: seq<Entry>, path: Path, depth: nat)
    requires WellNamed(fs) && Ascending(es) && depth <= MAX_DEPTH
    ensures Increasing(VisitAll(fs, es, path, depth).visited) && Below(VisitAll(fs, es, path, depth).visited, path, es)
    decreases MAX_DEPTH - depth, 1 + |es|
  {
    if es != [] {
      VisitOrdered(fs, es[0].target, path + [es[0].name], depth);
      VisitAllOrdered(fs, es[1..], path, depth);
      JoinOrdered(es, path, Visit(fs, es[0].target, path + [es[0].name], depth).visited, VisitAll(fs, es[1..], path, depth).visited);
    }
  }

  /** However the name is expanded, the files come in the order of their paths, none of them twice. */
  lemma {:induction false} ExpansionOrdered(fs: FileSystem, at: Target, path: Path, parts: seq<Part>, optional: bool)
    requires WellNamed(fs)
    ensures Increasing(Match(fs, at, path, parts, optional).visited) && AllUnder(Match(fs, at, path, parts, optional).visited, path)
    decreases |parts|, 0
  {
    if parts == [] {
      VisitOrdered(fs, at, path, 0);
    } else if parts[0].Literal? {
      var name := parts[0].name;
      if Child(fs.dirs, at, name).Some? {
        var t := Child(fs.dirs, at, name).value;
        ExpansionOrdered(fs, t, path + [name], parts[1..], optional);
        var vs := Match(fs, t, path + [name], parts[1..], optional).visited;
        forall k | 0 <= k < |vs| ensures StartsWith(vs[k], path) {
          ParentPath(vs[k], path, name);
        }
      }
    } else if at.Dir? && at.node in fs.dirs {
      var listed := Real(fs.dirs[at.node]);
      RealKeeps(fs.dirs[at.node]);
      PickedKeeps(listed, parts[0].matches, |parts| > 1);
      var picked := Picked(listed, parts[0].matches, |parts| > 1);
      SortKeeps(picked, "");
      MatchAllOrdered(fs, Sort(picked), path, parts[1..], optional);
      BelowIsUnder(MatchAll(fs, Sort(picked), path, parts[1..], optional).visited, path, Sort(picked));
    }
  }

  lemma {:induction false} MatchAllOrdered(fs: FileSystem, es: seq<Entry>, path: Path, parts: seq<Part>, optional: bool)
    requires WellNamed(fs) && Ascending(es)
    ensures Increasing(MatchAll(fs, es, path, parts, optional).visited) && Below(MatchAll(fs, es, path, parts, optional).visited, path, es)
    decreases |parts|, 1 + |es|
  {
    if es != [] {
      ExpansionOrdered(fs, es[0].target, path + [es[0].name], parts, optional);
      MatchAllOrdered(fs, es[1..], path, parts, optional);
      JoinOrdered(es, path, Match(fs, es[0].target, path + [es[0].name], parts, optional).visited,
                  MatchAll(fs, es[1..], path, parts, optional).visited);
    }
  }

  // ----- which files

  /** The file that `q` leads to from `at` through directories, if it does. */
  function KeyAt(dirs: map<nat, seq<Entry>>, at: Target, q: Path): Option<nat>
    decreases |q|
  {
    if q == [] then (if at.File? then Some(at.key) else None)
    else if at.File? || at.node !in dirs then None
    else
      var t := Lookup(Real(dirs[at.node]), q[0]);
      if t.None? then None else KeyAt(dirs, t.value, q[1..])
  }

  predicate LeadsToFile(fs: FileSystem, at: Target, q: Path) {
    KeyAt(fs.dirs, at, q).Some?
  }

  /** What the first part lets the name `name` stand for. */
  function Chosen(dirs: map<nat, seq<Entry>>, at: Target, parts: seq<Part>, name: string): Option<Target>
    requires parts != []
  {
    match parts[0]
    case Literal(n) => if name == n then Child(dirs, at, n) else None
    case Wild(names) => if at.Dir? && at.node in dirs then Lookup(Picked(Real(dirs[at.node]), names, |parts| > 1), name) else None
  }

  /** The file `q` is, when it is one of those the parts stand for. */
  function KeyOf(dirs: map<nat, seq<Entry>>, at: Target, parts: seq<Part>, q: Path): Option<nat>
    decreases |parts|
  {
    if parts == [] then KeyAt(dirs, at, q)
    else if q == [] then None
    else
      var t := Chosen(dirs, at, parts, q[0]);
      if t.None? then None else KeyOf(dirs, t.value, parts[1..], q[1..])
  }

  /** `q` is one of the files the parts stand for. */
  predicate Expands(fs: FileSystem, at: Target, parts: seq<Part>, q: Path) {
    KeyOf(fs.dirs, at, parts, q).Some?
  }

  /** Under the first name, or under a later one. */
  lemma JoinExact(es: seq<Entry>, path: Path, a: seq<Path>, b: seq<Path>, p: Path)
    requires es != []
    ensures p in a + b <==> p in a || p in b
    ensures StartsWith(p, path + [es[0].name]) <==> StartsWith(p, path) && |p| > |path| && p[|path|] == es[0].name
    ensures StartsWith(p, path) && |p| > |path| ==> p[|path|..][0] == p[|path|] && p[|path|..][1..] == p[|path| + 1..]
  {
    assert |p| > |path| ==> p[..|path| + 1] == p[..|path|] + [p[|path|]];
    if StartsWith(p, path + [es[0].name]) {
      ParentPath(p, path, es[0].name);
    }
  }

  lemma LookupRest(es: seq<Entry>, name: string)
    requires es != [] && Distinct(es)
    ensures es[0].name == name ==> Lookup(es[1..], name).None?
  {
    LookupNamed(es[1..], name);
    assert forall i :: 0 <= i < |es[1..]| ==> es[1..][i] == es[i + 1];
  }

  lemma {:induction false} VisitExact(fs: FileSystem, at: Target, path: Path, depth: nat, p: Path)
    requires WellNamed(fs) && depth <= MAX_DEPTH && Visit(fs, at, path, depth).error.None?
    ensures p in Visit(fs, at, path, depth).visited <==> StartsWith(p, path) && LeadsToFile(fs, at, p[|path|..])
    decreases MAX_DEPTH - depth, 0
  {
    if at.File? {
      assert StartsWith(p, path) && p[|path|..] == [] ==> p == path;
    } else {
      var listed := Real(fs.dirs[at.node]);
      RealKeeps(fs.dirs[at.node]);
      SortKeeps(listed, "");
      VisitAllExact(fs, Sort(listed), path, depth + 1, p);
      if StartsWith(p, path) && |p| > |path| {
        SortKeeps(listed, p[|path|]);
        assert p[|path|..][0] == p[|path|] && p[|path|..][1..] == p[|path| + 1..];
      }
    }
  }

  lemma {:induction false} VisitAllExact(fs: FileSystem, es: seq<Entry>, path: Path, depth: nat, p: Path)
    requires WellNamed(fs) && Ascending(es) && depth <= MAX_DEPTH && VisitAll(fs, es, path, depth).error.None?
    ensures p in VisitAll(fs, es, path, depth).visited <==>
              && StartsWith(p, path) && |p| > |path| && Lookup(es, p[|path|]).Some?
              && LeadsToFile(fs, Lookup(es, p[|path|]).value, p[|path| + 1..])
    decreases MAX_DEPTH - depth, 1 + |es|
  {
    if es != [] {
      var name := es[0].name;
      VisitExact(fs, es[0].target, path + [name], depth, p);
      VisitAllExact(fs, es[1..], path, depth, p);
      JoinExact(es, path, Visit(fs, es[0].target, path + [name], depth).visited, VisitAll(fs, es[1..], path, depth).visited, p);
      AscendingDistinct(es);
      LookupRest(es, name);
    }
  }

  lemma AscendingDistinct(es: seq<Entry>)
    requires Ascending(es)
    ensures Distinct(es)
  {
    forall i, j | 0 <= i < j < |es| ensures es[i].name != es[j].name {
      LessTotal(es[i].name, es[j].name);
    }
  }

  /** Without an error, the files gone through are exactly those the name stands for. */
  lemma {:induction false} ExpansionExact(fs: FileSystem, at: Target, path: Path, parts: seq<Part>, optional: bool, p: Path)
    requires WellNamed(fs) && Match(fs, at, path, parts, optional).error.None?
    ensures p in Match(fs, at, path, parts, optional).visited <==> StartsWith(p, path) && Expands(fs, at, parts, p[|path|..])
    decreases |parts|, 0
  {
    if parts == [] {
      VisitExact(fs, at, path, 0, p);
    } else if parts[0].Literal? {
      var name := parts[0].name;
      var t := Child(fs.dirs, at, name).value;
      ExpansionExact(fs, t, path + [name], parts[1..], optional, p);
      JoinExact([Entry(name, t, false)], path, [], [], p);
    } else {
      var listed := Real(fs.dirs[at.node]);
      RealKeeps(fs.dirs[at.node]);
      PickedKeeps(listed, parts[0].matches, |parts| > 1);
      var picked := Picked(listed, parts[0].matches, |parts| > 1);
      SortKeeps(picked, "");
      MatchAllExact(fs, Sort(picked), path, parts[1..], optional, p);
      if StartsWith(p, path) && |p| > |path| {
        SortKeeps(picked, p[|path|]);
        assert p[|path|..][0] == p[|path|] && p[|path|..][1..] == p[|path| + 1..];
      }
    }
  }

  lemma {:induction false} MatchAllExact(fs: FileSystem, es: seq<Entry>, path: Path, parts: seq<Part>, optional: bool, p: Path)
    requires WellNamed(fs) && Ascending(es) && MatchAll(fs, es, path, parts, optional).error.None?
    ensures p in MatchAll(fs, es, path, parts, optional).visited <==>
              && StartsWith(p, path) && |p| > |path| && Lookup(es, p[|path|]).Some?
              && Expands(fs, Lookup(es, p[|path|]).value, parts, p[|path| + 1..])
    decreases |parts|, 1 + |es|
  {
    if es != [] {
      var name := es[0].name;
      ExpansionExact(fs, es[0].target, path + [name], parts, optional, p);
      MatchAllExact(fs, es[1..], path, parts, optional, p);
      JoinExact(es, path, Match(fs, es[0].target, path + [name], parts, optional).visited,
                MatchAll(fs, es[1..], path, parts, optional).visited, p);
      AscendingDistinct(es);
      LookupRest(es, name);
    }
  }

  // ----- directories inside themselves

  /** What `q` leads to. */
  function Leads(fs: FileSystem, at: Target, q: Path): Option<Target>
    decreases |q|
  {
    if q == [] then Some(at)
    else if at.File? || at.node !in fs.dirs then None
    else
      var t := Lookup(Real(fs.dirs[at.node]), q[0]);
      if t.None? then None else Leads(fs, t.value, q[1..])
  }

  ghost predicate LeadsToDir(fs: FileSystem, at: Target, q: Path) {
    Leads(fs, at, q).Some? && Leads(fs, at, q).value.Dir?
  }

  /** Without an error, no directory lies too deep. */
  lemma {:induction false} NoneTooDeep(fs: FileSystem, at: Target, path: Path, depth: nat, q: Path)
    requires WellNamed(fs) && depth <= MAX_DEPTH && Visit(fs, at, path, depth).error.None? && LeadsToDir(fs, at, q)
    ensures depth + |q| < 128
    decreases |q|
  {
    if q != [] {
      var listed := Real(fs.dirs[at.node]);
      RealKeeps(fs.dirs[at.node]);
      SortKeeps(listed, q[0]);
      NoneFails(fs, Sort(listed), path, depth + 1, q[0]);
      NoneTooDeep(fs, Lookup(listed, q[0]).value, path + [q[0]], depth + 1, q[1..]);
    }
  }

  lemma {:induction false} NoneFails(fs: FileSystem, es: seq<Entry>, path: Path, depth: nat, name: string)
    requires depth <= MAX_DEPTH && VisitAll(fs, es, path, depth).error.None? && Lookup(es, name).Some?
    ensures Visit(fs, Lookup(es, name).value, path + [name], depth).error.None?
  {
    if es[0].name != name {
      NoneFails(fs, es[1..], path, depth, name);
    }
  }

  lemma {:induction false} LeadsOn(fs: FileSystem, at: Target, q: Path, r: Path)
    requires Leads(fs, at, q).Some?
    ensures Leads(fs, at, q + r) == Leads(fs, Leads(fs, at, q).value, r)
    decreases |q|
  {
    if q == [] {
      assert q + r == r;
    } else {
      var t := Lookup(Real(fs.dirs[at.node]), q[0]).value;
      LeadsOn(fs, t, q[1..], r);
      assert (q + r)[1..] == q[1..] + r;
    }
  }

  function Times(q: Path, k: nat): Path {
    if k == 0 then [] else q + Times(q, k - 1)
  }

  lemma {:induction false} AroundAgain(fs: FileSystem, at: Target, q: Path, k: nat)
    requires Leads(fs, at, q) == Some(at)
    ensures Leads(fs, at, Times(q, k)) == Some(at) && |Times(q, k)| == k * |q|
  {
    if k > 0 {
      AroundAgain(fs, at, q, k - 1);
      LeadsOn(fs, at, q, Times(q, k - 1));
    }
  }

  /** A directory that can be reached from itself is reported as an error, and not followed for ever. */
  lemma CycleIsAnError(fs: FileSystem, node: nat, path: Path, depth: nat, q: Path)
    requires WellNamed(fs) && depth <= MAX_DEPTH && q != [] && Leads(fs, Dir(node), q) == Some(Dir(node))
    ensures Visit(fs, Dir(node), path, depth).error.Some?
  {
    AroundAgain(fs, Dir(node), q, MAX_DEPTH);
    if Visit(fs, Dir(node), path, depth).error.None? {
      NoneTooDeep(fs, Dir(node), path, depth, Times(q, MAX_DEPTH));
      assert false;
    }
  }

  // ----- when there is no error

  /** Nothing wrong with the target itself, `depth` levels down. */
  predicate Fine(fs: FileSystem, t: Target, depth: nat) {
    if t.File? then t.key !in fs.bad else t.node in fs.dirs && depth < 128
  }

  /** Everything there is from `at` on can be read: every directory opened and not too deep, every file good. */
  ghost predicate Clear(fs: FileSystem, at: Target, depth: nat) {
    forall q :: Leads(fs, at, q).Some? ==> Fine(fs, Leads(fs, at, q).value, depth + |q|)
  }

  ghost predicate AllVisited(fs: FileSystem, es: seq<Entry>, path: Path, depth: nat)
    requires depth <= MAX_DEPTH
  {
    forall name :: Lookup(es, name).Some? ==> Visit(fs, Lookup(es, name).value, path + [name], depth).error.None?
  }

  lemma {:induction false} VisitAllSucceeds(fs: FileSystem, es: seq<Entry>, path: Path, depth: nat)
    requires Distinct(es) && depth <= MAX_DEPTH
    ensures VisitAll(fs, es, path, depth).error.None? <==> AllVisited(fs, es, path, depth)
    decreases |es|
  {
    if es != [] {
      TailDistinct(es);
      VisitAllSucceeds(fs, es[1..], path, depth);
      if VisitAll(fs, es, path, depth).error.None? {
        forall name | Lookup(es, name).Some? ensures Visit(fs, Lookup(es, name).value, path + [name], depth).error.None? {
          NoneFails(fs, es, path, depth, name);
        }
      }
      if AllVisited(fs, es, path, depth) {
        assert Lookup(es, es[0].name) == Some(es[0].target);
        forall name | Lookup(es[1..], name).Some? ensures Visit(fs, Lookup(es[1..], name).value, path + [name], depth).error.None? {
          LookupRest(es, name);
          assert Lookup(es, name) == Lookup(es[1..], name);
        }
      }
    }
  }

  ghost predicate AllClear(fs: FileSystem, es: seq<Entry>, depth: nat) {
    forall name :: Lookup(es, name).Some? ==> Clear(fs, Lookup(es, name).value, depth)
  }

  lemma {:induction false} ClearDown(fs: FileSystem, at: Target, depth: nat)
    requires at.Dir? && at.node in fs.dirs && Clear(fs, at, depth)
    ensures depth < MAX_DEPTH && AllClear(fs, Real(fs.dirs[at.node]), depth + 1)
  {
    var es := Real(fs.dirs[at.node]);
    assert Leads(fs, at, []) == Some(at);
    forall name | Lookup(es, name).Some? ensures Clear(fs, Lookup(es, name).value, depth + 1) {
      var t := Lookup(es, name).value;
      forall q | Leads(fs, t, q).Some? ensures Fine(fs, Leads(fs, t, q).value, depth + 1 + |q|) {
        assert ([name] + q)[1..] == q;
        assert Leads(fs, at, [name] + q) == Leads(fs, t, q);
      }
    }
  }

  lemma {:induction false} ClearUp(fs: FileSystem, at: Target, depth: nat)
    requires at.Dir? && at.node in fs.dirs && depth < MAX_DEPTH && AllClear(fs, Real(fs.dirs[at.node]), depth + 1)
    ensures Clear(fs, at, depth)
  {
    var es := Real(fs.dirs[at.node]);
    forall q | Leads(fs, at, q).Some? ensures Fine(fs, Leads(fs, at, q).value, depth + |q|) {
      if q != [] {
        var t := Lookup(es, q[0]).value;
        assert Clear(fs, t, depth + 1);
        assert Leads(fs, t, q[1..]) == Leads(fs, at, q);
      }
    }
  }

  /** A directory or file is gone through without an error if and only if everything in it can be read. */
  lemma {:induction false} VisitSucceeds(fs: FileSystem, at: Target, path: Path, depth: nat)
    requires WellNamed(fs) && depth <= MAX_DEPTH
    ensures Visit(fs, at, path, depth).error.None? <==> Clear(fs, at, depth)
    decreases MAX_DEPTH - depth, 1
  {
    assert Leads(fs, at, []) == Some(at);
    if at.File? {
      assert forall q :: Leads(fs, at, q).Some? ==> q == [];
    } else if at.node in fs.dirs && depth < MAX_DEPTH {
      EntriesSucceed(fs, at, path, depth);
      if Clear(fs, at, depth) {
        ClearDown(fs, at, depth);
      } else if AllClear(fs, Real(fs.dirs[at.node]), depth + 1) {
        ClearUp(fs, at, depth);
      }
    } else {
      assert !Fine(fs, at, depth);
    }
  }

  ghost predicate SameNames(a: seq<Entry>, b: seq<Entry>) {
    forall name :: Lookup(a, name) == Lookup(b, name)
  }

  lemma SortedSame(es: seq<Entry>)
    requires Distinct(es)
    ensures Distinct(Sort(es)) && SameNames(Sort(es), es)
  {
    SortKeeps(es, "");
    AscendingDistinct(Sort(es));
    forall name ensures Lookup(Sort(es), name) == Lookup(es, name) {
      SortKeeps(es, name);
    }
  }

  lemma SameClear(fs: FileSystem, a: seq<Entry>, b: seq<Entry>, depth: nat)
    requires SameNames(a, b)
    ensures AllClear(fs, a, depth) <==> AllClear(fs, b, depth)
  {
    if AllClear(fs, a, depth) {
      forall name | Lookup(b, name).Some? ensures Clear(fs, Lookup(b, name).value, depth) {
        assert Lookup(a, name) == Lookup(b, name);
      }
    }
    if AllClear(fs, b, depth) {
      forall name | Lookup(a, name).Some? ensures Clear(fs, Lookup(a, name).value, depth) {
        assert Lookup(a, name) == Lookup(b, name);
      }
    }
  }

  lemma {:induction false} EntriesClear(fs: FileSystem, es: seq<Entry>, path: Path, depth: nat)
    requires WellNamed(fs) && depth <= MAX_DEPTH
    ensures AllVisited(fs, es, path, depth) <==> AllClear(fs, es, depth)
    decreases MAX_DEPTH - depth, 2
  {
    forall name | Lookup(es, name).Some?
      ensures Visit(fs, Lookup(es, name).value, path + [name], depth).error.None? <==> Clear(fs, Lookup(es, name).value, depth)
    {
      VisitSucceeds(fs, Lookup(es, name).value, path + [name], depth);
    }
  }

  lemma {:induction false} ListSucceeds(fs: FileSystem, listed: seq<Entry>, path: Path, depth: nat)
    requires WellNamed(fs) && Distinct(listed) && depth <= MAX_DEPTH
    ensures VisitAll(fs, Sort(listed), path, depth).error.None? <==> AllClear(fs, listed, depth)
    decreases MAX_DEPTH - depth, 3
  {
    SortedSame(listed);
    VisitAllSucceeds(fs, Sort(listed), path, depth);
    EntriesClear(fs, Sort(listed), path, depth);
    SameClear(fs, Sort(listed), listed, depth);
  }

  lemma {:induction false} EntriesSucceed(fs: FileSystem, at: Target, path: Path, depth: nat)
    requires WellNamed(fs) && at.Dir? && at.node in fs.dirs && depth < MAX_DEPTH
    ensures Visit(fs, at, path, depth).error.None? <==> AllClear(fs, Real(fs.dirs[at.node]), depth + 1)
    decreases MAX_DEPTH - depth, 0
  {
    RealKeeps(fs.dirs[at.node]);
    ListSucceeds(fs, Real(fs.dirs[at.node]), path, depth + 1);
  }

  /** What the first parts let the names `q` stand for. */
  function Follow(dirs: map<nat, seq<Entry>>, at: Target, parts: seq<Part>, q: Path): Option<Target>
    decreases |q|
  {
    if q == [] then Some(at)
    else if parts == [] then None
    else
      var t := Chosen(dirs, at, parts, q[0]);
      if t.None? then None else Follow(dirs, t.value, parts[1..], q[1..])
  }

  /** Nothing goes wrong at a target with the parts that are left: a literal one is there, a wildcard matches or
      is optional, and when none is left everything can be read. */
  ghost predicate PartFine(fs: FileSystem, t: Target, parts: seq<Part>, optional: bool) {
    if parts == [] then Clear(fs, t, 0)
    else if parts[0].Literal? then Child(fs.dirs, t, parts[0].name).Some?
    else t.Dir? && t.node in fs.dirs && (optional || exists name :: Chosen(fs.dirs, t, parts, name).Some?)
  }

  ghost predicate AllFine(fs: FileSystem, at: Target, parts: seq<Part>, optional: bool) {
    forall q :: |q| <= |parts| && Follow(fs.dirs, at, parts, q).Some? ==>
      PartFine(fs, Follow(fs.dirs, at, parts, q).value, parts[|q|..], optional)
  }

  lemma {:induction false} AllFineStep(fs: FileSystem, at: Target, parts: seq<Part>, optional: bool)
    requires parts != []
    ensures AllFine(fs, at, parts, optional) <==>
              && PartFine(fs, at, parts, optional)
              && forall name :: Chosen(fs.dirs, at, parts, name).Some? ==> AllFine(fs, Chosen(fs.dirs, at, parts, name).value, parts[1..], optional)
  {
    assert parts[0..] == parts && Follow(fs.dirs, at, parts, []) == Some(at);
    if AllFine(fs, at, parts, optional) {
      forall name | Chosen(fs.dirs, at, parts, name).Some? ensures AllFine(fs, Chosen(fs.dirs, at, parts, name).value, parts[1..], optional) {
        var t := Chosen(fs.dirs, at, parts, name).value;
        forall q | |q| <= |parts[1..]| && Follow(fs.dirs, t, parts[1..], q).Some?
          ensures PartFine(fs, Follow(fs.dirs, t, parts[1..], q).value, parts[1..][|q|..], optional)
        {
          assert ([name] + q)[1..] == q && parts[1..][|q|..] == parts[|[name] + q|..];
          assert Follow(fs.dirs, at, parts, [name] + q) == Follow(fs.dirs, t, parts[1..], q);
        }
      }
    }
    if PartFine(fs, at, parts, optional)
       && forall name :: Chosen(fs.dirs, at, parts, name).Some? ==> AllFine(fs, Chosen(fs.dirs, at, parts, name).value, parts[1..], optional) {
      forall q | |q| <= |parts| && Follow(fs.dirs, at, parts, q).Some?
        ensures PartFine(fs, Follow(fs.dirs, at, parts, q).value, parts[|q|..], optional)
      {
        if q != [] {
          var t := Chosen(fs.dirs, at, parts, q[0]).value;
          assert AllFine(fs, t, parts[1..], optional);
          assert Follow(fs.dirs, t, parts[1..], q[1..]) == Follow(fs.dirs, at, parts, q);
          assert parts[1..][|q[1..]|..] == parts[|q|..];
        }
      }
    }
  }

  ghost predicate AllMatched(fs: FileSystem, es: seq<Entry>, path: Path, parts: seq<Part>, optional: bool) {
    forall name :: Lookup(es, name).Some? ==> Match(fs, Lookup(es, name).value, path + [name], parts, optional).error.None?
  }

  lemma {:induction false} MatchAllSucceeds(fs: FileSystem, es: seq<Entry>, path: Path, parts: seq<Part>, optional: bool)
    requires Distinct(es)
    ensures MatchAll(fs, es, path, parts, optional).error.None? <==> AllMatched(fs, es, path, parts, optional)
    decreases |es|
  {
    if es != [] {
      TailDistinct(es);
      MatchAllSucceeds(fs, es[1..], path, parts, optional);
      assert Lookup(es, es[0].name) == Some(es[0].target);
      if AllMatched(fs, es, path, parts, optional) {
        forall name | Lookup(es[1..], name).Some? ensures Match(fs, Lookup(es[1..], name).value, path + [name], parts, optional).error.None? {
          LookupRest(es, name);
          assert Lookup(es, name) == Lookup(es[1..], name);
        }
      }
    }
  }

  lemma {:induction false} FirstIsFound(es: seq<Entry>)
    ensures es != [] <==> exists name :: Lookup(es, name).Some?
  {
    if es != [] {
      assert Lookup(es, es[0].name).Some?;
    }
  }

  /** An expansion ends without an error if and only if, along every way the parts allow, every literal part is
      there, every wildcard is in a directory that can be opened and matches or is optional, and everything the
      parts stand for can be read: directories opened, fewer than 128 levels deep, and no file bad. */
  lemma {:induction false} ExpansionSucceeds(fs: FileSystem, at: Target, path: Path, parts: seq<Part>, optional: bool)
    requires WellNamed(fs)
    ensures Match(fs, at, path, parts, optional).error.None? <==> AllFine(fs, at, parts, optional)
    decreases |parts|, 1
  {
    if parts == [] {
      VisitSucceeds(fs, at, path, 0);
      assert Follow(fs.dirs, at, parts, []) == Some(at);
      assert forall q: Path :: |q| <= 0 ==> q == [];
    } else {
      AllFineStep(fs, at, parts, optional);
      if parts[0].Literal? {
        LiteralSucceeds(fs, at, path, parts, optional);
      } else if at.Dir? && at.node in fs.dirs {
        WildSucceeds(fs, at, path, parts, optional);
      }
    }
  }

  lemma {:induction false} LiteralSucceeds(fs: FileSystem, at: Target, path: Path, parts: seq<Part>, optional: bool)
    requires WellNamed(fs) && parts != [] && parts[0].Literal?
    ensures Match(fs, at, path, parts, optional).error.None? <==>
              && PartFine(fs, at, parts, optional)
              && forall name :: Chosen(fs.dirs, at, parts, name).Some? ==> AllFine(fs, Chosen(fs.dirs, at, parts, name).value, parts[1..], optional)
    decreases |parts|, 0
  {
    var name := parts[0].name;
    if Child(fs.dirs, at, name).Some? {
      var t := Child(fs.dirs, at, name).value;
      ExpansionSucceeds(fs, t, path + [name], parts[1..], optional);
      assert Chosen(fs.dirs, at, parts, name) == Some(t);
    }
  }

  lemma {:induction false} WildSucceeds(fs: FileSystem, at: Target, path: Path, parts: seq<Part>, optional: bool)
    requires WellNamed(fs) && parts != [] && parts[0].Wild? && at.Dir? && at.node in fs.dirs
    ensures Match(fs, at, path, parts, optional).error.None? <==>
              && PartFine(fs, at, parts, optional)
              && forall name :: Chosen(fs.dirs, at, parts, name).Some? ==> AllFine(fs, Chosen(fs.dirs, at, parts, name).value, parts[1..], optional)
    decreases |parts|, 0
  {
    var listed := Real(fs.dirs[at.node]);
    RealKeeps(fs.dirs[at.node]);
    PickedKeeps(listed, parts[0].matches, |parts| > 1);
    var picked := Picked(listed, parts[0].matches, |parts| > 1);
    var es := Sort(picked);
    SortKeeps(picked, "");
    AscendingDistinct(es);
    MatchAllSucceeds(fs, es, path, parts[1..], optional);
    forall name ensures Lookup(es, name) == Chosen(fs.dirs, at, parts, name) {
      SortKeeps(picked, name);
    }
    forall name | Lookup(es, name).Some?
      ensures Match(fs, Lookup(es, name).value, path + [name], parts[1..], optional).error.None?
              <==> AllFine(fs, Lookup(es, name).value, parts[1..], optional)
    {
      ExpansionSucceeds(fs, Lookup(es, name).value, path + [name], parts[1..], optional);
    }
    FirstIsFound(es);
  }

  // ----- what the error tells

  function Fault(t: Target, depth: nat): Error {
    if t.File? then BadFile(t.key) else if depth >= 128 then TooDeep else CannotOpen
  }

  /** `q` leads to what the error `e` is about. */
  ghost predicate Culprit(fs: FileSystem, at: Target, depth: nat, q: Path, e: Error) {
    var t := Leads(fs, at, q); t.Some? && !Fine(fs, t.value, depth + |q|) && e == Fault(t.value, depth + |q|)
  }

  /** The error of a directory gone through is that of a file or a directory in it. */
  lemma {:induction false} VisitErrorTells(fs: FileSystem, at: Target, path: Path, depth: nat) returns (q: Path)
    requires WellNamed(fs) && depth <= MAX_DEPTH && Visit(fs, at, path, depth).error.Some?
    ensures Culprit(fs, at, depth, q, Visit(fs, at, path, depth).error.value)
    decreases MAX_DEPTH - depth, 0
  {
    q := [];
    if at.Dir? && depth < MAX_DEPTH && at.node in fs.dirs {
      var listed := Real(fs.dirs[at.node]);
      RealKeeps(fs.dirs[at.node]);
      SortKeeps(listed, "");
      AscendingDistinct(Sort(listed));
      var name, rest := AllErrorTells(fs, Sort(listed), path, depth + 1);
      SortKeeps(listed, name);
      q := [name] + rest;
      assert q[1..] == rest && Leads(fs, at, q) == Leads(fs, Lookup(listed, name).value, rest);
    }
  }

  lemma {:induction false} AllErrorTells(fs: FileSystem, es: seq<Entry>, path: Path, depth: nat) returns (name: string, q: Path)
    requires WellNamed(fs) && Distinct(es) && depth <= MAX_DEPTH && VisitAll(fs, es, path, depth).error.Some?
    ensures Lookup(es, name).Some? && Culprit(fs, Lookup(es, name).value, depth, q, VisitAll(fs, es, path, depth).error.value)
    decreases MAX_DEPTH - depth, 1 + |es|
  {
    if Visit(fs, es[0].target, path + [es[0].name], depth).error.Some? {
      name := es[0].name;
      q := VisitErrorTells(fs, es[0].target, path + [name], depth);
    } else {
      TailDistinct(es);
      name, q := AllErrorTells(fs, es[1..], path, depth);
      LookupRest(es, name);
    }
  }

  /** The parts are followed along `q` to where the error `e` comes from. */
  ghost predicate PartCulprit(fs: FileSystem, at: Target, parts: seq<Part>, optional: bool, q: Path, e: Error) {
    && |q| <= |parts| && Follow(fs.dirs, at, parts, q).Some?
    && var t, rest := Follow(fs.dirs, at, parts, q).value, parts[|q|..];
       if rest == [] then exists below :: Culprit(fs, t, 0, below, e)
       else if rest[0].Literal? then Child(fs.dirs, t, rest[0].name).None? && e == CannotOpen
       else if t.File? || t.node !in fs.dirs then e == CannotOpen
       else !optional && e == NoMatch && forall name :: Chosen(fs.dirs, t, rest, name).None?
  }

  lemma PartCulpritOn(fs: FileSystem, at: Target, parts: seq<Part>, optional: bool, name: string, q: Path, e: Error)
    requires parts != [] && Chosen(fs.dirs, at, parts, name).Some?
    requires PartCulprit(fs, Chosen(fs.dirs, at, parts, name).value, parts[1..], optional, q, e)
    ensures PartCulprit(fs, at, parts, optional, [name] + q, e)
  {
    var q' := [name] + q;
    assert q'[1..] == q && parts[1..][|q|..] == parts[|q'|..];
  }

  /** The error of an expansion is that of the part, or of the file or directory, where it is met. */
  lemma {:induction false} ErrorTells(fs: FileSystem, at: Target, path: Path, parts: seq<Part>, optional: bool) returns (q: Path)
    requires WellNamed(fs) && Match(fs, at, path, parts, optional).error.Some?
    ensures PartCulprit(fs, at, parts, optional, q, Match(fs, at, path, parts, optional).error.value)
    decreases |parts|, 0
  {
    q := [];
    assert parts[0..] == parts;
    if parts == [] {
      var below := VisitErrorTells(fs, at, path, 0);
    } else if parts[0].Literal? {
      var name := parts[0].name;
      if Child(fs.dirs, at, name).Some? {
        var rest := ErrorTells(fs, Child(fs.dirs, at, name).value, path + [name], parts[1..], optional);
        PartCulpritOn(fs, at, parts, optional, name, rest, Match(fs, at, path, parts, optional).error.value);
        q := [name] + rest;
      }
    } else if at.Dir? && at.node in fs.dirs {
      q := WildErrorTells(fs, at, path, parts, optional);
    }
  }

  lemma {:induction false} WildErrorTells(fs: FileSystem, at: Target, path: Path, parts: seq<Part>, optional: bool) returns (q: Path)
    requires WellNamed(fs) && parts != [] && parts[0].Wild? && at.Dir? && at.node in fs.dirs
    requires Match(fs, at, path, parts, optional).error.Some?
    ensures PartCulprit(fs, at, parts, optional, q, Match(fs, at, path, parts, optional).error.value)
    decreases |parts|, 0, 0
  {
    var listed := Real(fs.dirs[at.node]);
    RealKeeps(fs.dirs[at.node]);
    PickedKeeps(listed, parts[0].matches, |parts| > 1);
    var picked := Picked(listed, parts[0].matches, |parts| > 1);
    SortKeeps(picked, "");
    AscendingDistinct(Sort(picked));
    FirstIsFound(Sort(picked));
    if Sort(picked) == [] {
      q := [];
      assert parts[0..] == parts;
      forall name ensures Chosen(fs.dirs, at, parts, name).None? {
        SortKeeps(picked, name);
      }
    } else {
      var name, rest := AnyErrorTells(fs, Sort(picked), path, parts[1..], optional);
      SortKeeps(picked, name);
      PartCulpritOn(fs, at, parts, optional, name, rest, Match(fs, at, path, parts, optional).error.value);
      q := [name] + rest;
    }
  }

  lemma {:induction false} AnyErrorTells(fs: FileSystem, es: seq<Entry>, path: Path, parts: seq<Part>, optional: bool)
      returns (name: string, q: Path)
    requires WellNamed(fs) && Distinct(es) && MatchAll(fs, es, path, parts, optional).error.Some?
    ensures Lookup(es, name).Some?
    ensures PartCulprit(fs, Lookup(es, name).value, parts, optional, q, MatchAll(fs, es, path, parts, optional).error.value)
    decreases |parts|, 1 + |es|
  {
    if Match(fs, es[0].target, path + [es[0].name], parts, optional).error.Some? {
      name := es[0].name;
      q := ErrorTells(fs, es[0].target, path + [name], parts, optional);
    } else {
      TailDistinct(es);
      name, q := AnyErrorTells(fs, es[1..], path, parts, optional);
      LookupRest(es, name);
    }
  }

  // ----- the first error ends it

  /** Only the last file can be a bad one, and then that is the error. */
  ghost predicate StopsAtBad(bad: set<nat>, keys: seq<nat>, error: Option<Error>) {
    && (forall k :: 0 <= k < |keys| - 1 ==> keys[k] !in bad)
    && if keys != [] && keys[|keys| - 1] in bad then error == Some(BadFile(keys[|keys| - 1])) else NotBadFile(error)
  }

  predicate NotBadFile(error: Option<Error>) {
    error.None? || !error.value.BadFile?
  }

  /** With bad files, an outcome is the same as without, or breaks off. */
  ghost predicate BreaksOff(r: Outcome, r0: Outcome) {
    r.visited <= r0.visited && NotBadFile(r0.error) && (NotBadFile(r.error) ==> r == r0)
  }

  lemma StopsJoined(bad: set<nat>, a: seq<nat>, b: seq<nat>, error: Option<Error>)
    requires StopsAtBad(bad, a, None) && StopsAtBad(bad, b, error)
    ensures StopsAtBad(bad, a + b, error)
  {
    assert forall k :: 0 <= k < |a| ==> a[k] !in bad;
  }

  /** The files gone through are `keys`, as paths from `at`. */
  ghost predicate AreKeys(dirs: map<nat, seq<Entry>>, at: Target, parts: seq<Part>, path: Path, vs: seq<Path>, keys: seq<nat>) {
    |keys| == |vs| && forall k :: 0 <= k < |vs| ==> StartsWith(vs[k], path) && KeyOf(dirs, at, parts, vs[k][|path|..]) == Some(keys[k])
  }

  /** The same, by a name of the directory first. */
  ghost predicate AreKeysBelow(dirs: map<nat, seq<Entry>>, es: seq<Entry>, parts: seq<Part>, path: Path, vs: seq<Path>, keys: seq<nat>) {
    |keys| == |vs| && forall k :: 0 <= k < |vs| ==>
      && StartsWith(vs[k], path) && |vs[k]| > |path| && Lookup(es, vs[k][|path|]).Some?
      && KeyOf(dirs, Lookup(es, vs[k][|path|]).value, parts, vs[k][|path| + 1..]) == Some(keys[k])
  }

  lemma KeysJoined(dirs: map<nat, seq<Entry>>, es: seq<Entry>, parts: seq<Part>, path: Path, a: seq<Path>, b: seq<Path>, ka: seq<nat>, kb: seq<nat>)
    requires es != [] && Ascending(es)
    requires AreKeys(dirs, es[0].target, parts, path + [es[0].name], a, ka) && AreKeysBelow(dirs, es[1..], parts, path, b, kb)
    ensures AreKeysBelow(dirs, es, parts, path, a + b, ka + kb) && AreKeysBelow(dirs, es, parts, path, a, ka)
  {
    var name := es[0].name;
    AscendingDistinct(es);
    LookupRest(es, name);
    forall k | 0 <= k < |a| ensures StartsWith(a[k], path) && |a[k]| > |path| && a[k][|path|] == name {
      ParentPath(a[k], path, name);
    }
    forall k | 0 <= k < |b| ensures Lookup(es, b[k][|path|]) == Lookup(es[1..], b[k][|path|]) {
    }
  }

  lemma {:induction false} VisitStops(fs: FileSystem, at: Target, path: Path, depth: nat) returns (keys: seq<nat>)
    requires WellNamed(fs) && depth <= MAX_DEPTH
    ensures var r := Visit(fs, at, path, depth);
            && AreKeys(fs.dirs, at, [], path, r.visited, keys) && StopsAtBad(fs.bad, keys, r.error)
            && BreaksOff(r, Visit(fs.(bad := {}), at, path, depth))
    decreases MAX_DEPTH - depth, 0
  {
    if at.File? {
      keys := [at.key];
      assert path[|path|..] == [];
    } else if depth == MAX_DEPTH || at.node !in fs.dirs {
      keys := [];
    } else {
      var listed := Real(fs.dirs[at.node]);
      RealKeeps(fs.dirs[at.node]);
      SortKeeps(listed, "");
      keys := VisitAllStops(fs, Sort(listed), path, depth + 1);
      KeysByEntry(fs.dirs, at, path, Visit(fs, at, path, depth).visited, keys);
    }
  }

  /** Keys below the entries of a directory are keys below the directory. */
  lemma KeysByEntry(dirs: map<nat, seq<Entry>>, at: Target, path: Path, vs: seq<Path>, keys: seq<nat>)
    requires at.Dir? && at.node in dirs && Distinct(dirs[at.node])
    requires AreKeysBelow(dirs, Sort(Real(dirs[at.node])), [], path, vs, keys)
    ensures AreKeys(dirs, at, [], path, vs, keys)
  {
    var listed := Real(dirs[at.node]);
    RealKeeps(dirs[at.node]);
    forall k | 0 <= k < |vs| ensures KeyAt(dirs, at, vs[k][|path|..]) == Some(keys[k]) {
      SortKeeps(listed, vs[k][|path|]);
      assert vs[k][|path|..][1..] == vs[k][|path| + 1..];
    }
  }

  lemma {:induction false} VisitAllStops(fs: FileSystem, es: seq<Entry>, path: Path, depth: nat) returns (keys: seq<nat>)
    requires WellNamed(fs) && Ascending(es) && depth <= MAX_DEPTH
    ensures var r := VisitAll(fs, es, path, depth);
            && AreKeysBelow(fs.dirs, es, [], path, r.visited, keys) && StopsAtBad(fs.bad, keys, r.error)
            && BreaksOff(r, VisitAll(fs.(bad := {}), es, path, depth))
    decreases MAX_DEPTH - depth, 1 + |es|
  {
    if es == [] {
      keys := [];
    } else {
      var ka := VisitStops(fs, es[0].target, path + [es[0].name], depth);
      var kb := VisitAllStops(fs, es[1..], path, depth);
      var first, rest := Visit(fs, es[0].target, path + [es[0].name], depth), VisitAll(fs, es[1..], path, depth);
      KeysJoined(fs.dirs, es, [], path, first.visited, rest.visited, ka, kb);
      if first.error.None? {
        StopsJoined(fs.bad, ka, kb, rest.error);
      }
      keys := if first.error.None? then ka + kb else ka;
    }
  }

  /** Keys below a child are keys below the directory, by a part that names the child. */
  lemma KeysByName(dirs: map<nat, seq<Entry>>, at: Target, parts: seq<Part>, path: Path, vs: seq<Path>, keys: seq<nat>)
    requires parts != [] && parts[0].Literal? && Child(dirs, at, parts[0].name).Some?
    requires AreKeys(dirs, Child(dirs, at, parts[0].name).value, parts[1..], path + [parts[0].name], vs, keys)
    ensures AreKeys(dirs, at, parts, path, vs, keys)
  {
    forall k | 0 <= k < |vs| ensures StartsWith(vs[k], path) && KeyOf(dirs, at, parts, vs[k][|path|..]) == Some(keys[k]) {
      ParentPath(vs[k], path, parts[0].name);
      assert vs[k][|path|..][1..] == vs[k][|path| + 1..];
    }
  }

  lemma {:induction false} MatchStops(fs: FileSystem, at: Target, path: Path, parts: seq<Part>, optional: bool) returns (keys: seq<nat>)
    requires WellNamed(fs)
    ensures var r := Match(fs, at, path, parts, optional);
            && AreKeys(fs.dirs, at, parts, path, r.visited, keys) && StopsAtBad(fs.bad, keys, r.error)
            && BreaksOff(r, Match(fs.(bad := {}), at, path, parts, optional))
    decreases |parts|, 0
  {
    var vs := Match(fs, at, path, parts, optional).visited;
    keys := [];
    if parts == [] {
      keys := VisitStops(fs, at, path, 0);
    } else if parts[0].Literal? {
      var name := parts[0].name;
      if Child(fs.dirs, at, name).Some? {
        keys := MatchStops(fs, Child(fs.dirs, at, name).value, path + [name], parts[1..], optional);
        KeysByName(fs.dirs, at, parts, path, vs, keys);
      }
    } else if at.Dir? && at.node in fs.dirs {
      var listed := Real(fs.dirs[at.node]);
      RealKeeps(fs.dirs[at.node]);
      PickedKeeps(listed, parts[0].matches, |parts| > 1);
      var picked := Picked(listed, parts[0].matches, |parts| > 1);
      SortKeeps(picked, "");
      if Sort(picked) != [] {
        keys := MatchAllStops(fs, Sort(picked), path, parts[1..], optional);
        forall k | 0 <= k < |vs| ensures StartsWith(vs[k], path) && KeyOf(fs.dirs, at, parts, vs[k][|path|..]) == Some(keys[k]) {
          SortKeeps(picked, vs[k][|path|]);
          assert vs[k][|path|..][1..] == vs[k][|path| + 1..];
        }
      }
    }
  }

  lemma {:induction false} MatchAllStops(fs: FileSystem, es: seq<Entry>, path: Path, parts: seq<Part>, optional: bool) returns (keys: seq<nat>)
    requires WellNamed(fs) && Ascending(es)
    ensures var r := MatchAll(fs, es, path, parts, optional);
            && AreKeysBelow(fs.dirs, es, parts, path, r.visited, keys) && StopsAtBad(fs.bad, keys, r.error)
            && BreaksOff(r, MatchAll(fs.(bad := {}), es, path, parts, optional))
    decreases |parts|, 1 + |es|
  {
    if es == [] {
      keys := [];
    } else {
      var ka := MatchStops(fs, es[0].target, path + [es[0].name], parts, optional);
      var kb := MatchAllStops(fs, es[1..], path, parts, optional);
      var first, rest := Match(fs, es[0].target, path + [es[0].name], parts, optional), MatchAll(fs, es[1..], path, parts, optional);
      KeysJoined(fs.dirs, es, parts, path, first.visited, rest.visited, ka, kb);
      if first.error.None? {
        StopsJoined(fs.bad, ka, kb, rest.error);
      }
      keys := if first.error.None? then ka + kb else ka;
    }
  }

  /** The file at a place of an expansion. */
  function FileOf(fs: FileSystem, at: Target, path: Path, parts: seq<Part>, v: Path): Option<nat> {
    if |path| <= |v| then KeyOf(fs.dirs, at, parts, v[|path|..]) else None
  }

  ghost predicate IsBad(fs: FileSystem, at: Target, path: Path, parts: seq<Part>, v: Path) {
    var f := FileOf(fs, at, path, parts, v); f.Some? && f.value in fs.bad
  }

  /** The first error ends it: every file gone through is one the name stands for, only the last can be bad,
      and the error is that of a file exactly when it is; and what is gone through is the beginning of what
      would be without bad files, all of it, with the same error, if and only if none of those is bad. */
  lemma ExpansionStops(fs: FileSystem, at: Target, path: Path, parts: seq<Part>, optional: bool)
    requires WellNamed(fs)
    ensures var r, r0 := Match(fs, at, path, parts, optional), Match(fs.(bad := {}), at, path, parts, optional);
            var vs, n := r.visited, |r.visited|;
            && (forall k :: 0 <= k < n ==> FileOf(fs, at, path, parts, vs[k]).Some?)
            && (forall k :: 0 <= k < n - 1 ==> !IsBad(fs, at, path, parts, vs[k]))
            && (forall key: nat :: r.error == Some(BadFile(key)) <==> n > 0 && FileOf(fs, at, path, parts, vs[n - 1]) == Some(key) && key in fs.bad)
            && vs <= r0.visited
            && (r == r0 <==> forall k :: 0 <= k < |r0.visited| ==> !IsBad(fs, at, path, parts, r0.visited[k]))
  {
    var keys := MatchStops(fs, at, path, parts, optional);
    StopsByFile(fs, at, path, parts, Match(fs, at, path, parts, optional), Match(fs.(bad := {}), at, path, parts, optional), keys);
  }

  lemma StopsByFile(fs: FileSystem, at: Target, path: Path, parts: seq<Part>, r: Outcome, r0: Outcome, keys: seq<nat>)
    requires AreKeys(fs.dirs, at, parts, path, r.visited, keys) && StopsAtBad(fs.bad, keys, r.error) && BreaksOff(r, r0)
    ensures var vs, n := r.visited, |r.visited|;
            && (forall k :: 0 <= k < n ==> FileOf(fs, at, path, parts, vs[k]).Some?)
            && (forall k :: 0 <= k < n - 1 ==> !IsBad(fs, at, path, parts, vs[k]))
            && (forall key: nat :: r.error == Some(BadFile(key)) <==> n > 0 && FileOf(fs, at, path, parts, vs[n - 1]) == Some(key) && key in fs.bad)
            && vs <= r0.visited
            && (r == r0 <==> forall k :: 0 <= k < |r0.visited| ==> !IsBad(fs, at, path, parts, r0.visited[k]))
  {
    var vs, n := r.visited, |r.visited|;
    forall k | 0 <= k < n ensures FileOf(fs, at, path, parts, vs[k]) == Some(keys[k]) && vs[k] == r0.visited[k] {
    }
    if r != r0 {
      assert IsBad(fs, at, path, parts, r0.visited[n - 1]);
    }
  }

  // ----- as the files are gone through

  class Loader {
    const fs: FileSystem
    var visited: seq<Path>

    constructor (fs: FileSystem)
      ensures this.fs == fs && visited == []
    {
      this.fs := fs;
      visited := [];
    }

    /** `process_resource_config_nofnmatch` */
    method ProcessNoFnmatch(at: Target, path: Path, depth: nat) returns (error: Option<Error>)
      requires depth <= MAX_DEPTH
      modifies this`visited
      ensures Outcome(visited, error) == Outcome(old(visited) + Visit(fs, at, path, depth).visited, Visit(fs, at, path, depth).error)
      decreases MAX_DEPTH - depth
    {
      if at.File? {
        visited := visited + [path];
        return if at.key in fs.bad then Some(BadFile(at.key)) else None;
      }
      assert visited + [] == visited;
      if depth + 1 > MAX_DEPTH {
        return Some(TooDeep);
      }
      if at.node !in fs.dirs {
        return Some(CannotOpen);
      }
      var candidates := Sort(Real(fs.dirs[at.node]));
      var current := 0;
      ghost var all := VisitAll(fs, candidates, path, depth + 1);
      while current < |candidates|
        invariant current <= |candidates|
        invariant var rest := VisitAll(fs, candidates[current..], path, depth + 1);
                  visited + rest.visited == old(visited) + all.visited && rest.error == all.error
      {
        assert candidates[current..][1..] == candidates[current + 1..];
        error := ProcessNoFnmatch(candidates[current].target, path + [candidates[current].name], depth + 1);
        if error.Some? {
          return;
        }
        current := current + 1;
      }
      error := None;
    }

    /** `process_resource_config_fnmatch`; no parts are left once a name is whole. */
    method ProcessFnmatch(at: Target, path: Path, parts: seq<Part>, optional: bool) returns (error: Option<Error>)
      modifies this`visited
      ensures var r := Match(fs, at, path, parts, optional); visited == old(visited) + r.visited && error == r.error
      decreases |parts|, 1
    {
      assert visited + [] == visited;
      if parts == [] {
        error := ProcessNoFnmatch(at, path, 0);
        return;
      }
      if parts[0].Literal? {
        var child := Child(fs.dirs, at, parts[0].name);
        if child.None? {
          return Some(CannotOpen);
        }
        error := ProcessFnmatch(child.value, path + [parts[0].name], parts[1..], optional);
        return;
      }
      if at.File? || at.node !in fs.dirs {
        return Some(CannotOpen);
      }
      var candidates := Sort(Picked(Real(fs.dirs[at.node]), parts[0].matches, |parts| > 1));
      if candidates == [] {
        return if optional then None else Some(NoMatch);
      }
      error := ProcessEach(candidates, path, parts, optional);
    }

    method ProcessEach(candidates: seq<Entry>, path: Path, parts: seq<Part>, optional: bool) returns (error: Option<Error>)
      requires parts != []
      modifies this`visited
      ensures var r := MatchAll(fs, candidates, path, parts[1..], optional); visited == old(visited) + r.visited && error == r.error
      decreases |parts|, 0
    {
      var current := 0;
      ghost var all := MatchAll(fs, candidates, path, parts[1..], optional);
      assert candidates[0..] == candidates;
      while current < |candidates|
        invariant current <= |candidates|
        invariant var rest := MatchAll(fs, candidates[current..], path, parts[1..], optional);
                  visited + rest.visited == old(visited) + all.visited && rest.error == all.error
      {
        assert candidates[current..][1..] == candidates[current + 1..];
        error := ProcessFnmatch(candidates[current].target, path + [candidates[current].name], parts[1..], optional);
        if error.Some? {
          return;
        }
        current := current + 1;
      }
      assert visited + [] == visited;
      error := None;
    }
  }
}
