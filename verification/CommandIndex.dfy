/** The hash of commands by name, filled as modules are added, and the search through the list of
    modules for the same names.
 */
module CommandIndex {
  import opened Wrappers
  import opened ConfigModel
  import opened ConfigProofs
  import M = ModuleTable

  /** `ap_mod_list` */
  datatype Entry = Entry(m: M.Module, cmd: M.Command)

  type Hash = map<string, seq<Entry>>

  function Get(h: Hash, key: string): seq<Entry> {
    if key in h then h[key] else []
  }

  function AddCommand(h: Hash, m: M.Module, cmd: M.Command): Hash {
    h[Lower(cmd.name) := [Entry(m, cmd)] + Get(h, Lower(cmd.name))]
  }

  function AddCommands(h: Hash, m: M.Module, cmds: seq<M.Command>): Hash
    decreases |cmds|
  {
    if cmds == [] then h else AddCommands(AddCommand(h, m, cmds[0]), m, cmds[1..])
  }

  /** The hash once the modules have been added, in order. */
  function Index(ms: seq<M.Module>): Hash {
    if ms == [] then map[]
    else var m := ms[|ms| - 1]; AddCommands(Index(ms[..|ms| - 1]), m, m.commands)
  }

  // ----- what it should hold

  /** The commands of a module under a lower-cased name, the last first. */
  function Under(m: M.Module, cmds: seq<M.Command>, key: string): seq<Entry> {
    if cmds == [] then []
    else Under(m, cmds[1..], key) + if Lower(cmds[0].name) == key then [Entry(m, cmds[0])] else []
  }

  /** The same of all modules, the newest first. */
  function AllUnder(ms: seq<M.Module>, key: string): seq<Entry> {
    if ms == [] then []
    else var m := ms[|ms| - 1]; Under(m, m.commands, key) + AllUnder(ms[..|ms| - 1], key)
  }

  lemma {:induction false} AddCommandsIs(h: Hash, m: M.Module, cmds: seq<M.Command>, key: string)
    ensures Get(AddCommands(h, m, cmds), key) == Under(m, cmds, key) + Get(h, key)
    decreases |cmds|
  {
    if cmds != [] {
      AddCommandsIs(AddCommand(h, m, cmds[0]), m, cmds[1..], key);
    }
  }

  /** The hash lists, under every lower-cased name, exactly the commands of that name, the newest module first. */
  lemma {:induction false} IndexIsComplete(ms: seq<M.Module>, key: string)
    ensures Get(Index(ms), key) == AllUnder(ms, key)
  {
    if ms != [] {
      var m := ms[|ms| - 1];
      IndexIsComplete(ms[..|ms| - 1], key);
      AddCommandsIs(Index(ms[..|ms| - 1]), m, m.commands, key);
    }
  }

  // ----- the search

  /** `ap_find_command` */
  function Find(cmds: seq<M.Command>, name: string): Option<M.Command> {
    if cmds == [] then None
    else if SameName(name, cmds[0].name) then Some(cmds[0]) else Find(cmds[1..], name)
  }

  /** `ap_find_command_in_modules` */
  function Scan(linked: seq<M.Module>, name: string): Option<Entry> {
    if linked == [] then None
    else match Find(linked[0].commands, name)
      case Some(cmd) => Some(Entry(linked[0], cmd))
      case None => Scan(linked[1..], name)
  }

  function Head(es: seq<Entry>): Option<Entry> {
    if es == [] then None else Some(es[0])
  }

  /** The last command of the name, where `Find` gives the first. */
  function FindLast(cmds: seq<M.Command>, name: string): Option<M.Command> {
    if cmds == [] then None
    else
      var later := FindLast(cmds[1..], name);
      if later.Some? then later else if SameName(name, cmds[0].name) then Some(cmds[0]) else None
  }

  lemma {:induction false} UnderIsFindLast(m: M.Module, cmds: seq<M.Command>, name: string)
    ensures var last, es := FindLast(cmds, name), Under(m, cmds, Lower(name));
            Head(es) == if last.Some? then Some(Entry(m, last.value)) else None
  {
    if cmds != [] {
      UnderIsFindLast(m, cmds[1..], name);
    }
  }

  lemma {:induction false} BothOrNeither(cmds: seq<M.Command>, name: string)
    ensures Find(cmds, name).Some? <==> FindLast(cmds, name).Some?
  {
    if cmds != [] {
      BothOrNeither(cmds[1..], name);
    }
  }

  /** The newest module that has a command of the name. */
  function Newest(linked: seq<M.Module>, name: string): Option<M.Module> {
    if linked == [] then None
    else if Find(linked[0].commands, name).Some? then Some(linked[0]) else Newest(linked[1..], name)
  }

  /** The first and the last command of that name in the newest module that has one are the same. */
  predicate NotRepeated(linked: seq<M.Module>, name: string) {
    var m := Newest(linked, name);
    m.Some? ==> Find(m.value.commands, name) == FindLast(m.value.commands, name)
  }

  lemma {:induction false} HeadOrScan(ms: seq<M.Module>, name: string)
    ensures var linked, head := M.Reversed(ms), Head(AllUnder(ms, Lower(name)));
            && (head == Scan(linked, name) <==> NotRepeated(linked, name))
            && (head.Some? <==> Scan(linked, name).Some?)
            && (head.Some? ==> Scan(linked, name).value.m == head.value.m)
  {
    if ms != [] {
      var n := |ms| - 1;
      var m := ms[n];
      HeadOrScan(ms[..n], name);
      UnderIsFindLast(m, m.commands, name);
      BothOrNeither(m.commands, name);
      assert M.Reversed(ms)[0] == m && M.Reversed(ms)[1..] == M.Reversed(ms[..n]);
    }
  }

  /** The hash and the search name the same module for every name; and the same command exactly when the
      module does not repeat the name with another command. */
  lemma HashAgreesWithScan(ms: seq<M.Module>, name: string)
    ensures var linked, head := M.Reversed(ms), Head(Get(Index(ms), Lower(name)));
            && (head == Scan(linked, name) <==> NotRepeated(linked, name))
            && (head.Some? <==> Scan(linked, name).Some?)
            && (head.Some? ==> Scan(linked, name).value.m == head.value.m)
  {
    IndexIsComplete(ms, Lower(name));
    HeadOrScan(ms, name);
  }

  /** A module that has two commands of one name: the hash gives the second, the search the first. */
  lemma RepeatedNameDiffers(id: nat, a: M.Command, b: M.Command)
    requires a.name == b.name && a != b
    ensures var m := M.Module(id, true, None, [a, b]);
            && Head(Get(Index([m]), Lower(a.name))) == Some(Entry(m, b))
            && Scan(M.Reversed([m]), a.name) == Some(Entry(m, a))
  {
    var m := M.Module(id, true, None, [a, b]);
    assert [a, b][1..] == [b] && [b][1..] == [];
    assert M.Reversed([m]) == [m] + M.Reversed([m][..0]) == [m];
    IndexIsComplete([m], Lower(a.name));
    UnderIsFindLast(m, [a, b], a.name);
    assert FindLast([b], a.name) == Some(b);
    assert FindLast([a, b], a.name) == Some(b);
  }

  /** The commands of a module by a name, whatever its case. */
  ghost predicate Called(cmds: seq<M.Command>, name: string, i: int) {
    0 <= i < |cmds| && Alike(name, cmds[i].name)
  }

  /** The search in a module finds the first command of the name, in whatever case, and nothing if there is none. */
  lemma {:induction false} FindIsFirst(cmds: seq<M.Command>, name: string) returns (i: int)
    ensures Find(cmds, name).None? ==> forall k :: !Called(cmds, name, k)
    ensures Find(cmds, name).Some? ==> Called(cmds, name, i) && Find(cmds, name).value == cmds[i] && forall k :: k < i ==> !Called(cmds, name, k)
  {
    i := -1;
    if cmds != [] {
      SameNameIs(name, cmds[0].name);
      if Find(cmds, name) == Some(cmds[0]) && Alike(name, cmds[0].name) {
        i := 0;
      } else {
        var j := FindIsFirst(cmds[1..], name);
        i := j + 1;
        forall k | Called(cmds, name, k) ensures Called(cmds[1..], name, k - 1) {
          assert cmds[k] == cmds[1..][k - 1];
        }
      }
    }
  }

  /** What the hash holds under a name are the commands of the modules of that name, in whatever case. */
  lemma FiledUnder(ms: seq<M.Module>, name: string, e: Entry)
    ensures e in Get(Index(ms), Lower(name)) <==> e.m in ms && e.cmd in e.m.commands && Alike(e.cmd.name, name)
  {
    IndexIsComplete(ms, Lower(name));
    AllUnderIs(ms, name, e);
    SameNameIs(e.cmd.name, name);
  }

  lemma {:induction false} UnderIs(m: M.Module, cmds: seq<M.Command>, name: string, e: Entry)
    ensures e in Under(m, cmds, Lower(name)) <==> e.m == m && e.cmd in cmds && SameName(e.cmd.name, name)
  {
    if cmds != [] {
      UnderIs(m, cmds[1..], name, e);
      assert cmds == [cmds[0]] + cmds[1..];
    }
  }

  lemma {:induction false} AllUnderIs(ms: seq<M.Module>, name: string, e: Entry)
    ensures e in AllUnder(ms, Lower(name)) <==> e.m in ms && e.cmd in e.m.commands && SameName(e.cmd.name, name)
    decreases |ms|
  {
    if ms != [] {
      var p, m := ms[..|ms| - 1], ms[|ms| - 1];
      AllUnderIs(p, name, e);
      UnderIs(m, m.commands, name, e);
      assert ms == p + [m];
    }
  }

  // ----- as the hash is filled and the list searched

  class ConfigHash {
    var hash: Hash

    constructor ()
      ensures hash == map[]
    {
      hash := map[];
    }

    /** `ap_add_module_commands` */
    method AddModuleCommands(m: M.Module)
      modifies this
      ensures hash == AddCommands(old(hash), m, m.commands)
    {
      var i := 0;
      assert m.commands[0..] == m.commands;
      while i < |m.commands|
        invariant i <= |m.commands|
        invariant AddCommands(hash, m, m.commands[i..]) == AddCommands(old(hash), m, m.commands)
      {
        assert m.commands[i..][1..] == m.commands[i + 1..];
        var dir := Lower(m.commands[i].name);
        hash := hash[dir := [Entry(m, m.commands[i])] + Get(hash, dir)];
        i := i + 1;
      }
    }
  }

  /** `ap_find_command` */
  method FindCommand(name: string, cmds: seq<M.Command>) returns (r: Option<M.Command>)
    ensures r == Find(cmds, name)
  {
    var i := 0;
    while i < |cmds|
      invariant i <= |cmds| && Find(cmds[i..], name) == Find(cmds, name)
    {
      if SameName(name, cmds[i].name) {
        return Some(cmds[i]);
      }
      assert cmds[i..][1..] == cmds[i + 1..];
      i := i + 1;
    }
    r := None;
  }

  /** `ap_find_command_in_modules` */
  method FindCommandInModules(name: string, linked: seq<M.Module>) returns (r: Option<Entry>)
    ensures r == Scan(linked, name)
  {
    var i := 0;
    while i < |linked|
      invariant i <= |linked| && Scan(linked[i..], name) == Scan(linked, name)
    {
      var cmd := FindCommand(name, linked[i].commands);
      if cmd.Some? {
        return Some(Entry(linked[i], cmd.value));
      }
      assert linked[i..][1..] == linked[i + 1..];
      i := i + 1;
    }
    r := None;
  }

  /** Every module added in turn, as the prelinked ones and those of LoadModule are. */
  method AddAll(ms: seq<M.Module>) returns (c: ConfigHash)
    ensures c.hash == Index(ms)
  {
    c := new ConfigHash();
    var i := 0;
    while i < |ms|
      invariant i <= |ms| && fresh(c) && c.hash == Index(ms[..i])
    {
      assert ms[..i + 1][..i] == ms[..i];
      c.AddModuleCommands(ms[i]);
      i := i + 1;
    }
    assert ms[..i] == ms;
  }
}
