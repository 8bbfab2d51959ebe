/** The registry of providers: one index finds a provider by name, the other lists names and groups.
 */
module Providers {
  import opened Wrappers

  /** What was registered; `provider` may be NULL. */
  datatype Registration = Registration(group: string, name: string, version: string, provider: Option<nat>)

  /** `global_providers` by group, name and version, and `global_providers_names` by group and version. */
  datatype Registry = Registry(providers: map<string, map<string, map<string, nat>>>, names: map<string, map<string, set<string>>>)

  const EMPTY := Registry(map[], map[])

  /** `apr_hash_set`, which removes the key when the value is NULL */
  function HashSet(h: map<string, nat>, key: string, value: Option<nat>): map<string, nat> {
    if value.Some? then h[key := value.value] else h - {key}
  }

  /** `ap_register_provider` */
  function Register(s: Registry, r: Registration): Registry {
    var group := if r.group in s.providers then s.providers[r.group] else map[];
    var versions := if r.name in group then group[r.name] else map[];
    var listed := if r.group in s.names then s.names[r.group] else map[];
    var names := if r.version in listed then listed[r.version] else {};
    Registry(s.providers[r.group := group[r.name := HashSet(versions, r.version, r.provider)]],
             s.names[r.group := listed[r.version := names + {r.name}]])
  }

  function RegisterAll(rs: seq<Registration>): Registry {
    if rs == [] then EMPTY else Register(RegisterAll(rs[..|rs| - 1]), rs[|rs| - 1])
  }

  /** `ap_lookup_provider` */
  function Lookup(s: Registry, group: string, name: string, version: string): Option<nat> {
    if group in s.providers && name in s.providers[group] && version in s.providers[group][name]
    then Some(s.providers[group][name][version]) else None
  }

  /** `ap_list_provider_names` */
  function Names(s: Registry, group: string, version: string): set<string> {
    if group in s.names && version in s.names[group] then s.names[group][version] else {}
  }

  /** Whether `ap_list_provider_groups` comes to the pair. */
  predicate GroupListed(s: Registry, group: string, version: string) {
    group in s.names && version in s.names[group]
  }

  // ----- what was registered

  /** The latest registration under the three names. */
  function Latest(rs: seq<Registration>, group: string, name: string, version: string): Option<Registration> {
    if rs == [] then None
    else
      var r := rs[|rs| - 1];
      if r.group == group && r.name == name && r.version == version then Some(r)
      else Latest(rs[..|rs| - 1], group, name, version)
  }

  lemma {:induction false} LookupIsLatest(rs: seq<Registration>, group: string, name: string, version: string)
    ensures var l := Latest(rs, group, name, version);
            Lookup(RegisterAll(rs), group, name, version) == if l.Some? then l.value.provider else None
  {
    if rs != [] {
      LookupIsLatest(rs[..|rs| - 1], group, name, version);
    }
  }

  lemma {:induction false} ListedWasRegistered(rs: seq<Registration>, group: string, name: string, version: string)
    ensures name in Names(RegisterAll(rs), group, version) <==> Latest(rs, group, name, version).Some?
  {
    if rs != [] {
      ListedWasRegistered(rs[..|rs| - 1], group, name, version);
    }
  }

  /** The two indexes agree on a name exactly when what was last registered under it, if anything was, is
      not NULL; and then the one finds what was last registered. */
  lemma {:induction false} IndexesAgree(rs: seq<Registration>, group: string, name: string, version: string)
    ensures var s, l := RegisterAll(rs), Latest(rs, group, name, version);
            && ((name in Names(s, group, version) <==> Lookup(s, group, name, version).Some?) <==> (l.Some? ==> l.value.provider.Some?))
            && Lookup(s, group, name, version) == if l.Some? then l.value.provider else None
  {
    LookupIsLatest(rs, group, name, version);
    ListedWasRegistered(rs, group, name, version);
  }

  /** A group and version are listed exactly when something was registered for them, and then have a name. */
  lemma {:induction false} GroupsArePopulated(rs: seq<Registration>, group: string, version: string)
    ensures GroupListed(RegisterAll(rs), group, version) <==> exists i :: 0 <= i < |rs| && rs[i].group == group && rs[i].version == version
    ensures GroupListed(RegisterAll(rs), group, version) <==> Names(RegisterAll(rs), group, version) != {}
  {
    if rs != [] {
      var n := |rs| - 1;
      GroupsArePopulated(rs[..n], group, version);
      assert rs == rs[..n] + [rs[n]];
      if rs[n].group == group && rs[n].version == version {
        assert rs[n].name in Names(RegisterAll(rs), group, version);
      }
    }
  }

  // ----- the pairs of group and version

  ghost function PairsIn(s: Registry, group: string, versions: set<string>): set<(string, string)>
    requires group in s.names
  {
    set v | v in versions && v in s.names[group] :: (group, v)
  }

  /** The pairs of the groups. */
  ghost function PairsOf(s: Registry, groups: set<string>): set<(string, string)> {
    set g, v | g in groups && g in s.names && v in s.names[g] :: (g, v)
  }

  /** Every group and version there are names for. */
  ghost function Populated(s: Registry): set<(string, string)> {
    PairsOf(s, s.names.Keys)
  }

  lemma PairsAdd(s: Registry, group: string, versions: set<string>, v: string)
    requires group in s.names && v in s.names[group] && v !in versions
    ensures multiset(PairsIn(s, group, versions + {v})) == multiset(PairsIn(s, group, versions)) + multiset{(group, v)}
  {
    assert PairsIn(s, group, versions + {v}) == PairsIn(s, group, versions) + {(group, v)};
  }

  lemma GroupAdd(s: Registry, groups: set<string>, group: string)
    requires group !in groups
    ensures multiset(PairsOf(s, groups + {group})) == multiset(PairsOf(s, groups)) + multiset(PairsOf(s, {group}))
  {
    assert PairsOf(s, groups + {group}) == PairsOf(s, groups) + PairsOf(s, {group});
    assert PairsOf(s, groups) !! PairsOf(s, {group});
  }

  /** The pairs are those something was registered for, and each has a name. */
  lemma PopulatedAre(rs: seq<Registration>, group: string, version: string)
    ensures (group, version) in Populated(RegisterAll(rs)) <==> exists i :: 0 <= i < |rs| && rs[i].group == group && rs[i].version == version
    ensures (group, version) in Populated(RegisterAll(rs)) <==> Names(RegisterAll(rs), group, version) != {}
  {
    GroupsArePopulated(rs, group, version);
    assert (group, version) in Populated(RegisterAll(rs)) <==> GroupListed(RegisterAll(rs), group, version);
  }

  // ----- the hashes as they are changed and listed

  class ProviderTable {
    var providers: map<string, map<string, map<string, nat>>>
    var names: map<string, map<string, set<string>>>
    ghost var history: seq<Registration>

    /** The hashes are what the registrations so far have made of them. */
    ghost predicate Valid()
      reads this
    {
      Now() == RegisterAll(history)
    }

    function Now(): Registry
      reads this
    {
      Registry(providers, names)
    }

    constructor ()
      ensures Valid() && history == []
    {
      providers, names, history := map[], map[], [];
    }

    /** `ap_register_provider` */
    method RegisterProvider(r: Registration)
      requires Valid()
      modifies this
      ensures Valid() && history == old(history) + [r]
    {
      var group := map[];
      if r.group in providers {
        group := providers[r.group];
      }
      var versions := map[];
      if r.name in group {
        versions := group[r.name];
      }
      versions := HashSet(versions, r.version, r.provider);
      providers := providers[r.group := group[r.name := versions]];
      var listed := map[];
      if r.group in names {
        listed := names[r.group];
      }
      var known := {};
      if r.version in listed {
        known := listed[r.version];
      }
      names := names[r.group := listed[r.version := known + {r.name}]];
      assert (history + [r])[..|history|] == history;
      history := history + [r];
    }

    /** `ap_list_provider_names`: every name once, in the order of the hash */
    method ListProviderNames(group: string, version: string) returns (list: seq<string>)
      ensures multiset(list) == multiset(Names(Now(), group, version))
    {
      list := [];
      var left := Names(Now(), group, version);
      while left != {}
        invariant multiset(list) + multiset(left) == multiset(Names(Now(), group, version))
        decreases left
      {
        var name :| name in left;
        list := list + [name];
        left := left - {name};
      }
    }

    /** The versions of one group, each once. */
    method ListVersions(group: string) returns (list: seq<(string, string)>)
      requires group in names
      ensures multiset(list) == multiset(PairsOf(Now(), {group}))
    {
      list := [];
      var versions := names[group].Keys;
      ghost var done: set<string> := {};
      assert PairsIn(Now(), group, {}) == {};
      while versions != {}
        invariant versions <= names[group].Keys && done == names[group].Keys - versions
        invariant multiset(list) == multiset(PairsIn(Now(), group, done))
        decreases versions
      {
        var version :| version in versions;
        list := list + [(group, version)];
        versions := versions - {version};
        PairsAdd(Now(), group, done, version);
        done := done + {version};
      }
      assert PairsIn(Now(), group, names[group].Keys) == PairsOf(Now(), {group});
    }

    /** `ap_list_provider_groups`: each populated group and version once, in the order of the hashes */
    method ListProviderGroups() returns (list: seq<(string, string)>)
      ensures multiset(list) == multiset(Populated(Now()))
    {
      list := [];
      var groups := names.Keys;
      ghost var done: set<string> := {};
      assert PairsOf(Now(), {}) == {};
      while groups != {}
        invariant groups <= names.Keys && done == names.Keys - groups
        invariant multiset(list) == multiset(PairsOf(Now(), done))
        decreases groups
      {
        var group :| group in groups;
        var versions := ListVersions(group);
        list := list + versions;
        groups := groups - {group};
        GroupAdd(Now(), done, group);
        done := done + {group};
      }
    }
  }
}
