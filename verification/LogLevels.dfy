/** Log levels of a server, its virtual hosts and directories, merged from the outside in.
 */
module LogLevels {
  import opened Wrappers

  const UNSET := -2       // APLOG_UNSET
  const NO_MODULE := -1   // APLOG_NO_MODULE

  /** `ap_logconf`: the main level, and the levels of the modules by index if there are any. */
  datatype Conf = Conf(level: int, modules: Option<seq<int>>)

  const NOTHING := Conf(UNSET, None)

  /** The vectors of module levels all have the length `n`. */
  predicate Fits(c: Conf, n: nat) {
    c.modules.Some? ==> |c.modules.value| == n
  }

  function Fill(older: seq<int>, newer: seq<int>): (r: seq<int>)
    requires |older| == |newer|
    ensures |r| == |newer|
  {
    seq(|newer|, i requires 0 <= i < |newer| => if newer[i] == UNSET then older[i] else newer[i])
  }

  /** `ap_merge_log_config`: what the newer configuration becomes */
  function Merge(older: Conf, newer: Conf, n: nat): (r: Conf)
    requires Fits(older, n) && Fits(newer, n)
    ensures Fits(r, n)
  {
    if newer.level != UNSET then newer
    else
      Conf(older.level,
           if newer.modules.None? then older.modules
           else if older.modules.None? then newer.modules
           else Some(Fill(older.modules.value, newer.modules.value)))
  }

  /** `ap_get_module_loglevel` */
  function Effective(c: Conf, i: nat): int {
    if c.modules.None? || i >= |c.modules.value| || c.modules.value[i] < 0 then c.level else c.modules.value[i]
  }

  /** It does not matter in which grouping a chain is merged. */
  lemma MergeAssociative(a: Conf, b: Conf, c: Conf, n: nat)
    requires Fits(a, n) && Fits(b, n) && Fits(c, n)
    ensures Merge(Merge(a, b, n), c, n) == Merge(a, Merge(b, c, n), n)
  {
    if a.modules.Some? && b.modules.Some? && c.modules.Some? {
      var x, y, z := a.modules.value, b.modules.value, c.modules.value;
      assert Fill(Fill(x, y), z) == Fill(x, Fill(y, z));
    }
  }

  // ----- a chain, the outermost first

  ghost predicate AllFit(cs: seq<Conf>, n: nat) {
    forall k :: 0 <= k < |cs| ==> Fits(cs[k], n)
  }

  function MergeAll(cs: seq<Conf>, n: nat): (r: Conf)
    requires AllFit(cs, n)
    ensures Fits(r, n)
  {
    if cs == [] then NOTHING else Merge(MergeAll(cs[..|cs| - 1], n), cs[|cs| - 1], n)
  }

  function ModuleLevel(c: Conf, i: nat): int {
    if c.modules.Some? && i < |c.modules.value| then c.modules.value[i] else UNSET
  }

  /** The main level last set. */
  function MainLevel(cs: seq<Conf>): int {
    if cs == [] then UNSET
    else if cs[|cs| - 1].level != UNSET then cs[|cs| - 1].level else MainLevel(cs[..|cs| - 1])
  }

  /** What is last said about the module: a level for it, or a main level, which forgets all levels
      given to modules further out. */
  function LastWord(cs: seq<Conf>, i: nat): int {
    if cs == [] then UNSET
    else
      var c := cs[|cs| - 1];
      var own := ModuleLevel(c, i);
      if own >= 0 then own
      else if c.level != UNSET then c.level
      else if own != UNSET then MainLevel(cs)
      else LastWord(cs[..|cs| - 1], i)
  }

  lemma {:induction false} MergedLevel(cs: seq<Conf>, n: nat)
    requires AllFit(cs, n)
    ensures MergeAll(cs, n).level == MainLevel(cs)
  {
    if cs != [] {
      MergedLevel(cs[..|cs| - 1], n);
    }
  }

  /** The level in force for a module after merging a chain is what is last said about it. */
  lemma {:induction false} EffectiveIsLastWord(cs: seq<Conf>, n: nat, i: nat)
    requires AllFit(cs, n) && i < n
    ensures Effective(MergeAll(cs, n), i) == LastWord(cs, i)
  {
    if cs != [] {
      EffectiveIsLastWord(cs[..|cs| - 1], n, i);
      MergedLevel(cs, n);
      MergedLevel(cs[..|cs| - 1], n);
    }
  }

  /** The merge as it changes the newer configuration. */
  method MergeLogConfig(older: Conf, newer: Conf, n: nat) returns (r: Conf)
    requires Fits(older, n) && Fits(newer, n)
    ensures r == Merge(older, newer, n)
  {
    r := newer;
    if r.level != UNSET {
      return;
    }
    r := r.(level := older.level);
    if r.modules.None? {
      r := r.(modules := older.modules);
    } else if older.modules.Some? {
      var levels, i := r.modules.value, 0;
      while i < n
        invariant i <= n && |levels| == n
        invariant forall k :: 0 <= k < i ==> levels[k] == Fill(older.modules.value, newer.modules.value)[k]
        invariant forall k :: i <= k < n ==> levels[k] == newer.modules.value[k]
      {
        if levels[i] == UNSET {
          levels := levels[i := older.modules.value[i]];
        }
        i := i + 1;
      }
      assert levels == Fill(older.modules.value, newer.modules.value);
      r := r.(modules := Some(levels));
    }
  }
}
