/** The children of each server generation are counted, and the end of a generation is announced
    when the generation is over and its last child has gone.
 */
module Generations {
  import opened Wrappers

  /** `mpm_gen_info_t` */
  datatype Info = Info(gen: int, active: int, done: bool)

  /** What is heard of: a child starts, exits or loses its slot, or a generation is over. */
  datatype Event = Started(gen: int) | Exited(gen: int) | LostSlot(gen: int) | Over(gen: int)

  /** The rings in use and unused, the generations announced, and the records ever allocated. */
  datatype State = State(infos: seq<Info>, unused: seq<Info>, fired: seq<int>, records: nat)

  const START := State([], [], [], 0)

  /** Where the record of `g` is; the length when there is none. */
  function Find(infos: seq<Info>, g: int): (i: nat)
    ensures i <= |infos| && (i < |infos| ==> infos[i].gen == g)
    ensures forall j :: 0 <= j < i ==> infos[j].gen != g
  {
    if infos == [] || infos[0].gen == g then 0 else 1 + Find(infos[1..], g)
  }

  /** `end_gen` */
  function EndGen(s: State, i: nat): State
    requires i < |s.infos|
  {
    State(s.infos[..i] + s.infos[i + 1..], [s.infos[i]] + s.unused, s.fired + [s.infos[i].gen], s.records)
  }

  /** The record at `i` changed, and the generation ended if nothing keeps it. */
  function Update(s: State, i: nat, info: Info): State
    requires i < |s.infos|
  {
    var s' := s.(infos := s.infos[i := info]);
    if info.done && info.active == 0 then EndGen(s', i) else s'
  }

  function NewRecord(s: State, g: int): State {
    if s.unused != [] then State([Info(g, 1, false)] + s.infos, s.unused[1..], s.fired, s.records)
    else State([Info(g, 1, false)] + s.infos, [], s.fired, s.records + 1)
  }

  function Step(s: State, e: Event): State {
    var i := Find(s.infos, e.gen);
    match e
    case Started(g) =>
      if i == |s.infos| then NewRecord(s, g)
      else s.(infos := s.infos[i := s.infos[i].(active := s.infos[i].active + 1)])
    case Exited(_) => if i == |s.infos| then s else Update(s, i, s.infos[i].(active := s.infos[i].active - 1))
    case LostSlot(_) => s
    case Over(_) => if i == |s.infos| then s else Update(s, i, s.infos[i].(done := true))
  }

  function Run(es: seq<Event>): State {
    if es == [] then START else Step(Run(es[..|es| - 1]), es[|es| - 1])
  }

  // ----- what has happened to a generation, from the events alone

  function Starts(es: seq<Event>, g: int): nat {
    if es == [] then 0 else Starts(es[..|es| - 1], g) + if es[|es| - 1] == Started(g) then 1 else 0
  }

  function Exits(es: seq<Event>, g: int): nat {
    if es == [] then 0 else Exits(es[..|es| - 1], g) + if es[|es| - 1] == Exited(g) then 1 else 0
  }

  predicate IsOver(es: seq<Event>, g: int) {
    es != [] && (es[|es| - 1] == Over(g) || IsOver(es[..|es| - 1], g))
  }

  /** Every exit has its start, and no child starts in a generation that is over and has none alive. */
  predicate Orderly(es: seq<Event>) {
    es != [] ==>
      var es', e := es[..|es| - 1], es[|es| - 1];
      && Orderly(es')
      && (e.Exited? ==> Exits(es', e.gen) < Starts(es', e.gen))
      && (e.Started? ==> !(IsOver(es', e.gen) && Starts(es', e.gen) == Exits(es', e.gen)))
  }

  /** It has had a child, and is not at its end. */
  predicate Live(es: seq<Event>, g: int) {
    Starts(es, g) > 0 && !(IsOver(es, g) && Starts(es, g) == Exits(es, g))
  }

  predicate Ended(es: seq<Event>, g: int) {
    Starts(es, g) > 0 && IsOver(es, g) && Starts(es, g) == Exits(es, g)
  }

  // ----- one generation by itself

  ghost predicate Distinct(infos: seq<Info>) {
    forall i, j :: 0 <= i < j < |infos| ==> infos[i].gen != infos[j].gen
  }

  lemma FindIs(infos: seq<Info>, g: int, i: nat)
    requires i <= |infos| && (i < |infos| ==> infos[i].gen == g)
    requires forall j :: 0 <= j < i ==> infos[j].gen != g
    ensures Find(infos, g) == i
  {
  }

  /** One record changed in place. */
  lemma FindInChanged(infos: seq<Info>, i: nat, info: Info, g: int)
    requires i < |infos| && info.gen == infos[i].gen
    ensures Find(infos[i := info], g) == Find(infos, g)
    ensures Distinct(infos) ==> Distinct(infos[i := info])
  {
    FindIs(infos[i := info], g, Find(infos, g));
  }

  /** One record taken out. */
  lemma FindWithout(infos: seq<Info>, i: nat, g: int)
    requires i < |infos| && Distinct(infos)
    ensures var infos' := infos[..i] + infos[i + 1..];
            && Distinct(infos')
            && (g == infos[i].gen ==> Find(infos', g) == |infos'|)
            && (g != infos[i].gen ==> (if Find(infos, g) < |infos| then Find(infos', g) < |infos'| && infos'[Find(infos', g)] == infos[Find(infos, g)]
                                       else Find(infos', g) == |infos'|))
  {
    var infos', k := infos[..i] + infos[i + 1..], Find(infos, g);
    assert forall j :: 0 <= j < i ==> infos'[j] == infos[j];
    assert forall j :: i <= j < |infos'| ==> infos'[j] == infos[j + 1];
    if g == infos[i].gen || k == |infos| {
      FindIs(infos', g, |infos'|);
    } else {
      FindIs(infos', g, if k < i then k else k - 1);
    }
  }

  /** One record put in front. */
  lemma FindInFront(infos: seq<Info>, info: Info, g: int)
    requires Find(infos, info.gen) == |infos|
    ensures Distinct(infos) ==> Distinct([info] + infos)
    ensures Find([info] + infos, g) == if g == info.gen then 0 else 1 + Find(infos, g)
  {
    assert ([info] + infos)[1..] == infos;
  }

  /** The record of one generation, and how often its end has been announced. */
  datatype Solo = Solo(record: Option<Info>, fired: nat)

  function Settle(t: Solo, info: Info): Solo {
    if info.done && info.active == 0 then Solo(None, t.fired + 1) else t.(record := Some(info))
  }

  function SoloStep(t: Solo, e: Event, g: int): Solo {
    if e.gen != g then t
    else
      match e
      case Started(_) =>
        if t.record.None? then t.(record := Some(Info(g, 1, false)))
        else t.(record := Some(t.record.value.(active := t.record.value.active + 1)))
      case Exited(_) => if t.record.None? then t else Settle(t, t.record.value.(active := t.record.value.active - 1))
      case LostSlot(_) => t
      case Over(_) => if t.record.None? then t else Settle(t, t.record.value.(done := true))
  }

  function SoloRun(es: seq<Event>, g: int): Solo {
    if es == [] then Solo(None, 0) else SoloStep(SoloRun(es[..|es| - 1], g), es[|es| - 1], g)
  }

  /** What the rings hold of a generation. */
  ghost function View(s: State, g: int): Solo {
    var i := Find(s.infos, g);
    Solo(if i < |s.infos| then Some(s.infos[i]) else None, multiset(s.fired)[g])
  }

  lemma ChangedViewed(s: State, i: nat, info: Info, g: int)
    requires Distinct(s.infos) && i < |s.infos| && info.gen == s.infos[i].gen && Find(s.infos, info.gen) == i
    ensures var s' := s.(infos := s.infos[i := info]);
            Distinct(s'.infos) && View(s', g) == if g == info.gen then View(s, g).(record := Some(info)) else View(s, g)
  {
    FindInChanged(s.infos, i, info, g);
  }

  lemma EndViewed(s: State, i: nat, g: int)
    requires Distinct(s.infos) && i < |s.infos|
    ensures Distinct(EndGen(s, i).infos)
    ensures View(EndGen(s, i), g) == if g == s.infos[i].gen then Solo(None, View(s, g).fired + 1) else View(s, g)
  {
    FindWithout(s.infos, i, g);
  }

  lemma UpdateViewed(s: State, i: nat, info: Info, g: int)
    requires Distinct(s.infos) && i < |s.infos| && info.gen == s.infos[i].gen && Find(s.infos, info.gen) == i
    ensures Distinct(Update(s, i, info).infos)
    ensures View(Update(s, i, info), g) == if g == info.gen then Settle(View(s, g), info) else View(s, g)
  {
    ChangedViewed(s, i, info, g);
    if info.done && info.active == 0 {
      EndViewed(s.(infos := s.infos[i := info]), i, g);
    }
  }

  lemma AddedViewed(s: State, gen: int, g: int)
    requires Distinct(s.infos) && Find(s.infos, gen) == |s.infos|
    ensures Distinct(NewRecord(s, gen).infos)
    ensures View(NewRecord(s, gen), g) == if g == gen then View(s, g).(record := Some(Info(g, 1, false))) else View(s, g)
  {
    FindInFront(s.infos, Info(gen, 1, false), g);
    assert NewRecord(s, gen).infos == [Info(gen, 1, false)] + s.infos;
  }

  lemma StartViewed(s: State, gen: int, g: int)
    requires Distinct(s.infos)
    ensures Distinct(Step(s, Started(gen)).infos) && View(Step(s, Started(gen)), g) == SoloStep(View(s, g), Started(gen), g)
  {
    var i := Find(s.infos, gen);
    if i < |s.infos| {
      ChangedViewed(s, i, s.infos[i].(active := s.infos[i].active + 1), g);
    } else {
      AddedViewed(s, gen, g);
    }
  }

  lemma ExitViewed(s: State, gen: int, g: int)
    requires Distinct(s.infos)
    ensures Distinct(Step(s, Exited(gen)).infos) && View(Step(s, Exited(gen)), g) == SoloStep(View(s, g), Exited(gen), g)
  {
    var i := Find(s.infos, gen);
    if i < |s.infos| {
      UpdateViewed(s, i, s.infos[i].(active := s.infos[i].active - 1), g);
    }
  }

  lemma OverViewed(s: State, gen: int, g: int)
    requires Distinct(s.infos)
    ensures Distinct(Step(s, Over(gen)).infos) && View(Step(s, Over(gen)), g) == SoloStep(View(s, g), Over(gen), g)
  {
    var i := Find(s.infos, gen);
    if i < |s.infos| {
      UpdateViewed(s, i, s.infos[i].(done := true), g);
    }
  }

  lemma StepViewed(s: State, e: Event, g: int)
    requires Distinct(s.infos)
    ensures Distinct(Step(s, e).infos) && View(Step(s, e), g) == SoloStep(View(s, g), e, g)
  {
    match e
    case Started(gen) => StartViewed(s, gen, g);
    case Exited(gen) => ExitViewed(s, gen, g);
    case LostSlot(_) =>
    case Over(gen) => OverViewed(s, gen, g);
  }

  /** The rings treat every generation as if it were the only one. */
  lemma {:induction false} RunViewed(es: seq<Event>, g: int)
    ensures Distinct(Run(es).infos) && View(Run(es), g) == SoloRun(es, g)
    decreases |es|
  {
    if es != [] {
      RunViewed(es[..|es| - 1], g);
      StepViewed(Run(es[..|es| - 1]), es[|es| - 1], g);
    }
  }

  /** In an orderly run, exits never outnumber starts. */
  lemma {:induction false} NoExitTooMany(es: seq<Event>, g: int)
    requires Orderly(es)
    ensures Exits(es, g) <= Starts(es, g)
  {
    if es != [] {
      NoExitTooMany(es[..|es| - 1], g);
    }
  }

  /** What a generation comes to in an orderly run. */
  lemma {:induction false} SoloIs(es: seq<Event>, g: int)
    requires Orderly(es)
    ensures SoloRun(es, g) == Solo(if Live(es, g) then Some(Info(g, Starts(es, g) - Exits(es, g), IsOver(es, g))) else None,
                                   if Ended(es, g) then 1 else 0)
  {
    if es != [] {
      SoloIs(es[..|es| - 1], g);
      NoExitTooMany(es[..|es| - 1], g);
    }
  }

  /** The end of a generation is announced exactly when it has had a child, is over and all its
      children have exited; and then once. */
  lemma EndsOnce(es: seq<Event>, g: int)
    requires Orderly(es)
    ensures multiset(Run(es).fired)[g] == if Starts(es, g) > 0 && IsOver(es, g) && Starts(es, g) == Exits(es, g) then 1 else 0
  {
    SoloIs(es, g);
    RunViewed(es, g);
  }

  /** Never while a child is alive: not when it is announced, nor later. */
  lemma NoneAlive(es: seq<Event>, g: int)
    requires Orderly(es) && g in Run(es).fired
    ensures Starts(es, g) == Exits(es, g)
  {
    EndsOnce(es, g);
    assert g in multiset(Run(es).fired);
  }

  // ----- where an announcement goes wrong

  lemma {:induction false} NoChildNoRecord(es: seq<Event>, g: int)
    requires Starts(es, g) == 0
    ensures SoloRun(es, g) == Solo(None, 0)
  {
    if es != [] {
      NoChildNoRecord(es[..|es| - 1], g);
    }
  }

  lemma {:induction false} LateChildUnmarked(es: seq<Event>, n: nat, g: int)
    requires n <= |es| && Starts(es[..n], g) == 0 && forall i :: n <= i < |es| ==> es[i] != Over(g)
    ensures var t := SoloRun(es, g); t.fired == 0 && (t.record.Some? ==> !t.record.value.done)
    decreases |es|
  {
    if n == |es| {
      assert es[..n] == es;
      NoChildNoRecord(es, g);
    } else {
      var es' := es[..|es| - 1];
      assert es'[..n] == es[..n];
      LateChildUnmarked(es', n, g);
    }
  }

  /** When all the calls that a generation is over come before its first child, its end is never announced,
      whatever else happens. */
  lemma LateChildNeverEnds(es: seq<Event>, n: nat, g: int)
    requires n <= |es| && Starts(es[..n], g) == 0 && forall i :: n <= i < |es| ==> es[i] != Over(g)
    ensures g !in Run(es).fired
  {
    LateChildUnmarked(es, n, g);
    RunViewed(es, g);
    assert multiset(Run(es).fired)[g] == 0;
  }

  function Overs(es: seq<Event>, g: int): nat {
    if es == [] then 0 else Overs(es[..|es| - 1], g) + if es[|es| - 1] == Over(g) then 1 else 0
  }

  /** Every exit has its start. */
  predicate Matched(es: seq<Event>) {
    es != [] ==>
      var es', e := es[..|es| - 1], es[|es| - 1];
      Matched(es') && (e.Exited? ==> Exits(es', e.gen) < Starts(es', e.gen))
  }

  /** At every moment each end has been announced once if it has come, and otherwise not. */
  ghost predicate RightThroughout(es: seq<Event>) {
    forall n, g :: 0 <= n <= |es| ==> multiset(Run(es[..n]).fired)[g] == if Ended(es[..n], g) then 1 else 0
  }

  lemma {:induction false} OrderlyPrefix(es: seq<Event>, n: nat)
    requires Orderly(es) && n <= |es|
    ensures Orderly(es[..n])
    decreases |es|
  {
    if n == |es| {
      assert es[..n] == es;
    } else {
      assert es[..|es| - 1][..n] == es[..n];
      OrderlyPrefix(es[..|es| - 1], n);
    }
  }

  /** The first start that is out of order. */
  lemma {:induction false} FirstLate(es: seq<Event>) returns (n: nat)
    requires Matched(es) && !Orderly(es)
    ensures n < |es| && Orderly(es[..n]) && es[n].Started?
    ensures IsOver(es[..n], es[n].gen) && Starts(es[..n], es[n].gen) == Exits(es[..n], es[n].gen)
    decreases |es|
  {
    var es' := es[..|es| - 1];
    if Orderly(es') {
      n := |es| - 1;
    } else {
      n := FirstLate(es');
      assert es'[..n] == es[..n];
    }
  }

  lemma {:induction false} NoOverLeft(es: seq<Event>, n: nat, g: int)
    requires n <= |es| && IsOver(es[..n], g) && Overs(es, g) <= 1
    ensures forall i :: n <= i < |es| ==> es[i] != Over(g)
    ensures IsOver(es, g)
    decreases |es|
  {
    if n == |es| {
      assert es[..n] == es;
    } else {
      var es' := es[..|es| - 1];
      assert es'[..n] == es[..n];
      NoOverLeft(es', n, g);
      IsOverCounts(es', g);
    }
  }

  lemma {:induction false} IsOverCounts(es: seq<Event>, g: int)
    ensures IsOver(es, g) <==> Overs(es, g) > 0
  {
    if es != [] {
      IsOverCounts(es[..|es| - 1], g);
    }
  }

  lemma {:induction false} StartsGrow(es: seq<Event>, n: nat, g: int)
    requires n <= |es|
    ensures Starts(es[..n], g) <= Starts(es, g)
    decreases |es|
  {
    if n == |es| {
      assert es[..n] == es;
    } else {
      assert es[..|es| - 1][..n] == es[..n];
      StartsGrow(es[..|es| - 1], n, g);
    }
  }

  /** The end has been announced, and then a child is alive again. */
  lemma RevivedFails(es: seq<Event>, n: nat)
    requires n < |es| && Orderly(es[..n]) && es[n].Started? && Ended(es[..n], es[n].gen)
    ensures !RightThroughout(es)
  {
    var g, p, q := es[n].gen, es[..n], es[..n + 1];
    assert q[..n] == p && q[n] == es[n];
    SoloIs(p, g);
    RunViewed(q, g);
    assert SoloRun(q, g).fired == 1 && multiset(Run(q).fired)[g] == 1 && !Ended(q, g);
    assert q == es[..n + 1];
  }

  /** The generation was over before its first child, and is never announced. */
  lemma LateFails(es: seq<Event>, n: nat)
    requires n < |es| && es[n].Started? && Overs(es, es[n].gen) <= 1
    requires IsOver(es[..n], es[n].gen) && Starts(es[..n], es[n].gen) == 0
    requires Starts(es, es[n].gen) == Exits(es, es[n].gen)
    ensures !RightThroughout(es)
  {
    var g := es[n].gen;
    NoOverLeft(es, n, g);
    LateChildNeverEnds(es, n, g);
    StartsGrow(es, n + 1, g);
    assert es[..n + 1][..n] == es[..n] && es[..n + 1][n] == es[n];
    assert es[..|es|] == es;
    assert multiset(Run(es[..|es|]).fired)[g] == 0 && Ended(es[..|es|], g);
  }

  lemma LateStartFails(es: seq<Event>, n: nat)
    requires n < |es| && Orderly(es[..n]) && es[n].Started? && Overs(es, es[n].gen) <= 1
    requires IsOver(es[..n], es[n].gen) && Starts(es[..n], es[n].gen) == Exits(es[..n], es[n].gen)
    requires Starts(es, es[n].gen) == Exits(es, es[n].gen)
    ensures !RightThroughout(es)
  {
    if Starts(es[..n], es[n].gen) > 0 {
      RevivedFails(es, n);
    } else {
      LateFails(es, n);
    }
  }

  /** In a run that is complete, with matched exits and each generation over once at most, the announcements
      are right at every moment if and only if no child starts in a generation that is over and has none alive. */
  lemma AnnouncedRightExactly(es: seq<Event>)
    requires Matched(es) && forall g :: Overs(es, g) <= 1 && Starts(es, g) == Exits(es, g)
    ensures RightThroughout(es) <==> Orderly(es)
  {
    if Orderly(es) {
      forall n, g | 0 <= n <= |es| ensures multiset(Run(es[..n]).fired)[g] == if Ended(es[..n], g) then 1 else 0 {
        OrderlyPrefix(es, n);
        EndsOnce(es[..n], g);
      }
    } else {
      var n := FirstLate(es);
      LateStartFails(es, n);
    }
  }

  // ----- records are used again

  /** The generations that occur in the events. */
  function Named(es: seq<Event>): set<int> {
    set i | 0 <= i < |es| :: es[i].gen
  }

  /** The generations there must be a record for. */
  function Tracked(es: seq<Event>): set<int> {
    set g | g in Named(es) && Live(es, g)
  }

  function Max(a: nat, b: nat): nat {
    if a < b then b else a
  }

  /** The greatest number of generations tracked at one time. */
  function Peak(es: seq<Event>): nat {
    if es == [] then 0 else Max(Peak(es[..|es| - 1]), |Tracked(es)|)
  }

  function Gens(infos: seq<Info>): set<int> {
    set i | 0 <= i < |infos| :: infos[i].gen
  }

  lemma {:induction false} GensCount(infos: seq<Info>)
    requires Distinct(infos)
    ensures |Gens(infos)| == |infos|
  {
    if infos != [] {
      var n := |infos| - 1;
      GensCount(infos[..n]);
      assert Gens(infos) == Gens(infos[..n]) + {infos[n].gen};
    }
  }

  lemma {:induction false} LiveIsNamed(es: seq<Event>, g: int)
    requires Starts(es, g) > 0
    ensures g in Named(es)
  {
    var n := |es| - 1;
    if es[n] == Started(g) {
      assert es[n].gen == g;
    } else {
      LiveIsNamed(es[..n], g);
      var i :| 0 <= i < n && es[..n][i].gen == g;
      assert es[i].gen == g;
    }
  }

  lemma TrackedAreRecorded(es: seq<Event>)
    requires Orderly(es)
    ensures |Run(es).infos| == |Tracked(es)|
  {
    var infos := Run(es).infos;
    RunViewed(es, 0);
    forall g ensures g in Gens(infos) <==> g in Tracked(es) {
      RunViewed(es, g);
      SoloIs(es, g);
      if Live(es, g) {
        LiveIsNamed(es, g);
        assert infos[Find(infos, g)].gen == g;
      }
    }
    assert Gens(infos) == Tracked(es);
    GensCount(infos);
  }

  /** Records are neither lost nor doubled, and there are as many as the most generations there ever
      were to track at one time. */
  lemma {:induction false} RecordsArePeak(es: seq<Event>)
    requires Orderly(es)
    ensures var s := Run(es); |s.infos| + |s.unused| == s.records == Peak(es)
    decreases |es|
  {
    if es != [] {
      var es', e := es[..|es| - 1], es[|es| - 1];
      RecordsArePeak(es');
      TrackedAreRecorded(es');
      TrackedAreRecorded(es);
      PeakCovers(es');
    }
  }

  lemma PeakCovers(es: seq<Event>)
    ensures |Tracked(es)| <= Peak(es)
  {
    if es == [] {
      assert Tracked(es) == {};
    }
  }

  // ----- the rings as they are changed

  class Tracker {
    var infos: seq<Info>     // geninfo
    var unused: seq<Info>    // unused_geninfo
    var fired: seq<int>      // end_generation hooks run
    var records: nat

    function Now(): State
      reads this
    {
      State(infos, unused, fired, records)
    }

    constructor ()
      ensures Now() == START
    {
      infos, unused, fired, records := [], [], [], 0;
    }

    method FindRecord(gen: int) returns (cur: nat)
      ensures cur == Find(infos, gen)
    {
      cur := 0;
      while cur < |infos| && infos[cur].gen != gen
        invariant cur <= |infos|
        invariant forall j :: 0 <= j < cur ==> infos[j].gen != gen
      {
        cur := cur + 1;
      }
      FindIs(infos, gen, cur);
    }

    /** `end_gen` */
    method AnnounceEnd(cur: nat)
      requires cur < |infos|
      modifies this
      ensures Now() == EndGen(old(Now()), cur)
    {
      var gi := infos[cur];
      fired := fired + [gi.gen];
      infos := infos[..cur] + infos[cur + 1..];
      unused := [gi] + unused;
    }

    /** `ap_mpm_end_gen_helper` */
    method GenerationOver(gen: int)
      modifies this
      ensures Now() == Step(old(Now()), Over(gen))
    {
      var cur := FindRecord(gen);
      if cur < |infos| {
        infos := infos[cur := infos[cur].(done := true)];
        if infos[cur].active == 0 {
          AnnounceEnd(cur);
        }
      }
    }

    method TakeRecord(gen: int) returns (cur: Info)
      modifies this`unused, this`records
      ensures cur == Info(gen, 0, false)
      ensures unused == (if old(unused) == [] then [] else old(unused)[1..])
      ensures records == old(records) + if old(unused) == [] then 1 else 0
    {
      if unused != [] {
        cur := unused[0];
        unused := unused[1..];
        cur := cur.(active := 0, done := false);
      } else {
        cur := Info(0, 0, false);
        records := records + 1;
      }
      cur := cur.(gen := gen);
    }

    /** `ap_core_child_status` */
    method ChildStatus(e: Event)
      requires !e.Over?
      modifies this
      ensures Now() == Step(old(Now()), e)
    {
      var cur := FindRecord(e.gen);
      match e {
        case Started(gen) =>
          if cur == |infos| {
            var info := TakeRecord(gen);
            infos := [info] + infos;
            cur := 0;
          }
          infos := infos[cur := infos[cur].(active := infos[cur].active + 1)];
        case Exited(_) =>
          if cur < |infos| {
            infos := infos[cur := infos[cur].(active := infos[cur].active - 1)];
            if infos[cur].active == 0 && infos[cur].done {
              AnnounceEnd(cur);
            }
          }
        case LostSlot(_) =>
      }
    }
  }

  lemma AllEndOnce(es: seq<Event>)
    ensures Orderly(es) ==> forall g :: multiset(Run(es).fired)[g] == if Ended(es, g) then 1 else 0
  {
    if Orderly(es) {
      forall g ensures multiset(Run(es).fired)[g] == if Ended(es, g) then 1 else 0 {
        EndsOnce(es, g);
      }
    }
  }

  /** Every event of a run, in order. */
  method Follow(es: seq<Event>) returns (t: Tracker)
    ensures t.Now() == Run(es)
    ensures Orderly(es) ==> forall g :: multiset(t.fired)[g] == if Ended(es, g) then 1 else 0
  {
    t := new Tracker();
    var i := 0;
    while i < |es|
      invariant i <= |es| && fresh(t) && t.Now() == Run(es[..i])
    {
      assert es[..i + 1][..i] == es[..i];
      assert Run(es[..i + 1]) == Step(Run(es[..i]), es[i]);
      if es[i].Over? {
        t.GenerationOver(es[i].gen);
      } else {
        t.ChildStatus(es[i]);
      }
      i := i + 1;
    }
    assert es[..i] == es;
    AllEndOnce(es);
  }
}
