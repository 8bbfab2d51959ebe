/** The output filter and the end-of-request buckets together: what is destroyed in the queue
    destroys pools, and so has requests logged.
 */
module RequestEnds {
  import opened Wrappers
  import opened Sequences
  import opened Buckets
  import opened OutputModel
  import opened OutputProofs
  import opened OutputOrder
  import opened OutputRuns
  import EorBucket

  function Requests(ms: seq<Mark>): (rs: seq<nat>)
    ensures |rs| == |ms| && forall i :: 0 <= i < |ms| ==> rs[i] == ms[i].request
  {
    if ms == [] then [] else [ms[0].request] + Requests(ms[1..])
  }

  /** The requests that end with the queue `q`, in its order. */
  function Ends(q: seq<Bucket>): seq<nat> {
    Requests(EorMarks(q, 0))
  }

  /** A request for each, and its bucket, named by it. */
  function Births(rs: seq<nat>): seq<EorBucket.Event> {
    if rs == [] then []
    else [EorBucket.NewRequest(rs[0]), EorBucket.Create(rs[0], Some(rs[0]))] + Births(rs[1..])
  }

  function Deaths(rs: seq<nat>): seq<EorBucket.Event> {
    if rs == [] then [] else [EorBucket.DropBucket(rs[0])] + Deaths(rs[1..])
  }

  function LogOf(answers: seq<Answer>, inputs: seq<Option<seq<Bucket>>>): seq<Mark> {
    Run(Start(answers), inputs).net.out.log
  }

  // ----- the calls only add to the log

  lemma {:induction false} SettleAdds(c: Conn, net: Net)
    ensures net.out.log <= Settle(c, SendPass(net)).0.net.out.log
  {
    SendPassFollows(net);
    StripDrains(SendPass(net).0.out);
  }

  lemma {:induction false} WriteSomeAdds(c: Conn, net: Net, bytes: nat)
    ensures net.out.log <= WriteSome(c, net, bytes).0.net.out.log
  {
    if bytes >= THRESHOLD_MIN_WRITE {
      SettleAdds(c, net);
    } else {
      StripDrains(net.out);
    }
  }

  lemma {:induction false} SendNewAdds(c: Conn, q: seq<Bucket>)
    ensures c.net.out.log <= SendNew(c, q).0.net.out.log
  {
    var t := Scan(q);
    if t.upto == 0 {
      WriteSomeAdds(c, c.net.WithQueue(q), t.bytes);
    } else {
      var (net, rv) := SendAll(c.net.WithQueue(q[..t.upto]));
      SendAllFollows(c.net.WithQueue(q[..t.upto]));
      WriteSomeAdds(c, net.WithQueue(q[t.upto..]), t.bytes);
    }
  }

  lemma {:induction false} FilterAdds(c: Conn, input: Option<seq<Bucket>>)
    ensures c.net.out.log <= Filter(c, input).0.net.out.log
    ensures !Filter(c, input).0.aborted ==> !c.aborted
  {
    var c' := if c.net.out.queue == [] then c else c.(waiting := false);
    if input.Some? {
      SendNewAdds(c'.(net := c.net.WithQueue([])), c.net.out.queue + input.value);
    } else {
      SettleAdds(c', c.net);
    }
  }

  lemma {:induction false} RunAdds(answers: seq<Answer>, inputs: seq<Option<seq<Bucket>>>)
    requires inputs != []
    ensures var p := inputs[..|inputs| - 1];
            && LogOf(answers, p) <= LogOf(answers, inputs)
            && (!Run(Start(answers), inputs).aborted ==> !Run(Start(answers), p).aborted)
  {
    FilterAdds(Run(Start(answers), inputs[..|inputs| - 1]), inputs[|inputs| - 1]);
  }

  /** What happens to buckets and pools over a run: call by call, the requests whose EOR bucket comes with the
      brigade are made, and the EOR buckets that the call destroys are dropped. */
  function History(answers: seq<Answer>, inputs: seq<Option<seq<Bucket>>>): seq<EorBucket.Event> {
    if inputs == [] then []
    else
      var n := |inputs| - 1;
      RunAdds(answers, inputs);
      History(answers, inputs[..n]) + Births(Ends(Given(inputs[n])))
      + Deaths(Requests(LogOf(answers, inputs)[|LogOf(answers, inputs[..n])|..]))
  }

  // ----- buckets and pools as they then are

  /** The requests `live` have pool and bucket, those in `done` are logged and their pools destroyed. */
  function Table(live: seq<nat>, done: seq<nat>): EorBucket.State {
    EorBucket.State(map r | r in live :: Some(r), map r | r in live :: [r], done, done)
  }

  /** Further events, from a state on. */
  function Onward(s: EorBucket.State, es: seq<EorBucket.Event>): EorBucket.State
    decreases |es|
  {
    if es == [] then s else Onward(EorBucket.Step(s, es[0]), es[1..])
  }

  lemma {:induction false} OnwardOne(s: EorBucket.State, e: EorBucket.Event, es: seq<EorBucket.Event>)
    ensures Onward(s, [e] + es) == Onward(EorBucket.Step(s, e), es)
  {
    assert ([e] + es)[1..] == es;
  }

  lemma {:induction false} RunOnward(es: seq<EorBucket.Event>, more: seq<EorBucket.Event>)
    ensures EorBucket.Run(es + more) == Onward(EorBucket.Run(es), more)
    decreases |more|
  {
    if more == [] {
      assert es + more == es;
    } else {
      RunOnward(es + [more[0]], more[1..]);
      EorBucket.RunSnoc(es, more[0]);
      assert es + more == es + [more[0]] + more[1..];
    }
  }

  lemma {:induction false} BornOne(live: seq<nat>, done: seq<nat>, r: nat)
    ensures EorBucket.Step(EorBucket.Step(Table(live, done), EorBucket.NewRequest(r)), EorBucket.Create(r, Some(r))) == Table(live + [r], done)
  {
    var s := EorBucket.Step(EorBucket.Step(Table(live, done), EorBucket.NewRequest(r)), EorBucket.Create(r, Some(r)));
    assert s.buckets == Table(live + [r], done).buckets;
    assert [r] + [] == [r];
    assert s.pools == Table(live + [r], done).pools;
  }

  lemma {:induction false} Born(live: seq<nat>, done: seq<nat>, rs: seq<nat>)
    ensures Onward(Table(live, done), Births(rs)) == Table(live + rs, done)
    decreases |rs|
  {
    if rs == [] {
      assert live + [] == live;
    } else {
      var a, b := EorBucket.NewRequest(rs[0]), EorBucket.Create(rs[0], Some(rs[0]));
      assert Births(rs) == [a] + ([b] + Births(rs[1..]));
      OnwardOne(Table(live, done), a, [b] + Births(rs[1..]));
      OnwardOne(EorBucket.Step(Table(live, done), a), b, Births(rs[1..]));
      BornOne(live, done, rs[0]);
      Born(live + [rs[0]], done, rs[1..]);
      assert live + rs == live + [rs[0]] + rs[1..];
    }
  }

  /** The bucket goes, its pool with it, and the request is logged. */
  lemma {:induction false} DeadOne(r: nat, live: seq<nat>, done: seq<nat>)
    requires r !in live
    ensures EorBucket.Step(Table([r] + live, done), EorBucket.DropBucket(r)) == Table(live, done + [r])
  {
    var s := Table([r] + live, done);
    assert [r][1..] == [];
    var t := EorBucket.Cleanup(s, r);
    assert EorBucket.Cleanups(s, [r]) == EorBucket.Cleanups(t, []) == t;
    assert t.buckets - {r} == Table(live, done).buckets && t.pools - {r} == Table(live, done).pools;
  }

  lemma {:induction false} SplitDistinct(a: seq<nat>, b: seq<nat>)
    requires EorBucket.Distinct(a + b)
    ensures EorBucket.Distinct(a) && EorBucket.Distinct(b) && forall r :: r in a ==> r !in b
  {
    if a == [] {
      assert a + b == b;
    } else {
      HeadTail(a, b);
      SplitDistinct(a[1..], b);
      assert a == [a[0]] + a[1..];
    }
  }

  lemma {:induction false} Dead(rs: seq<nat>, live: seq<nat>, done: seq<nat>)
    requires EorBucket.Distinct(rs + live)
    ensures Onward(Table(rs + live, done), Deaths(rs)) == Table(live, done + rs)
    decreases |rs|
  {
    if rs == [] {
      assert rs + live == live && done + rs == done;
    } else {
      var r, rest := rs[0], rs[1..];
      HeadTail(rs, live);
      assert rs + live == [r] + (rest + live);
      OnwardOne(Table(rs + live, done), EorBucket.DropBucket(r), Deaths(rest));
      DeadOne(r, rest + live, done);
      Dead(rest, live, done + [r]);
      assert done + [r] + rest == done + rs;
    }
  }

  // ----- runs

  lemma {:induction false} RequestsJoin(a: seq<Mark>, b: seq<Mark>)
    ensures Requests(a + b) == Requests(a) + Requests(b)
  {
  }

  lemma {:induction false} EndsJoin(h: seq<Bucket>, bb: seq<Bucket>)
    ensures Ends(h + bb) == Ends(h) + Ends(bb)
  {
    EorMarksConcat(h, bb, 0);
    RequestsJoin(EorMarks(h, 0), EorMarks(bb, |Bytes(h)|));
    LaterWhenShifted(bb, |Bytes(h)|, 0);
  }

  /** The EOR buckets destroyed are the first of those queued. */
  lemma {:induction false} LogIsFront(answers: seq<Answer>, inputs: seq<Option<seq<Bucket>>>)
    requires !Run(Start(answers), inputs).aborted
    ensures var rs := Requests(LogOf(answers, inputs)); rs <= Ends(Queued(inputs))
  {
    var log, marks := LogOf(answers, inputs), EorMarks(Queued(inputs), 0);
    forall k | 0 <= k < |log| ensures k < |marks| && log[k].request == marks[k].request {
      EndsInOrder(answers, inputs, k);
    }
    if log != [] {
      EndsInOrder(answers, inputs, |log| - 1);
    }
  }

  /** The state of buckets and pools, told by the first `n` of the requests `rs` having ended. */
  ghost predicate Told(s: EorBucket.State, rs: seq<nat>, log: seq<Mark>) {
    Requests(log) <= rs && s == Table(rs[|log|..], rs[..|log|])
  }

  lemma {:induction false} TableAfter(answers: seq<Answer>, inputs: seq<Option<seq<Bucket>>>)
    requires !Run(Start(answers), inputs).aborted && EorBucket.Distinct(Ends(Queued(inputs)))
    ensures Told(EorBucket.Run(History(answers, inputs)), Ends(Queued(inputs)), LogOf(answers, inputs))
    decreases |inputs|
  {
    LogIsFront(answers, inputs);
    if inputs != [] {
      var p, last := inputs[..|inputs| - 1], Given(inputs[|inputs| - 1]);
      RunAdds(answers, inputs);
      EndsJoin(Queued(p), last);
      SplitDistinct(Ends(Queued(p)), Ends(last));
      TableAfter(answers, p);
      TableStep(History(answers, p), Ends(Queued(p)), Ends(last), LogOf(answers, p), LogOf(answers, inputs));
    }
  }

  lemma {:induction false} TableStep(es: seq<EorBucket.Event>, rs: seq<nat>, more: seq<nat>, log: seq<Mark>, log': seq<Mark>)
    requires log <= log' && Requests(log') <= rs + more && EorBucket.Distinct(rs + more)
    requires Told(EorBucket.Run(es), rs, log)
    ensures Told(EorBucket.Run(es + Births(more) + Deaths(Requests(log'[|log|..]))), rs + more, log')
  {
    var all, m, n := rs + more, |log|, |log'|;
    var dead := Requests(log'[m..]);
    RunOnward(es, Births(more));
    RunOnward(es + Births(more), Deaths(dead));
    assert dead == all[m..n];
    Slices(rs, more, m, n);
    SplitDistinct(rs[..m], dead + all[n..]);
    Turn(rs[m..], more, rs[..m], dead, all[n..]);
  }

  lemma {:induction false} Slices(rs: seq<nat>, more: seq<nat>, m: nat, n: nat)
    requires m <= |rs| && m <= n <= |rs + more|
    ensures var all := rs + more; var dead, left := all[m..n], all[n..];
            rs[m..] + more == dead + left && rs[..m] + dead == all[..n] && rs[..m] + (dead + left) == all
  {
  }

  /** One call: `more` come with the brigade, and of all that are then alive `dead` go. */
  lemma {:induction false} Turn(live: seq<nat>, more: seq<nat>, done: seq<nat>, dead: seq<nat>, left: seq<nat>)
    requires live + more == dead + left && EorBucket.Distinct(dead + left)
    ensures Onward(Onward(Table(live, done), Births(more)), Deaths(dead)) == Table(left, done + dead)
  {
    Born(live, done, more);
    Dead(dead, left, done);
  }

  /** Over every run without an abort, whatever the brigades, with one EOR bucket for a request: what is logged are the requests in the
      order in which their EOR buckets were queued, each once and its pool destroyed once, when every byte queued
      ahead of the EOR bucket was on the wire; the others have their pool still. */
  lemma {:induction false} LoggedWhenSent(answers: seq<Answer>, inputs: seq<Option<seq<Bucket>>>)
    requires !Run(Start(answers), inputs).aborted && EorBucket.Distinct(Ends(Queued(inputs)))
    ensures var s, rs := EorBucket.Run(History(answers, inputs)), Ends(Queued(inputs));
            var log, marks := LogOf(answers, inputs), EorMarks(Queued(inputs), 0);
            && s.log == s.gone == Requests(log) && s.log <= rs && EorBucket.Distinct(s.log)
            && (forall k :: 0 <= k < |log| ==> k < |marks| && marks[k].at <= log[k].at <= |Run(Start(answers), inputs).net.out.wire|)
            && (forall r :: r in s.pools <==> r in rs && r !in s.log)
  {
    TableAfter(answers, inputs);
    TableSplit(Ends(Queued(inputs)), |LogOf(answers, inputs)|);
    forall k | 0 <= k < |LogOf(answers, inputs)|
      ensures var log, marks := LogOf(answers, inputs), EorMarks(Queued(inputs), 0); k < |marks| && marks[k].at <= log[k].at <= |Run(Start(answers), inputs).net.out.wire|
    {
      EndsInOrder(answers, inputs, k);
    }
  }

  lemma {:induction false} TableSplit(rs: seq<nat>, n: nat)
    requires n <= |rs| && EorBucket.Distinct(rs)
    ensures EorBucket.Distinct(rs[..n])
    ensures forall r :: r in Table(rs[n..], rs[..n]).pools <==> r in rs && r !in rs[..n]
  {
    assert rs == rs[..n] + rs[n..];
    SplitDistinct(rs[..n], rs[n..]);
  }

  /** Once nothing is buffered, every request is logged and no pool is left. */
  lemma {:induction false} AllLogged(answers: seq<Answer>, inputs: seq<Option<seq<Bucket>>>)
    requires !Run(Start(answers), inputs).aborted && EorBucket.Distinct(Ends(Queued(inputs)))
    requires Run(Start(answers), inputs).net.out.queue == []
    ensures EorBucket.Run(History(answers, inputs)) == Table([], Ends(Queued(inputs)))
  {
    RunKeepsOrder(answers, inputs);
    TableAfter(answers, inputs);
    AllEnded(Run(Start(answers), inputs), Queued(inputs));
    var rs := Ends(Queued(inputs));
    assert rs[..|rs|] == rs && rs[|rs|..] == [];
  }

  lemma {:induction false} AllEnded(c: Conn, h: seq<Bucket>)
    requires Kept(c, h) && !c.aborted && c.net.out.queue == []
    ensures |c.net.out.log| == |EorMarks(h, 0)|
  {
    assert Now(Origin(h)).Marks() == EorMarks(h, 0) && Now(c.net.out).Marks() == c.net.out.log;
  }

  // ----- with aborts, and pools that go by themselves

  lemma {:induction false} HappenedIsIn(es: seq<EorBucket.Event>, e: EorBucket.Event)
    ensures EorBucket.Happened(es, e) <==> e in es
    decreases |es|
  {
    if es != [] {
      HappenedIsIn(es[..|es| - 1], e);
      assert es == es[..|es| - 1] + [es[|es| - 1]];
    }
  }

  function Made(r: nat): EorBucket.Event {
    EorBucket.Create(r, Some(r))
  }

  /** Each request is made once, then its bucket, which is dropped once at most. */
  ghost predicate Tidy(es: seq<EorBucket.Event>) {
    es != [] ==>
      && var p, e := es[..|es| - 1], es[|es| - 1];
      && Tidy(p)
      && match e
         case NewRequest(r) => e !in p
         case Create(b, holds) => e == Made(b) && e !in p && EorBucket.NewRequest(b) in p && EorBucket.DropBucket(b) !in p
         case DropBucket(b) => e !in p && Made(b) in p
         case _ => false
  }

  lemma {:induction false} TidyOne(es: seq<EorBucket.Event>, e: EorBucket.Event)
    ensures (es + [e])[..|es|] == es && (es + [e])[|es|] == e
  {
  }

  lemma {:induction false} BirthsAre(rs: seq<nat>, e: EorBucket.Event)
    ensures e in Births(rs) <==> (e.NewRequest? && e.request in rs) || (e.Create? && e == Made(e.bucket) && e.bucket in rs)
  {
    if rs != [] {
      BirthsAre(rs[1..], e);
      assert rs == [rs[0]] + rs[1..];
    }
  }

  lemma {:induction false} DeathsAre(rs: seq<nat>, e: EorBucket.Event)
    ensures e in Deaths(rs) <==> e.DropBucket? && e.bucket in rs
  {
    if rs != [] {
      DeathsAre(rs[1..], e);
      assert rs == [rs[0]] + rs[1..];
    }
  }

  /** Nothing of the request has happened. */
  ghost predicate Unheard(es: seq<EorBucket.Event>, r: nat) {
    EorBucket.NewRequest(r) !in es && Made(r) !in es && EorBucket.DropBucket(r) !in es
  }

  lemma {:induction false} BirthsFirst(es: seq<EorBucket.Event>, rs: seq<nat>)
    requires rs != []
    ensures es + Births(rs) == es + [EorBucket.NewRequest(rs[0])] + [Made(rs[0])] + Births(rs[1..])
  {
  }

  lemma {:induction false} DeathsFirst(es: seq<EorBucket.Event>, rs: seq<nat>)
    requires rs != []
    ensures es + Deaths(rs) == es + [EorBucket.DropBucket(rs[0])] + Deaths(rs[1..])
  {
  }

  ghost predicate AllUnheard(es: seq<EorBucket.Event>, rs: seq<nat>) {
    forall r :: r in rs ==> Unheard(es, r)
  }

  lemma {:induction false} TidyBirth(es: seq<EorBucket.Event>, r: nat)
    requires Tidy(es) && Unheard(es, r)
    ensures Tidy(es + [EorBucket.NewRequest(r)] + [Made(r)])
  {
    TidyOne(es, EorBucket.NewRequest(r));
    TidyOne(es + [EorBucket.NewRequest(r)], Made(r));
  }

  lemma {:induction false} OthersUnheard(es: seq<EorBucket.Event>, rs: seq<nat>)
    requires rs != [] && rs[0] !in rs[1..] && AllUnheard(es, rs)
    ensures AllUnheard(es + [EorBucket.NewRequest(rs[0])] + [Made(rs[0])], rs[1..])
  {
    forall r | r in rs[1..] ensures Unheard(es + [EorBucket.NewRequest(rs[0])] + [Made(rs[0])], r) {
      assert r in rs && Unheard(es, r);
    }
  }

  lemma {:induction false} TidyBirths(es: seq<EorBucket.Event>, rs: seq<nat>)
    requires Tidy(es) && EorBucket.Distinct(rs) && AllUnheard(es, rs)
    ensures Tidy(es + Births(rs))
    decreases |rs|
  {
    if rs == [] {
      assert es + [] == es;
    } else {
      var es' := es + [EorBucket.NewRequest(rs[0])] + [Made(rs[0])];
      assert rs[0] in rs;
      TidyBirth(es, rs[0]);
      OthersUnheard(es, rs);
      TidyBirths(es', rs[1..]);
      BirthsFirst(es, rs);
    }
  }

  ghost predicate Droppable(es: seq<EorBucket.Event>, r: nat) {
    Made(r) in es && EorBucket.DropBucket(r) !in es
  }

  ghost predicate AllDroppable(es: seq<EorBucket.Event>, rs: seq<nat>) {
    forall r :: r in rs ==> Droppable(es, r)
  }

  lemma {:induction false} OthersDroppable(es: seq<EorBucket.Event>, rs: seq<nat>)
    requires rs != [] && rs[0] !in rs[1..] && AllDroppable(es, rs)
    ensures AllDroppable(es + [EorBucket.DropBucket(rs[0])], rs[1..])
  {
    forall r | r in rs[1..] ensures Droppable(es + [EorBucket.DropBucket(rs[0])], r) {
      assert r in rs && Droppable(es, r);
    }
  }

  lemma {:induction false} TidyDeaths(es: seq<EorBucket.Event>, rs: seq<nat>)
    requires Tidy(es) && EorBucket.Distinct(rs) && AllDroppable(es, rs)
    ensures Tidy(es + Deaths(rs))
    decreases |rs|
  {
    if rs == [] {
      assert es + [] == es;
    } else {
      var es' := es + [EorBucket.DropBucket(rs[0])];
      assert rs[0] in rs && Droppable(es, rs[0]);
      TidyOne(es, EorBucket.DropBucket(rs[0]));
      OthersDroppable(es, rs);
      TidyDeaths(es', rs[1..]);
      DeathsFirst(es, rs);
    }
  }

  lemma {:induction false} TimesIsCount(ms: seq<Mark>, r: nat)
    ensures Times(ms, r) == multiset(Requests(ms))[r]
  {
    if ms != [] {
      TimesIsCount(ms[1..], r);
      assert multiset(Requests(ms)) == multiset{ms[0].request} + multiset(Requests(ms[1..]));
    }
  }

  /** No request more often in `a` than in `b`. */
  ghost predicate Within(a: seq<nat>, b: seq<nat>) {
    forall r :: multiset(a)[r] <= multiset(b)[r]
  }

  lemma {:induction false} DistinctCount(rs: seq<nat>, r: nat)
    requires EorBucket.Distinct(rs)
    ensures multiset(rs)[r] <= 1
  {
    if rs != [] {
      DistinctCount(rs[1..], r);
      assert rs == [rs[0]] + rs[1..];
    }
  }

  lemma {:induction false} WithinDistinct(a: seq<nat>, b: seq<nat>)
    requires Within(a, b) && EorBucket.Distinct(b)
    ensures EorBucket.Distinct(a) && forall r :: r in a ==> r in b
    decreases |a|
  {
    forall r | r in a ensures r in b {
      assert multiset(a)[r] <= multiset(b)[r];
    }
    if a != [] {
      assert a == [a[0]] + a[1..];
      forall r ensures multiset(a[1..])[r] <= multiset(b)[r] {
        assert multiset(a)[r] <= multiset(b)[r];
      }
      WithinDistinct(a[1..], b);
      DistinctCount(b, a[0]);
      assert multiset(a)[a[0]] <= multiset(b)[a[0]] <= 1;
    }
  }

  /** Aborts included, no EOR bucket is destroyed twice, and none that was not queued. */
  lemma {:induction false} LogIsDistinct(answers: seq<Answer>, inputs: seq<Option<seq<Bucket>>>)
    requires EorBucket.Distinct(Ends(Queued(inputs)))
    ensures var rs := Requests(LogOf(answers, inputs));
            EorBucket.Distinct(rs) && forall r :: r in rs ==> r in Ends(Queued(inputs))
  {
    RunKeepsOrder(answers, inputs);
    var c := Run(Start(answers), inputs);
    AccountedNoneTwice(c.net.out.log, c.net.out.queue + c.stranded, Queued(inputs));
    NoneTwiceIsWithin(LogOf(answers, inputs), Queued(inputs));
    WithinDistinct(Requests(LogOf(answers, inputs)), Ends(Queued(inputs)));
  }

  lemma {:induction false} NoneTwiceIsWithin(log: seq<Mark>, h: seq<Bucket>)
    requires NoneTwice(log, h)
    ensures Within(Requests(log), Ends(h))
  {
    forall r ensures multiset(Requests(log))[r] <= multiset(Ends(h))[r] {
      assert Times(log, r) <= Times(EorMarks(h, 0), r);
      TimesIsCount(log, r);
      TimesIsCount(EorMarks(h, 0), r);
    }
  }

  /** What is in the history of a run. */
  ghost predicate InHistory(e: EorBucket.Event, made: seq<nat>, dropped: seq<nat>) {
    match e
    case NewRequest(r) => r in made
    case Create(b, holds) => e == Made(b) && b in made
    case DropBucket(b) => b in dropped
    case _ => false
  }

  ghost predicate Tells(es: seq<EorBucket.Event>, made: seq<nat>, dropped: seq<nat>) {
    Tidy(es) && forall e :: e in es <==> InHistory(e, made, dropped)
  }

  lemma {:induction false} HistoryIsTidy(answers: seq<Answer>, inputs: seq<Option<seq<Bucket>>>)
    requires EorBucket.Distinct(Ends(Queued(inputs)))
    ensures Tells(History(answers, inputs), Ends(Queued(inputs)), Requests(LogOf(answers, inputs)))
    decreases |inputs|
  {
    if inputs != [] {
      var p, last := inputs[..|inputs| - 1], Given(inputs[|inputs| - 1]);
      RunAdds(answers, inputs);
      EndsJoin(Queued(p), last);
      SplitDistinct(Ends(Queued(p)), Ends(last));
      HistoryIsTidy(answers, p);
      LogIsDistinct(answers, p);
      LogIsDistinct(answers, inputs);
      LogInTwo(LogOf(answers, p), LogOf(answers, inputs));
      TidyTurn(History(answers, p), Ends(Queued(p)), Requests(LogOf(answers, p)), Ends(last),
               Requests(LogOf(answers, inputs)[|LogOf(answers, p)|..]));
    }
  }

  lemma {:induction false} LogInTwo(log: seq<Mark>, log': seq<Mark>)
    requires log <= log' && EorBucket.Distinct(Requests(log'))
    ensures var dead := Requests(log'[|log|..]);
            Requests(log') == Requests(log) + dead && EorBucket.Distinct(dead) && forall r :: r in dead ==> r !in Requests(log)
  {
    assert log' == log + log'[|log|..];
    RequestsJoin(log, log'[|log|..]);
    SplitDistinct(Requests(log), Requests(log'[|log|..]));
  }

  /** One call more. */
  lemma {:induction false} TidyTurn(es: seq<EorBucket.Event>, made: seq<nat>, dropped: seq<nat>, more: seq<nat>, dead: seq<nat>)
    requires Tells(es, made, dropped)
    requires EorBucket.Distinct(more) && (forall r :: r in dropped ==> r in made) && (forall r :: r in more ==> r !in made)
    requires EorBucket.Distinct(dead) && forall r :: r in dead ==> r in made + more && r !in dropped
    ensures Tells(es + Births(more) + Deaths(dead), made + more, dropped + dead)
  {
    var born := es + Births(more);
    forall r | r in more ensures Unheard(es, r) {
      assert !InHistory(Made(r), made, dropped);
    }
    TidyBirths(es, more);
    forall e ensures e in born <==> InHistory(e, made + more, dropped) {
      BirthsAre(more, e);
    }
    forall r | r in dead ensures Droppable(born, r) {
      assert InHistory(Made(r), made + more, dropped);
    }
    TidyDeaths(born, dead);
    forall e ensures e in born + Deaths(dead) <==> InHistory(e, made + more, dropped + dead) {
      DeathsAre(dead, e);
    }
  }

  /** A history without what happens to pools by themselves. */
  function WithoutPools(es: seq<EorBucket.Event>): seq<EorBucket.Event> {
    if es == [] then []
    else WithoutPools(es[..|es| - 1]) + if es[|es| - 1].DropPool? then [] else [es[|es| - 1]]
  }

  /** A pool goes by itself only once its EOR bucket is there. */
  ghost predicate PoolsLater(es: seq<EorBucket.Event>) {
    es != [] ==> PoolsLater(es[..|es| - 1]) && (es[|es| - 1].DropPool? ==> Made(es[|es| - 1].request) in es[..|es| - 1])
  }

  lemma {:induction false} InWithoutPools(es: seq<EorBucket.Event>, e: EorBucket.Event)
    ensures e in WithoutPools(es) <==> e in es && !e.DropPool?
    decreases |es|
  {
    if es != [] {
      InWithoutPools(es[..|es| - 1], e);
      assert es == es[..|es| - 1] + [es[|es| - 1]];
    }
  }

  /** What is known of a request and its bucket from the events. */
  ghost predicate Plain(es: seq<EorBucket.Event>, r: nat) {
    && (EorBucket.Known(es, r) <==> Made(r) in es) && (EorBucket.Created(es, r) <==> Made(r) in es)
    && EorBucket.Took(es, r) == (if Made(r) in es then Some(r) else None)
    && (EorBucket.Over(es, r) <==> EorBucket.DropPool(r) in es || EorBucket.DropBucket(r) in es)
    && EorBucket.Made(es, r) == (if Made(r) in es then [r] else [])
    && (EorBucket.Over(es, r) ==> Made(r) in es) && (Made(r) in es ==> EorBucket.NewRequest(r) in es)
    && EorBucket.Dangling(es, r) == 0
  }

  lemma {:induction false} PlainMade(es: seq<EorBucket.Event>, p: seq<EorBucket.Event>, e: EorBucket.Event, r: nat)
    requires es == p + [e] && Plain(p, r)
    requires e.NewRequest? || (e.Create? && e == Made(e.bucket) && e !in p && EorBucket.NewRequest(e.bucket) in p)
    ensures Plain(es, r)
  {
    assert es[..|es| - 1] == p && es[|es| - 1] == e;
  }

  lemma {:induction false} PlainPool(es: seq<EorBucket.Event>, p: seq<EorBucket.Event>, x: nat, r: nat)
    requires es == p + [EorBucket.DropPool(x)] && Plain(p, r) && Made(x) in p
    ensures Plain(es, r)
  {
    assert es[..|es| - 1] == p && es[|es| - 1] == EorBucket.DropPool(x);
  }

  lemma {:induction false} PlainDropped(es: seq<EorBucket.Event>, p: seq<EorBucket.Event>, b: nat, r: nat)
    requires es == p + [EorBucket.DropBucket(b)] && Plain(p, r) && Plain(p, b) && Made(b) in p
    ensures Plain(es, r)
  {
    assert es[..|es| - 1] == p && es[|es| - 1] == EorBucket.DropBucket(b);
    assert Made(r) in es <==> Made(r) in p;
    assert EorBucket.NewRequest(r) in es <==> EorBucket.NewRequest(r) in p;
    assert EorBucket.DropPool(r) in es <==> EorBucket.DropPool(r) in p;
    assert EorBucket.DropBucket(r) in es <==> EorBucket.DropBucket(r) in p || r == b;
    assert EorBucket.Over(es, r) <==> EorBucket.Over(p, r) || r == b;
    assert EorBucket.Dangling(es, r) == 0;
  }

  lemma {:induction false} Interleaved(es: seq<EorBucket.Event>)
    requires Tidy(WithoutPools(es)) && PoolsLater(es)
    ensures EorBucket.Orderly(es) && forall r :: Plain(es, r)
    decreases |es|
  {
    if es != [] {
      var p, e := es[..|es| - 1], es[|es| - 1];
      assert es == p + [e];
      if !e.DropPool? {
        TidyOne(WithoutPools(p), e);
      } else {
        assert WithoutPools(es) == WithoutPools(p);
      }
      Interleaved(p);
      FitsNext(p, e);
      forall r ensures Plain(es, r) {
        assert Plain(p, r);
        if e.DropBucket? {
          assert Plain(p, e.bucket);
          InWithoutPools(p, Made(e.bucket));
        }
        if e.Create? {
          InWithoutPools(p, e);
          InWithoutPools(p, EorBucket.NewRequest(e.bucket));
        }
        if e.DropBucket? {
          PlainDropped(es, p, e.bucket, r);
        } else if e.DropPool? {
          PlainPool(es, p, e.request, r);
        } else {
          PlainMade(es, p, e, r);
        }
      }
    }
  }

  lemma {:induction false} FitsNext(p: seq<EorBucket.Event>, e: EorBucket.Event)
    requires forall r :: Plain(p, r)
    requires if e.DropPool? then Made(e.request) in p else Tidy(WithoutPools(p) + [e])
    ensures EorBucket.Fits(p, e)
  {
    HappenedIsIn(p, e);
    InWithoutPools(p, e);
    TidyOne(WithoutPools(p), e);
    match e
    case NewRequest(r) =>
      assert Plain(p, r);
    case Create(b, _) =>
      assert Plain(p, b);
      HappenedIsIn(p, EorBucket.NewRequest(b));
      InWithoutPools(p, EorBucket.NewRequest(b));
    case DropBucket(b) =>
      assert Plain(p, b);
      InWithoutPools(p, Made(b));
    case DropPool(r) =>
      assert Plain(p, r);
      HappenedIsIn(p, EorBucket.NewRequest(r));
    case _ =>
  }

  /** Over every run, aborts and brigades of any shape included, and with pools destroyed by themselves at any time:
      with one EOR bucket for a request, a request is logged once and its pool destroyed once if its EOR bucket or
      its pool has been destroyed, and otherwise neither. */
  lemma {:induction false} AtMostOnce(answers: seq<Answer>, inputs: seq<Option<seq<Bucket>>>, es: seq<EorBucket.Event>, r: nat)
    requires EorBucket.Distinct(Ends(Queued(inputs))) && WithoutPools(es) == History(answers, inputs) && PoolsLater(es)
    ensures EorBucket.TimesLogged(es, r) == EorBucket.TimesDestroyed(es, r)
            == if r in Requests(LogOf(answers, inputs)) || EorBucket.DropPool(r) in es then 1 else 0
  {
    DroppedInHistory(answers, inputs, r);
    EndedOnce(es, r);
    InWithoutPools(es, EorBucket.DropBucket(r));
  }

  lemma {:induction false} DroppedInHistory(answers: seq<Answer>, inputs: seq<Option<seq<Bucket>>>, r: nat)
    requires EorBucket.Distinct(Ends(Queued(inputs)))
    ensures Tidy(History(answers, inputs))
    ensures EorBucket.DropBucket(r) in History(answers, inputs) <==> r in Requests(LogOf(answers, inputs))
  {
    HistoryIsTidy(answers, inputs);
    assert InHistory(EorBucket.DropBucket(r), Ends(Queued(inputs)), Requests(LogOf(answers, inputs))) <==> r in Requests(LogOf(answers, inputs));
  }

  lemma {:induction false} EndedOnce(es: seq<EorBucket.Event>, r: nat)
    requires Tidy(WithoutPools(es)) && PoolsLater(es)
    ensures EorBucket.TimesLogged(es, r) == EorBucket.TimesDestroyed(es, r)
            == if EorBucket.DropPool(r) in es || EorBucket.DropBucket(r) in es then 1 else 0
  {
    Interleaved(es);
    assert Plain(es, r);
    EorBucket.LoggedOnce(es, r);
  }
}
