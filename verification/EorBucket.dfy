/** The end-of-request bucket: it destroys the pool of its request, and the pool, when it goes,
    has the request logged and the bucket cleared.
 */
module EorBucket {
  import opened Wrappers

  /** Live buckets with the request each holds, live request pools with the buckets whose cleanup is
      registered there (the latest first), requests logged, and pools destroyed. */
  datatype State = State(buckets: map<nat, Option<nat>>, pools: map<nat, seq<nat>>, log: seq<nat>, gone: seq<nat>)

  const START := State(map[], map[], [], [])

  datatype Event =
    | NewRequest(request: nat)
    | Create(bucket: nat, holds: Option<nat>)
    | Copy(bucket: nat, copy: nat)
    | DropBucket(bucket: nat)
    | DropPool(request: nat)

  /** `eor_bucket_cleanup` */
  function Cleanup(s: State, b: nat): State {
    if b in s.buckets && s.buckets[b].Some? then s.(buckets := s.buckets[b := None], log := s.log + [s.buckets[b].value]) else s
  }

  function Cleanups(s: State, bs: seq<nat>): State
    decreases |bs|
  {
    if bs == [] then s else Cleanups(Cleanup(s, bs[0]), bs[1..])
  }

  /** `apr_pool_destroy` on the pool of `r`; on one that is gone already it is a second destruction. */
  function DestroyPool(s: State, r: nat): State {
    var s' := if r in s.pools then Cleanups(s, s.pools[r]) else s;
    s'.(pools := s'.pools - {r}, gone := s'.gone + [r])
  }

  /** `apr_bucket_destroy`: `eor_bucket_destroy`, and the bucket is freed. */
  function DestroyBucket(s: State, b: nat): State {
    if b !in s.buckets then s
    else
      var s' := if s.buckets[b].Some? then DestroyPool(s, s.buckets[b].value) else s;
      s'.(buckets := s'.buckets - {b})
  }

  function Step(s: State, e: Event): State {
    match e
    case NewRequest(r) => s.(pools := s.pools[r := []])
    case Create(b, holds) =>
      var s' := if holds.Some? && holds.value in s.pools
                then s.(pools := s.pools[holds.value := [b] + s.pools[holds.value]]) else s;
      s'.(buckets := s'.buckets[b := holds])
    case Copy(b, c) => if b in s.buckets then s.(buckets := s.buckets[c := s.buckets[b]]) else s
    case DropBucket(b) => DestroyBucket(s, b)
    case DropPool(r) => if r in s.pools then DestroyPool(s, r) else s
  }

  function Run(es: seq<Event>): State {
    if es == [] then START else Step(Run(es[..|es| - 1]), es[|es| - 1])
  }

  // ----- what has happened, from the events alone

  predicate Happened(es: seq<Event>, e: Event) {
    es != [] && (es[|es| - 1] == e || Happened(es[..|es| - 1], e))
  }

  /** The buckets made for the request, copies aside. */
  function Made(es: seq<Event>, r: nat): seq<nat> {
    if es == [] then []
    else
      var e := es[|es| - 1];
      (if e.Create? && e.holds == Some(r) then [e.bucket] else []) + Made(es[..|es| - 1], r)
  }

  predicate Created(es: seq<Event>, b: nat) {
    es != [] && ((es[|es| - 1].Create? && es[|es| - 1].bucket == b) || Created(es[..|es| - 1], b))
  }

  /** Created, or made as a copy. */
  predicate Known(es: seq<Event>, b: nat) {
    es != [] && (var e := es[|es| - 1];
                 (e.Create? && e.bucket == b) || (e.Copy? && e.copy == b) || Known(es[..|es| - 1], b))
  }

  /** The request the bucket got when it was made. */
  function Took(es: seq<Event>, b: nat): Option<nat>
    decreases |es|, 0
  {
    if es == [] then None
    else
      var p, e := es[..|es| - 1], es[|es| - 1];
      if e.Create? && e.bucket == b then e.holds
      else if e.Copy? && e.copy == b then Holding(p, e.bucket)
      else Took(p, b)
  }

  /** The pool has gone, by itself or with the first bucket to be destroyed. */
  predicate Over(es: seq<Event>, r: nat)
    decreases |es|, 0
  {
    es != [] &&
    var p, e := es[..|es| - 1], es[|es| - 1];
    e == DropPool(r) || (e.DropBucket? && Took(p, e.bucket) == Some(r)) || Over(p, r)
  }

  /** The request the bucket holds: one that was created is cleared when the pool goes, a copy is not. */
  function Holding(es: seq<Event>, b: nat): Option<nat>
    decreases |es|, 1
  {
    var t := Took(es, b);
    if Created(es, b) && t.Some? && Over(es, t.value) then None else t
  }

  /** How often a bucket that still holds the request has been destroyed after the pool had gone. */
  function Dangling(es: seq<Event>, r: nat): nat {
    if es == [] then 0
    else
      var p, e := es[..|es| - 1], es[|es| - 1];
      Dangling(p, r) + if e.DropBucket? && Over(p, r) && Holding(p, e.bucket) == Some(r) then 1 else 0
  }

  predicate Fits(es: seq<Event>, e: Event) {
    match e
    case NewRequest(r) => !Happened(es, e) && !Over(es, r)
    case Create(b, holds) =>
      && !Known(es, b)
      && (holds.Some? ==> Happened(es, NewRequest(holds.value)) && !Over(es, holds.value))
    case Copy(b, c) => Known(es, b) && !Happened(es, DropBucket(b)) && !Known(es, c)
    case DropBucket(b) => Known(es, b) && !Happened(es, e)
    case DropPool(r) => Happened(es, NewRequest(r))
  }

  /** Buckets are created for a request while its pool is alive; what is copied is there, and nothing is
      destroyed twice. */
  predicate Orderly(es: seq<Event>) {
    es != [] ==> Orderly(es[..|es| - 1]) && Fits(es[..|es| - 1], es[|es| - 1])
  }

  // ----- buckets and requests are as the events say

  ghost predicate TookRight(es: seq<Event>, b: nat) {
    var t := Took(es, b);
    && (Created(es, b) || t.Some? || Happened(es, DropBucket(b)) ==> Known(es, b))
    && (t.Some? ==> Happened(es, NewRequest(t.value)) && Made(es, t.value) != [])
    && (t.Some? && Created(es, b) ==> b in Made(es, t.value))
    && (t.Some? && Happened(es, DropBucket(b)) ==> Over(es, t.value))
  }

  predicate Distinct(bs: seq<nat>) {
    bs != [] ==> bs[0] !in bs[1..] && Distinct(bs[1..])
  }

  ghost predicate MadeRight(es: seq<Event>, r: nat) {
    var bs := Made(es, r);
    Distinct(bs) && (forall b :: b in bs ==> Created(es, b) && Took(es, b) == Some(r)) && (bs != [] ==> Happened(es, NewRequest(r)))
  }

  /** A bucket that is known keeps what it took. */
  lemma KnownKeeps(es: seq<Event>, b: nat)
    requires Orderly(es) && es != [] && Known(es[..|es| - 1], b)
    ensures var p := es[..|es| - 1];
            Known(es, b) && Took(es, b) == Took(p, b) && Created(es, b) == Created(p, b)
  {
  }

  lemma TookStep(es: seq<Event>, b: nat)
    requires Orderly(es) && es != [] && TookRight(es[..|es| - 1], b)
    requires es[|es| - 1].Copy? ==> TookRight(es[..|es| - 1], es[|es| - 1].bucket)
    ensures TookRight(es, b)
  {
    if Known(es[..|es| - 1], b) {
      KnownKeeps(es, b);
    }
  }

  lemma MadeStep(es: seq<Event>, p: seq<Event>, r: nat)
    requires Orderly(es) && es != [] && p == es[..|es| - 1] && MadeRight(p, r)
    requires forall b :: b in Made(p, r) ==> TookRight(p, b)
    ensures MadeRight(es, r)
  {
    var e := es[|es| - 1];
    forall b | b in Made(p, r) ensures Known(p, b) && Created(es, b) && Took(es, b) == Some(r) {
      assert TookRight(p, b);
      KnownKeeps(es, b);
    }
    if e.Create? && e.holds == Some(r) {
      assert Made(es, r) == [e.bucket] + Made(p, r);
    } else {
      assert Made(es, r) == Made(p, r);
    }
  }

  lemma {:induction false} AllHistory(es: seq<Event>)
    requires Orderly(es)
    ensures (forall b :: TookRight(es, b)) && forall r :: MadeRight(es, r)
    decreases |es|
  {
    if es != [] {
      var p := es[..|es| - 1];
      AllHistory(p);
      forall b ensures TookRight(es, b) {
        assert TookRight(p, b);
        TookStep(es, b);
      }
      forall r ensures MadeRight(es, r) {
        assert MadeRight(p, r);
        MadeStep(es, p, r);
      }
    }
  }

  lemma HistoryRight(es: seq<Event>, b: nat, r: nat)
    requires Orderly(es)
    ensures TookRight(es, b) && MadeRight(es, r)
  {
    AllHistory(es);
  }

  ghost predicate BucketRight(es: seq<Event>, s: State, b: nat) {
    && (b in s.buckets <==> Known(es, b) && !Happened(es, DropBucket(b)))
    && (b in s.buckets ==> s.buckets[b] == Holding(es, b))
  }

  ghost predicate PoolRight(es: seq<Event>, s: State, r: nat) {
    && (r in s.pools <==> Happened(es, NewRequest(r)) && !Over(es, r))
    && (r in s.pools ==> s.pools[r] == Made(es, r))
  }

  ghost predicate CountRight(es: seq<Event>, s: State, r: nat) {
    && multiset(s.gone)[r] == (if Over(es, r) then 1 else 0) + Dangling(es, r)
    && multiset(s.log)[r] == if Over(es, r) then |Made(es, r)| else 0
  }

  /** The state a pool is destroyed in: its buckets are there and hold the request. */
  ghost predicate Intact(s: State, r: nat, bs: seq<nat>) {
    r in s.pools && s.pools[r] == bs && Distinct(bs) && AllHold(s.buckets, r, bs)
  }

  ghost predicate AllHold(buckets: map<nat, Option<nat>>, r: nat, bs: seq<nat>) {
    forall b :: b in bs ==> b in buckets && buckets[b] == Some(r)
  }

  function Cleared(buckets: map<nat, Option<nat>>, bs: seq<nat>): map<nat, Option<nat>> {
    map b | b in buckets :: if b in bs then None else buckets[b]
  }

  function Repeated(r: nat, n: nat): seq<nat> {
    seq(n, i => r)
  }

  /** What is left of it. */
  function Gone(s: State, r: nat, bs: seq<nat>): State {
    State(Cleared(s.buckets, bs), s.pools - {r}, s.log + Repeated(r, |bs|), s.gone + [r])
  }

  /** Each of the cleanups logs the request and clears its bucket. */
  lemma {:induction false} CleanupsClear(s: State, r: nat, bs: seq<nat>)
    requires Distinct(bs) && AllHold(s.buckets, r, bs)
    ensures Cleanups(s, bs) == s.(buckets := Cleared(s.buckets, bs), log := s.log + Repeated(r, |bs|))
    decreases |bs|
  {
    if bs == [] {
      assert Cleared(s.buckets, bs) == s.buckets && s.log + [] == s.log;
    } else {
      var t := Cleanup(s, bs[0]);
      CleanupsClear(t, r, bs[1..]);
      assert bs == [bs[0]] + bs[1..];
      assert Cleared(t.buckets, bs[1..]) == Cleared(s.buckets, bs);
      assert s.log + [r] + Repeated(r, |bs| - 1) == s.log + Repeated(r, |bs|);
    }
  }

  lemma PoolGoes(s: State, r: nat, bs: seq<nat>)
    requires Intact(s, r, bs)
    ensures DestroyPool(s, r) == Gone(s, r, bs)
  {
    CleanupsClear(s, r, bs);
  }

  ghost predicate AllRight(es: seq<Event>, s: State) {
    (forall b :: BucketRight(es, s, b)) && forall r :: PoolRight(es, s, r) && CountRight(es, s, r)
  }

  /** A pool that is not over is intact. */
  lemma AliveIsIntact(es: seq<Event>, s: State, r: nat)
    requires Orderly(es) && AllRight(es, s) && Happened(es, NewRequest(r)) && !Over(es, r)
    ensures Intact(s, r, Made(es, r))
  {
    HistoryRight(es, 0, r);
    assert PoolRight(es, s, r);
    forall b | b in Made(es, r) ensures b in s.buckets && s.buckets[b] == Some(r) {
      HistoryRight(es, b, r);
      assert BucketRight(es, s, b);
    }
  }

  /** The request whose pool the event destroys, if it destroys one. */
  function Destroys(es: seq<Event>, e: Event): Option<nat> {
    if e.DropPool? && !Over(es, e.request) then Some(e.request)
    else if e.DropBucket? && Holding(es, e.bucket).Some? && !Over(es, Holding(es, e.bucket).value) then Holding(es, e.bucket)
    else None
  }

  lemma OverIs(es: seq<Event>, r: nat)
    requires Orderly(es) && es != []
    ensures var p := es[..|es| - 1]; Over(es, r) <==> Over(p, r) || Destroys(p, es[|es| - 1]) == Some(r)
  {
  }

  lemma HoldingIs(es: seq<Event>, b: nat)
    requires Orderly(es) && es != [] && Known(es[..|es| - 1], b)
    ensures var p := es[..|es| - 1];
            Holding(es, b) == if Created(p, b) && Took(p, b).Some? && Destroys(p, es[|es| - 1]) == Took(p, b) then None else Holding(p, b)
  {
    KnownKeeps(es, b);
    if Took(es, b).Some? {
      OverIs(es, Took(es, b).value);
    }
  }

  lemma DropPoolIs(p: seq<Event>, s: State, r: nat)
    requires Orderly(p) && AllRight(p, s) && Happened(p, NewRequest(r))
    ensures Step(s, DropPool(r)) == if Over(p, r) then s else Gone(s, r, Made(p, r))
  {
    assert PoolRight(p, s, r);
    if !Over(p, r) {
      AliveIsIntact(p, s, r);
      PoolGoes(s, r, Made(p, r));
    }
  }

  /** What is left when a bucket goes that holds `h`. */
  ghost function Dropped(p: seq<Event>, s: State, b: nat, h: Option<nat>): State {
    var s' := if h.None? then s else if Over(p, h.value) then s.(gone := s.gone + [h.value]) else Gone(s, h.value, Made(p, h.value));
    s'.(buckets := s'.buckets - {b})
  }

  lemma DropBucketIs(p: seq<Event>, s: State, b: nat)
    requires Orderly(p) && AllRight(p, s) && Known(p, b) && !Happened(p, DropBucket(b))
    ensures Step(s, DropBucket(b)) == Dropped(p, s, b, Holding(p, b))
  {
    assert BucketRight(p, s, b);
    var h := Holding(p, b);
    if h.Some? {
      HistoryRight(p, b, h.value);
      assert PoolRight(p, s, h.value);
      if Over(p, h.value) {
        assert s.pools - {h.value} == s.pools;
      } else {
        AliveIsIntact(p, s, h.value);
        PoolGoes(s, h.value, Made(p, h.value));
      }
    }
  }

  // ----- each step keeps this

  lemma OtherBucket(p: seq<Event>, s: State, r: nat, b: nat)
    requires Orderly(p) && AllRight(p, s) && Happened(p, NewRequest(r)) && !Over(p, r)
    ensures b in Gone(s, r, Made(p, r)).buckets <==> b in s.buckets
    ensures b in s.buckets ==> Gone(s, r, Made(p, r)).buckets[b] == if Created(p, b) && Took(p, b) == Some(r) then None else s.buckets[b]
  {
    AliveIsIntact(p, s, r);
    HistoryRight(p, b, r);
  }

  lemma BucketMade(es: seq<Event>, s: State, b: nat)
    requires Orderly(es) && es != [] && AllRight(es[..|es| - 1], s) && (es[|es| - 1].Create? || es[|es| - 1].Copy?)
    ensures BucketRight(es, Step(s, es[|es| - 1]), b)
  {
    var p, e := es[..|es| - 1], es[|es| - 1];
    assert BucketRight(p, s, b) && BucketRight(p, s, e.bucket);
    HistoryRight(p, b, 0);
    if Known(p, b) {
      HoldingIs(es, b);
    }
    if Took(es, b).Some? {
      OverIs(es, Took(es, b).value);
    }
  }

  lemma BucketKept(es: seq<Event>, s: State, b: nat)
    requires Orderly(es) && es != [] && BucketRight(es[..|es| - 1], s, b) && es[|es| - 1].NewRequest?
    ensures BucketRight(es, Step(s, es[|es| - 1]), b)
  {
    HistoryRight(es[..|es| - 1], b, 0);
    if Known(es[..|es| - 1], b) {
      HoldingIs(es, b);
    }
  }

  lemma BucketAfterPool(es: seq<Event>, s: State, b: nat)
    requires Orderly(es) && es != [] && AllRight(es[..|es| - 1], s) && es[|es| - 1].DropPool?
    ensures BucketRight(es, Step(s, es[|es| - 1]), b)
  {
    var p, e := es[..|es| - 1], es[|es| - 1];
    assert BucketRight(p, s, b);
    HistoryRight(p, b, 0);
    DropPoolIs(p, s, e.request);
    if Known(p, b) {
      HoldingIs(es, b);
    }
    if !Over(p, e.request) {
      OtherBucket(p, s, e.request, b);
    }
  }

  /** The buckets that are left when `b0` goes. */
  lemma LeftBehind(p: seq<Event>, s: State, b0: nat, b: nat)
    requires Orderly(p) && AllRight(p, s) && Known(p, b0) && !Happened(p, DropBucket(b0))
    ensures var s', d := Dropped(p, s, b0, Holding(p, b0)), Destroys(p, DropBucket(b0));
            && (b in s'.buckets <==> b in s.buckets && b != b0)
            && (b in s'.buckets ==> s'.buckets[b] == if d.Some? && Created(p, b) && Took(p, b) == d then None else s.buckets[b])
  {
    HistoryRight(p, b0, 0);
    if Destroys(p, DropBucket(b0)).Some? {
      OtherBucket(p, s, Holding(p, b0).value, b);
    }
  }

  lemma BucketAfterDrop(es: seq<Event>, s: State, b: nat)
    requires Orderly(es) && es != [] && AllRight(es[..|es| - 1], s) && es[|es| - 1].DropBucket?
    ensures BucketRight(es, Step(s, es[|es| - 1]), b)
  {
    var p, b0 := es[..|es| - 1], es[|es| - 1].bucket;
    assert BucketRight(p, s, b);
    HistoryRight(p, b, 0);
    DropBucketIs(p, s, b0);
    LeftBehind(p, s, b0, b);
    if Known(p, b) {
      HoldingIs(es, b);
    }
  }

  /** What a step that destroys something does to pools, log and count; the bucket that goes held `h`. */
  ghost predicate Effect(p: seq<Event>, s: State, s': State, d: Option<nat>, h: Option<nat>) {
    && s'.pools == (if d.Some? then s.pools - {d.value} else s.pools)
    && s'.log == s.log + (if d.Some? then Repeated(d.value, |Made(p, d.value)|) else [])
    && s'.gone == s.gone + (if d.Some? then [d.value] else if h.Some? then [h.value] else [])
  }

  lemma DroppedEffect(p: seq<Event>, s: State, b: nat, h: Option<nat>)
    ensures Effect(p, s, Dropped(p, s, b, h), if h.Some? && !Over(p, h.value) then h else None, h)
  {
    assert s.log + [] == s.log && s.gone + [] == s.gone;
  }

  function Held(p: seq<Event>, e: Event): Option<nat> {
    if e.DropBucket? then Holding(p, e.bucket) else None
  }

  lemma DropEffect(es: seq<Event>, s: State)
    requires Orderly(es) && es != [] && AllRight(es[..|es| - 1], s) && (es[|es| - 1].DropPool? || es[|es| - 1].DropBucket?)
    ensures var p, e := es[..|es| - 1], es[|es| - 1];
            Effect(p, s, Step(s, e), Destroys(p, e), Held(p, e))
  {
    var p, e := es[..|es| - 1], es[|es| - 1];
    if e.DropPool? {
      assert s.log + [] == s.log && s.gone + [] == s.gone;
      DropPoolIs(p, s, e.request);
    } else {
      DropBucketIs(p, s, e.bucket);
      DroppedEffect(p, s, e.bucket, Holding(p, e.bucket));
    }
  }

  lemma NothingDropped(es: seq<Event>, r: nat)
    requires es != [] && !es[|es| - 1].DropPool? && !es[|es| - 1].DropBucket?
    ensures var p := es[..|es| - 1]; Over(es, r) == Over(p, r) && Dangling(es, r) == Dangling(p, r)
  {
  }

  lemma {:induction false} CountMade(es: seq<Event>, s: State, r: nat)
    requires Orderly(es) && es != [] && CountRight(es[..|es| - 1], s, r) && !es[|es| - 1].DropPool? && !es[|es| - 1].DropBucket?
    ensures CountRight(es, Step(s, es[|es| - 1]), r)
  {
    NothingDropped(es, r);
  }

  lemma PoolAdded(es: seq<Event>, s: State, r: nat)
    requires Orderly(es) && es != [] && PoolRight(es[..|es| - 1], s, r) && es[|es| - 1].NewRequest?
    ensures PoolRight(es, Step(s, es[|es| - 1]), r)
  {
    NothingDropped(es, r);
    HistoryRight(es[..|es| - 1], 0, r);
  }

  lemma PoolMade(es: seq<Event>, s: State, r: nat)
    requires Orderly(es) && es != [] && PoolRight(es[..|es| - 1], s, r) && (es[|es| - 1].Create? || es[|es| - 1].Copy?)
    requires var e := es[|es| - 1]; e.Create? && e.holds.Some? ==> PoolRight(es[..|es| - 1], s, e.holds.value)
    ensures PoolRight(es, Step(s, es[|es| - 1]), r)
  {
    NothingDropped(es, r);
  }

  lemma SameRequests(es: seq<Event>, r: nat)
    requires es != [] && (es[|es| - 1].DropPool? || es[|es| - 1].DropBucket?)
    ensures var p := es[..|es| - 1]; Made(es, r) == Made(p, r) && Happened(es, NewRequest(r)) == Happened(p, NewRequest(r))
  {
  }

  lemma PoolGone(es: seq<Event>, s: State, s': State, d: Option<nat>, r: nat)
    requires es != [] && PoolRight(es[..|es| - 1], s, r)
    requires Over(es, r) <==> Over(es[..|es| - 1], r) || d == Some(r)
    requires Made(es, r) == Made(es[..|es| - 1], r) && Happened(es, NewRequest(r)) == Happened(es[..|es| - 1], NewRequest(r))
    requires s'.pools == if d.Some? then s.pools - {d.value} else s.pools
    ensures PoolRight(es, s', r)
  {
  }

  lemma DanglingIs(es: seq<Event>, r: nat)
    requires es != [] && (es[|es| - 1].DropPool? || es[|es| - 1].DropBucket?)
    ensures var p, e := es[..|es| - 1], es[|es| - 1];
            && Made(es, r) == Made(p, r)
            && Dangling(es, r) == Dangling(p, r) + if Destroys(p, e).None? && e.DropBucket? && Holding(p, e.bucket) == Some(r) then 1 else 0
  {
  }

  lemma CountGone(es: seq<Event>, s: State, s': State, d: Option<nat>, h: Option<nat>, r: nat)
    requires es != [] && CountRight(es[..|es| - 1], s, r)
    requires Effect(es[..|es| - 1], s, s', d, h)
    requires (Over(es, r) <==> Over(es[..|es| - 1], r) || d == Some(r)) && (d == Some(r) ==> !Over(es[..|es| - 1], r))
    requires Made(es, r) == Made(es[..|es| - 1], r)
    requires Dangling(es, r) == Dangling(es[..|es| - 1], r) + if d.None? && h == Some(r) then 1 else 0
    ensures CountRight(es, s', r)
  {
    CountAdds(s, s', r, d, h);
    if d.Some? {
      CountRepeated(d.value, |Made(es[..|es| - 1], d.value)|, r);
    }
  }

  lemma {:induction false} CountRepeated(r: nat, n: nat, x: nat)
    ensures multiset(Repeated(r, n))[x] == if x == r then n else 0
  {
    if n > 0 {
      CountRepeated(r, n - 1, x);
      assert Repeated(r, n) == Repeated(r, n - 1) + [r];
    }
  }

  lemma AfterDrop(es: seq<Event>, s: State, r: nat)
    requires Orderly(es) && es != [] && AllRight(es[..|es| - 1], s) && (es[|es| - 1].DropPool? || es[|es| - 1].DropBucket?)
    ensures var s' := Step(s, es[|es| - 1]); PoolRight(es, s', r) && CountRight(es, s', r)
  {
    var p, e := es[..|es| - 1], es[|es| - 1];
    assert PoolRight(p, s, r) && CountRight(p, s, r);
    HistoryRight(p, 0, r);
    OverIs(es, r);
    DanglingIs(es, r);
    SameRequests(es, r);
    NotYetOver(p, e);
    DropEffect(es, s);
    PoolGone(es, s, Step(s, e), Destroys(p, e), r);
    CountGone(es, s, Step(s, e), Destroys(p, e), Held(p, e), r);
  }

  lemma NotYetOver(p: seq<Event>, e: Event)
    ensures Destroys(p, e).Some? ==> !Over(p, Destroys(p, e).value)
  {
  }

  /** The arithmetic of it: `d` is destroyed for the first time, or the bucket held `h`. */
  lemma CountAdds(s: State, s': State, r: nat, d: Option<nat>, h: Option<nat>)
    requires s'.gone == s.gone + (if d.Some? then [d.value] else if h.Some? then [h.value] else [])
    ensures multiset(s'.gone)[r] == multiset(s.gone)[r] + if d == Some(r) || (d.None? && h == Some(r)) then 1 else 0
  {
  }

  lemma {:induction false} RunRight(es: seq<Event>)
    requires Orderly(es)
    ensures AllRight(es, Run(es))
    decreases |es|
  {
    if es != [] {
      var p, e := es[..|es| - 1], es[|es| - 1];
      RunRight(p);
      forall b ensures BucketRight(es, Run(es), b) {
        if e.Create? || e.Copy? {
          BucketMade(es, Run(p), b);
        } else if e.DropPool? {
          BucketAfterPool(es, Run(p), b);
        } else if e.DropBucket? {
          BucketAfterDrop(es, Run(p), b);
        } else {
          assert BucketRight(p, Run(p), b);
          BucketKept(es, Run(p), b);
        }
      }
      forall r ensures PoolRight(es, Run(es), r) && CountRight(es, Run(es), r) {
        if e.DropPool? || e.DropBucket? {
          AfterDrop(es, Run(p), r);
        } else {
          assert PoolRight(p, Run(p), r) && CountRight(p, Run(p), r);
          CountMade(es, Run(p), r);
          if e.NewRequest? {
            PoolAdded(es, Run(p), r);
          } else {
            if e.Create? && e.holds.Some? {
              assert PoolRight(p, Run(p), e.holds.value);
            }
            PoolMade(es, Run(p), r);
          }
        }
      }
    }
  }

  /** Whichever of bucket and pool goes first, once its pool has gone the request has been logged as often as
      buckets were created for it, and not before; its pool is destroyed once, and once more with every copy that
      is destroyed after it had gone. */
  lemma LoggedOnce(es: seq<Event>, r: nat)
    requires Orderly(es)
    ensures multiset(Run(es).log)[r] == if Over(es, r) then |Made(es, r)| else 0
    ensures multiset(Run(es).gone)[r] == (if Over(es, r) then 1 else 0) + Dangling(es, r)
  {
    RunRight(es);
    assert CountRight(es, Run(es), r);
  }

  function TimesLogged(es: seq<Event>, r: nat): nat {
    multiset(Run(es).log)[r]
  }

  ghost predicate NoneLoggedTwice(es: seq<Event>) {
    forall r :: TimesLogged(es, r) <= 1
  }

  /** No request whose pool has gone had a second bucket created for it. */
  ghost predicate OneBucketEach(es: seq<Event>) {
    forall r :: Over(es, r) ==> |Made(es, r)| <= 1
  }

  /** No request is logged twice if and only if one bucket at most was created for each. */
  lemma LoggedOnceExactly(es: seq<Event>)
    requires Orderly(es)
    ensures NoneLoggedTwice(es) <==> OneBucketEach(es)
  {
    if NoneLoggedTwice(es) {
      forall r | Over(es, r) ensures |Made(es, r)| <= 1 {
        assert TimesLogged(es, r) <= 1;
        LoggedOnce(es, r);
      }
    }
    if OneBucketEach(es) {
      forall r ensures TimesLogged(es, r) <= 1 {
        LoggedOnce(es, r);
      }
    }
  }

  lemma {:induction false} DanglingIsOver(es: seq<Event>, r: nat)
    ensures Dangling(es, r) > 0 ==> Over(es, r)
  {
    if es != [] {
      DanglingIsOver(es[..|es| - 1], r);
    }
  }

  /** How often the pool has been destroyed. */
  function TimesDestroyed(es: seq<Event>, r: nat): nat {
    multiset(Run(es).gone)[r]
  }

  ghost predicate NoneTwice(es: seq<Event>) {
    forall r :: TimesDestroyed(es, r) <= 1
  }

  ghost predicate NoneDangling(es: seq<Event>) {
    forall r :: Dangling(es, r) == 0
  }

  /** No pool is destroyed twice if and only if no copy outlives the pool of its request and is then destroyed. */
  lemma DestroyedOnceExactly(es: seq<Event>)
    requires Orderly(es)
    ensures NoneTwice(es) <==> NoneDangling(es)
  {
    if NoneTwice(es) {
      forall r ensures Dangling(es, r) == 0 {
        assert TimesDestroyed(es, r) <= 1;
        LoggedOnce(es, r);
        DanglingIsOver(es, r);
      }
    }
    if NoneDangling(es) {
      forall r ensures TimesDestroyed(es, r) <= 1 {
        assert Dangling(es, r) == 0;
        LoggedOnce(es, r);
      }
    }
  }

  // ----- buckets and pools as they are changed

  lemma RunSnoc(es: seq<Event>, e: Event)
    ensures Run(es + [e]) == Step(Run(es), e)
  {
    assert (es + [e])[..|es|] == es;
  }

  class Memory {
    var buckets: map<nat, Option<nat>>   // b->data of every live bucket
    var pools: map<nat, seq<nat>>        // pre-cleanups of every live request pool
    var log: seq<nat>
    var gone: seq<nat>
    ghost var history: seq<Event>

    function Now(): State
      reads this
    {
      State(buckets, pools, log, gone)
    }

    /** Memory is what the events so far have made of it, and if they were in order, every request has been
        logged as often as it should. */
    ghost predicate Valid()
      reads this
    {
      && Now() == Run(history)
      && (Orderly(history) ==> forall r :: multiset(log)[r] == if Over(history, r) then |Made(history, r)| else 0)
    }

    constructor ()
      ensures Valid() && history == []
    {
      buckets, pools, log, gone, history := map[], map[], [], [], [];
    }

    /** The event `e` has been dealt with. */
    ghost method Note(e: Event)
      requires Now() == Step(Run(history), e)
      modifies this`history
      ensures Valid() && history == old(history) + [e]
    {
      RunSnoc(history, e);
      history := history + [e];
      if Orderly(history) {
        forall r ensures multiset(log)[r] == if Over(history, r) then |Made(history, r)| else 0 {
          LoggedOnce(history, r);
        }
      }
    }

    method RequestBegin(r: nat)
      requires Valid()
      modifies this
      ensures Valid() && history == old(history) + [NewRequest(r)]
    {
      pools := pools[r := []];
      Note(NewRequest(r));
    }

    /** `ap_bucket_eor_create` */
    method EorCreate(b: nat, r: Option<nat>)
      requires Valid()
      modifies this
      ensures Valid() && history == old(history) + [Create(b, r)]
    {
      if r.Some? && r.value in pools {
        pools := pools[r.value := [b] + pools[r.value]];
      }
      buckets := buckets[b := r];
      Note(Create(b, r));
    }

    /** `apr_bucket_simple_copy` */
    method BucketCopy(b: nat, c: nat)
      requires Valid()
      modifies this
      ensures Valid() && history == old(history) + [Copy(b, c)]
    {
      if b in buckets {
        buckets := buckets[c := buckets[b]];
      }
      Note(Copy(b, c));
    }

    /** `eor_bucket_cleanup` */
    method EorCleanup(b: nat)
      modifies this`buckets, this`log
      ensures Now() == Cleanup(old(Now()), b)
    {
      if b in buckets && buckets[b].Some? {
        var r := buckets[b].value;
        buckets := buckets[b := None];
        log := log + [r];
      }
    }

    /** `apr_pool_destroy`, which runs the pre-cleanups of a live pool */
    method PoolDestroy(r: nat)
      modifies this`buckets, this`pools, this`log, this`gone
      ensures Now() == DestroyPool(old(Now()), r)
    {
      if r in pools {
        var bs, i := pools[r], 0;
        while i < |bs|
          invariant i <= |bs| && pools == old(pools) && gone == old(gone)
          invariant Cleanups(Now(), bs[i..]) == Cleanups(old(Now()), bs)
        {
          assert bs[i..][1..] == bs[i + 1..];
          EorCleanup(bs[i]);
          i := i + 1;
        }
      }
      pools := pools - {r};
      gone := gone + [r];
    }

    /** `apr_bucket_destroy` with `eor_bucket_destroy` */
    method BucketDestroy(b: nat)
      requires Valid()
      modifies this
      ensures Valid() && history == old(history) + [DropBucket(b)]
    {
      if b in buckets {
        var r := buckets[b];
        if r.Some? {
          PoolDestroy(r.value);
        }
        buckets := buckets - {b};
      }
      Note(DropBucket(b));
    }

    /** The pool of a request goes with that of its connection. */
    method RequestEnd(r: nat)
      requires Valid()
      modifies this
      ensures Valid() && history == old(history) + [DropPool(r)]
    {
      if r in pools {
        PoolDestroy(r);
      }
      Note(DropPool(r));
    }
  }
}
