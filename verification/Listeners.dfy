/** The lists of listening sockets: records handed over at a restart, and the order in which
    `0.0.0.0` and `::` are bound.
 */
module Listeners {
  import opened Wrappers

  datatype Family = V4 | V6

  datatype Addr = Addr(host: Option<string>, port: nat, family: Family, any: bool)

  /** `ap_listen_rec`; one that is not real has no address. */
  datatype Rec = Rec(sock: nat, bind: Option<Addr>, active: bool, slave: nat)

  predicate Any(r: Rec, family: Family) {
    r.bind.Some? && r.bind.value.any && r.bind.value.family == family
  }

  predicate SamePort(a: Rec, b: Rec) {
    a.bind.Some? && b.bind.Some? && a.bind.value.port == b.bind.value.port
  }

  /** What the system answers: the sockets that bind, and those whose V6ONLY option reads as off. */
  datatype System = System(binds: set<nat>, dual: set<nat>)

  // ----- open_listeners

  /** What `previous` is: nothing, the record in front, or one that is no longer in the list. */
  datatype Previous = Nothing | InFront | Removed

  datatype Opening = Opened(list: seq<Rec>, count: nat) | Failed

  /** `0.0.0.0` with `::` next to it on the same port. */
  predicate Swaps(rest: seq<Rec>) {
    |rest| > 1 && Any(rest[0], V4) && SamePort(rest[0], rest[1]) && Any(rest[1], V6)
  }

  /** `::` with `0.0.0.0` next to it on the same port. */
  predicate CanDrop(lr: Rec, tail: seq<Rec>) {
    tail != [] && Any(lr, V6) && SamePort(lr, tail[0]) && Any(tail[0], V4)
  }

  predicate Covers(c: Rec, r: Rec, os: System) {
    SamePort(r, c) && Any(c, V6) && c.sock in os.dual
  }

  /** Some record of `done` is a `::` on the port of `r` that takes IPv4 as well. */
  predicate Covered(done: seq<Rec>, r: Rec, os: System) {
    exists i :: 0 <= i < |done| && Covers(done[i], r, os)
  }

  function AsV4(r: Rec): Rec {
    if r.bind.Some? then r.(bind := Some(r.bind.value.(family := V4))) else r
  }

  datatype Walk = Walk(done: seq<Rec>, rest: seq<Rec>, previous: Previous, count: nat)

  /** What is done with the record `lr`, which lies between the two parts of `w`, or, when it is adrift,
      hangs on a record that is gone and is linked from nowhere else. */
  function Deal(w: Walk, lr: Rec, adrift: bool, os: System): (r: Option<Walk>)
    ensures r.Some? ==> r.value.rest == w.rest
  {
    if Any(lr, V4) && !w.previous.Nothing? && Covered(w.done, lr, os) then
      Some(if w.previous.Removed? then w.(done := w.done + [lr]) else w)
    else if lr.sock in os.binds then
      if adrift then Some(w.(count := w.count + 1))
      else Some(Walk(w.done + [lr.(active := true)], w.rest, InFront, w.count + 1))
    else if CanDrop(lr, w.rest) then
      if w.previous.Removed? && !adrift then Some(Walk(w.done + [AsV4(lr)], w.rest, InFront, w.count))
      else Some(w.(previous := Removed))
    else None
  }

  /** One turn of the loop: what lies in front of the cursor, what lies behind, and `previous`. */
  function Turn(w: Walk, os: System): (r: Option<Walk>)
    requires w.rest != []
    ensures r.Some? ==> |r.value.rest| < |w.rest|
  {
    if w.rest[0].active then Some(Walk(w.done + [w.rest[0]], w.rest[1..], InFront, w.count + 1))
    else if Swaps(w.rest) then Deal(w.(rest := [w.rest[0]] + w.rest[2..]), w.rest[1], w.previous.Removed?, os)
    else Deal(w.(rest := w.rest[1..]), w.rest[0], false, os)
  }

  function Open(w: Walk, os: System): Opening
    decreases |w.rest|
  {
    if w.rest == [] then Opened(w.done, w.count)
    else match Turn(w, os)
      case None => Failed
      case Some(w') => Open(w', os)
  }

  function OpenAll(list: seq<Rec>, os: System): Opening {
    Open(Walk([], list, Nothing, 0), os)
  }

  // ----- what a successful open leaves

  ghost predicate AllActive(list: seq<Rec>) {
    forall i :: 0 <= i < |list| ==> list[i].active
  }

  /** What has become of a configured record. */
  ghost predicate Served(r: Rec, out: seq<Rec>, os: System) {
    || r.(active := true) in out
    || (!r.active && Any(r, V4) && Covered(out, r, os))
    || (!r.active && Any(r, V6) && r.sock !in os.binds && exists i :: 0 <= i < |out| && SamePort(r, out[i]) && Any(out[i], V4))
  }

  // ----- the lists the loop cannot deal with

  /** A `::` on the port of `r`. */
  predicate Six(r: Rec, c: Rec) {
    SamePort(r, c) && Any(c, V6)
  }

  /** A `0.0.0.0` on the port of `r` that is not open yet. */
  predicate IdleFour(r: Rec, c: Rec) {
    SamePort(r, c) && Any(c, V4) && !c.active
  }

  ghost predicate HasSix(list: seq<Rec>, r: Rec) {
    exists i :: 0 <= i < |list| && Six(r, list[i])
  }

  /** At `n` there is an idle `0.0.0.0` that will be exchanged with one `::` after the other until it
      stands before `r`. */
  ghost predicate HopsFrom(before: seq<Rec>, r: Rec, n: int) {
    0 <= n < |before| && IdleFour(r, before[n]) && forall k :: n < k < |before| ==> Six(r, before[k])
  }

  ghost predicate Hops(before: seq<Rec>, r: Rec) {
    Any(r, V6) && exists n :: HopsFrom(before, r, n)
  }

  /** An open `::` that an idle `0.0.0.0` comes to stand before: it will be bound again. */
  ghost predicate Rebound(rest: seq<Rec>, x: int) {
    0 <= x < |rest| && rest[x].active && Hops(rest[..x], rest[x])
  }

  /** A `::` that may have to make way for an idle `0.0.0.0` beside it, while an earlier `::` is there. */
  ghost predicate Crowded(done: seq<Rec>, rest: seq<Rec>, x: int) {
    && 0 <= x < |rest| && !rest[x].active && Any(rest[x], V6)
    && (HasSix(done, rest[x]) || HasSix(rest[..x], rest[x]))
    && ((x + 1 < |rest| && IdleFour(rest[x], rest[x + 1])) || Hops(rest[..x], rest[x]))
  }

  /** One of the two is ahead of the cursor. */
  ghost predicate Hazard(done: seq<Rec>, rest: seq<Rec>) {
    exists x :: Rebound(rest, x) || Crowded(done, rest, x)
  }

  lemma HopsShift(before: seq<Rec>, r: Rec)
    requires before != [] && Hops(before[1..], r)
    ensures Hops(before, r)
  {
    var n :| HopsFrom(before[1..], r, n);
    assert before[n + 1] == before[1..][n];
    forall k | n + 1 < k < |before| ensures Six(r, before[k]) {
      assert before[k] == before[1..][k - 1];
    }
    assert HopsFrom(before, r, n + 1);
  }

  /** The cursor moves on: what is ahead of it then was ahead before. */
  lemma HazardShift(done: seq<Rec>, rest: seq<Rec>, done': seq<Rec>)
    requires rest != [] && forall r :: HasSix(done', r) ==> HasSix(done, r) || Six(r, rest[0])
    ensures Hazard(done', rest[1..]) ==> Hazard(done, rest)
  {
    if Hazard(done', rest[1..]) {
      var x :| Rebound(rest[1..], x) || Crowded(done', rest[1..], x);
      var r := rest[1..][x];
      assert r == rest[x + 1] && rest[..x + 1][1..] == rest[1..][..x];
      if Hops(rest[1..][..x], r) {
        HopsShift(rest[..x + 1], r);
      }
      if HasSix(rest[1..][..x], r) {
        var d :| 0 <= d < x && Six(r, rest[1..][..x][d]);
        assert rest[..x + 1][d + 1] == rest[1..][..x][d];
      }
      if Six(r, rest[0]) {
        assert rest[..x + 1][0] == rest[0];
      }
      assert x + 2 < |rest| ==> rest[1..][x + 1] == rest[x + 2];
      assert Rebound(rest, x + 1) || Crowded(done, rest, x + 1);
    }
  }

  lemma HopsSwap(before: seq<Rec>, r: Rec)
    requires Swaps(before) && !before[0].active && Hops([before[0]] + before[2..], r)
    ensures Hops(before, r)
  {
    var u := [before[0]] + before[2..];
    var n :| HopsFrom(u, r, n);
    var n' := if n == 0 then 0 else n + 1;
    assert before[n'] == u[n];
    forall k | n' < k < |before| ensures Six(r, before[k]) {
      if k >= 2 {
        assert before[k] == u[k - 1];
      }
    }
    assert HopsFrom(before, r, n');
  }

  lemma HopsOverSwap(rest: seq<Rec>, r: Rec, x: nat)
    requires Swaps(rest) && !rest[0].active && 1 <= x < |rest| - 1 && Hops(([rest[0]] + rest[2..])[..x], r)
    ensures Hops(rest[..x + 1], r)
  {
    var before := rest[..x + 1];
    assert ([rest[0]] + rest[2..])[..x] == [before[0]] + before[2..];
    HopsSwap(before, r);
  }

  /** An idle `0.0.0.0` is exchanged with the `::` next to it: no new hazard arises. */
  lemma HazardSwap(done: seq<Rec>, rest: seq<Rec>, done': seq<Rec>)
    requires Swaps(rest) && !rest[0].active
    requires forall r :: HasSix(done', r) ==> HasSix(done, r) || Six(r, rest[1])
    ensures Hazard(done', [rest[0]] + rest[2..]) ==> Hazard(done, rest)
  {
    var u := [rest[0]] + rest[2..];
    if Hazard(done', u) {
      var x :| Rebound(u, x) || Crowded(done', u, x);
      var r := u[x];
      assert x > 0;
      assert r == rest[x + 1];
      if Hops(u[..x], r) {
        HopsOverSwap(rest, r, x);
      }
      if HasSix(u[..x], r) {
        var d :| 0 <= d < x && Six(r, u[..x][d]);
        assert d > 0;
        assert rest[..x + 1][d + 1] == u[..x][d];
      }
      if Six(r, rest[1]) {
        assert rest[..x + 1][1] == rest[1];
      }
      assert x + 1 < |u| ==> u[x + 1] == rest[x + 2];
      assert Rebound(rest, x + 1) || Crowded(done, rest, x + 1);
    }
  }

  ghost predicate OpenInv(w: Walk) {
    && AllActive(w.done) && |w.done| == w.count && !Hazard(w.done, w.rest)
    && (w.previous.Nothing? ==> w.done == [])
    && (w.previous.Removed? ==>
          && w.rest != [] && Any(w.rest[0], V4)
          && (w.rest[0].active || (!HasSix(w.done, w.rest[0]) && (|w.rest| > 1 ==> !Six(w.rest[0], w.rest[1])))))
  }

  /** The record dealt with in a turn, and those behind it. */
  function Next(rest: seq<Rec>): (Rec, seq<Rec>)
    requires rest != []
  {
    if !rest[0].active && Swaps(rest) then (rest[1], [rest[0]] + rest[2..]) else (rest[0], rest[1..])
  }

  lemma NothingAdrift(w: Walk)
    requires OpenInv(w) && w.previous.Removed? && !w.rest[0].active
    ensures !Swaps(w.rest)
  {
  }

  /** No `::` that is open is exchanged. */
  lemma SwappedIsIdle(done: seq<Rec>, rest: seq<Rec>)
    requires !Hazard(done, rest) && Swaps(rest) && !rest[0].active
    ensures !rest[1].active
  {
    if rest[1].active {
      assert HopsFrom(rest[..1], rest[1], 0);
      assert Rebound(rest, 1);
    }
  }

  lemma HazardNext(done: seq<Rec>, rest: seq<Rec>, done': seq<Rec>)
    requires rest != [] && !Hazard(done, rest) && forall r :: HasSix(done', r) ==> HasSix(done, r) || Six(r, Next(rest).0)
    ensures !Hazard(done', Next(rest).1)
  {
    if !rest[0].active && Swaps(rest) {
      HazardSwap(done, rest, done');
    } else {
      HazardShift(done, rest, done');
    }
  }

  lemma SixSnoc(done: seq<Rec>, c: Rec)
    ensures forall r :: HasSix(done + [c], r) ==> HasSix(done, r) || Six(r, c)
  {
    forall r | HasSix(done + [c], r) ensures HasSix(done, r) || Six(r, c) {
      var i :| 0 <= i < |done + [c]| && Six(r, (done + [c])[i]);
      if i < |done| {
        assert Six(r, done[i]);
      }
    }
  }

  /** The `::` dealt with stands beside an idle `0.0.0.0`. */
  ghost predicate MakesWay(rest: seq<Rec>) {
    && rest != [] && !Next(rest).0.active && CanDrop(Next(rest).0, Next(rest).1) && !Next(rest).1[0].active
  }

  lemma EarlierIsHazard(done: seq<Rec>, rest: seq<Rec>)
    requires MakesWay(rest) && HasSix(done, Next(rest).1[0])
    ensures Hazard(done, rest)
  {
    var (lr, tail) := Next(rest);
    var d :| 0 <= d < |done| && Six(tail[0], done[d]);
    assert Six(lr, done[d]);
    if !rest[0].active && Swaps(rest) {
      assert HopsFrom(rest[..1], lr, 0);
      assert Crowded(done, rest, 1);
    } else {
      assert Crowded(done, rest, 0);
    }
  }

  lemma LaterIsHazard(done: seq<Rec>, rest: seq<Rec>)
    requires MakesWay(rest) && |Next(rest).1| > 1 && Six(Next(rest).1[0], Next(rest).1[1])
    ensures Hazard(done, rest)
  {
    var (lr, tail) := Next(rest);
    var x := if !rest[0].active && Swaps(rest) then 1 else 0;
    assert tail[1] == rest[2] && rest[..2][x] == lr && Six(rest[2], lr);
    assert HopsFrom(rest[..2], rest[2], 1 - x);
    assert HasSix(rest[..2], rest[2]);
    assert Rebound(rest, 2) || Crowded(done, rest, 2);
  }

  /** A `::` that makes way for an idle `0.0.0.0` was the only one in sight. */
  lemma DropIsClean(done: seq<Rec>, rest: seq<Rec>)
    requires !Hazard(done, rest) && MakesWay(rest)
    ensures var tail := Next(rest).1; !HasSix(done, tail[0]) && (|tail| > 1 ==> !Six(tail[0], tail[1]))
  {
    if HasSix(done, Next(rest).1[0]) {
      EarlierIsHazard(done, rest);
    }
    if |Next(rest).1| > 1 && Six(Next(rest).1[0], Next(rest).1[1]) {
      LaterIsHazard(done, rest);
    }
  }

  lemma CoveredHasSix(done: seq<Rec>, r: Rec, os: System)
    requires Covered(done, r, os)
    ensures HasSix(done, r)
  {
    var i :| 0 <= i < |done| && Covers(done[i], r, os);
    assert Six(r, done[i]);
  }

  function Activated(list: seq<Rec>): seq<Rec> {
    if list == [] then [] else [list[0].(active := true)] + Activated(list[1..])
  }

  lemma ActivatedFirst(x: Rec, list: seq<Rec>)
    ensures multiset(Activated([x] + list)) == multiset{x.(active := true)} + multiset(Activated(list))
  {
    assert ([x] + list)[1..] == list;
  }

  /** What a turn makes of its record is what the record comes to. */
  lemma ServedNow(r: Rec, done: seq<Rec>, done': seq<Rec>, next: Option<Rec>, out: seq<Rec>, os: System)
    requires done <= done' <= out && AllActive(out)
    requires || done' == done + [r.(active := true)]
             || (!r.active && Any(r, V4) && Covered(done, r, os))
             || (!r.active && Any(r, V6) && r.sock !in os.binds && next.Some? && SamePort(r, next.value) && Any(next.value, V4)
                 && next.value.(active := true) in out)
    ensures Served(r, out, os)
  {
    if done' == done + [r.(active := true)] {
      assert out[|done|] == done'[|done|];
    } else if Any(r, V4) && Covered(done, r, os) {
      var i :| 0 <= i < |done| && Covers(done[i], r, os);
      assert out[i] == done[i];
    } else {
      var i :| 0 <= i < |out| && out[i] == next.value.(active := true);
      assert SamePort(r, out[i]);
    }
  }

  ghost predicate AllServed(list: seq<Rec>, out: seq<Rec>, os: System) {
    forall i :: 0 <= i < |list| ==> Served(list[i], out, os)
  }

  lemma SwapSame(a: Rec, b: Rec, more: seq<Rec>)
    ensures multiset(Activated([a] + ([b] + more))) == multiset{b.(active := true)} + multiset(Activated([a] + more))
  {
    ActivatedFirst(a, [b] + more);
    ActivatedFirst(b, more);
    ActivatedFirst(a, more);
  }

  lemma NextSame(rest: seq<Rec>)
    requires rest != []
    ensures var (r, tail) := Next(rest);
            multiset(Activated(rest)) == multiset{r.(active := true)} + multiset(Activated(tail))
  {
    if !rest[0].active && Swaps(rest) {
      assert rest == [rest[0]] + ([rest[1]] + rest[2..]);
      SwapSame(rest[0], rest[1], rest[2..]);
    } else {
      assert rest == [rest[0]] + rest[1..];
      ActivatedFirst(rest[0], rest[1..]);
    }
  }

  lemma NextAmong(rest: seq<Rec>, i: nat)
    requires i < |rest|
    ensures rest[i] == Next(rest).0 || rest[i] in Next(rest).1
  {
    var tail := Next(rest).1;
    if !rest[0].active && Swaps(rest) {
      assert i == 0 ==> tail[0] == rest[0];
      assert i >= 2 ==> tail[i - 1] == rest[i];
    } else {
      assert i >= 1 ==> tail[i - 1] == rest[i];
    }
  }

  lemma ServedInOrder(rest: seq<Rec>, out: seq<Rec>, os: System)
    requires rest != [] && Served(Next(rest).0, out, os) && AllServed(Next(rest).1, out, os)
    ensures AllServed(rest, out, os)
  {
    forall i | 0 <= i < |rest| ensures Served(rest[i], out, os) {
      NextAmong(rest, i);
    }
  }

  /** A turn, with the record it deals with. */
  lemma OneTurn(w: Walk, os: System) returns (w': Walk, r: Rec)
    requires OpenInv(w) && w.rest != [] && Turn(w, os).Some?
    ensures Turn(w, os) == Some(w') && OpenInv(w') && w.done <= w'.done && Next(w.rest) == (r, w'.rest)
    ensures || w'.done == w.done + [r.(active := true)]
            || (w'.done == w.done && !r.active && Any(r, V4) && Covered(w.done, r, os))
            || (w'.done == w.done && !r.active && Any(r, V6) && r.sock !in os.binds && w'.previous.Removed? && SamePort(r, w'.rest[0]))
    ensures w.previous.Removed? ==> r == w.rest[0] && w'.done == w.done + [r.(active := true)]
  {
    w', r := Turn(w, os).value, Next(w.rest).0;
    if !w.rest[0].active {
      if w.previous.Removed? {
        NothingAdrift(w);
      }
      if Swaps(w.rest) {
        SwappedIsIdle(w.done, w.rest);
      }
      if Covered(w.done, r, os) {
        CoveredHasSix(w.done, r, os);
      }
      if MakesWay(w.rest) {
        DropIsClean(w.done, w.rest);
      }
    }
    SixSnoc(w.done, r.(active := true));
    HazardNext(w.done, w.rest, w'.done);
  }

  lemma {:induction false} OpenKeeps(w: Walk, os: System)
    requires OpenInv(w) && Open(w, os).Opened?
    ensures var out := Open(w, os).list;
            && AllActive(out) && |out| == Open(w, os).count && w.done <= out
            && (w.previous.Removed? ==> w.rest[0].(active := true) in out)
    decreases |w.rest|
  {
    if w.rest != [] {
      var w', r := OneTurn(w, os);
      OpenKeeps(w', os);
      if w.previous.Removed? {
        assert Open(w, os).list[|w.done|] == w'.done[|w.done|] == r.(active := true);
      }
    }
  }

  lemma {:induction false} OpenServes(w: Walk, os: System)
    requires OpenInv(w) && Open(w, os).Opened?
    ensures AllServed(w.rest, Open(w, os).list, os)
    ensures multiset(Open(w, os).list) <= multiset(w.done) + multiset(Activated(w.rest))
    decreases |w.rest|
  {
    if w.rest != [] {
      var w', r := OneTurn(w, os);
      OpenKeeps(w', os);
      OpenServes(w', os);
      var out := Open(w, os).list;
      ServedNow(r, w.done, w'.done, if w'.rest == [] then None else Some(w'.rest[0]), out, os);
      ServedInOrder(w.rest, out, os);
      NextSame(w.rest);
    }
  }

  /** What a successful open promises: only active records, as many as it counts, none of them made up or
      doubled; and every record configured is among them, or is a `0.0.0.0` that a `::` of the list takes
      in, or is a `::` that did not bind and whose port keeps its `0.0.0.0`. Active ones are all kept. */
  ghost predicate Coverage(list: seq<Rec>, os: System) {
    var r := OpenAll(list, os);
    r.Opened? ==>
      && AllActive(r.list) && |r.list| == r.count
      && multiset(r.list) <= multiset(Activated(list))
      && AllServed(list, r.list, os)
  }

  lemma EveryListenerServed(list: seq<Rec>, os: System)
    requires !Hazard([], list)
    ensures Coverage(list, os)
  {
    var w := Walk([], list, Nothing, 0);
    if OpenAll(list, os).Opened? {
      OpenKeeps(w, os);
      OpenServes(w, os);
    }
  }

  // ----- a list with a hazard is not always served

  ghost predicate AllBind(list: seq<Rec>, os: System) {
    forall i :: 0 <= i < |list| ==> list[i].sock in os.binds
  }

  ghost predicate SockIn(list: seq<Rec>, sock: nat) {
    exists i :: 0 <= i < |list| && list[i].sock == sock
  }

  ghost predicate DistinctSockets(list: seq<Rec>) {
    forall i, j :: 0 <= i < j < |list| ==> list[i].sock != list[j].sock
  }

  lemma SockInConcat(a: seq<Rec>, b: seq<Rec>, sock: nat)
    ensures SockIn(a + b, sock) <==> SockIn(a, sock) || SockIn(b, sock)
  {
    assert forall i :: 0 <= i < |a| ==> (a + b)[i] == a[i];
    assert forall i :: 0 <= i < |b| ==> (a + b)[|a| + i] == b[i];
  }

  lemma NextSockets(rest: seq<Rec>, sock: nat)
    requires rest != []
    ensures Next(rest).0.sock == sock || SockIn(Next(rest).1, sock) ==> SockIn(rest, sock)
  {
    var (r, tail) := Next(rest);
    if SockIn(tail, sock) {
      var i :| 0 <= i < |tail| && tail[i].sock == sock;
      assert tail[i] in rest;
    }
    assert r in rest;
  }

  /** Nothing comes into the list that was not there. */
  lemma {:induction false} OutSockets(w: Walk, os: System, sock: nat)
    requires Open(w, os).Opened? && SockIn(Open(w, os).list, sock)
    ensures SockIn(w.done, sock) || SockIn(w.rest, sock)
    decreases |w.rest|
  {
    if w.rest != [] {
      var w', r := Turn(w, os).value, Next(w.rest).0;
      OutSockets(w', os, sock);
      NextSockets(w.rest, sock);
      SockInConcat(w.done, [r], sock);
      SockInConcat(w.done, [r.(active := true)], sock);
      SockInConcat(w.done, [AsV4(r)], sock);
    }
  }

  lemma NextBinds(rest: seq<Rec>, os: System)
    requires rest != [] && AllBind(rest, os)
    ensures Next(rest).0.sock in os.binds && AllBind(Next(rest).1, os)
  {
  }

  /** Where everything binds, nothing fails. */
  lemma {:induction false} BindOpens(w: Walk, os: System)
    requires AllBind(w.rest, os)
    ensures Open(w, os).Opened? && w.done <= Open(w, os).list
    decreases |w.rest|
  {
    if w.rest != [] {
      NextBinds(w.rest, os);
      BindOpens(Turn(w, os).value, os);
    }
  }

  /** What a stretch of the loop over `a`, all of it bound, has done. */
  ghost predicate Passed(w: Walk, a: seq<Rec>, t: seq<Rec>, w': Walk) {
    && w'.rest == t && !w'.previous.Removed? && (w'.previous.Nothing? ==> w'.done == []) && w.done <= w'.done
    && (forall i :: 0 <= i < |a| && Any(a[i], V6) ==> a[i].(active := true) in w'.done)
    && (forall sock: nat :: SockIn(w'.done, sock) ==> SockIn(w.done, sock) || SockIn(a, sock))
  }

  ghost predicate AtEase(w: Walk) {
    !w.previous.Removed? && (w.previous.Nothing? ==> w.done == [])
  }

  lemma PassedOn(w: Walk, r: Rec, w1: Walk, a: seq<Rec>, a': seq<Rec>, t: seq<Rec>, w': Walk)
    requires Passed(w1, a', t, w') && w.done <= w1.done
    requires forall i :: 0 <= i < |a| ==> a[i] == r || a[i] in a'
    requires r in a && forall i :: 0 <= i < |a'| ==> a'[i] in a
    requires w1.done == w.done + [r.(active := true)] || (w1.done == w.done && Any(r, V4))
    ensures Passed(w, a, t, w')
  {
    forall i | 0 <= i < |a| && Any(a[i], V6) ensures a[i].(active := true) in w'.done {
      if a[i] == r {
        assert w1.done[|w.done|] in w'.done;
      } else {
        var j :| 0 <= j < |a'| && a'[j] == a[i];
      }
    }
    forall sock: nat | SockIn(w'.done, sock) ensures SockIn(w.done, sock) || SockIn(a, sock) {
      SockInConcat(w.done, [r.(active := true)], sock);
    }
  }

  /** The loop passes over a stretch that binds. */
  lemma {:induction false} PassOver(w: Walk, a: seq<Rec>, t: seq<Rec>, os: System) returns (w': Walk)
    requires w.rest == a + t && AllBind(a, os) && AtEase(w) && t != [] && !Hops(a, t[0])
    ensures Open(w, os) == Open(w', os) && Passed(w, a, t, w')
    decreases |a|
  {
    if a == [] {
      assert a + t == t;
      return w;
    }
    var (r, a') := Next(a);
    NextOfFront(a, t);
    NextBinds(a, os);
    if Hops(a', t[0]) {
      if !a[0].active && Swaps(a) {
        HopsSwap(a, t[0]);
      } else {
        HopsShift(a, t[0]);
      }
    }
    var w1 := Turn(w, os).value;
    w' := PassOver(w1, a', t, os);
    forall i | 0 <= i < |a| ensures a[i] == r || a[i] in a' {
      NextAmong(a, i);
    }
    PassedOn(w, r, w1, a, a', t, w');
  }

  /** Nothing of `t` is exchanged with the last of `a`. */
  lemma NextOfFront(a: seq<Rec>, t: seq<Rec>)
    requires a != [] && t != [] && !Hops(a, t[0])
    ensures Next(a + t) == (Next(a).0, Next(a).1 + t)
  {
    if |a| == 1 {
      if !a[0].active && Swaps(a + t) {
        assert HopsFrom(a, t[0], 0);
        assert false;
      }
    }
    assert (a + t)[0] == a[0] && (a + t)[1..] == a[1..] + t;
    if |a| > 1 {
      assert (a + t)[1] == a[1] && (a + t)[2..] == a[2..] + t;
      assert [a[0]] + (a[2..] + t) == ([a[0]] + a[2..]) + t;
    }
  }

  /** An idle `0.0.0.0` is exchanged with one `::` after the other. */
  lemma {:induction false} HopOver(w: Walk, n: Rec, b: seq<Rec>, t: seq<Rec>, os: System) returns (w': Walk)
    requires w.rest == [n] + b + t && Any(n, V4) && !n.active && AllBind(b, os) && AtEase(w)
    requires forall k :: 0 <= k < |b| ==> Six(n, b[k])
    ensures Open(w, os) == Open(w', os) && Passed(w, b, [n] + t, w')
    decreases |b|
  {
    if b == [] {
      assert [n] + b + t == [n] + t;
      return w;
    }
    var r := b[0];
    assert w.rest[0] == n && w.rest[1] == r && [n] + w.rest[2..] == [n] + b[1..] + t;
    var w1 := Turn(w, os).value;
    w' := HopOver(w1, n, b[1..], t, os);
    assert forall i :: 0 < i < |b| ==> b[i] == b[1..][i - 1];
    PassedOn(w, r, w1, b, b[1..], [n] + t, w');
  }

  /** A `::` that does not bind makes way for an idle `0.0.0.0` on either side of it. */
  lemma DropTurn(w: Walk, n: Rec, x: Rec, c: seq<Rec>, os: System)
    requires w.rest == [n, x] + c || (w.rest == [x, n] + c && !x.active)
    requires Any(n, V4) && !n.active && Six(n, x) && x.sock !in os.binds && !w.previous.Removed?
    ensures Turn(w, os) == Some(Walk(w.done, [n] + c, Removed, w.count))
  {
    if w.rest == [n, x] + c {
      assert w.rest[0] == n && w.rest[1] == x && w.rest[2..] == c;
    } else {
      assert w.rest[0] == x && w.rest[1] == n && w.rest[1..] == [n] + c;
    }
  }

  /** Behind a record that is gone, an idle `0.0.0.0` that is covered stays in the list. */
  lemma {:induction false} StuckIdle(w: Walk, n: Rec, c: seq<Rec>, os: System)
    requires w.rest == [n] + c && w.previous.Removed? && Any(n, V4) && !n.active && Covered(w.done, n, os) && AllBind(c, os)
    ensures Open(w, os).Opened? && n in Open(w, os).list
    decreases |c|
  {
    assert w.rest[1..] == c;
    if Swaps(w.rest) {
      assert [n] + w.rest[2..] == [n] + c[1..];
      var w' := Walk(w.done, [n] + c[1..], Removed, w.count + 1);
      assert Turn(w, os) == Some(w');
      StuckIdle(w', n, c[1..], os);
    } else {
      var w' := Walk(w.done + [n], c, Removed, w.count);
      assert Turn(w, os) == Some(w');
      BindOpens(w', os);
      assert Open(w, os).list[|w.done|] == n;
    }
  }

  /** All sockets bind but that of `list[x]`. */
  ghost function AllBut(list: seq<Rec>, x: nat, dual: set<nat>): System {
    System(set i | 0 <= i < |list| && i != x :: list[i].sock, dual)
  }

  lemma AllButBinds(list: seq<Rec>, x: nat, dual: set<nat>, lo: nat, hi: nat)
    requires DistinctSockets(list) && x < |list| && lo <= hi <= |list| && !(lo <= x < hi)
    ensures AllBind(list[lo..hi], AllBut(list, x, dual)) && list[x].sock !in AllBut(list, x, dual).binds
    ensures !SockIn(list[lo..hi], list[x].sock)
  {
    var os := AllBut(list, x, dual);
    forall i | 0 <= i < hi - lo ensures list[lo..hi][i].sock in os.binds && list[lo..hi][i].sock != list[x].sock {
      assert list[lo..hi][i] == list[lo + i];
    }
  }

  /** The loop passes over `a`, and `n` is exchanged with all of `b`. */
  lemma PassAndHop(a: seq<Rec>, n: Rec, b: seq<Rec>, t: seq<Rec>, os: System) returns (w: Walk)
    requires AllBind(a, os) && AllBind(b, os) && Any(n, V4) && !n.active && forall k :: 0 <= k < |b| ==> Six(n, b[k])
    ensures OpenAll(a + ([n] + b + t), os) == Open(w, os) && w.rest == [n] + t && !w.previous.Removed?
    ensures forall sock: nat :: SockIn(w.done, sock) ==> SockIn(a, sock) || SockIn(b, sock)
    ensures forall i :: 0 <= i < |a| && Any(a[i], V6) ==> a[i].(active := true) in w.done
    ensures forall i :: 0 <= i < |b| && Any(b[i], V6) ==> b[i].(active := true) in w.done
  {
    var w1 := PassOver(Walk([], a + ([n] + b + t), Nothing, 0), a, [n] + b + t, os);
    w := HopOver(w1, n, b, t, os);
  }

  /** The loop comes to the hop over `list[x]`, which does not bind and is dropped. */
  lemma DropAfterHop(list: seq<Rec>, n: nat, x: nat, dual: set<nat>) returns (w: Walk)
    requires DistinctSockets(list) && x < |list| && HopsFrom(list[..x], list[x], n) && Any(list[x], V6)
    ensures var os := AllBut(list, x, dual);
            OpenAll(list, os) == Open(w, os) && w.rest == [list[n]] + list[x + 1..] && w.previous.Removed?
    ensures !SockIn(w.done, list[x].sock)
    ensures forall d :: 0 <= d < x && Any(list[d], V6) ==> list[d].(active := true) in w.done
  {
    var os, N, X := AllBut(list, x, dual), list[n], list[x];
    var a, b, c := list[..n], list[n + 1..x], list[x + 1..];
    assert list[..x][n] == N;
    assert list == a + ([N] + b + ([X] + c));
    AllButBinds(list, x, dual, 0, n);
    AllButBinds(list, x, dual, n + 1, x);
    assert forall k :: 0 <= k < |b| ==> b[k] == list[..x][n + 1 + k];
    var w2 := PassAndHop(a, N, b, [X] + c, os);
    assert [N] + ([X] + c) == [N, X] + c;
    DropTurn(w2, N, X, c, os);
    w := Walk(w2.done, [N] + c, Removed, w2.count);
    forall d | 0 <= d < x && Any(list[d], V6) ensures list[d].(active := true) in w.done {
      assert if d < n then a[d] == list[d] else d > n && b[d - n - 1] == list[d];
    }
  }

  /** An open `::` that is bound again in vain is lost. */
  lemma ReboundFails(list: seq<Rec>, x: nat)
    requires DistinctSockets(list) && Rebound(list, x)
    ensures !Coverage(list, AllBut(list, x, {}))
  {
    var os, X := AllBut(list, x, {}), list[x];
    var n :| HopsFrom(list[..x], X, n);
    var w := DropAfterHop(list, n, x, {});
    AllButBinds(list, x, {}, n, x);
    AllButBinds(list, x, {}, x + 1, |list|);
    assert list[n..x][0] == list[n] && list[..x][n] == list[n];
    assert list[x + 1..|list|] == list[x + 1..];
    SockInConcat([list[n]], list[x + 1..], X.sock);
    BindOpens(w, os);
    var out := Open(w, os).list;
    if SockIn(out, X.sock) {
      OutSockets(w, os, X.sock);
    }
    assert forall i :: 0 <= i < |out| ==> out[i].sock != X.sock;
    assert !Served(X, out, os) && list[x] == X;
  }

  lemma CoveredByOne(done: seq<Rec>, n: Rec, d: Rec, os: System)
    requires d.(active := true) in done && Six(n, d) && d.sock in os.dual
    ensures Covered(done, n, os)
  {
    var i :| 0 <= i < |done| && done[i] == d.(active := true);
    assert Covers(done[i], n, os);
  }

  /** A `0.0.0.0` beside a `::` that makes way for it stays idle when an earlier `::` covers it. */
  lemma CrowdedFails(list: seq<Rec>, x: nat) returns (os: System)
    requires DistinctSockets(list) && Crowded([], list, x)
    ensures !Coverage(list, os)
  {
    var X := list[x];
    var d :| 0 <= d < x && Six(X, list[..x][d]);
    assert list[..x][d] == list[d];
    var dual := {list[d].sock};
    os := AllBut(list, x, dual);
    var w, N;
    AllButBinds(list, x, dual, x + 1, |list|);
    assert list[x + 1..|list|] == list[x + 1..];
    if Hops(list[..x], X) {
      var n :| HopsFrom(list[..x], X, n);
      assert list[..x][n] == list[n];
      N := list[n];
      w := DropAfterHop(list, n, x, dual);
      CoveredByOne(w.done, N, list[d], os);
      StuckIdle(w, N, list[x + 1..], os);
    } else {
      N := list[x + 1];
      w := DropBeside(list, x, dual);
      CoveredByOne(w.done, N, list[d], os);
      assert AllBind(list[x + 2..], os) by {
        assert list[x + 1..][1..] == list[x + 2..];
      }
      StuckIdle(w, N, list[x + 2..], os);
    }
    var out := OpenAll(list, os).list;
    var i :| 0 <= i < |out| && out[i] == N;
  }

  lemma DropBeside(list: seq<Rec>, x: nat, dual: set<nat>) returns (w: Walk)
    requires DistinctSockets(list) && x + 1 < |list| && !list[x].active && Any(list[x], V6) && IdleFour(list[x], list[x + 1])
    requires !Hops(list[..x], list[x])
    ensures var os := AllBut(list, x, dual);
            OpenAll(list, os) == Open(w, os) && w.rest == [list[x + 1]] + list[x + 2..] && w.previous.Removed?
    ensures forall d :: 0 <= d < x && Any(list[d], V6) ==> list[d].(active := true) in w.done
  {
    var os, X, N := AllBut(list, x, dual), list[x], list[x + 1];
    var a, c := list[..x], list[x + 2..];
    assert list == a + ([X, N] + c);
    AllButBinds(list, x, dual, 0, x);
    var w1 := PassOver(Walk([], list, Nothing, 0), a, [X, N] + c, os);
    DropTurn(w1, N, X, c, os);
    w := Walk(w1.done, [N] + c, Removed, w1.count);
    forall d | 0 <= d < x && Any(list[d], V6) ensures list[d].(active := true) in w.done {
      assert a[d] == list[d];
    }
  }

  /** Listener coverage, exactly: with every record on a socket of its own, a successful open serves the
      whole list, whatever the system answers, if and only if the list has no hazard. */
  lemma CoverageIsExact(list: seq<Rec>)
    requires DistinctSockets(list)
    ensures !Hazard([], list) <==> forall os :: Coverage(list, os)
  {
    if Hazard([], list) {
      var x :| Rebound(list, x) || Crowded([], list, x);
      if Rebound(list, x) {
        ReboundFails(list, x);
      } else {
        var os := CrowdedFails(list, x);
      }
    } else {
      forall os ensures Coverage(list, os) {
        EveryListenerServed(list, os);
      }
    }
  }

  // ----- alloc_listener

  /** `ap_listeners` and `old_listeners`. */
  datatype Book = Book(listeners: seq<Rec>, former: seq<Rec>)

  /** An address the resolver has found, and the socket created for it, if one could be. */
  datatype Candidate = Candidate(addr: Addr, sock: Option<nat>)

  /** A Listen directive, with what the resolver answers. */
  datatype Directive = Listen(host: Option<string>, port: nat, slave: nat, found: Option<seq<Candidate>>)

  datatype Outcome = Fine | SlaveClash | SetupFailed

  predicate Matches(r: Rec, d: Directive) {
    r.bind.Some? && r.bind.value.port == d.port && r.bind.value.host == d.host
  }

  /** The records of `former` for the address of `d`, as they come to lie in front: the last one first. */
  function Reused(former: seq<Rec>, d: Directive): seq<Rec> {
    if former == [] then [] else Reused(former[1..], d) + if Matches(former[0], d) then [former[0]] else []
  }

  function Left(former: seq<Rec>, d: Directive): seq<Rec> {
    if former == [] then [] else (if Matches(former[0], d) then [] else [former[0]]) + Left(former[1..], d)
  }

  /** New records for the candidates, up to the first whose socket cannot be created; a V6 socket for an
      unnamed host may fail. */
  function Created(cs: seq<Candidate>, d: Directive): (seq<Rec>, Outcome) {
    if cs == [] then ([], Fine)
    else if cs[0].sock.Some? then
      var (more, o) := Created(cs[1..], d);
      ([Rec(cs[0].sock.value, Some(cs[0].addr), false, d.slave)] + more, o)
    else if d.host.None? && cs[0].addr.family.V6? then Created(cs[1..], d)
    else ([], SetupFailed)
  }

  function Alloc(b: Book, d: Directive): (Book, Outcome) {
    var reused := Reused(b.former, d);
    if reused != [] then
      (Book(reused + b.listeners, Left(b.former, d)), if reused[0].slave != d.slave then SlaveClash else Fine)
    else if d.found.None? then (b, SetupFailed)
    else
      var (added, o) := Created(d.found.value, d);
      (Book(b.listeners + added, b.former), o)
  }

  /** The directives of a configuration, up to the first error. */
  function Configure(b: Book, ds: seq<Directive>): (Book, Outcome)
    decreases |ds|
  {
    if ds == [] then (b, Fine)
    else
      var (b', o) := Alloc(b, ds[0]);
      if o != Fine then (b', o) else Configure(b', ds[1..])
  }

  // ----- what a restart hands over

  predicate Configured(r: Rec, ds: seq<Directive>) {
    exists i :: 0 <= i < |ds| && Matches(r, ds[i])
  }

  /** The records no directive asks for, in their order. */
  function Unasked(former: seq<Rec>, ds: seq<Directive>): seq<Rec> {
    if former == [] then [] else (if Configured(former[0], ds) then [] else [former[0]]) + Unasked(former[1..], ds)
  }

  ghost predicate AllNew(list: seq<Rec>) {
    forall i :: 0 <= i < |list| ==> !list[i].active
  }

  /** `moved` is what has come over of `from`, all of it in front of what was `created`. */
  ghost predicate HandedOver(b: Book, from: seq<Rec>, moved: seq<Rec>, created: seq<Rec>) {
    && b.listeners == moved + created && AllNew(created)
    && multiset(moved) + multiset(b.former) == multiset(from)
  }

  lemma {:induction false} NoneReused(former: seq<Rec>, d: Directive)
    ensures Reused(former, d) == [] ==> Left(former, d) == former
  {
    if former != [] {
      NoneReused(former[1..], d);
    }
  }

  lemma CountJoined(a: seq<Rec>, b: seq<Rec>, r: Rec)
    ensures multiset(a + b)[r] == multiset(a)[r] + multiset(b)[r]
  {
  }

  lemma {:induction false} EachReusedOrLeft(former: seq<Rec>, d: Directive, r: Rec)
    ensures multiset(Reused(former, d))[r] + multiset(Left(former, d))[r] == multiset(former)[r]
  {
    if former != [] {
      var first, rest := [former[0]], former[1..];
      var taken := Matches(former[0], d);
      EachReusedOrLeft(rest, d, r);
      assert former == first + rest;
      CountJoined(first, rest, r);
      CountJoined(Reused(rest, d), if taken then first else [], r);
      CountJoined(if taken then [] else first, Left(rest, d), r);
    }
  }

  lemma ReusedAndLeft(former: seq<Rec>, d: Directive)
    ensures multiset(Reused(former, d)) + multiset(Left(former, d)) == multiset(former)
    ensures Reused(former, d) == [] ==> Left(former, d) == former
  {
    NoneReused(former, d);
    forall r ensures multiset(Reused(former, d))[r] + multiset(Left(former, d))[r] == multiset(former)[r] {
      EachReusedOrLeft(former, d, r);
    }
  }

  lemma {:induction false} CreatedNew(cs: seq<Candidate>, d: Directive)
    ensures AllNew(Created(cs, d).0)
  {
    if cs != [] {
      CreatedNew(cs[1..], d);
    }
  }

  lemma ReuseHands(b: Book, reused: seq<Rec>, left: seq<Rec>, from: seq<Rec>, moved: seq<Rec>, created: seq<Rec>)
    requires HandedOver(b, from, moved, created) && multiset(reused) + multiset(left) == multiset(b.former)
    ensures HandedOver(Book(reused + b.listeners, left), from, reused + moved, created)
  {
    assert reused + b.listeners == (reused + moved) + created;
    assert multiset(reused + moved) == multiset(reused) + multiset(moved);
  }

  lemma CreateHands(b: Book, more: seq<Rec>, from: seq<Rec>, moved: seq<Rec>, created: seq<Rec>)
    requires HandedOver(b, from, moved, created) && AllNew(more)
    ensures HandedOver(Book(b.listeners + more, b.former), from, moved, created + more)
  {
    assert b.listeners + more == moved + (created + more);
  }

  lemma AllocHands(b: Book, d: Directive, from: seq<Rec>, moved: seq<Rec>, created: seq<Rec>)
    requires HandedOver(b, from, moved, created)
    ensures Alloc(b, d).0.former == Left(b.former, d)
    ensures exists m, c :: HandedOver(Alloc(b, d).0, from, m, c)
  {
    ReusedAndLeft(b.former, d);
    if Reused(b.former, d) != [] {
      ReuseHands(b, Reused(b.former, d), Left(b.former, d), from, moved, created);
    } else if d.found.Some? {
      CreatedNew(d.found.value, d);
      CreateHands(b, Created(d.found.value, d).0, from, moved, created);
    }
  }

  lemma {:induction false} UnaskedStep(former: seq<Rec>, d: Directive, ds: seq<Directive>)
    ensures Unasked(Left(former, d), ds) == Unasked(former, [d] + ds)
  {
    if former != [] {
      UnaskedStep(former[1..], d, ds);
      var r := former[0];
      assert Configured(r, [d] + ds) <==> Matches(r, d) || Configured(r, ds) by {
        if Configured(r, ds) {
          var i :| 0 <= i < |ds| && Matches(r, ds[i]);
          assert ([d] + ds)[i + 1] == ds[i];
        }
        assert ([d] + ds)[0] == d;
      }
      if Matches(r, d) {
        assert Left(former, d) == Left(former[1..], d);
        assert Unasked(former, [d] + ds) == Unasked(former[1..], [d] + ds);
      } else {
        assert Left(former, d)[0] == r && Left(former, d)[1..] == Left(former[1..], d);
      }
    }
  }

  lemma {:induction false} UnaskedNone(former: seq<Rec>)
    ensures Unasked(former, []) == former
  {
    if former != [] {
      UnaskedNone(former[1..]);
    }
  }

  lemma {:induction false} ConfigureHands(b: Book, ds: seq<Directive>, from: seq<Rec>, moved: seq<Rec>, created: seq<Rec>)
    requires HandedOver(b, from, moved, created)
    ensures var (b', o) := Configure(b, ds);
            && (o == Fine ==> b'.former == Unasked(b.former, ds))
            && exists m, c :: HandedOver(b', from, m, c)
    decreases |ds|
  {
    if ds == [] {
      UnaskedNone(b.former);
    } else {
      AllocHands(b, ds[0], from, moved, created);
      var b' := Alloc(b, ds[0]).0;
      var m, c :| HandedOver(b', from, m, c);
      ConfigureHands(b', ds[1..], from, m, c);
      UnaskedStep(b.former, ds[0], ds[1..]);
      assert ds == [ds[0]] + ds[1..];
    }
  }

  lemma {:induction false} UnaskedAre(former: seq<Rec>, ds: seq<Directive>, r: Rec)
    ensures r in Unasked(former, ds) <==> r in former && !Configured(r, ds)
  {
    if former != [] {
      UnaskedAre(former[1..], ds, r);
      assert former == [former[0]] + former[1..];
    }
  }

  /** Restart handoff: the records of `from` are divided between the two lists, those that have come
      over lie in front of all new ones, and those no directive asks for stay, in their order. */
  lemma RestartHandsOver(from: seq<Rec>, ds: seq<Directive>)
    ensures var (b, o) := Configure(Book([], from), ds);
            && (exists m, c :: HandedOver(b, from, m, c))
            && (o == Fine ==> b.former == Unasked(from, ds))
  {
    assert HandedOver(Book([], from), from, [], []);
    ConfigureHands(Book([], from), ds, from, [], []);
  }

  lemma ActiveInFront(b: Book, from: seq<Rec>, m: seq<Rec>, c: seq<Rec>)
    requires HandedOver(b, from, m, c) && AllActive(from)
    ensures AllActive(m)
  {
    forall i | 0 <= i < |m| ensures m[i].active {
      assert m[i] in multiset(m);
      assert m[i] in multiset(from);
    }
  }

  lemma {:induction false} DoneGrows(w: Walk, os: System)
    requires Open(w, os).Opened?
    ensures w.done <= Open(w, os).list
    decreases |w.rest|
  {
    if w.rest != [] {
      DoneGrows(Turn(w, os).value, os);
    }
  }

  /** Active records in front are kept whatever comes behind. */
  lemma {:induction false} FrontKept(w: Walk, m: seq<Rec>, c: seq<Rec>, os: System)
    requires w.rest == m + c && AllActive(m) && Open(w, os).Opened?
    ensures w.done + m <= Open(w, os).list
    decreases |m|
  {
    if m == [] {
      assert w.done + m == w.done;
      DoneGrows(w, os);
    } else {
      var w' := Turn(w, os).value;
      assert w.rest[0] == m[0] && w.rest[1..] == m[1..] + c;
      FrontKept(w', m[1..], c, os);
      assert w.done + m == w'.done + m[1..];
    }
  }

  /** After a restart whose open succeeds, every socket that was open and is still configured is open as
      it was, and the others are those that are closed. */
  lemma RestartKeepsSockets(from: seq<Rec>, ds: seq<Directive>, os: System, k: nat)
    requires AllActive(from) && k < |from|
    requires var (b, o) := Configure(Book([], from), ds); o == Fine && OpenAll(b.listeners, os).Opened?
    ensures var b := Configure(Book([], from), ds).0;
            if Configured(from[k], ds) then from[k] in OpenAll(b.listeners, os).list && from[k] !in b.former
            else from[k] in b.former
  {
    var b, r := Configure(Book([], from), ds).0, from[k];
    RestartHandsOver(from, ds);
    var m, c :| HandedOver(b, from, m, c);
    ActiveInFront(b, from, m, c);
    UnaskedAre(from, ds, r);
    if Configured(r, ds) {
      assert r in multiset(from) && r !in multiset(b.former);
      assert r in multiset(m);
      var i :| 0 <= i < |m| && m[i] == r;
      FrontKept(Walk([], b.listeners, Nothing, 0), m, c, os);
      assert ([] + m)[i] == r;
      assert OpenAll(b.listeners, os).list[i] == r;
    }
  }

  // ----- what a directive answers

  /** The record is for the host and the port of the directive. */
  predicate SameAddress(r: Rec, d: Directive) {
    r.bind.Some? && r.bind.value.port == d.port && r.bind.value.host == d.host
  }

  /** The last of the records for the directive. */
  ghost predicate LastFor(former: seq<Rec>, d: Directive, k: int) {
    0 <= k < |former| && SameAddress(former[k], d) && forall j :: k < j < |former| ==> !SameAddress(former[j], d)
  }

  ghost predicate AnyFor(former: seq<Rec>, d: Directive) {
    exists k :: LastFor(former, d, k)
  }

  lemma {:induction false} LastIsFirst(former: seq<Rec>, d: Directive)
    ensures Reused(former, d) == [] ==> forall j :: 0 <= j < |former| ==> !SameAddress(former[j], d)
    ensures Reused(former, d) != [] ==> exists k :: LastFor(former, d, k) && former[k] == Reused(former, d)[0]
  {
    if former != [] {
      var rest := former[1..];
      LastIsFirst(rest, d);
      if Reused(rest, d) != [] {
        var k :| LastFor(rest, d, k) && rest[k] == Reused(rest, d)[0];
        assert LastFor(former, d, k + 1) by {
          assert forall j :: k + 1 < j < |former| ==> former[j] == rest[j - 1];
        }
      } else {
        assert forall j :: 0 < j < |former| ==> former[j] == rest[j - 1];
        if Matches(former[0], d) {
          assert LastFor(former, d, 0);
        }
      }
    }
  }

  /** The system has no socket for the address, and the directive cannot do without. */
  predicate Lacking(c: Candidate, d: Directive) {
    c.sock.None? && !(d.host.None? && c.addr.family.V6?)
  }

  /** The candidates a socket was found for. */
  function Working(cs: seq<Candidate>): seq<Candidate> {
    if cs == [] then [] else (if cs[0].sock.Some? then [cs[0]] else []) + Working(cs[1..])
  }

  /** The records are new ones for the candidates, one for each, in their order. */
  ghost predicate RecordsFor(rs: seq<Rec>, cs: seq<Candidate>, d: Directive) {
    |rs| == |cs| && forall i :: 0 <= i < |cs| ==>
      cs[i].sock.Some? && rs[i] == Rec(cs[i].sock.value, Some(cs[i].addr), false, d.slave)
  }

  /** New records are made for all candidates with a socket, in order, up to the first that is lacking one. */
  lemma {:induction false} CreatedAre(cs: seq<Candidate>, d: Directive) returns (k: nat)
    ensures k <= |cs| && (forall i :: 0 <= i < k ==> !Lacking(cs[i], d)) && (k < |cs| ==> Lacking(cs[k], d))
    ensures Created(cs, d).1 == (if k == |cs| then Fine else SetupFailed) && RecordsFor(Created(cs, d).0, Working(cs[..k]), d)
  {
    if cs == [] || Lacking(cs[0], d) {
      k := 0;
    } else {
      var j := CreatedAre(cs[1..], d);
      k := j + 1;
      assert cs[..k][0] == cs[0] && cs[..k][1..] == cs[1..][..j];
      assert forall i :: 0 < i < k ==> cs[i] == cs[1..][i - 1];
    }
  }

  /** A directive clashes if and only if the last old record for its address has another slave; its set-up fails if
      and only if there is none and the resolver, or a socket it needs, fails. */
  lemma AllocIs(b: Book, d: Directive)
    ensures var o := Alloc(b, d).1;
            && (o == SlaveClash <==> exists k :: LastFor(b.former, d, k) && b.former[k].slave != d.slave)
            && (o == SetupFailed <==> !AnyFor(b.former, d) && (d.found.None? || exists i :: 0 <= i < |d.found.value| && Lacking(d.found.value[i], d)))
  {
    LastIsFirst(b.former, d);
    if Reused(b.former, d) != [] {
      var k :| LastFor(b.former, d, k) && b.former[k] == Reused(b.former, d)[0];
      forall j | LastFor(b.former, d, j) ensures j == k {
        LastIsOne(b.former, d, j, k);
      }
    } else if d.found.Some? {
      var k := CreatedAre(d.found.value, d);
    }
  }

  lemma LastIsOne(former: seq<Rec>, d: Directive, j: int, k: int)
    requires LastFor(former, d, j) && LastFor(former, d, k)
    ensures j == k
  {
  }

  /** Without an old record for its address, a directive adds new records behind the others. */
  lemma AllocAdds(b: Book, d: Directive)
    requires !AnyFor(b.former, d) && Alloc(b, d).1 == Fine
    ensures d.found.Some? && exists rs :: RecordsFor(rs, Working(d.found.value), d) && Alloc(b, d).0 == Book(b.listeners + rs, b.former)
  {
    LastIsFirst(b.former, d);
    var k := CreatedAre(d.found.value, d);
    assert d.found.value[..k] == d.found.value;
  }

  /** There is an old record for every directive, of the same slave; and no two directives are for one address. */
  ghost predicate Unchanged(former: seq<Rec>, ds: seq<Directive>) {
    && (forall i :: 0 <= i < |ds| ==> AnyFor(former, ds[i]))
    && (forall i, k :: 0 <= i < |ds| && 0 <= k < |former| && SameAddress(former[k], ds[i]) ==> former[k].slave == ds[i].slave)
    && (forall i, j :: 0 <= i < j < |ds| ==> ds[i].host != ds[j].host || ds[i].port != ds[j].port)
  }

  lemma {:induction false} LeftIs(former: seq<Rec>, d: Directive, r: Rec)
    ensures r in Left(former, d) <==> r in former && !SameAddress(r, d)
    ensures r in Reused(former, d) <==> r in former && SameAddress(r, d)
  {
    if former != [] {
      LeftIs(former[1..], d, r);
      assert former == [former[0]] + former[1..];
    }
  }

  lemma AnyForIs(former: seq<Rec>, d: Directive)
    ensures AnyFor(former, d) <==> exists r :: r in former && SameAddress(r, d)
  {
    LastIsFirst(former, d);
    if Reused(former, d) == [] {
      forall r | r in former ensures !SameAddress(r, d) {
        var k :| 0 <= k < |former| && former[k] == r;
      }
    }
  }

  lemma {:induction false} UnchangedStep(former: seq<Rec>, ds: seq<Directive>)
    requires ds != [] && Unchanged(former, ds)
    ensures Unchanged(Left(former, ds[0]), ds[1..])
  {
    var left := Left(former, ds[0]);
    forall i | 0 <= i < |ds[1..]| ensures AnyFor(left, ds[1..][i]) {
      assert ds[1..][i] == ds[i + 1] && AnyFor(former, ds[i + 1]);
      AnyForIs(former, ds[i + 1]);
      var r :| r in former && SameAddress(r, ds[i + 1]);
      LeftIs(former, ds[0], r);
      AnyForIs(left, ds[i + 1]);
    }
    forall i, k | 0 <= i < |ds[1..]| && 0 <= k < |left| && SameAddress(left[k], ds[1..][i]) ensures left[k].slave == ds[1..][i].slave {
      LeftIs(former, ds[0], left[k]);
      var m :| 0 <= m < |former| && former[m] == left[k];
      assert ds[1..][i] == ds[i + 1] && SameAddress(former[m], ds[i + 1]);
    }
    assert forall i :: 0 <= i < |ds[1..]| ==> ds[1..][i] == ds[i + 1];
  }

  /** Directives that are unchanged are fine: they are given the old records and no others. */
  lemma {:induction false} UnchangedIsFine(b: Book, ds: seq<Directive>)
    requires Unchanged(b.former, ds)
    ensures Configure(b, ds).1 == Fine
    ensures var b' := Configure(b, ds).0; multiset(b'.listeners) + multiset(b'.former) == multiset(b.listeners) + multiset(b.former)
    decreases |ds|
  {
    if ds != [] {
      AllocIs(b, ds[0]);
      assert AnyFor(b.former, ds[0]);
      var k :| LastFor(b.former, ds[0], k);
      assert SameAddress(b.former[k], ds[0]);
      LastIsFirst(b.former, ds[0]);
      ReusedAndLeft(b.former, ds[0]);
      forall j | LastFor(b.former, ds[0], j) ensures b.former[j].slave == ds[0].slave {
        assert SameAddress(b.former[j], ds[0]);
      }
      UnchangedStep(b.former, ds);
      assert Alloc(b, ds[0]).0 == Book(Reused(b.former, ds[0]) + b.listeners, Left(b.former, ds[0]));
      assert Alloc(b, ds[0]).1 == Fine;
      UnchangedIsFine(Alloc(b, ds[0]).0, ds[1..]);
    }
  }

  // ----- when the open succeeds

  /** A record that is not open fails the open only when its socket does not bind: with sockets that bind, any list
      is opened. */
  lemma {:induction false} AllBindOpens(w: Walk, os: System)
    requires forall i :: 0 <= i < |w.rest| ==> w.rest[i].sock in os.binds
    ensures Open(w, os).Opened?
    decreases |w.rest|
  {
    if w.rest != [] {
      AllBindOpens(Turn(w, os).value, os);
    }
  }

  ghost predicate NoWildcards(list: seq<Rec>) {
    forall i :: 0 <= i < |list| ==> !Any(list[i], V4) && !Any(list[i], V6)
  }

  /** Without wildcards the open succeeds if and only if every record that is not open yet binds, and then all are
      open, in their order. */
  lemma {:induction false} PlainOpens(w: Walk, os: System)
    requires NoWildcards(w.rest)
    ensures var fits := forall i :: 0 <= i < |w.rest| ==> w.rest[i].active || w.rest[i].sock in os.binds;
            Open(w, os) == if fits then Opened(w.done + Activated(w.rest), w.count + |w.rest|) else Failed
    decreases |w.rest|
  {
    if w.rest == [] {
      assert w.done + [] == w.done;
    } else {
      var r, rest := w.rest[0], w.rest[1..];
      assert forall i :: 0 < i < |w.rest| ==> w.rest[i] == rest[i - 1];
      assert !Any(r, V4) && !Any(r, V6);
      if r.active || r.sock in os.binds {
        var w' := Turn(w, os).value;
        assert w'.rest == rest && w'.done == w.done + [r.(active := true)];
        PlainOpens(w', os);
        assert Activated(w.rest) == [r.(active := true)] + Activated(rest);
        assert w'.done + Activated(rest) == w.done + Activated(w.rest);
      }
    }
  }

  // ----- lists with wildcards

  /** The wildcard address of a family on a port. */
  predicate Wild(c: Rec, port: nat, family: Family) {
    c.bind.Some? && c.bind.value.any && c.bind.value.port == port && c.bind.value.family == family
  }

  /** A dual `::` that is open in the end, on the port of `r`. */
  predicate Takes(c: Rec, r: Rec, os: System) {
    r.bind.Some? && Wild(c, r.bind.value.port, V6) && c.sock in os.dual && (c.active || c.sock in os.binds)
  }

  ghost predicate Taken(done: seq<Rec>, r: Rec, os: System) {
    exists d :: 0 <= d < |done| && Takes(done[d], r, os)
  }

  /** `j` is dealt with before the idle `0.0.0.0` at `i`: it lies ahead, or in the run of `::` behind. */
  ghost predicate Ahead(list: seq<Rec>, i: nat, j: int) {
    && i < |list| && list[i].bind.Some? && 0 <= j < |list|
    && (j < i || forall k :: i < k <= j ==> Wild(list[k], list[i].bind.value.port, V6))
  }

  ghost predicate TakenAhead(list: seq<Rec>, i: nat, os: System) {
    exists j :: Ahead(list, i, j) && Takes(list[j], list[i], os)
  }

  /** The idle `0.0.0.0` at `n` stands before the record at `i`, but for a run of `::`. */
  ghost predicate FourBefore(list: seq<Rec>, i: nat, port: nat, n: int) {
    && 0 <= n < i <= |list| && !list[n].active && Wild(list[n], port, V4)
    && forall k :: n < k < i ==> Wild(list[k], port, V6)
  }

  ghost predicate FourBeside(list: seq<Rec>, i: nat, port: nat) {
    (i + 1 < |list| && Wild(list[i + 1], port, V4)) || exists n :: FourBefore(list, i, port, n)
  }

  /** The record at `i` does not make the open fail: it is open, or binds, or is a `0.0.0.0` that a dual `::` takes
      in, or a `::` that makes way for a `0.0.0.0`. */
  ghost predicate Fits(done: seq<Rec>, list: seq<Rec>, i: nat, os: System)
    requires i < |list|
  {
    var r := list[i];
    || r.active
    || r.sock in os.binds
    || (r.bind.Some? && Wild(r, r.bind.value.port, V4) && (Taken(done, r, os) || TakenAhead(list, i, os)))
    || (r.bind.Some? && Wild(r, r.bind.value.port, V6) && FourBeside(list, i, r.bind.value.port))
  }

  ghost predicate AllFit(done: seq<Rec>, list: seq<Rec>, os: System) {
    forall i :: 0 <= i < |list| ==> Fits(done, list, i, os)
  }

  lemma TakenIsCovered(done: seq<Rec>, r: Rec, os: System)
    requires AllActive(done)
    ensures Taken(done, r, os) <==> Covered(done, r, os)
  {
    if Covered(done, r, os) {
      var i :| 0 <= i < |done| && Covers(done[i], r, os);
      assert Takes(done[i], r, os);
    }
    if Taken(done, r, os) {
      var i :| 0 <= i < |done| && Takes(done[i], r, os);
      assert Covers(done[i], r, os);
    }
  }

  /** What is dealt with takes others in if and only if it is open after the turn. */
  lemma TakenNext(w: Walk, os: System, w': Walk, x: Rec)
    requires OpenInv(w) && w.rest != [] && Turn(w, os) == Some(w')
    ensures Taken(w'.done, x, os) <==> Taken(w.done, x, os) || Takes(Next(w.rest).0, x, os)
  {
    var _, r := OneTurn(w, os);
    var a := r.(active := true);
    if Taken(w.done, x, os) {
      var i :| 0 <= i < |w.done| && Takes(w.done[i], x, os);
      assert w'.done[i] == w.done[i];
    }
    if Taken(w'.done, x, os) {
      var i :| 0 <= i < |w'.done| && Takes(w'.done[i], x, os);
      assert i < |w.done| ==> w.done[i] == w'.done[i];
    }
    if Takes(r, x, os) && w'.done == w.done + [a] {
      assert w'.done[|w.done|] == a;
      assert Takes(a, x, os);
    }
  }

  /** Where the record at `i` behind the one dealt with lay before. */
  function Back(rest: seq<Rec>, i: nat): nat
    requires rest != []
  {
    if !rest[0].active && Swaps(rest) && i == 0 then 0 else i + 1
  }

  lemma NextBack(rest: seq<Rec>, i: nat)
    requires rest != [] && i < |Next(rest).1|
    ensures Back(rest, i) < |rest| && Next(rest).1[i] == rest[Back(rest, i)]
  {
  }

  lemma AheadNext(rest: seq<Rec>, i: nat, j: nat)
    requires rest != [] && i < |Next(rest).1| && j < |Next(rest).1|
    ensures Ahead(Next(rest).1, i, j) <==> Ahead(rest, Back(rest, i), Back(rest, j))
  {
    NextBack(rest, i);
    NextBack(rest, j);
    var (tail, at, to) := (Next(rest).1, Back(rest, i), Back(rest, j));
    if j > i && tail[i].bind.Some? {
      var port := tail[i].bind.value.port;
      if Ahead(tail, i, j) {
        forall k | at < k <= to ensures Wild(rest[k], port, V6) {
          assert !(k == 1 && at == 0) ==> rest[k] == tail[k - 1];
        }
      }
      if Ahead(rest, at, to) {
        forall k | i < k <= j ensures Wild(tail[k], port, V6) {
          assert tail[k] == rest[k + 1];
        }
      }
    }
  }

  lemma TakenAheadNext(rest: seq<Rec>, i: nat, os: System)
    requires rest != [] && i < |Next(rest).1|
    ensures var (r, tail) := Next(rest);
            TakenAhead(rest, Back(rest, i), os) <==> TakenAhead(tail, i, os) || Takes(r, tail[i], os)
  {
    NextBack(rest, i);
    var (r, tail) := Next(rest);
    var at, p := Back(rest, i), if !rest[0].active && Swaps(rest) then 1 else 0;
    if TakenAhead(tail, i, os) {
      var j :| Ahead(tail, i, j) && Takes(tail[j], tail[i], os);
      AheadNext(rest, i, j);
      NextBack(rest, j);
    }
    if Takes(r, tail[i], os) {
      assert Ahead(rest, at, p);
    }
    if TakenAhead(rest, at, os) && !Takes(r, tail[i], os) {
      var j :| Ahead(rest, at, j) && Takes(rest[j], rest[at], os);
      var j' := if p == 1 && j == 0 then 0 else j - 1;
      assert j == Back(rest, j');
      AheadNext(rest, i, j');
      NextBack(rest, j');
    }
  }

  lemma FourBesideNext(rest: seq<Rec>, i: nat, port: nat)
    requires rest != [] && i < |Next(rest).1| && Wild(Next(rest).1[i], port, V6)
    ensures FourBeside(Next(rest).1, i, port) <==> FourBeside(rest, Back(rest, i), port)
  {
    NextBack(rest, i);
    var tail, at := Next(rest).1, Back(rest, i);
    assert at == i + 1;
    assert i + 1 < |tail| ==> tail[i + 1] == rest[i + 2];
    if n :| FourBefore(tail, i, port, n) {
      var m := Back(rest, n);
      NextBack(rest, n);
      forall k | m < k < at ensures Wild(rest[k], port, V6) {
        assert k >= 2 ==> rest[k] == tail[k - 1];
      }
      assert FourBefore(rest, at, port, m);
    }
    if m :| FourBefore(rest, at, port, m) {
      assert rest[m + 1] == rest[at] || Wild(rest[m + 1], port, V6);
      var n := if m == 0 then 0 else m - 1;
      assert m == Back(rest, n);
      NextBack(rest, n);
      forall k | n < k < i ensures Wild(tail[k], port, V6) {
        assert tail[k] == rest[k + 1];
      }
      assert FourBefore(tail, i, port, n);
    }
  }

  lemma FitsNext(w: Walk, os: System, w': Walk, i: nat)
    requires OpenInv(w) && w.rest != [] && Turn(w, os) == Some(w') && i < |Next(w.rest).1|
    ensures w'.rest == Next(w.rest).1 && Back(w.rest, i) < |w.rest|
    ensures Fits(w'.done, w'.rest, i, os) <==> Fits(w.done, w.rest, Back(w.rest, i), os)
  {
    var _, r := OneTurn(w, os);
    NextBack(w.rest, i);
    var x := w'.rest[i];
    TakenNext(w, os, w', x);
    TakenAheadNext(w.rest, i, os);
    if x.bind.Some? && Wild(x, x.bind.value.port, V6) {
      FourBesideNext(w.rest, i, x.bind.value.port);
    }
  }

  lemma FitsNow(w: Walk, os: System)
    requires OpenInv(w) && w.rest != []
    ensures Turn(w, os).Some? <==> Fits(w.done, w.rest, if !w.rest[0].active && Swaps(w.rest) then 1 else 0, os)
  {
    var r := w.rest[0];
    if !r.active && Swaps(w.rest) {
      assert FourBefore(w.rest, 1, r.bind.value.port, 0);
    } else if !r.active {
      TakenIsCovered(w.done, r, os);
      if j :| Ahead(w.rest, 0, j) && Takes(w.rest[j], r, os) {
        assert j > 0 ==> Wild(w.rest[1], r.bind.value.port, V6);
      }
    }
  }

  /** A list without a hazard is opened if and only if every record of it fits. */
  lemma {:induction false} OpensWhenAllFit(w: Walk, os: System)
    requires OpenInv(w)
    ensures Open(w, os).Opened? <==> AllFit(w.done, w.rest, os)
    decreases |w.rest|
  {
    if w.rest != [] {
      var p := if !w.rest[0].active && Swaps(w.rest) then 1 else 0;
      FitsNow(w, os);
      if Turn(w, os).Some? {
        var w', r := OneTurn(w, os);
        OpensWhenAllFit(w', os);
        forall i: nat | i < |w'.rest| ensures Fits(w'.done, w'.rest, i, os) <==> Fits(w.done, w.rest, Back(w.rest, i), os) {
          FitsNext(w, os, w', i);
        }
        if AllFit(w'.done, w'.rest, os) {
          forall k | 0 <= k < |w.rest| ensures Fits(w.done, w.rest, k, os) {
            if k != p {
              var i := if p == 1 && k == 0 then 0 else k - 1;
              assert Back(w.rest, i) == k;
            }
          }
        }
        if AllFit(w.done, w.rest, os) {
          forall i | 0 <= i < |w'.rest| ensures Fits(w'.done, w'.rest, i, os) {
            FitsNext(w, os, w', i);
          }
        }
      } else {
        assert !Fits(w.done, w.rest, p, os);
      }
    }
  }

  /** A list without a hazard is opened if and only if every record that is not open yet binds, but for each `0.0.0.0`
      that a dual `::` takes in and each `::` that makes way for a `0.0.0.0`. */
  lemma OpensExactly(list: seq<Rec>, os: System)
    requires !Hazard([], list)
    ensures OpenAll(list, os).Opened? <==> AllFit([], list, os)
  {
    OpensWhenAllFit(Walk([], list, Nothing, 0), os);
  }

  /** The record at `i` stays: it is open, or binds and is no `0.0.0.0` that a dual `::` takes in. */
  ghost predicate Stays(done: seq<Rec>, list: seq<Rec>, i: nat, os: System)
    requires i < |list|
  {
    var r := list[i];
    || r.active
    || (r.sock in os.binds && !(r.bind.Some? && Wild(r, r.bind.value.port, V4) && (Taken(done, r, os) || TakenAhead(list, i, os))))
  }

  lemma StaysNext(w: Walk, os: System, w': Walk, i: nat)
    requires OpenInv(w) && w.rest != [] && Turn(w, os) == Some(w') && i < |Next(w.rest).1|
    ensures w'.rest == Next(w.rest).1 && Back(w.rest, i) < |w.rest|
    ensures Stays(w'.done, w'.rest, i, os) <==> Stays(w.done, w.rest, Back(w.rest, i), os)
  {
    var _, r := OneTurn(w, os);
    NextBack(w.rest, i);
    TakenNext(w, os, w', w'.rest[i]);
    TakenAheadNext(w.rest, i, os);
  }

  lemma StaysNow(w: Walk, os: System)
    requires OpenInv(w) && w.rest != [] && Turn(w, os).Some?
    ensures var r := Next(w.rest).0;
            var stays := Stays(w.done, w.rest, if !w.rest[0].active && Swaps(w.rest) then 1 else 0, os);
            Turn(w, os).value.done == if stays then w.done + [r.(active := true)] else w.done
  {
    var w', r := OneTurn(w, os);
    TakenIsCovered(w.done, r, os);
    if !w.rest[0].active && !Swaps(w.rest) && Any(r, V4) {
      if j :| Ahead(w.rest, 0, j) && Takes(w.rest[j], r, os) {
        assert j > 0 ==> Wild(w.rest[1], r.bind.value.port, V6);
      }
    }
  }

  /** Every record ahead of the cursor has a socket of its own. */
  ghost predicate OwnSockets(w: Walk) {
    DistinctSockets(w.rest) && forall i :: 0 <= i < |w.rest| ==> !SockIn(w.done, w.rest[i].sock)
  }

  lemma BackDiffers(rest: seq<Rec>, i: nat, j: nat)
    requires rest != [] && i < |Next(rest).1|
    ensures Back(rest, i) < |rest| && rest[Back(rest, i)] == Next(rest).1[i]
    ensures Back(rest, i) != if !rest[0].active && Swaps(rest) then 1 else 0
    ensures j < i ==> Back(rest, j) < Back(rest, i)
  {
    NextBack(rest, i);
  }

  lemma OwnNext(w: Walk, os: System, w': Walk)
    requires OwnSockets(w) && OpenInv(w) && w.rest != [] && Turn(w, os) == Some(w')
    ensures OwnSockets(w') && !SockIn(w'.rest, Next(w.rest).0.sock)
  {
    var _, r := OneTurn(w, os);
    var p := if !w.rest[0].active && Swaps(w.rest) then 1 else 0;
    assert w.rest[p] == r;
    forall i | 0 <= i < |w'.rest| ensures w'.rest[i].sock != r.sock && !SockIn(w'.done, w'.rest[i].sock) {
      BackDiffers(w.rest, i, i);
      SockInConcat(w.done, [r.(active := true)], w'.rest[i].sock);
    }
    forall i, j | 0 <= i < j < |w'.rest| ensures w'.rest[i].sock != w'.rest[j].sock {
      BackDiffers(w.rest, i, i);
      BackDiffers(w.rest, j, i);
    }
  }

  lemma {:induction false} StayingAre(w: Walk, os: System)
    requires OpenInv(w) && OwnSockets(w) && Open(w, os).Opened?
    ensures forall i :: 0 <= i < |w.rest| ==> (SockIn(Open(w, os).list, w.rest[i].sock) <==> Stays(w.done, w.rest, i, os))
    decreases |w.rest|
  {
    if w.rest != [] {
      var p := if !w.rest[0].active && Swaps(w.rest) then 1 else 0;
      var w', r := OneTurn(w, os);
      var out := Open(w, os).list;
      StaysNow(w, os);
      OwnNext(w, os, w');
      StayingAre(w', os);
      OpenKeeps(w', os);
      forall k | 0 <= k < |w.rest| ensures SockIn(out, w.rest[k].sock) <==> Stays(w.done, w.rest, k, os) {
        if k == p {
          DealtWithStays(w, os, w', out);
        } else {
          var i := if p == 1 && k == 0 then 0 else k - 1;
          BackDiffers(w.rest, i, i);
          StaysNext(w, os, w', i);
        }
      }
    }
  }

  lemma DealtWithStays(w: Walk, os: System, w': Walk, out: seq<Rec>)
    requires OpenInv(w) && OwnSockets(w) && w.rest != [] && Turn(w, os) == Some(w')
    requires w'.done <= out && Open(w', os).Opened? && out == Open(w', os).list
    ensures var p := if !w.rest[0].active && Swaps(w.rest) then 1 else 0;
            SockIn(out, w.rest[p].sock) <==> Stays(w.done, w.rest, p, os)
  {
    var p, r := if !w.rest[0].active && Swaps(w.rest) then 1 else 0, Next(w.rest).0;
    assert w.rest[p] == r;
    StaysNow(w, os);
    OwnNext(w, os, w');
    if Stays(w.done, w.rest, p, os) {
      assert out[|w.done|] == w'.done[|w.done|] == r.(active := true);
    } else if SockIn(out, r.sock) {
      OutSockets(w', os, r.sock);
    }
  }

  /** A successful open of a list without a hazard leaves exactly the records that were open and those that bind, but
      for each `0.0.0.0` that a dual `::` takes in. */
  lemma StayExactly(list: seq<Rec>, os: System)
    requires !Hazard([], list) && DistinctSockets(list) && OpenAll(list, os).Opened?
    ensures forall i :: 0 <= i < |list| ==> (SockIn(OpenAll(list, os).list, list[i].sock) <==> Stays([], list, i, os))
  {
    StayingAre(Walk([], list, Nothing, 0), os);
  }

  // ----- the lists as they are changed

  /** The walk through the former listeners: those passed over, those to come, and the new list. */
  function Taking(seen: seq<Rec>, rest: seq<Rec>, listeners: seq<Rec>, d: Directive): (seq<Rec>, seq<Rec>)
    decreases |rest|
  {
    if rest == [] then (listeners, seen)
    else if Matches(rest[0], d) then Taking(seen, rest[1..], [rest[0]] + listeners, d)
    else Taking(seen + [rest[0]], rest[1..], listeners, d)
  }

  lemma {:induction false} TakingIs(seen: seq<Rec>, rest: seq<Rec>, listeners: seq<Rec>, d: Directive)
    ensures Taking(seen, rest, listeners, d) == (Reused(rest, d) + listeners, seen + Left(rest, d))
    decreases |rest|
  {
    if rest != [] {
      var r := rest[0];
      if Matches(r, d) {
        TakingIs(seen, rest[1..], [r] + listeners, d);
        assert Reused(rest[1..], d) + ([r] + listeners) == Reused(rest, d) + listeners;
        assert Left(rest, d) == Left(rest[1..], d);
      } else {
        TakingIs(seen + [r], rest[1..], listeners, d);
        assert (seen + [r]) + Left(rest[1..], d) == seen + Left(rest, d);
        assert Reused(rest, d) == Reused(rest[1..], d);
      }
    } else {
      assert [] + listeners == listeners && seen + [] == seen;
    }
  }

  function Sockets(list: seq<Rec>): seq<nat> {
    if list == [] then [] else [list[0].sock] + Sockets(list[1..])
  }

  class ListenerTable {
    var listeners: seq<Rec>      // ap_listeners
    var former: seq<Rec>         // old_listeners
    var closed: seq<nat>         // the sockets closed so far, in order

    constructor ()
      ensures listeners == [] && former == [] && closed == []
    {
      listeners, former, closed := [], [], [];
    }

    /** `ap_listen_pre_config` */
    method PreConfig()
      modifies this
      ensures former == old(listeners) && listeners == [] && closed == old(closed)
    {
      former := listeners;
      listeners := [];
    }

    /** The records for `d` moved to the front of the list, one after the other. */
    method TakeFormer(d: Directive) returns (found: bool)
      modifies this`listeners, this`former
      ensures found <==> Reused(old(former), d) != []
      ensures listeners == Reused(old(former), d) + old(listeners)
      ensures former == Left(old(former), d)
    {
      found := false;
      var walk := 0;
      TakingIs([], former, listeners, d);
      while walk < |former|
        invariant walk <= |former| && |listeners| >= |old(listeners)|
        invariant Taking(former[..walk], former[walk..], listeners, d) == Taking([], old(former), old(listeners), d)
        invariant found <==> |listeners| > |old(listeners)|
        decreases |former| - walk
      {
        var r, before, after := former[walk], former[..walk], former[walk + 1..];
        assert former[walk..] == [r] + after;
        if Matches(r, d) {
          former := before + after;
          listeners := [r] + listeners;
          found := true;
          assert former[..walk] == before && former[walk..] == after;
        } else {
          walk := walk + 1;
          assert former[..walk] == before + [r];
        }
      }
      assert former[..walk] == former;
    }

    /** `alloc_listener` */
    method AllocListener(d: Directive) returns (o: Outcome)
      modifies this`listeners, this`former
      ensures (Book(listeners, former), o) == Alloc(Book(old(listeners), old(former)), d)
    {
      ReusedAndLeft(former, d);
      assert [] + listeners == listeners;
      var found := TakeFormer(d);
      if found {
        return if listeners[0].slave != d.slave then SlaveClash else Fine;
      }
      if d.found.None? {
        return SetupFailed;
      }
      o := AddNew(d.found.value, d);
    }

    method AddNew(cs: seq<Candidate>, d: Directive) returns (o: Outcome)
      modifies this`listeners
      ensures (listeners, o) == (old(listeners) + Created(cs, d).0, Created(cs, d).1)
    {
      var i := 0;
      while i < |cs|
        invariant i <= |cs|
        invariant listeners + Created(cs[i..], d).0 == old(listeners) + Created(cs, d).0
        invariant Created(cs[i..], d).1 == Created(cs, d).1
      {
        assert cs[i..][1..] == cs[i + 1..];
        if cs[i].sock.None? {
          if !(d.host.None? && cs[i].addr.family.V6?) {
            assert Created(cs[i..], d) == ([], SetupFailed) && listeners + [] == listeners;
            return SetupFailed;
          }
        } else {
          listeners := listeners + [Rec(cs[i].sock.value, Some(cs[i].addr), false, d.slave)];
        }
        i := i + 1;
      }
      assert Created(cs[i..], d) == ([], Fine) && listeners + [] == listeners;
      o := Fine;
    }

    /** `ap_close_listeners_ex` on the former listeners, which are then forgotten. */
    method CloseFormer()
      modifies this`former, this`closed
      ensures former == [] && closed == old(closed) + Sockets(old(former))
    {
      var i := 0;
      while i < |former|
        invariant i <= |former| && former == old(former)
        invariant closed + Sockets(former[i..]) == old(closed) + Sockets(old(former))
      {
        assert former[i..][1..] == former[i + 1..];
        closed := closed + [former[i].sock];
        i := i + 1;
      }
      assert closed + [] == closed;
      former := [];
    }

    /** The exchange of `0.0.0.0` at the cursor with `::` next to it; whether the latter then hangs on a
        record that is not in the list. */
    method Exchange(i: nat, previous: Previous) returns (lr: Rec, adrift: bool)
      requires i < |listeners|
      modifies this`listeners
      ensures var rest := old(listeners[i..]);
              && i <= |listeners| && listeners[..i] == old(listeners[..i])
              && adrift == (Swaps(rest) && previous.Removed?)
              && lr == (if Swaps(rest) then rest[1] else rest[0])
              && listeners[i..] == (if adrift then [] else [lr]) + (if Swaps(rest) then [rest[0]] + rest[2..] else rest[1..])
    {
      lr, adrift := listeners[i], false;
      if i + 1 < |listeners| && Any(lr, V4) && SamePort(lr, listeners[i + 1]) && Any(listeners[i + 1], V6) {
        var next := listeners[i + 1];
        if previous.Removed? {
          listeners := listeners[..i] + [lr] + listeners[i + 2..];
          adrift := true;
        } else {
          listeners := listeners[..i] + [next, lr] + listeners[i + 2..];
        }
        lr := next;
      }
    }

    /** Whether an earlier `::` takes in what `lr` would. */
    method ScanEarlier(i: nat, lr: Rec, os: System) returns (skip: bool)
      requires i <= |listeners|
      ensures skip <==> Covered(listeners[..i], lr, os)
    {
      var cur := 0;
      while cur < i
        invariant cur <= i
        invariant forall k :: 0 <= k < cur ==> !Covers(listeners[k], lr, os)
      {
        if Covers(listeners[cur], lr, os) {
          assert listeners[..i][cur] == listeners[cur];
          return true;
        }
        cur := cur + 1;
      }
      return false;
    }

    /** What is done with the record `lr`: it is at the cursor, or adrift. */
    method DealWith(i: nat, n: nat, previous: Previous, lr: Rec, adrift: bool, os: System)
        returns (i': nat, n': nat, previous': Previous, failed: bool)
      requires i <= |listeners| && (adrift ==> previous.Removed? && Any(lr, V6))
      requires !adrift ==> i < |listeners| && listeners[i] == lr
      modifies this`listeners
      ensures var w := Walk(old(listeners[..i]), old(listeners[if adrift then i else i + 1..]), previous, n);
              var t := Deal(w, lr, adrift, os);
              && (failed <==> t.None?)
              && (!failed ==> i' <= |listeners| && t == Some(Walk(listeners[..i'], listeners[i'..], previous', n')))
    {
      i', n', previous', failed := i, n, previous, false;
      ghost var done, tail := listeners[..i], listeners[if adrift then i else i + 1..];
      if Any(lr, V4) && !previous.Nothing? {
        var skip := ScanEarlier(i, lr, os);
        if skip {
          if previous.Removed? {
            assert listeners[..i + 1] == done + [lr];
            return i + 1, n, previous, false;
          }
          listeners := listeners[..i] + listeners[i + 1..];
          return;
        }
      }
      if lr.sock in os.binds {
        if adrift {
          return i, n + 1, Removed, false;
        }
        listeners := listeners[..i] + [lr.(active := true)] + listeners[i + 1..];
        return i + 1, n + 1, InFront, false;
      }
      var t := if adrift then i else i + 1;
      if t < |listeners| && Any(lr, V6) && SamePort(lr, listeners[t]) && Any(listeners[t], V4) {
        if previous.Removed? && !adrift {
          listeners := listeners[..i] + [AsV4(lr)] + listeners[i + 1..];
          return i + 1, n, InFront, false;
        }
        if !adrift {
          listeners := listeners[..i] + listeners[i + 1..];
        }
        return i, n, Removed, false;
      }
      failed := true;
    }

    /** One turn of the loop at the cursor `i`. */
    method OpenNext(i: nat, n: nat, previous: Previous, os: System) returns (i': nat, n': nat, previous': Previous, failed: bool)
      requires i < |listeners|
      modifies this`listeners
      ensures var t := Turn(Walk(old(listeners[..i]), old(listeners[i..]), previous, n), os);
              && (failed <==> t.None?)
              && (!failed ==> i' <= |listeners| && t == Some(Walk(listeners[..i'], listeners[i'..], previous', n')))
    {
      if listeners[i].active {
        assert listeners[..i + 1] == listeners[..i] + [listeners[i]] && listeners[i + 1..] == listeners[i..][1..];
        return i + 1, n + 1, InFront, false;
      }
      var lr, adrift := Exchange(i, previous);
      ghost var rest := old(listeners[i..]);
      ghost var tail := if Swaps(rest) then [rest[0]] + rest[2..] else rest[1..];
      assert adrift ==> listeners[i..] == tail;
      assert !adrift ==> listeners[i] == listeners[i..][0] == lr && listeners[i + 1..] == listeners[i..][1..] == tail;
      i', n', previous', failed := DealWith(i, n, previous, lr, adrift, os);
    }

    /** `open_listeners` */
    method OpenListeners(os: System) returns (ok: bool)
      modifies this
      ensures var r := OpenAll(old(listeners), os);
              && (ok <==> r.Opened? && r.count > 0)
              && (r.Opened? ==> listeners == r.list && former == [] && closed == old(closed) + Sockets(old(former)))
              && (r.Failed? ==> former == old(former) && closed == old(closed))
    {
      var i: nat, numOpen: nat, previous := 0, 0, Nothing;
      while i < |listeners|
        invariant i <= |listeners| && former == old(former) && closed == old(closed)
        invariant Open(Walk(listeners[..i], listeners[i..], previous, numOpen), os) == OpenAll(old(listeners), os)
        decreases |listeners| - i
      {
        var failed;
        i, numOpen, previous, failed := OpenNext(i, numOpen, previous, os);
        if failed {
          return false;
        }
      }
      CloseFormer();
      assert listeners[..i] == listeners;
      ok := numOpen > 0;
    }

    /** The directives of a configuration, up to the first error. */
    method ReadListens(ds: seq<Directive>) returns (o: Outcome)
      modifies this`listeners, this`former
      ensures (Book(listeners, former), o) == Configure(Book(old(listeners), old(former)), ds)
    {
      o := Fine;
      var i := 0;
      assert ds[0..] == ds;
      while i < |ds|
        invariant i <= |ds|
        invariant Configure(Book(listeners, former), ds[i..]) == Configure(Book(old(listeners), old(former)), ds)
        invariant o == Fine
      {
        assert ds[i..][0] == ds[i] && ds[i..][1..] == ds[i + 1..];
        o := AllocListener(ds[i]);
        if o != Fine {
          return;
        }
        i := i + 1;
      }
    }

    /** A whole restart: configured records that were open stay open on their sockets, those no directive
        asks for are closed, each once and no others, and without a hazard everything configured is served. */
    method Restart(ds: seq<Directive>, os: System) returns (ok: bool)
      modifies this
      ensures var (b, o) := Configure(Book([], old(listeners)), ds);
              && (ok <==> o == Fine && OpenAll(b.listeners, os).Opened? && OpenAll(b.listeners, os).count > 0)
              && (ok ==> listeners == OpenAll(b.listeners, os).list && former == [])
              && (ok && !Hazard([], b.listeners) ==> AllActive(listeners) && AllServed(b.listeners, listeners, os))
      ensures ok ==> closed == old(closed) + Sockets(Unasked(old(listeners), ds))
      ensures ok && AllActive(old(listeners)) ==>
                forall k :: 0 <= k < |old(listeners)| && Configured(old(listeners)[k], ds) ==> old(listeners)[k] in listeners
    {
      ghost var from := listeners;
      PreConfig();
      var o := ReadListens(ds);
      if o != Fine {
        return false;
      }
      ghost var b := Book(listeners, former);
      RestartHandsOver(from, ds);
      ok := OpenListeners(os);
      if ok {
        RestartKept(from, ds, os);
        if !Hazard([], b.listeners) {
          EveryListenerServed(b.listeners, os);
        }
      }
    }
  }

  lemma RestartKept(from: seq<Rec>, ds: seq<Directive>, os: System)
    requires var (b, o) := Configure(Book([], from), ds); o == Fine && OpenAll(b.listeners, os).Opened?
    ensures var b := Configure(Book([], from), ds).0;
            AllActive(from) ==> forall k :: 0 <= k < |from| && Configured(from[k], ds) ==> from[k] in OpenAll(b.listeners, os).list
  {
    if AllActive(from) {
      forall k | 0 <= k < |from| && Configured(from[k], ds)
        ensures from[k] in OpenAll(Configure(Book([], from), ds).0.listeners, os).list
      {
        RestartKeepsSockets(from, ds, os, k);
      }
    }
  }
}
