/** Whole runs of the output filter: conservation of the byte stream, the order of request
    ends, and flow control, for every series of calls against every socket.
 */
module OutputRuns {
  import opened Wrappers
  import opened Sequences
  import opened Buckets
  import opened OutputModel
  import opened OutputProofs
  import opened OutputOrder

  // ----- the scan

  function NonFileBytes(q: seq<Bucket>): nat {
    if q == [] then 0 else (if q[0].Heap? then |q[0].bytes| else 0) + NonFileBytes(q[1..])
  }

  function EorCount(q: seq<Bucket>): nat {
    if q == [] then 0 else (if q[0].Eor? then 1 else 0) + EorCount(q[1..])
  }

  /** A segment with a reason to be sent before the call returns. */
  predicate MustFlush(q: seq<Bucket>) {
    Alarms(q) > 0 || NonFileBytes(q) >= 65536 || EorCount(q) > 5
  }

  lemma {:induction false} CountsConcat(a: seq<Bucket>, b: seq<Bucket>)
    ensures NonFileBytes(a + b) == NonFileBytes(a) + NonFileBytes(b)
    ensures EorCount(a + b) == EorCount(a) + EorCount(b)
  {
    if a == [] {
      assert a + b == b;
    } else {
      CountsConcat(a[1..], b);
      HeadTail(a, b);
    }
  }

  /** What one more bucket adds to every count. */
  lemma CountsSnoc(q: seq<Bucket>, b: Bucket)
    ensures NonFileBytes(q + [b]) == NonFileBytes(q) + if b.Heap? then |b.bytes| else 0
    ensures EorCount(q + [b]) == EorCount(q) + if b.Eor? then 1 else 0
    ensures Alarms(q + [b]) == Alarms(q) + if Urgent(b) then 1 else 0
    ensures Bytes(q + [b]) == Bytes(q) + b.Content()
  {
    CountsConcat(q, [b]);
    AlarmsConcat(q, [b]);
    BytesConcat(q, [b]);
    BytesOne(b);
    assert [b][1..] == [];
  }

  /** What follows the point the scan stops at need not be sent, and is counted right. */
  lemma {:induction false} ScanTail(q: seq<Bucket>)
    ensures var t := Scan(q); var tail := q[t.upto..];
            && Alarms(tail) == 0 && t.bytes == |Bytes(tail)|
            && t.nonFile == NonFileBytes(tail) < THRESHOLD_MAX_BUFFER
            && t.eors == EorCount(tail) <= MAX_REQUESTS_IN_PIPELINE
  {
    if q != [] {
      var n := |q| - 1;
      ScanTail(q[..n]);
      var upto := Scan(q[..n]).upto;
      CountsSnoc(q[..n][upto..], q[n]);
      assert q[upto..] == q[..n][upto..] + [q[n]];
    }
  }

  /** `[start, upto)` need not have been sent before its last bucket, and must be with it. */
  predicate JustDue(q: seq<Bucket>, start: nat, upto: nat)
    requires start < upto <= |q|
  {
    MustFlush(q[start..upto]) && !MustFlush(q[start..upto - 1])
  }

  /** The scan stops right behind a segment that became due with its last bucket. */
  lemma {:induction false} ScanHead(q: seq<Bucket>) returns (start: nat)
    requires Scan(q).upto > 0
    ensures start < Scan(q).upto && JustDue(q, start, Scan(q).upto)
  {
    var n := |q| - 1;
    var p, upto := q[..n], Scan(q).upto;
    if upto == |q| {
      start := Scan(p).upto;
      ScanTail(p);
      ScanTrigger(q);
    } else {
      start := ScanHead(p);
      assert q[start..upto] == p[start..upto] && q[start..upto - 1] == p[start..upto - 1];
    }
  }

  lemma ScanTrigger(q: seq<Bucket>)
    requires q != [] && Scan(q).upto == |q|
    ensures JustDue(q, Scan(q[..|q| - 1]).upto, |q|)
  {
    BucketDue(q[..|q| - 1], q[|q| - 1]);
    SliceSnoc(q, Scan(q[..|q| - 1]).upto);
  }

  lemma {:induction false} BucketDue(p: seq<Bucket>, b: Bucket)
    requires Count(Scan(p), b, |p| + 1).upto > |p|
    ensures !MustFlush(p[Scan(p).upto..]) && MustFlush(p[Scan(p).upto..] + [b])
  {
    ScanTail(p);
    CountsSnoc(p[Scan(p).upto..], b);
  }

  lemma SliceSnoc<T>(q: seq<T>, start: nat)
    requires start < |q|
    ensures q[start..|q|] == q[..|q| - 1][start..] + [q[|q| - 1]]
    ensures q[start..|q| - 1] == q[..|q| - 1][start..]
  {
  }

  lemma {:induction false} AlarmAt(q: seq<Bucket>, i: nat)
    requires i < |q| && Urgent(q[i])
    ensures Alarms(q) > 0
  {
    if i > 0 {
      AlarmAt(q[1..], i - 1);
    }
  }

  lemma UrgentBeforeStop(q: seq<Bucket>, k: nat)
    requires k < |q| && Urgent(q[k])
    ensures k < Scan(q).upto
  {
    ScanTail(q);
    if Scan(q).upto <= k {
      AlarmAt(q[Scan(q).upto..], k - Scan(q).upto);
    }
  }

  /** A queue that need not be sent is not. */
  lemma {:induction false} QuietScan(q: seq<Bucket>)
    requires !MustFlush(q)
    ensures Scan(q).upto == 0 && Scan(q).bytes == |Bytes(q)|
  {
    var upto := Scan(q).upto;
    if upto > 0 {
      var start := ScanHead(q);
      assert q == q[..start] + q[start..upto] + q[upto..];
      MustFlushGrows(q[..start], q[start..upto], q[upto..]);
      assert false;
    }
    ScanTail(q);
    assert q[0..] == q;
  }

  lemma MustFlushGrows(a: seq<Bucket>, q: seq<Bucket>, b: seq<Bucket>)
    requires MustFlush(q)
    ensures MustFlush(a + q + b)
  {
    CountsConcat(a, q);
    CountsConcat(a + q, b);
    AlarmsConcat(a, q);
    AlarmsConcat(a + q, b);
  }

  lemma {:induction false} MemoryWithinNonFile(q: seq<Bucket>)
    ensures MemoryBytes(q) <= NonFileBytes(q)
  {
    if q != [] {
      MemoryWithinNonFile(q[1..]);
    }
  }

  // ----- what holds of the buffer between calls

  predicate FlowControlled(q: seq<Bucket>) {
    && Alarms(q) == 0
    && MemoryBytes(q) < THRESHOLD_MAX_BUFFER
    && EorCount(q) <= MAX_REQUESTS_IN_PIPELINE
  }

  lemma {:induction false} EorCountIsMarks(q: seq<Bucket>, pos: nat)
    ensures |EorMarks(q, pos)| == EorCount(q)
  {
    if q != [] {
      EorCountIsMarks(q[1..], pos + |q[0].Content()|);
    }
  }

  lemma DrainsFlow(s: Snapshot, t: Snapshot)
    requires Drains(s, t) && FlowControlled(s.queue)
    ensures FlowControlled(t.queue)
  {
    EorCountIsMarks(s.queue, |s.wire|);
    EorCountIsMarks(t.queue, |t.wire|);
    assert |s.Account()| == |s.log| + EorCount(s.queue) && |t.Account()| == |t.log| + EorCount(t.queue);
  }

  lemma {:induction false} QuietIsSafe(q: seq<Bucket>, held: nat)
    requires Alarms(q) == 0
    ensures Safe(q, held)
  {
    if q != [] {
      QuietIsSafe(q[1..], Hold(q[0], held));
    }
  }

  lemma {:induction false} SafeBehindQuiet(a: seq<Bucket>, b: seq<Bucket>)
    requires Alarms(a) == 0 && Safe(b, 0)
    ensures Safe(a + b, 0)
  {
    NoAlarms(a);
    SafeBehindKnown(a, b);
  }

  /** How often the end of request `r` is marked. */
  function Times(ms: seq<Mark>, r: nat): nat {
    if ms == [] then 0 else (if ms[0].request == r then 1 else 0) + Times(ms[1..], r)
  }

  lemma {:induction false} TimesConcat(a: seq<Mark>, b: seq<Mark>, r: nat)
    ensures Times(a + b, r) == Times(a, r) + Times(b, r)
  {
    if a == [] {
      assert a + b == b;
    } else {
      TimesConcat(a[1..], b, r);
      HeadTail(a, b);
    }
  }

  lemma {:induction false} TimesLater(ms': seq<Mark>, ms: seq<Mark>, r: nat)
    requires Later(ms', ms)
    ensures Times(ms', r) == Times(ms, r)
  {
    if ms != [] {
      TimesLater(ms'[1..], ms[1..], r);
    }
  }

  lemma {:induction false} TimesDiscarded(q: seq<Bucket>, at: nat, pos: nat, r: nat)
    ensures Times(Discarded(q, at), r) == Times(EorMarks(q, pos), r)
  {
    if q != [] {
      var next := pos + |q[0].Content()|;
      TimesDiscarded(q[1..], at, next, r);
      TimesConcat(Destroyed(q[0], at), Discarded(q[1..], at), r);
      TimesConcat(Destroyed(q[0], pos), EorMarks(q[1..], next), r);
    }
  }

  /** Everything that was queued, before any of it went anywhere. */
  function Origin(history: seq<Bucket>): Snapshot {
    Snapshot([], [], history)
  }

  /** No request is ended more often than its EOR bucket was queued. */
  ghost predicate NoneTwice(log: seq<Mark>, history: seq<Bucket>) {
    forall r :: Times(log, r) <= Times(EorMarks(history, 0), r)
  }

  /** Every EOR bucket queued has been destroyed, or is still held. */
  ghost predicate Accounted(log: seq<Mark>, held: seq<Bucket>, history: seq<Bucket>) {
    forall r :: Times(log, r) + Times(EorMarks(held, 0), r) == Times(EorMarks(history, 0), r)
  }

  lemma AccountedNoneTwice(log: seq<Mark>, held: seq<Bucket>, history: seq<Bucket>)
    requires Accounted(log, held, history)
    ensures NoneTwice(log, history)
  {
    forall r ensures Times(log, r) <= Times(EorMarks(history, 0), r) {
      assert Times(log, r) + Times(EorMarks(held, 0), r) == Times(EorMarks(history, 0), r);
    }
  }

  /** What every brigade keeps, once `history` has been passed: requests end in order and none early, none is lost
      or ended too often, and the buffer is bounded. */
  ghost predicate Kept(c: Conn, history: seq<Bucket>) {
    && Accounted(c.net.out.log, c.net.out.queue + c.stranded, history)
    && if c.aborted then c.net.out.queue == []
       else
         && Follows(Now(Origin(history)), Now(c.net.out))
         && FlowControlled(c.net.out.queue)
         && (c.net.out.queue == [] || !Skippable(c.net.out.queue[0]))
         && c.waiting == (c.net.out.queue != [])
         && c.stranded == []
  }

  /** What brigades of a safe shape keep besides: no byte is lost, repeated or reordered. */
  ghost predicate Exact(c: Conn, history: seq<Bucket>) {
    if c.aborted then c.net.out.wire <= Bytes(history) else Drains(Origin(history), c.net.out)
  }

  ghost predicate Inv(c: Conn, history: seq<Bucket>) {
    Kept(c, history) && Exact(c, history)
  }

  // ----- every brigade

  /** What is discarded of the queue is accounted for. */
  lemma FollowsAccounted(h: seq<Bucket>, s: Snapshot, q: seq<Bucket>, tail: seq<Bucket>)
    requires Follows(Now(Origin(h)), Now(s)) && s.queue == q + tail
    ensures Accounted(s.log + Discarded(q, |s.wire|), tail, h)
  {
    forall r ensures Times(s.log + Discarded(q, |s.wire|), r) + Times(EorMarks(tail, 0), r) == Times(EorMarks(h, 0), r) {
      AccountOf(h, s, q, tail, r);
    }
  }

  lemma {:induction false} AccountOf(h: seq<Bucket>, s: Snapshot, q: seq<Bucket>, tail: seq<Bucket>, r: nat)
    requires Follows(Now(Origin(h)), Now(s)) && s.queue == q + tail
    ensures Times(s.log + Discarded(q, |s.wire|), r) + Times(EorMarks(tail, 0), r) == Times(EorMarks(h, 0), r)
  {
    var at := |s.wire|;
    TimesInTwo(q, tail, at, r);
    TimesConcat(s.log, Discarded(q, at), r);
    TimesConcat(s.log, EorMarks(s.queue, at), r);
    assert Now(Origin(h)).Marks() == EorMarks(h, 0);
    TimesLater(Now(s).Marks(), EorMarks(h, 0), r);
  }

  lemma {:induction false} TimesInTwo(q: seq<Bucket>, tail: seq<Bucket>, at: nat, r: nat)
    ensures Times(EorMarks(q + tail, at), r) == Times(Discarded(q, at), r) + Times(EorMarks(tail, 0), r)
  {
    EorMarksConcat(q, tail, at);
    TimesConcat(EorMarks(q, at), EorMarks(tail, at + |Bytes(q)|), r);
    TimesDiscarded(q, at, at, r);
    TimesAnywhere(tail, at + |Bytes(q)|, 0, r);
  }

  lemma {:induction false} TimesAnywhere(q: seq<Bucket>, pos: nat, pos': nat, r: nat)
    ensures Times(EorMarks(q, pos), r) == Times(EorMarks(q, pos'), r)
  {
    TimesDiscarded(q, 0, pos, r);
    TimesDiscarded(q, 0, pos', r);
  }

  lemma AbortKept(c: Conn, net: Net, stranded: seq<Bucket>, h: seq<Bucket>)
    requires Follows(Now(Origin(h)), Now(net.out.Append(stranded)))
    ensures Kept(Abort(c, net, stranded), h)
  {
    FollowsAccounted(h, net.out.Append(stranded), net.out.queue, stranded);
    assert [] + stranded == stranded;
  }

  lemma SetAsideKept(c: Conn, net: Net, h: seq<Bucket>)
    requires Follows(Now(Origin(h)), Now(net.out)) && FlowControlled(net.out.queue)
    requires !c.aborted && !c.waiting && c.stranded == []
    ensures Kept(SetAside(c, net), h)
  {
    StripDrains(net.out);
    DrainsFlow(net.out, Strip(net.out));
    DrainsFollow(net.out, Strip(net.out));
    FollowsTrans(Now(Origin(h)), Now(net.out), Now(Strip(net.out)));
    assert [] + Strip(net.out).queue == Strip(net.out).queue && Strip(net.out).log + [] == Strip(net.out).log;
    FollowsAccounted(h, Strip(net.out), [], Strip(net.out).queue);
    assert Strip(net.out).queue + [] == Strip(net.out).queue;
  }

  lemma PassKept(c: Conn, net: Net, h: seq<Bucket>)
    requires Follows(Now(Origin(h)), Now(net.out)) && FlowControlled(net.out.queue)
    requires !c.aborted && !c.waiting && c.stranded == []
    ensures Kept(Settle(c, SendPass(net)).0, h)
  {
    QuietIsSafe(net.out.queue, 0);
    SendPassDrains(net);
    var (sent, rv) := SendPass(net);
    DrainsFollow(net.out, sent.out);
    FollowsTrans(Now(Origin(h)), Now(net.out), Now(sent.out));
    if rv.Success? || rv.Again? {
      DrainsFlow(net.out, sent.out);
      SetAsideKept(c, sent, h);
    } else {
      assert sent.out.Append([]) == sent.out;
      AbortKept(c, sent, [], h);
    }
  }

  lemma WriteSomeKept(c: Conn, net: Net, bytes: nat, h: seq<Bucket>)
    requires Follows(Now(Origin(h)), Now(net.out)) && FlowControlled(net.out.queue)
    requires !c.aborted && !c.waiting && c.stranded == []
    ensures Kept(WriteSome(c, net, bytes).0, h)
  {
    if bytes >= THRESHOLD_MIN_WRITE {
      PassKept(c, net, h);
    } else {
      SetAsideKept(c, net, h);
    }
  }

  /** What must go is sent by blocking writes, with the rest behind it. */
  lemma {:induction false} FrontFollows(c: Conn, bb: seq<Bucket>, h: seq<Bucket>, front: seq<Bucket>, tail: seq<Bucket>)
    requires Kept(c, h) && !c.aborted && c.net.out.queue + bb == front + tail
    ensures Follows(Now(Origin(h + bb)), Now(SendAll(c.net.WithQueue(front)).0.out.Append(tail)))
  {
    var start := c.net.WithQueue(front).out;
    var sent := SendAll(c.net.WithQueue(front)).0.out;
    SendAllFollows(c.net.WithQueue(front));
    FollowsFrame(Now(Origin(h)), Now(c.net.out), bb);
    FollowsFrame(Now(start), Now(sent), tail);
    FollowsTrans(Now(Origin(h + bb)), Now(start.Append(tail)), Now(sent.Append(tail)));
  }

  lemma {:induction false} BrigadeKept(c: Conn, bb: seq<Bucket>, h: seq<Bucket>)
    requires Kept(c, h) && !c.aborted
    ensures Kept(Filter(c, Some(bb)).0, h + bb)
  {
    var q := c.net.out.queue + bb;
    var t := Scan(q);
    var c' := c.(waiting := false, net := c.net.WithQueue([]));
    assert q == q[..t.upto] + q[t.upto..];
    FrontFollows(c, bb, h, q[..t.upto], q[t.upto..]);
    TailControlled(q);
    var (net, rv) := SendAll(c.net.WithQueue(q[..t.upto]));
    if t.upto == 0 {
      assert q[..0] == [] && q[0..] == q;
      assert net.out.Append(q) == c.net.WithQueue(q).out;
      WriteSomeKept(c', c.net.WithQueue(q), t.bytes, h + bb);
    } else if rv.Success? {
      assert net.out.Append(q[t.upto..]) == net.WithQueue(q[t.upto..]).out;
      WriteSomeKept(c', net.WithQueue(q[t.upto..]), t.bytes, h + bb);
    } else {
      AbortKept(c', net, q[t.upto..], h + bb);
    }
  }

  /** One call keeps this, whatever the brigade, the socket and the outcome. */
  lemma CallKeepsOrder(c: Conn, input: Option<seq<Bucket>>, h: seq<Bucket>)
    requires Kept(c, h)
    ensures Kept(Filter(c, input).0, h + Given(input))
  {
    if input.None? {
      assert h + [] == h;
      if !c.aborted && c.net.out.queue != [] {
        PassKept(c.(waiting := false), c.net, h);
      }
    } else if c.aborted {
      AbortedKept(c, input.value, h);
    } else {
      BrigadeKept(c, input.value, h);
    }
  }

  lemma {:induction false} AbortedKept(c: Conn, bb: seq<Bucket>, h: seq<Bucket>)
    requires Kept(c, h) && c.aborted
    ensures Kept(Filter(c, Some(bb)).0, h + bb)
  {
    var at, held := |c.net.out.wire|, c.net.out.queue + c.stranded;
    forall r ensures Times(c.net.out.log + Discarded(bb, at), r) + Times(EorMarks(held, 0), r) == Times(EorMarks(h + bb, 0), r) {
      assert Times(c.net.out.log, r) + Times(EorMarks(held, 0), r) == Times(EorMarks(h, 0), r);
      AllDiscarded(c.net.out.log, h, bb, at, r);
    }
  }

  lemma {:induction false} AllDiscarded(log: seq<Mark>, h: seq<Bucket>, bb: seq<Bucket>, at: nat, r: nat)
    ensures Times(log + Discarded(bb, at), r) - Times(log, r) == Times(EorMarks(h + bb, 0), r) - Times(EorMarks(h, 0), r)
  {
    EorMarksConcat(h, bb, 0);
    TimesConcat(log, Discarded(bb, at), r);
    TimesConcat(EorMarks(h, 0), EorMarks(bb, |Bytes(h)|), r);
    TimesDiscarded(bb, at, |Bytes(h)|, r);
  }

  function Given(input: Option<seq<Bucket>>): seq<Bucket> {
    if input.None? then [] else input.value
  }

  // ----- brigades of a safe shape

  lemma AbortKeeps(c: Conn, net: Net, stranded: seq<Bucket>, h: seq<Bucket>)
    requires Drains(Origin(h), net.out.Append(stranded))
    ensures Exact(Abort(c, net, stranded), h)
  {
    var s := net.out.Append(stranded);
    assert s.Total() == Origin(h).Total() == Bytes(h);
  }

  lemma SetAsideKeeps(c: Conn, net: Net, h: seq<Bucket>)
    requires Drains(Origin(h), net.out) && !c.aborted
    ensures Exact(SetAside(c, net), h)
  {
    StripDrains(net.out);
    DrainsTrans(Origin(h), net.out, Strip(net.out));
  }

  lemma PassKeeps(c: Conn, net: Net, h: seq<Bucket>)
    requires Drains(Origin(h), net.out) && Alarms(net.out.queue) == 0 && !c.aborted
    ensures Exact(Settle(c, SendPass(net)).0, h)
  {
    QuietIsSafe(net.out.queue, 0);
    SendPassDrains(net);
    var (sent, rv) := SendPass(net);
    DrainsTrans(Origin(h), net.out, sent.out);
    if rv.Success? || rv.Again? {
      SetAsideKeeps(c, sent, h);
    } else {
      assert sent.out.Append([]) == sent.out;
      AbortKeeps(c, sent, [], h);
    }
  }

  lemma WriteSomeKeeps(c: Conn, net: Net, bytes: nat, h: seq<Bucket>)
    requires Drains(Origin(h), net.out) && Alarms(net.out.queue) == 0 && !c.aborted
    ensures Exact(WriteSome(c, net, bytes).0, h)
  {
    if bytes >= THRESHOLD_MIN_WRITE {
      PassKeeps(c, net, h);
    } else {
      SetAsideKeeps(c, net, h);
    }
  }

  /** The part of the queue that must go, sent by blocking writes. */
  lemma {:induction false} BlockingKeeps(c: Conn, bb: seq<Bucket>, h: seq<Bucket>)
    requires Inv(c, h) && !c.aborted && Safe(bb, 0)
    ensures var q := c.net.out.queue + bb;
            var upto := Scan(q).upto;
            var (net, rv) := SendAll(c.net.WithQueue(q[..upto]));
            && Drains(Origin(h + bb), net.out.Append(q[upto..]))
            && FlowControlled(q[upto..])
            && (rv.Success? ==> net.out.wire == c.net.out.wire + Bytes(q[..upto]))
  {
    var q := c.net.out.queue + bb;
    var upto := Scan(q).upto;
    assert q == q[..upto] + q[upto..];
    FrontDrains(c, bb, h, q[..upto], q[upto..]);
    TailControlled(q);
  }

  lemma TailControlled(q: seq<Bucket>)
    ensures FlowControlled(q[Scan(q).upto..])
  {
    ScanTail(q);
    MemoryWithinNonFile(q[Scan(q).upto..]);
  }

  /** Sending the front of the queue by blocking writes. */
  lemma FrontDrains(c: Conn, bb: seq<Bucket>, h: seq<Bucket>, front: seq<Bucket>, tail: seq<Bucket>)
    requires Inv(c, h) && !c.aborted && Safe(bb, 0) && c.net.out.queue + bb == front + tail
    ensures var (net, rv) := SendAll(c.net.WithQueue(front));
            && Drains(Origin(h + bb), net.out.Append(tail))
            && (rv.Success? ==> net.out.wire == c.net.out.wire + Bytes(front))
  {
    var start := c.net.WithQueue(front);
    var (net, rv) := SendAll(start);
    SafeBehindQuiet(c.net.out.queue, bb);
    SafePrefix(front, tail, 0);
    SendAllDrains(start);
    DrainsFrame(Origin(h), c.net.out, bb);
    DrainsFrame(start.out, net.out, tail);
    DrainsTrans(Origin(h + bb), start.out.Append(tail), net.out.Append(tail));
    if rv.Success? {
      assert net.out.Total() == net.out.wire;
    }
  }

  lemma BrigadeKeeps(c: Conn, bb: seq<Bucket>, h: seq<Bucket>)
    requires Inv(c, h) && !c.aborted && Safe(bb, 0)
    ensures Exact(Filter(c, Some(bb)).0, h + bb)
  {
    var q := c.net.out.queue + bb;
    var t := Scan(q);
    var c' := c.(waiting := false, net := c.net.WithQueue([]));
    BlockingKeeps(c, bb, h);
    var (net, rv) := SendAll(c.net.WithQueue(q[..t.upto]));
    if t.upto == 0 {
      assert q[..0] == [] && q[0..] == q;
      assert net.out.Append(q) == c.net.WithQueue(q).out;
      WriteSomeKeeps(c', c.net.WithQueue(q), t.bytes, h + bb);
    } else if rv.Success? {
      assert net.out.Append(q[t.upto..]) == net.WithQueue(q[t.upto..]).out;
      WriteSomeKeeps(c', net.WithQueue(q[t.upto..]), t.bytes, h + bb);
    } else {
      AbortKeeps(c', net, q[t.upto..], h + bb);
    }
  }

  /** One call with a brigade of a safe shape keeps all of it, whatever the socket and the outcome. */
  lemma FilterKeeps(c: Conn, input: Option<seq<Bucket>>, h: seq<Bucket>)
    requires Inv(c, h) && Safe(Given(input), 0)
    ensures Inv(Filter(c, input).0, h + Given(input))
  {
    CallKeepsOrder(c, input, h);
    if input.None? {
      assert h + [] == h;
      if !c.aborted && c.net.out.queue != [] {
        PassKeeps(c.(waiting := false), c.net, h);
      }
    } else if c.aborted {
      BytesConcat(h, input.value);
    } else {
      BrigadeKeeps(c, input.value, h);
    }
  }

  // ----- runs

  function Queued(inputs: seq<Option<seq<Bucket>>>): seq<Bucket> {
    if inputs == [] then [] else Queued(inputs[..|inputs| - 1]) + Given(inputs[|inputs| - 1])
  }

  ghost predicate SafeInputs(inputs: seq<Option<seq<Bucket>>>) {
    forall i :: 0 <= i < |inputs| ==> Safe(Given(inputs[i]), 0)
  }

  lemma {:induction false} RunKeeps(answers: seq<Answer>, inputs: seq<Option<seq<Bucket>>>)
    requires SafeInputs(inputs)
    ensures Inv(Run(Start(answers), inputs), Queued(inputs))
  {
    if inputs != [] {
      var n := |inputs| - 1;
      RunKeeps(answers, inputs[..n]);
      FilterKeeps(Run(Start(answers), inputs[..n]), inputs[n], Queued(inputs[..n]));
    }
  }

  lemma {:induction false} RunKeepsOrder(answers: seq<Answer>, inputs: seq<Option<seq<Bucket>>>)
    ensures Kept(Run(Start(answers), inputs), Queued(inputs))
  {
    if inputs != [] {
      var n := |inputs| - 1;
      RunKeepsOrder(answers, inputs[..n]);
      CallKeepsOrder(Run(Start(answers), inputs[..n]), inputs[n], Queued(inputs[..n]));
    } else {
      FollowsOn(Now(Origin([])), 0, 0);
    }
  }

  /** Over every run, aborts included: every EOR bucket queued has been destroyed once, or is held still, in the buffer
      or, after an abort, behind what was to be sent. */
  lemma EndsAccounted(answers: seq<Answer>, inputs: seq<Option<seq<Bucket>>>, r: nat)
    ensures var c := Run(Start(answers), inputs);
            && Times(c.net.out.log, r) + Times(EorMarks(c.net.out.queue + c.stranded, 0), r) == Times(EorMarks(Queued(inputs), 0), r)
            && (c.aborted ==> c.net.out.queue == []) && (!c.aborted ==> c.stranded == [])
  {
    RunKeepsOrder(answers, inputs);
  }

  /** Byte-stream conservation: what is on the wire and what is still buffered are together
      exactly what was passed in; after an abort the wire is a prefix of it. */
  lemma BytesConserved(answers: seq<Answer>, inputs: seq<Option<seq<Bucket>>>)
    requires SafeInputs(inputs)
    ensures var c := Run(Start(answers), inputs);
            if c.aborted then c.net.out.wire <= Bytes(Queued(inputs))
            else c.net.out.wire + Bytes(c.net.out.queue) == Bytes(Queued(inputs))
  {
    RunKeeps(answers, inputs);
    InvBytes(Run(Start(answers), inputs), Queued(inputs));
  }

  lemma InvBytes(c: Conn, h: seq<Bucket>)
    requires Inv(c, h)
    ensures if c.aborted then c.net.out.wire <= Bytes(h) else c.net.out.wire + Bytes(c.net.out.queue) == Bytes(h)
  {
    assert Origin(h).Total() == Bytes(h);
  }

  /** Request ends: the EOR buckets are destroyed in the order they were queued, none before
      every byte queued ahead of it is on the wire. */
  lemma EndsInOrder(answers: seq<Answer>, inputs: seq<Option<seq<Bucket>>>, k: nat)
    requires !Run(Start(answers), inputs).aborted
    requires k < |Run(Start(answers), inputs).net.out.log|
    ensures var log, marks := Run(Start(answers), inputs).net.out.log, EorMarks(Queued(inputs), 0);
            k < |marks| && log[k].request == marks[k].request && marks[k].at <= log[k].at <= |Run(Start(answers), inputs).net.out.wire|
  {
    RunKeepsOrder(answers, inputs);
    KeptEnds(Run(Start(answers), inputs), Queued(inputs), k);
  }

  lemma KeptEnds(c: Conn, h: seq<Bucket>, k: nat)
    requires Kept(c, h) && !c.aborted && k < |c.net.out.log|
    ensures var log, marks := c.net.out.log, EorMarks(h, 0);
            k < |marks| && log[k].request == marks[k].request && marks[k].at <= log[k].at <= |c.net.out.wire|
  {
    assert Now(c.net.out).Marks()[k] == c.net.out.log[k];
    assert Now(Origin(h)).Marks() == EorMarks(h, 0);
  }

  /** Flow control: between calls the buffer holds no FLUSH and no unknown-length bucket, fewer
      than 65536 bytes that did not come from files, at most five EOR buckets; it starts with
      a byte to send, and without an abort the flag says whether it is empty. */
  lemma BufferBounded(answers: seq<Answer>, inputs: seq<Option<seq<Bucket>>>)
    ensures var c := Run(Start(answers), inputs); var q := c.net.out.queue;
            && (forall i :: 0 <= i < |q| ==> !q[i].Flush? && !q[i].Stream?)
            && MemoryBytes(q) < 65536 && EorCount(q) <= 5
            && (q != [] ==> q[0].Content() != [])
            && (!c.aborted ==> (c.waiting <==> q != []))
  {
    RunKeepsOrder(answers, inputs);
    NoAlarms(Run(Start(answers), inputs).net.out.queue);
  }

  // ----- what a single call does

  /** A successful call has sent everything up to and including the last FLUSH or
      unknown-length bucket. */
  lemma {:induction false} FlushIsHonoured(c: Conn, bb: seq<Bucket>, h: seq<Bucket>, k: nat)
    requires Inv(c, h) && !c.aborted && Safe(bb, 0)
    requires var q := c.net.out.queue + bb; k < |q| && Urgent(q[k])
    requires Filter(c, Some(bb)).1.Success?
    ensures var q := c.net.out.queue + bb;
            c.net.out.wire + Bytes(q[..k + 1]) <= Filter(c, Some(bb)).0.net.out.wire
  {
    var q := c.net.out.queue + bb;
    UrgentBeforeStop(q, k);
    PrefixBytes(q, k + 1, Scan(q).upto);
    FilterSendsDue(c, bb, h);
    PrefixBehind(c.net.out.wire, Bytes(q[..k + 1]), Bytes(q[..Scan(q).upto]), Filter(c, Some(bb)).0.net.out.wire);
  }

  lemma PrefixBehind<T>(w: seq<T>, a: seq<T>, b: seq<T>, all: seq<T>)
    requires a <= b && w + b <= all
    ensures w + a <= all
  {
  }

  /** A successful call has sent what its scan found due. */
  lemma {:induction false} FilterSendsDue(c: Conn, bb: seq<Bucket>, h: seq<Bucket>)
    requires Inv(c, h) && !c.aborted && Safe(bb, 0)
    requires Scan(c.net.out.queue + bb).upto > 0 && Filter(c, Some(bb)).1.Success?
    ensures var q := c.net.out.queue + bb;
            c.net.out.wire + Bytes(q[..Scan(q).upto]) <= Filter(c, Some(bb)).0.net.out.wire
  {
    var q := c.net.out.queue + bb;
    BlockingKeeps(c, bb, h);
    var c' := if c.net.out.queue == [] then c else c.(waiting := false);
    var start := c'.(net := c.net.WithQueue([]));
    assert Filter(c, Some(bb)) == SendNew(start, q);
    DueIsSent(start, q);
    assert start.net.WithQueue(q[..Scan(q).upto]) == c.net.WithQueue(q[..Scan(q).upto]);
  }

  lemma DueIsSent(c: Conn, q: seq<Bucket>)
    requires Scan(q).upto > 0 && SendNew(c, q).1.Success?
    ensures var (net, rv) := SendAll(c.net.WithQueue(q[..Scan(q).upto]));
            rv.Success? && net.out.wire <= SendNew(c, q).0.net.out.wire
  {
    var t := Scan(q);
    var (net, rv) := SendAll(c.net.WithQueue(q[..t.upto]));
    ScanTail(q);
    WireGrows(c, net.WithQueue(q[t.upto..]), t.bytes);
  }

  lemma PrefixBytes(q: seq<Bucket>, i: nat, j: nat)
    requires i <= j <= |q|
    ensures Bytes(q[..i]) <= Bytes(q[..j])
  {
    assert q[..j] == q[..i] + q[i..j];
    BytesConcat(q[..i], q[i..j]);
  }

  lemma WireGrows(c: Conn, net: Net, bytes: nat)
    requires Alarms(net.out.queue) == 0
    ensures net.out.wire <= WriteSome(c, net, bytes).0.net.out.wire
  {
    QuietIsSafe(net.out.queue, 0);
    SendPassDrains(net);
  }

  /** A brigade that gives no reason to write and, with what is buffered, is short, is kept
      without touching the socket. */
  lemma SmallOutputIsKept(c: Conn, bb: seq<Bucket>)
    requires !c.aborted
    requires var q := c.net.out.queue + bb; !MustFlush(q) && |Bytes(q)| < 4096
    ensures var (c', rv) := Filter(c, Some(bb));
            rv.Success? && !c'.aborted && c'.net.answers == c.net.answers
            && c'.net.out == Strip(Snapshot(c.net.out.wire, c.net.out.log, c.net.out.queue + bb))
  {
    QuietScan(c.net.out.queue + bb);
  }

  // ----- the vector that holds nothing

  /** A successful write removes the vectored buckets if and only if the vector holds a byte. */
  lemma HollowVectorStays(net: Net, vec: seq<seq<Byte>>)
    requires Pending(net.out.queue, vec) && vec != [] && WriteLoop(net, vec).1.Success?
    ensures DataContents(WriteLoop(net, vec).0.out.queue) == [] <==> !Hollow(vec)
  {
    WriteLoopDrains(net, vec);
  }
}
