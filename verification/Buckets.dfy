/** Buckets, brigades as bucket sequences, and the bookkeeping relation `Drains`
    between two states of an output queue and the wire it feeds.
 */
module Buckets {
  import opened Sequences

  newtype Byte = x: int | 0 <= x < 256

  /** What a read that delivers anything delivers: at least one byte. */
  type Chunk = s: seq<Byte> | 0 < |s| witness [0]

  /** What the reads of an unknown-length bucket will find, in turn. */
  datatype Future =
    | Ended
    | Broken
    | WouldBlock(next: Future)
    | Arrives(bytes: Chunk, next: Future)
  {
    function Content(): seq<Byte> {
      match this
      case Arrives(bytes, next) => bytes + next.Content()
      case WouldBlock(next) => next.Content()
      case _ => []
    }

    /** What is left once a blocking read has waited. */
    function Waited(): (f: Future)
      ensures !f.WouldBlock?
    {
      if WouldBlock? then next.Waited() else this
    }

    function Size(): nat {
      match this
      case Arrives(_, next) => 1 + next.Size()
      case WouldBlock(next) => 1 + next.Size()
      case _ => 0
    }
  }

  datatype Bucket =
    | Heap(bytes: seq<Byte>, fromFile: bool)   // in memory; `fromFile`: read out of a file bucket
    | File(bytes: seq<Byte>, sendfile: bool)   // `sendfile`: the descriptor has sendfile enabled
    | Stream(future: Future)                   // unknown length: pipe or socket
    | Flush
    | Eor(request: nat)
    | Marker                                   // EOS, EOC and other metadata
  {
    predicate IsMetadata() {
      Flush? || Eor? || Marker?
    }

    /** Of known length zero, as `bucket->length == 0` sees it (metadata has length zero). */
    predicate IsEmpty() {
      !Stream? && Content() == []
    }

    /** Every byte the bucket will ever deliver. */
    function Content(): seq<Byte> {
      match this
      case Heap(bytes, _) => bytes
      case File(bytes, _) => bytes
      case Stream(future) => future.Content()
      case _ => []
    }
  }

  function Bytes(q: seq<Bucket>): seq<Byte> {
    if q == [] then [] else q[0].Content() + Bytes(q[1..])
  }

  lemma BytesOne(b: Bucket)
    ensures Bytes([b]) == b.Content()
  {
    assert [b][1..] == [];
  }

  lemma {:induction false} BytesConcat(a: seq<Bucket>, b: seq<Bucket>)
    ensures Bytes(a + b) == Bytes(a) + Bytes(b)
  {
    if a == [] {
      assert a + b == b;
    } else {
      HeadTail(a, b);
      assert Bytes(a + b) == a[0].Content() + Bytes(a[1..] + b);
      BytesConcat(a[1..], b);
      Assoc(a[0].Content(), Bytes(a[1..]), Bytes(b));
    }
  }

  /** The contents of the data buckets, one entry each: what an iovec holds for them. */
  function DataContents(q: seq<Bucket>): seq<seq<Byte>> {
    if q == [] then []
    else (if q[0].IsMetadata() then [] else [q[0].Content()]) + DataContents(q[1..])
  }

  lemma {:induction false} DataContentsConcat(a: seq<Bucket>, b: seq<Bucket>)
    ensures DataContents(a + b) == DataContents(a) + DataContents(b)
  {
    if a == [] {
      assert a + b == b;
    } else {
      DataContentsConcat(a[1..], b);
      HeadTail(a, b);
      Assoc(if a[0].IsMetadata() then [] else [a[0].Content()], DataContents(a[1..]), DataContents(b));
    }
  }

  function Flat(vec: seq<seq<Byte>>): seq<Byte> {
    if vec == [] then [] else vec[0] + Flat(vec[1..])
  }

  lemma {:induction false} FlatConcat(a: seq<seq<Byte>>, b: seq<seq<Byte>>)
    ensures Flat(a + b) == Flat(a) + Flat(b)
  {
    if a == [] {
      assert a + b == b;
    } else {
      FlatConcat(a[1..], b);
      HeadTail(a, b);
      Assoc(a[0], Flat(a[1..]), Flat(b));
    }
  }

  lemma {:induction false} FlatOfDataContents(q: seq<Bucket>)
    ensures Flat(DataContents(q)) == Bytes(q)
  {
    if q != [] {
      FlatOfDataContents(q[1..]);
      var first := if q[0].IsMetadata() then [] else [q[0].Content()];
      FlatConcat(first, DataContents(q[1..]));
      assert first != [] ==> first[1..] == [] && Flat(first) == q[0].Content() + [];
    }
  }

  /** A request's end, and a position in the byte stream: where its EOR bucket is queued,
      or how long the wire was when it was destroyed. */
  datatype Mark = Mark(request: nat, at: nat)

  /** The EOR buckets of `q`, each with the stream position it is queued at, when the
      first byte of `q` has position `pos`. */
  function EorMarks(q: seq<Bucket>, pos: nat): seq<Mark> {
    if q == [] then []
    else Destroyed(q[0], pos) + EorMarks(q[1..], pos + |q[0].Content()|)
  }

  /** What destroying `b` adds to the log of ended requests. */
  function Destroyed(b: Bucket, at: nat): seq<Mark> {
    if b.Eor? then [Mark(b.request, at)] else []
  }

  lemma {:induction false} EorMarksConcat(a: seq<Bucket>, b: seq<Bucket>, pos: nat)
    ensures EorMarks(a + b, pos) == EorMarks(a, pos) + EorMarks(b, pos + |Bytes(a)|)
  {
    if a == [] {
      assert a + b == b;
    } else {
      var next := pos + |a[0].Content()|;
      assert EorMarks(a + b, pos) == Destroyed(a[0], pos) + EorMarks(a[1..] + b, next) by {
        HeadTail(a, b);
      }
      EorMarksConcat(a[1..], b, next);
      assert next + |Bytes(a[1..])| == pos + |Bytes(a)|;
      Assoc(Destroyed(a[0], pos), EorMarks(a[1..], next), EorMarks(b, pos + |Bytes(a)|));
    }
  }

  /** The same requests in the same order, none of them earlier. */
  ghost predicate Later(ms': seq<Mark>, ms: seq<Mark>) {
    && |ms'| == |ms|
    && forall i :: 0 <= i < |ms| ==> ms'[i].request == ms[i].request && ms'[i].at >= ms[i].at
  }

  lemma LaterConcat(c': seq<Mark>, c: seq<Mark>, a': seq<Mark>, a: seq<Mark>, b': seq<Mark>, b: seq<Mark>)
    requires c' == a' + b' && c == a + b && Later(a', a) && Later(b', b)
    ensures Later(c', c)
  {
  }

  lemma LaterCancel(log: seq<Mark>, ms': seq<Mark>, ms: seq<Mark>)
    requires Later(log + ms', log + ms)
    ensures Later(ms', ms)
  {
    assert forall i :: 0 <= i < |ms| ==> (log + ms')[|log| + i] == ms'[i] && (log + ms)[|log| + i] == ms[i];
  }

  lemma {:induction false} LaterWhenShifted(q: seq<Bucket>, pos': nat, pos: nat)
    requires pos' >= pos
    ensures Later(EorMarks(q, pos'), EorMarks(q, pos))
  {
    if q != [] {
      var n := |q[0].Content()|;
      LaterWhenShifted(q[1..], pos' + n, pos + n);
      LaterConcat(EorMarks(q, pos'), EorMarks(q, pos), Destroyed(q[0], pos'), Destroyed(q[0], pos),
                  EorMarks(q[1..], pos' + n), EorMarks(q[1..], pos + n));
    }
  }

  predicate Urgent(b: Bucket) {
    b.Stream? || b.Flush?
  }

  /** How many buckets of `q` ask to be written at once. */
  function Alarms(q: seq<Bucket>): nat {
    if q == [] then 0 else (if Urgent(q[0]) then 1 else 0) + Alarms(q[1..])
  }

  lemma {:induction false} AlarmsConcat(a: seq<Bucket>, b: seq<Bucket>)
    ensures Alarms(a + b) == Alarms(a) + Alarms(b)
  {
    if a == [] {
      assert a + b == b;
    } else {
      AlarmsConcat(a[1..], b);
      HeadTail(a, b);
    }
  }

  lemma {:induction false} NoAlarms(q: seq<Bucket>)
    requires Alarms(q) == 0
    ensures forall i :: 0 <= i < |q| ==> !Urgent(q[i])
  {
    if q != [] {
      NoAlarms(q[1..]);
      assert forall i :: 1 <= i < |q| ==> q[i] == q[1..][i - 1];
    }
  }

  /** Bytes held in memory by buckets that did not arrive as files. */
  function MemoryBytes(q: seq<Bucket>): nat {
    if q == [] then 0
    else (if q[0].Heap? && !q[0].fromFile then |q[0].bytes| else 0) + MemoryBytes(q[1..])
  }

  lemma {:induction false} MemoryBytesConcat(a: seq<Bucket>, b: seq<Bucket>)
    ensures MemoryBytes(a + b) == MemoryBytes(a) + MemoryBytes(b)
  {
    if a == [] {
      assert a + b == b;
    } else {
      MemoryBytesConcat(a[1..], b);
      HeadTail(a, b);
    }
  }

  /** No new reason to write, and no more memory in use unless a stream was read. */
  ghost predicate Eases(q: seq<Bucket>, q': seq<Bucket>) {
    Alarms(q') <= Alarms(q) && (Alarms(q) == 0 ==> MemoryBytes(q') <= MemoryBytes(q))
  }

  lemma EasesFrame(a: seq<Bucket>, q: seq<Bucket>, q': seq<Bucket>, b: seq<Bucket>)
    requires Eases(q, q')
    ensures Eases(a + q + b, a + q' + b)
  {
    MemoryBytesConcat(a, q);
    MemoryBytesConcat(a + q, b);
    MemoryBytesConcat(a, q');
    MemoryBytesConcat(a + q', b);
    AlarmsConcat(a, q);
    AlarmsConcat(a + q, b);
    AlarmsConcat(a, q');
    AlarmsConcat(a + q', b);
  }

  lemma EasesAppend(q: seq<Bucket>, q': seq<Bucket>, b: seq<Bucket>)
    requires Eases(q, q')
    ensures Eases(q + b, q' + b)
  {
    MemoryBytesConcat(q, b);
    MemoryBytesConcat(q', b);
    AlarmsConcat(q, b);
    AlarmsConcat(q', b);
  }

  /** An output queue, the wire it drains to, and the requests whose EOR bucket is gone. */
  datatype Snapshot = Snapshot(wire: seq<Byte>, log: seq<Mark>, queue: seq<Bucket>) {
    /** Every request end, past ones with the wire length at their end, queued ones with
        the position they wait for. */
    function Account(): seq<Mark> {
      log + EorMarks(queue, |wire|)
    }

    /** Everything the peer has seen or will see. */
    function Total(): seq<Byte> {
      wire + Bytes(queue)
    }

    function Append(tail: seq<Bucket>): Snapshot {
      this.(queue := queue + tail)
    }
  }

  /** What was ended from the `n`th on was ended at a length the wire has reached. */
  ghost predicate Past(t: Snapshot, n: nat) {
    forall i :: n <= i < |t.log| ==> t.log[i].at <= |t.wire|
  }

  /** `t` comes from `s` by moving bytes from the queue to the wire and destroying
      buckets: no byte lost, repeated or reordered, no request ended before its time. */
  ghost predicate Drains(s: Snapshot, t: Snapshot) {
    && s.wire <= t.wire
    && s.log <= t.log && Past(t, |s.log|)
    && t.Total() == s.Total()
    && Later(t.Account(), s.Account())
    && Eases(s.queue, t.queue)
  }

  lemma DrainsTrans(s: Snapshot, t: Snapshot, u: Snapshot)
    requires Drains(s, t) && Drains(t, u)
    ensures Drains(s, u)
  {
  }

  /** Buckets queued behind do not disturb what drains in front of them. */
  lemma DrainsFrame(s: Snapshot, t: Snapshot, tail: seq<Bucket>)
    requires Drains(s, t)
    ensures Drains(s.Append(tail), t.Append(tail))
  {
    var s', t' := s.Append(tail), t.Append(tail);
    var pos := |s.Total()|;
    assert t'.Total() == s'.Total() && Later(t'.Account(), s'.Account()) by {
      TotalOfAppend(s, tail);
      TotalOfAppend(t, tail);
      assert pos == |s.wire| + |Bytes(s.queue)| == |t.wire| + |Bytes(t.queue)|;
      LaterConcat(t'.Account(), s'.Account(), t.Account(), s.Account(), EorMarks(tail, pos), EorMarks(tail, pos));
    }
    EasesAppend(s.queue, t.queue, tail);
  }

  /** Empty buckets in front only see their requests end later. */
  lemma DrainsBehind(pre: seq<Bucket>, s: Snapshot, t: Snapshot)
    requires Drains(s, t) && Bytes(pre) == [] && s.log == t.log
    ensures Drains(s.(queue := pre + s.queue), t.(queue := pre + t.queue))
  {
    BytesConcat(pre, s.queue);
    BytesConcat(pre, t.queue);
    assert Bytes(pre + s.queue) == Bytes(s.queue) && Bytes(pre + t.queue) == Bytes(t.queue);
    LaterBehind(pre, s, t);
    EasesBehind(pre, s.queue, t.queue);
  }

  lemma LaterBehind(pre: seq<Bucket>, s: Snapshot, t: Snapshot)
    requires Later(t.Account(), s.Account()) && |s.wire| <= |t.wire| && Bytes(pre) == [] && s.log == t.log
    ensures Later(t.(queue := pre + t.queue).Account(), s.(queue := pre + s.queue).Account())
  {
    var s', t' := s.(queue := pre + s.queue), t.(queue := pre + t.queue);
    var ms, mt := EorMarks(s.queue, |s.wire|), EorMarks(t.queue, |t.wire|);
    LaterCancel(s.log, mt, ms);
    MarksBehind(pre, s.queue, t.queue, |s.wire|, |t.wire|);
    LaterConcat(t'.Account(), s'.Account(), s.log, s.log, EorMarks(t'.queue, |t.wire|), EorMarks(s'.queue, |s.wire|));
  }

  lemma {:induction false} MarksBehind(pre: seq<Bucket>, q: seq<Bucket>, q': seq<Bucket>, pos: nat, pos': nat)
    requires Bytes(pre) == [] && pos <= pos' && Later(EorMarks(q', pos'), EorMarks(q, pos))
    ensures Later(EorMarks(pre + q', pos'), EorMarks(pre + q, pos))
  {
    EorMarksConcat(pre, q, pos);
    EorMarksConcat(pre, q', pos');
    LaterWhenShifted(pre, pos', pos);
    LaterConcat(EorMarks(pre + q', pos'), EorMarks(pre + q, pos),
                EorMarks(pre, pos'), EorMarks(pre, pos), EorMarks(q', pos'), EorMarks(q, pos));
  }

  lemma EasesBehind(a: seq<Bucket>, q: seq<Bucket>, q': seq<Bucket>)
    requires Eases(q, q')
    ensures Eases(a + q, a + q')
  {
    MemoryBytesConcat(a, q);
    MemoryBytesConcat(a, q');
    AlarmsConcat(a, q);
    AlarmsConcat(a, q');
  }

  lemma TotalOfAppend(s: Snapshot, tail: seq<Bucket>)
    ensures s.Append(tail).Total() == s.Total() + Bytes(tail)
    ensures s.Append(tail).Account() == s.Account() + EorMarks(tail, |s.wire| + |Bytes(s.queue)|)
  {
    var t := s.Append(tail);
    assert t.Total() == s.Total() + Bytes(tail) by {
      BytesConcat(s.queue, tail);
      Assoc(s.wire, Bytes(s.queue), Bytes(tail));
    }
    var ours, theirs := EorMarks(s.queue, |s.wire|), EorMarks(tail, |s.wire| + |Bytes(s.queue)|);
    assert t.Account() == s.Account() + theirs by {
      EorMarksConcat(s.queue, tail, |s.wire|);
      Assoc(s.log, ours, theirs);
    }
  }

  /** Deleting an empty first bucket. */
  lemma DrainsDelete(s: Snapshot)
    requires s.queue != [] && s.queue[0].Content() == []
    ensures Drains(s, Snapshot(s.wire, s.log + Destroyed(s.queue[0], |s.wire|), s.queue[1..]))
  {
    var t := Snapshot(s.wire, s.log + Destroyed(s.queue[0], |s.wire|), s.queue[1..]);
    assert t.Account() == s.Account();
  }

  /** Replacing a data bucket by data buckets of the same content. */
  lemma DrainsMorph(s: Snapshot, a: seq<Bucket>, b: Bucket, bs: seq<Bucket>, c: seq<Bucket>)
    requires s.queue == a + [b] + c
    requires !b.IsMetadata() && (forall x :: x in bs ==> !x.IsMetadata())
    requires Bytes(bs) == b.Content() && Eases([b], bs)
    ensures Drains(s, s.(queue := a + bs + c))
  {
    var t := s.(queue := a + bs + c);
    EasesFrame(a, [b], bs, c);
    BytesOne(b);
    SameInTheMiddle(a, [b], bs, c, |s.wire|);
    assert t.Account() == s.Account();
  }

  lemma {:induction false} SameInTheMiddle(a: seq<Bucket>, q: seq<Bucket>, q': seq<Bucket>, c: seq<Bucket>, pos: nat)
    requires (forall x :: x in q ==> !x.IsMetadata()) && (forall x :: x in q' ==> !x.IsMetadata())
    requires Bytes(q) == Bytes(q')
    ensures Bytes(a + q + c) == Bytes(a + q' + c)
    ensures EorMarks(a + q + c, pos) == EorMarks(a + q' + c, pos)
  {
    DataInTheMiddle(a, q, c, pos);
    DataInTheMiddle(a, q', c, pos);
  }

  lemma {:induction false} DataInTheMiddle(a: seq<Bucket>, q: seq<Bucket>, c: seq<Bucket>, pos: nat)
    requires forall x :: x in q ==> !x.IsMetadata()
    ensures Bytes(a + q + c) == Bytes(a) + Bytes(q) + Bytes(c)
    ensures EorMarks(a + q + c, pos) == EorMarks(a, pos) + EorMarks(c, pos + |Bytes(a)| + |Bytes(q)|)
  {
    BytesConcat(a, q);
    BytesConcat(a + q, c);
    MarksOfData(a, q, pos);
    EorMarksConcat(a + q, c, pos);
  }

  lemma {:induction false} MarksOfData(a: seq<Bucket>, q: seq<Bucket>, pos: nat)
    requires forall x :: x in q ==> !x.IsMetadata()
    ensures EorMarks(a + q, pos) == EorMarks(a, pos)
  {
    NoMarks(q, pos + |Bytes(a)|);
    EorMarksConcat(a, q, pos);
  }

  lemma {:induction false} NoMarks(q: seq<Bucket>, pos: nat)
    requires forall x :: x in q ==> !x.IsMetadata()
    ensures EorMarks(q, pos) == []
  {
    if q != [] {
      assert !q[0].IsMetadata();
      NoMarks(q[1..], pos + |q[0].Content()|);
      assert Destroyed(q[0], pos) == [];
    }
  }
}
