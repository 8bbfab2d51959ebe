/** The core output filter as it is written: brigades changed in place, a vector and an
    offset kept in step with them, state kept across calls. Each method does what its
    function in `OutputModel` says.
 */
module OutputFilter {
  import opened Wrappers
  import opened Sequences
  import opened Buckets
  import opened OutputModel
  import opened OutputProofs
  import opened OutputOrder
  import opened OutputRuns

  class Brigade {
    var buckets: seq<Bucket>

    constructor (buckets: seq<Bucket>)
      ensures this.buckets == buckets
    {
      this.buckets := buckets;
    }
  }

  // ----- what lies behind the vectored buckets is not touched

  lemma {:induction false} RetireFrame(v: Vectored, n: nat, at: nat, t: seq<Bucket>)
    requires n <= |Flat(v.vec)| && Backed(v.queue, v.vec)
    ensures var r := Retire(v, n, at);
            Retire(v.(queue := v.queue + t), n, at) == r.(queue := r.queue + t)
    decreases |v.vec| + |v.queue|
  {
    if v.vec != [] {
      BackedHead(v.queue, v.vec);
      var b := v.queue[0];
      HeadTail(v.queue, t);
      if b.IsMetadata() {
        RetireFrame(Vectored(v.log + Destroyed(b, at), v.queue[1..], v.vec), n, at, t);
      } else if n >= |v.vec[0]| {
        RetireFrame(Vectored(v.log, v.queue[1..], v.vec[1..]), n - |v.vec[0]|, at, t);
      } else {
        Assoc(Cut(b, n), v.queue[1..], t);
      }
    }
  }

  lemma SendOnceFrame(net: Net, vec: seq<seq<Byte>>, t: seq<Bucket>)
    requires Backed(net.out.queue, vec)
    ensures var (net', vec', rv) := SendOnce(net, vec);
            SendOnce(net.Append(t), vec) == (net'.Append(t), vec', rv)
  {
    var n := Taken(net.Peek(), |Flat(vec)|);
    var sent := net.Next().Put(Flat(vec)[..n]);
    RetireFrame(Vectored(sent.out.log, sent.out.queue, vec), n, |sent.out.wire|, t);
  }

  lemma {:induction false} WriteLoopFrame(net: Net, vec: seq<seq<Byte>>, t: seq<Bucket>)
    requires Backed(net.out.queue, vec)
    ensures var (net', rv) := WriteLoop(net, vec);
            WriteLoop(net.Append(t), vec) == (net'.Append(t), rv)
    decreases |Flat(vec)|
  {
    if Flat(vec) != [] {
      var (net', vec', rv) := SendOnce(net, vec);
      SendOnceFrame(net, vec, t);
      SendOnceBacked(net, vec);
      if rv.Success? {
        WriteLoopFrame(net', vec', t);
      }
    }
  }

  lemma WritevFrame(net: Net, vec: seq<seq<Byte>>, t: seq<Bucket>)
    requires Backed(net.out.queue, vec)
    ensures var (net', rv) := Writev(net, vec);
            Writev(net.Append(t), vec) == (net'.Append(t), rv)
  {
    WriteLoopFrame(net.Next().Next(), vec, t);
  }

  /** Where a pass over a brigade stands: `ahead` visited, `vec` gathered from it. */
  ghost predicate AtCursor(ahead: seq<Bucket>, vec: seq<seq<Byte>>) {
    && |vec| < MAX_IOVEC_TO_WRITE
    && Backed(ahead, vec)
  }

  /** How a pass ends that sends no file: write what is waiting and drop the empty buckets. */
  ghost function Finished(net: Net, vec: seq<seq<Byte>>, todo: seq<Bucket>): (Net, Status) {
    var (done, rv) := WritevIfAny(net, vec);
    var full := done.Append(todo);
    if !rv.Success? then (full, rv) else (full.(out := Strip(full.out)), Success)
  }

  lemma FinishedAtEnd(net: Net, vec: seq<seq<Byte>>)
    requires |vec| < MAX_IOVEC_TO_WRITE
    ensures Gather(net, vec, []) == Finished(net, vec, [])
  {
    var (done, rv) := WritevIfAny(net, vec);
    assert done.Append([]) == done;
  }

  lemma FinishedWhenFull(net: Net, vec: seq<seq<Byte>>, todo: seq<Bucket>)
    requires |vec| == MAX_IOVEC_TO_WRITE
    ensures Push(net, vec, todo) == Finished(net, vec, todo)
  {
  }

  /** A bucket read at the cursor: `m` takes its place. */
  ghost predicate HasRead(ahead: seq<Bucket>, vec: seq<seq<Byte>>, m: Bucket) {
    && |vec| < MAX_IOVEC_TO_WRITE && m.Heap?
    && Backed(ahead, vec)
  }

  /** The first, non-blocking read. */
  lemma FirstRead(net: Net, vec: seq<seq<Byte>>, todo: seq<Bucket>)
    requires AtCursor(net.out.queue, vec) && todo != [] && !BySendfile(todo[0]) && !todo[0].IsMetadata()
    ensures var b, t := todo[0], todo[1..];
            var r := ReadBucket(b, net.Peek(), false);
            if r.status.Success? then
              && HasRead(net.out.queue, vec, Morphed(b, r.data)) && Work(r.rest + t) < Work(todo)
              && Gather(net, vec, todo) == Push(AfterRead(net, b).Append([Morphed(b, r.data)]), vec + [r.data], r.rest + t)
            else if r.status.Again? then b.Stream? && r.rest == [Stream(b.future.next)]
            else Gather(net, vec, todo) == (AfterRead(net, b).Append(r.rest + t), r.status)
  {
    var b, t := todo[0], todo[1..];
    assert [b] + t == todo;
    var r := ReadBucket(b, net.Peek(), false);
    ReadIsProgress(b, net.Peek(), false);
    assert if r.rest == [] then r.rest + t == t else (r.rest + t)[1..] == t;
  }

  /** It would block: the waiting data is written, and a blocking read follows. */
  lemma BlockedGather(net: Net, vec: seq<seq<Byte>>, todo: seq<Bucket>)
    requires |vec| < MAX_IOVEC_TO_WRITE && todo != [] && todo[0].Stream? && todo[0].future.WouldBlock?
    ensures var b', t := Stream(todo[0].future.next), todo[1..];
            var (net', rv) := WritevIfAny(net, vec);
            var r := ReadBucket(b', net'.Peek(), true);
            if !rv.Success? then Gather(net, vec, todo) == (net'.Append([b'] + t), rv)
            else if r.status.Success? then
              Gather(net, vec, todo) == Push(net'.Append([Morphed(b', r.data)]), [r.data], r.rest + t)
            else Gather(net, vec, todo) == (net'.Append(r.rest + t), r.status)
  {
    var b', t := Stream(todo[0].future.next), todo[1..];
    var (net', rv) := WritevIfAny(net, vec);
    var r := ReadBucket(b', net'.Peek(), true);
    ReadIsProgress(b', net'.Peek(), true);
    assert ReadBucket(todo[0], net.Peek(), false) == ReadResult(Again, [], [b']);
    if rv.Success? {
      assert Gather(net, vec, todo) == Proceed(net', [], todo, b', r);
      assert [] + [r.data] == [r.data];
    }
  }

  lemma BlockedRead(net: Net, vec: seq<seq<Byte>>, todo: seq<Bucket>)
    requires AtCursor(net.out.queue, vec) && todo != [] && todo[0].Stream? && todo[0].future.WouldBlock?
    ensures var b', t := Stream(todo[0].future.next), todo[1..];
            var (net', rv) := WritevIfAny(net, vec);
            var r := ReadBucket(b', net'.Peek(), true);
            rv.Success? && r.status.Success? ==>
              HasRead(net'.out.queue, [], Morphed(b', r.data)) && Work(r.rest + t) < Work(todo)
  {
    var b', t := Stream(todo[0].future.next), todo[1..];
    var (net', rv) := WritevIfAny(net, vec);
    var r := ReadBucket(b', net'.Peek(), true);
    ReadIsProgress(b', net'.Peek(), true);
    assert ([b'] + t)[1..] == t;
    WriteBacked(net, vec);
    assert if r.rest == [] then r.rest + t == t else (r.rest + t)[1..] == t;
  }

  lemma MetadataStep(net: Net, vec: seq<seq<Byte>>, todo: seq<Bucket>)
    requires AtCursor(net.out.queue, vec) && todo != [] && todo[0].IsMetadata()
    ensures AtCursor(net.out.queue + [todo[0]], vec) && Work(todo[1..]) < Work(todo)
    ensures Gather(net, vec, todo) == Gather(net.Append([todo[0]]), vec, todo[1..])
  {
    BackedAppend(net.out.queue, vec, todo[0]);
  }

  /** A bucket goes into a vector that does not get full. */
  lemma PushStep(net: Net, vec: seq<seq<Byte>>, m: Bucket, todo: seq<Bucket>)
    requires HasRead(net.out.queue, vec, m)
    ensures Backed(net.out.queue + [m], vec + [m.bytes])
    ensures |vec| + 1 < MAX_IOVEC_TO_WRITE ==>
              && AtCursor(net.out.queue + [m], vec + [m.bytes])
              && Push(net.Append([m]), vec + [m.bytes], todo) == Gather(net.Append([m]), vec + [m.bytes], todo)
  {
    BackedAppend(net.out.queue, vec, m);
  }

  /** A connection: what its socket has accepted and will reply, the ended requests, the filter's
      context and the two flags of `conn_rec` it uses. */
  class Connection {
    var wire: seq<Byte>
    var answers: seq<Answer>
    var log: seq<Mark>
    var bytesWritten: nat
    var buffered: Brigade
    var tmpFlush: Brigade
    var aborted: bool
    var dataInOutputFilters: bool
    ghost var history: seq<Bucket>   // everything passed to the filter so far

    constructor (answers: seq<Answer>)
      ensures State() == Start(answers) && Valid() && history == []
      ensures fresh(buffered) && fresh(tmpFlush)
    {
      history := [];
      wire, log, bytesWritten, aborted, dataInOutputFilters := [], [], 0, false, false;
      this.answers := answers;
      buffered := new Brigade([]);
      tmpFlush := new Brigade([]);
    }

    ghost function Net(queue: seq<Bucket>): Net
      reads this
    {
      OutputModel.Net(Snapshot(wire, log, queue), answers)
    }

    ghost function State(): Conn
      reads this, buffered, tmpFlush
    {
      Conn(Net(buffered.buckets), tmpFlush.buckets, aborted, dataInOutputFilters)
    }

    /** A system call that takes no bytes: `apr_socket_timeout_get`, `apr_socket_timeout_set`,
        `apr_poll`, and the reply of the others. */
    method Call() returns (a: Answer)
      modifies this`answers
      ensures forall q :: old(Net(q)).Peek() == a && Net(q) == old(Net(q)).Next()
      ensures |answers| < |old(answers)| || (answers == old(answers) && a.status.Failed?)
    {
      if answers == [] {
        a := Answer(0, Failed);
      } else {
        a, answers := answers[0], answers[1..];
      }
    }

    method DeleteFirst(bb: Brigade)
      requires bb.buckets != []
      modifies this`log, bb
      ensures bb.buckets == old(bb.buckets)[1..]
      ensures log == old(log) + Destroyed(old(bb.buckets)[0], |wire|)
    {
      log := log + Destroyed(bb.buckets[0], |wire|);
      bb.buckets := bb.buckets[1..];
    }

    method RemoveEmptyBuckets(bb: Brigade)
      modifies this`log, bb
      ensures Snapshot(wire, log, bb.buckets) == Strip(old(Snapshot(wire, log, bb.buckets)))
    {
      while bb.buckets != [] && (bb.buckets[0].IsMetadata() || bb.buckets[0].IsEmpty())
        invariant Strip(Snapshot(wire, log, bb.buckets)) == Strip(old(Snapshot(wire, log, bb.buckets)))
        decreases |bb.buckets|
      {
        DeleteFirst(bb);
      }
    }

    /** The inner loop of `writev_nonblocking`. The brigade's first bucket is there whenever
        it is touched. */
    method RetireSent(vec: array<seq<Byte>>, first: nat, nvec: nat, bb: Brigade, sent: nat,
                      ghost front: seq<Bucket>, ghost rest: seq<Bucket>)
      returns (offset: nat)
      requires first <= nvec <= vec.Length && sent <= |Flat(vec[first..nvec])|
      requires bb.buckets == front + rest && Backed(front, vec[first..nvec])
      modifies this`log, vec, bb
      ensures first <= offset <= nvec
      ensures Vectored(log, bb.buckets, vec[offset..nvec])
           == Retire(old(Vectored(log, bb.buckets, vec[first..nvec])), sent, |wire|)
    {
      ghost var goal := Retire(Vectored(log, bb.buckets, vec[first..nvec]), sent, |wire|);
      ghost var q := front;
      var n: nat, split := sent, false;
      offset := first;
      while offset < nvec && !split
        invariant first <= offset <= nvec && n <= |Flat(vec[offset..nvec])|
        invariant !split ==> bb.buckets == q + rest && Backed(q, vec[offset..nvec])
        invariant if split then Vectored(log, bb.buckets, vec[offset..nvec]) == goal
                  else Retire(Vectored(log, bb.buckets, vec[offset..nvec]), n, |wire|) == goal
        decreases !split, nvec - offset, |q|
      {
        offset, n, split, q := RetireOne(vec, offset, nvec, bb, n, q, rest);
      }
    }

    /** One round of it, at the first bucket of the brigade; `split` if that was cut in two. */
    method RetireOne(vec: array<seq<Byte>>, i: nat, nvec: nat, bb: Brigade, n: nat,
                     ghost q: seq<Bucket>, ghost rest: seq<Bucket>)
      returns (i': nat, n': nat, split: bool, ghost q': seq<Bucket>)
      requires i < nvec <= vec.Length && n <= |Flat(vec[i..nvec])|
      requires bb.buckets == q + rest && Backed(q, vec[i..nvec])
      modifies this`log, vec, bb
      ensures i <= i' <= nvec && n' <= |Flat(vec[i'..nvec])|
      ensures !split ==> bb.buckets == q' + rest && Backed(q', vec[i'..nvec]) && |q'| < |q|
      ensures var before := old(Retire(Vectored(log, bb.buckets, vec[i..nvec]), n, |wire|));
              if split then Vectored(log, bb.buckets, vec[i'..nvec]) == before
              else Retire(Vectored(log, bb.buckets, vec[i'..nvec]), n', |wire|) == before
    {
      BackedHead(q, vec[i..nvec]);
      HeadTail(q, rest);
      assert vec[i..nvec][1..] == vec[i + 1..nvec];
      i', n', split, q' := i, n, false, q[1..];
      if bb.buckets[0].IsMetadata() {
        DeleteFirst(bb);
      } else if n >= |vec[i]| {
        DeleteFirst(bb);
        assert log == old(log);
        n' := n - |vec[i]|;
        i' := i + 1;
      } else {
        bb.buckets := Cut(bb.buckets[0], n) + bb.buckets[1..];
        ghost var tail := vec[i + 1..nvec];
        vec[i] := vec[i][n..];
        assert vec[i..nvec] == [vec[i]] + tail;
        n', split := 0, true;
      }
    }

    /** `apr_socket_sendv`. */
    method Sendv(data: seq<Byte>) returns (rv: Status, n: nat)
      modifies this`wire, this`answers
      ensures forall q :: n == Taken(old(Net(q)).Peek(), |data|) && rv == old(Net(q)).Peek().status
                       && Net(q) == old(Net(q)).Next().Put(data[..n])
    {
      var a := Call();
      rv, n := a.status, Taken(a, |data|);
      wire := wire + data[..n];
    }

    method WritevNonblocking(vec: array<seq<Byte>>, nvec: nat, bb: Brigade,
                             ghost front: seq<Bucket>, ghost rest: seq<Bucket>)
      returns (rv: Status)
      requires nvec <= vec.Length && bb.buckets == front + rest && Backed(front, vec[..nvec])
      modifies this`wire, this`answers, this`log, this`bytesWritten, vec, bb
      ensures (Net(bb.buckets), rv) == Writev(old(Net(bb.buckets)), old(vec[..nvec]))
      ensures bytesWritten + |old(wire)| == old(bytesWritten) + |wire|
    {
      var a := Call();
      if !a.status.Success? {
        return a.status;
      }
      a := Call();
      if !a.status.Success? {
        return a.status;
      }
      rv := WriteVector(vec, nvec, bb, front, rest);
      a := Call();
      if rv.Success? {
        rv := a.status;
      }
    }

    /** `writev_nonblocking` between its calls for the timeout. */
    method WriteVector(vec: array<seq<Byte>>, nvec: nat, bb: Brigade,
                       ghost front: seq<Bucket>, ghost rest: seq<Bucket>)
      returns (rv: Status)
      requires nvec <= vec.Length && bb.buckets == front + rest && Backed(front, vec[..nvec])
      modifies this`wire, this`answers, this`log, this`bytesWritten, vec, bb
      ensures (Net(bb.buckets), rv) == WriteLoop(old(Net(bb.buckets)), old(vec[..nvec]))
      ensures bytesWritten + |old(wire)| == old(bytesWritten) + |wire|
    {
      var toWrite := TotalLength(vec, nvec);
      ghost var goal := WriteLoop(Net(bb.buckets), vec[..nvec]);
      ghost var q := front;
      var written: nat, offset: nat := 0, 0;
      rv := Success;
      while written < toWrite
        invariant offset <= nvec && rv.Success?
        invariant |Flat(vec[offset..nvec])| == toWrite - written
        invariant bb.buckets == q + rest && Backed(q, vec[offset..nvec])
        invariant WriteLoop(Net(bb.buckets), vec[offset..nvec]) == goal
        invariant |wire| == |old(wire)| + written && bytesWritten == old(bytesWritten)
      {
        var n;
        rv, offset, n, q := SendAndRetire(vec, offset, nvec, bb, q, rest);
        written := written + n;
        if !rv.Success? {
          break;
        }
      }
      bytesWritten := bytesWritten + written;
    }

    method TotalLength(vec: array<seq<Byte>>, nvec: nat) returns (total: nat)
      requires nvec <= vec.Length
      ensures total == |Flat(vec[..nvec])|
    {
      total := 0;
      for i := 0 to nvec
        invariant total == |Flat(vec[..i])|
      {
        assert vec[..i + 1] == vec[..i] + [vec[i]];
        FlatConcat(vec[..i], [vec[i]]);
        assert [vec[i]][1..] == [];
        total := total + |vec[i]|;
      }
    }

    /** One round of the outer loop. */
    method SendAndRetire(vec: array<seq<Byte>>, first: nat, nvec: nat, bb: Brigade,
                         ghost front: seq<Bucket>, ghost rest: seq<Bucket>)
      returns (rv: Status, offset: nat, n: nat, ghost q: seq<Bucket>)
      requires first <= nvec <= vec.Length
      requires bb.buckets == front + rest && Backed(front, vec[first..nvec])
      modifies this`wire, this`answers, this`log, vec, bb
      ensures offset <= nvec
      ensures (Net(bb.buckets), vec[offset..nvec], rv) == SendOnce(old(Net(bb.buckets)), old(vec[first..nvec]))
      ensures bb.buckets == q + rest && Backed(q, vec[offset..nvec])
      ensures n <= |Flat(old(vec[first..nvec]))| && |wire| == |old(wire)| + n
      ensures |Flat(vec[offset..nvec])| == |Flat(old(vec[first..nvec]))| - n
    {
      ghost var net, v := Net(front), vec[first..nvec];
      assert Net(bb.buckets) == net.Append(rest);
      SendOnceFrame(net, v, rest);
      SendOnceBacked(net, v);
      q := SendOnce(net, v).0.out.queue;
      rv, n := Sendv(Flattened(vec, first, nvec));
      offset := first;
      if n > 0 {
        offset := RetireSent(vec, first, nvec, bb, n, front, rest);
      }
    }

    function Flattened(vec: array<seq<Byte>>, first: nat, nvec: nat): (r: seq<Byte>)
      requires first <= nvec <= vec.Length
      reads vec
    {
      Flat(vec[first..nvec])
    }

    /** `sendfile_nonblocking` on the file bucket at index `k`. */
    method SendfileNonblocking(bb: Brigade, k: nat) returns (rv: Status)
      requires k < |bb.buckets| && BySendfile(bb.buckets[k])
      modifies this`wire, this`answers, this`bytesWritten, bb
      ensures var (net, rv', left) := SendFile(old(Net(bb.buckets[..k])), old(bb.buckets[k]));
              rv == rv' && Net(bb.buckets) == net.Append(left + old(bb.buckets)[k + 1..])
      ensures bytesWritten + |old(wire)| == old(bytesWritten) + |wire|
    {
      var file, n: nat := bb.buckets[k], 0;
      var a := Call();
      if !a.status.Success? {
        assert bb.buckets == bb.buckets[..k] + ([file] + bb.buckets[k + 1..]);
        return a.status;
      }
      a := Call();
      if !a.status.Success? {
        assert bb.buckets == bb.buckets[..k] + ([file] + bb.buckets[k + 1..]);
        return a.status;
      }
      a := Call();
      rv := a.status;
      n := TakenFromFile(a, |file.bytes|);
      wire := wire + file.bytes[..n];
      a := Call();
      if rv.Success? {
        rv := a.status;
      }
      bytesWritten := bytesWritten + n;
      if 0 < n < |file.bytes| {
        bb.buckets := bb.buckets[..k] + ([File(file.bytes[n..], file.sendfile)] + bb.buckets[k + 1..]);
      } else if n == |file.bytes| {
        bb.buckets := bb.buckets[..k] + ([] + bb.buckets[k + 1..]);
      } else {
        assert file.bytes[0..] == file.bytes && bb.buckets == bb.buckets[..k] + ([file] + bb.buckets[k + 1..]);
      }
    }

    /** Write what is waiting, if anything is; `ahead` is the brigade before the cursor. */
    method WriteWaiting(vec: array<seq<Byte>>, nvec: nat, bb: Brigade, ghost ahead: seq<Bucket>, ghost todo: seq<Bucket>)
      returns (rv: Status, ghost ahead': seq<Bucket>)
      requires nvec <= vec.Length && bb.buckets == ahead + todo && Backed(ahead, vec[..nvec])
      modifies this`wire, this`answers, this`log, this`bytesWritten, vec, bb
      ensures bb.buckets == ahead' + todo
      ensures (Net(ahead'), rv) == WritevIfAny(old(Net(ahead)), old(vec[..nvec]))
      ensures bytesWritten + |old(wire)| == old(bytesWritten) + |wire|
    {
      ghost var net, v := Net(ahead), vec[..nvec];
      ahead' := WritevIfAny(net, v).0.out.queue;
      if nvec > 0 {
        WritevFrame(net, v, todo);
        assert Net(bb.buckets) == net.Append(todo);
        rv := WritevNonblocking(vec, nvec, bb, ahead, todo);
      } else {
        rv := Success;
      }
    }

    /** `apr_bucket_read` on the data bucket with `left - 1` buckets behind it; `left'` is how many
        there are then. */
    method ReadBucketAt(bb: Brigade, left: nat, block: bool, ghost ahead: seq<Bucket>, ghost b: Bucket, ghost t: seq<Bucket>)
      returns (rv: Status, data: seq<Byte>, left': nat)
      requires bb.buckets == ahead + ([b] + t) && left == |t| + 1 && !b.IsMetadata()
      modifies this`answers, bb
      ensures var r := ReadBucket(b, old(Net([])).Peek(), block);
              && rv == r.status && data == r.data && left' == |r.rest + t|
              && (forall q :: Net(q) == AfterRead(old(Net(q)), b))
              && bb.buckets == if rv.Success? then ahead + [Morphed(b, data)] + (r.rest + t) else ahead + (r.rest + t)
    {
      var k := |bb.buckets| - left;
      var bucket, a := bb.buckets[k], Answer(0, Failed);
      assert bucket == b && bb.buckets[..k] == ahead && bb.buckets[k + 1..] == t;
      if bucket.File? {
        a := Call();
      }
      var r := ReadBucket(bucket, a, block);
      rv, data, left' := r.status, r.data, |r.rest| + (left - 1);
      var held := if rv.Success? then [Morphed(bucket, data)] else [];
      bb.buckets := bb.buckets[..k] + held + (r.rest + bb.buckets[k + 1..]);
    }

    /** The cursor at a file for `sendfile`: the pass ends there. */
    method SendFileAtCursor(vec: array<seq<Byte>>, nvec: nat, bb: Brigade, left: nat,
                            ghost ahead: seq<Bucket>, ghost todo: seq<Bucket>)
      returns (rv: Status)
      requires nvec <= vec.Length && bb.buckets == ahead + todo && |todo| == left > 0
      requires AtCursor(ahead, vec[..nvec]) && BySendfile(todo[0])
      modifies this`wire, this`answers, this`log, this`bytesWritten, vec, bb
      ensures (Net(bb.buckets), rv) == Gather(old(Net(ahead)), old(vec[..nvec]), todo)
      ensures bytesWritten + |old(wire)| == old(bytesWritten) + |wire|
    {
      ghost var ahead';
      rv, ahead' := WriteWaiting(vec, nvec, bb, ahead, todo);
      if rv.Success? {
        var k := |bb.buckets| - left;
        assert bb.buckets[..k] == ahead' && bb.buckets[k] == todo[0] && bb.buckets[k + 1..] == todo[1..];
        rv := SendfileNonblocking(bb, k);
        if rv.Success? {
          RemoveEmptyBuckets(bb);
        }
      }
    }

    method FinishPass(vec: array<seq<Byte>>, nvec: nat, bb: Brigade, ghost ahead: seq<Bucket>, ghost todo: seq<Bucket>)
      returns (rv: Status)
      requires nvec <= vec.Length && bb.buckets == ahead + todo && Backed(ahead, vec[..nvec])
      modifies this`wire, this`answers, this`log, this`bytesWritten, vec, bb
      ensures (Net(bb.buckets), rv) == Finished(old(Net(ahead)), old(vec[..nvec]), todo)
      ensures bytesWritten + |old(wire)| == old(bytesWritten) + |wire|
    {
      ghost var ahead';
      rv, ahead' := WriteWaiting(vec, nvec, bb, ahead, todo);
      if rv.Success? {
        RemoveEmptyBuckets(bb);
      }
    }

    /** The cursor at a data bucket: a non-blocking read first, and a blocking one, after the
        waiting data is written, if that would block. */
    method ReadAtCursor(vec: array<seq<Byte>>, nvec: nat, bb: Brigade, left: nat,
                        ghost ahead: seq<Bucket>, ghost todo: seq<Bucket>)
      returns (rv: Status, data: seq<Byte>, nvec': nat, left': nat,
               ghost ahead': seq<Bucket>, ghost m: Bucket, ghost todo': seq<Bucket>)
      requires nvec <= vec.Length && bb.buckets == ahead + todo && |todo| == left > 0
      requires AtCursor(ahead, vec[..nvec]) && !BySendfile(todo[0]) && !todo[0].IsMetadata()
      modifies this`wire, this`answers, this`log, this`bytesWritten, vec, bb
      ensures bytesWritten + |old(wire)| == old(bytesWritten) + |wire|
      ensures !rv.Success? ==> (Net(bb.buckets), rv) == Gather(old(Net(ahead)), old(vec[..nvec]), todo)
      ensures rv.Success? ==>
                && bb.buckets == ahead' + [m] + todo' && m.Heap? && m.bytes == data && |todo'| == left'
                && nvec' <= nvec && HasRead(ahead', vec[..nvec'], m) && Work(todo') < Work(todo)
                && Gather(old(Net(ahead)), old(vec[..nvec]), todo)
                   == Push(Net(ahead' + [m]), vec[..nvec'] + [data], todo')
    {
      ghost var b, t := todo[0], todo[1..];
      ghost var r := ReadBucket(b, Net([]).Peek(), false);
      FirstRead(Net(ahead), vec[..nvec], todo);
      assert todo == [b] + t;
      rv, data, left' := ReadBucketAt(bb, left, false, ahead, b, t);
      nvec', ahead', m, todo' := nvec, ahead, Morphed(b, data), r.rest + t;
      if rv.Again? {
        rv, data, left', ahead', m, todo' := ReadAgain(vec, nvec, bb, left, ahead, todo);
        nvec' := 0;
        assert [] + [data] == [data];
      }
    }

    method ReadAgain(vec: array<seq<Byte>>, nvec: nat, bb: Brigade, left: nat,
                     ghost ahead: seq<Bucket>, ghost todo: seq<Bucket>)
      returns (rv: Status, data: seq<Byte>, left': nat,
               ghost ahead': seq<Bucket>, ghost m: Bucket, ghost todo': seq<Bucket>)
      requires nvec <= vec.Length && |todo| == left > 0 && AtCursor(ahead, vec[..nvec])
      requires todo[0].Stream? && todo[0].future.WouldBlock?
      requires bb.buckets == ahead + ([Stream(todo[0].future.next)] + todo[1..])
      modifies this`wire, this`answers, this`log, this`bytesWritten, vec, bb
      ensures bytesWritten + |old(wire)| == old(bytesWritten) + |wire|
      ensures !rv.Success? ==> (Net(bb.buckets), rv) == Gather(old(Net(ahead)), old(vec[..nvec]), todo)
      ensures rv.Success? ==>
                && bb.buckets == ahead' + [m] + todo' && m.Heap? && m.bytes == data && |todo'| == left'
                && HasRead(ahead', [], m) && Work(todo') < Work(todo)
                && Gather(old(Net(ahead)), old(vec[..nvec]), todo) == Push(Net(ahead' + [m]), [data], todo')
    {
      ghost var b', t := Stream(todo[0].future.next), todo[1..];
      BlockedGather(Net(ahead), vec[..nvec], todo);
      BlockedRead(Net(ahead), vec[..nvec], todo);
      rv, ahead' := WriteWaiting(vec, nvec, bb, ahead, [b'] + t);
      data, left', m, todo' := [], left, b', [];
      if rv.Success? {
        ghost var r := ReadBucket(b', Net([]).Peek(), true);
        rv, data, left' := ReadBucketAt(bb, left, true, ahead', b', t);
        m, todo' := Morphed(b', data), r.rest + t;
      }
    }

    /** The cursor at a data bucket that is not sent by `sendfile`; `stop` if the pass ends there. */
    method VisitData(vec: array<seq<Byte>>, nvec: nat, bb: Brigade, left: nat,
                     ghost ahead: seq<Bucket>, ghost todo: seq<Bucket>)
      returns (rv: Status, stop: bool, nvec': nat, left': nat, ghost ahead': seq<Bucket>, ghost todo': seq<Bucket>)
      requires nvec < vec.Length == MAX_IOVEC_TO_WRITE && bb.buckets == ahead + todo && |todo| == left > 0
      requires AtCursor(ahead, vec[..nvec]) && !BySendfile(todo[0]) && !todo[0].IsMetadata()
      modifies this`wire, this`answers, this`log, this`bytesWritten, vec, bb
      ensures bytesWritten + |old(wire)| == old(bytesWritten) + |wire|
      ensures stop ==> (Net(bb.buckets), rv) == Gather(old(Net(ahead)), old(vec[..nvec]), todo)
      ensures !stop ==>
                && nvec' < vec.Length && bb.buckets == ahead' + todo' && |todo'| == left'
                && AtCursor(ahead', vec[..nvec']) && Work(todo') < Work(todo)
                && Gather(old(Net(ahead)), old(vec[..nvec]), todo) == Gather(Net(ahead'), vec[..nvec'], todo')
    {
      var data;
      ghost var m;
      rv, data, nvec', left', ahead', m, todo' := ReadAtCursor(vec, nvec, bb, left, ahead, todo);
      stop := !rv.Success?;
      if !stop {
        PushStep(Net(ahead'), vec[..nvec'], m, todo');
        ghost var v := vec[..nvec'] + [data];
        vec[nvec'] := data;
        nvec' := nvec' + 1;
        assert vec[..nvec'] == v;
        ahead' := ahead' + [m];
        if nvec' == MAX_IOVEC_TO_WRITE {
          FinishedWhenFull(Net(ahead'), v, todo');
          rv := FinishPass(vec, nvec', bb, ahead', todo');
          stop := true;
        }
      }
    }

    /** One turn of the loop over the brigade. */
    method VisitBucket(vec: array<seq<Byte>>, nvec: nat, bb: Brigade, left: nat,
                       ghost ahead: seq<Bucket>, ghost todo: seq<Bucket>)
      returns (rv: Status, stop: bool, nvec': nat, left': nat, ghost ahead': seq<Bucket>, ghost todo': seq<Bucket>)
      requires nvec < vec.Length == MAX_IOVEC_TO_WRITE && bb.buckets == ahead + todo && |todo| == left > 0
      requires AtCursor(ahead, vec[..nvec])
      modifies this`wire, this`answers, this`log, this`bytesWritten, vec, bb
      ensures bytesWritten + |old(wire)| == old(bytesWritten) + |wire|
      ensures stop ==> (Net(bb.buckets), rv) == Gather(old(Net(ahead)), old(vec[..nvec]), todo)
      ensures !stop ==>
                && nvec' < vec.Length && bb.buckets == ahead' + todo' && |todo'| == left'
                && AtCursor(ahead', vec[..nvec']) && Work(todo') < Work(todo)
                && Gather(old(Net(ahead)), old(vec[..nvec]), todo) == Gather(Net(ahead'), vec[..nvec'], todo')
    {
      var k := |bb.buckets| - left;
      rv, stop, nvec', left', ahead', todo' := Success, true, nvec, left, ahead, todo;
      assert bb.buckets[k] == todo[0];
      if BySendfile(bb.buckets[k]) {
        rv := SendFileAtCursor(vec, nvec, bb, left, ahead, todo);
      } else if bb.buckets[k].IsMetadata() {
        MetadataStep(Net(ahead), vec[..nvec], todo);
        stop, left', ahead', todo' := false, left - 1, ahead + [todo[0]], todo[1..];
      } else {
        rv, stop, nvec', left', ahead', todo' := VisitData(vec, nvec, bb, left, ahead, todo);
      }
    }

    method SendBrigadeNonblocking(bb: Brigade) returns (rv: Status)
      modifies this`wire, this`answers, this`log, this`bytesWritten, bb
      ensures (Net(bb.buckets), rv) == SendPass(old(Net(bb.buckets)))
      ensures bytesWritten + |old(wire)| == old(bytesWritten) + |wire|
    {
      RemoveEmptyBuckets(bb);
      rv := VisitBuckets(bb);
    }

    /** The loop over the brigade, and the write of what it leaves in the vector. */
    method VisitBuckets(bb: Brigade) returns (rv: Status)
      modifies this`wire, this`answers, this`log, this`bytesWritten, bb
      ensures (Net(bb.buckets), rv) == Gather(old(Net([])), [], old(bb.buckets))
      ensures bytesWritten + |old(wire)| == old(bytesWritten) + |wire|
    {
      var vec := new seq<Byte>[MAX_IOVEC_TO_WRITE];
      var nvec, left, stop := 0, |bb.buckets|, false;
      ghost var ahead, todo := [], bb.buckets;
      ghost var goal := Gather(Net(ahead), vec[..nvec], todo);
      rv := Success;
      while left > 0
        invariant 0 <= nvec < MAX_IOVEC_TO_WRITE && bb.buckets == ahead + todo && |todo| == left
        invariant AtCursor(ahead, vec[..nvec])
        invariant Gather(Net(ahead), vec[..nvec], todo) == goal
        invariant bytesWritten + |old(wire)| == old(bytesWritten) + |wire|
        decreases Work(todo)
      {
        rv, stop, nvec, left, ahead, todo := VisitBucket(vec, nvec, bb, left, ahead, todo);
        if stop {
          return;
        }
      }
      FinishedAtEnd(Net(ahead), vec[..nvec]);
      rv := FinishPass(vec, nvec, bb, ahead, todo);
    }

    method Poll() returns (rv: Status)
      modifies this`answers
      ensures forall q :: (Net(q), rv) == OutputModel.Poll(old(Net(q)))
    {
      var a := Call();
      while a.status.Interrupted?
        invariant forall q :: OutputModel.Poll(old(Net(q))) ==
                    if a.status.Interrupted? then OutputModel.Poll(Net(q)) else (Net(q), a.status)
        decreases |answers|, a.status.Interrupted?
      {
        a := Call();
      }
      rv := a.status;
    }

    method SendBrigadeBlocking(bb: Brigade) returns (rv: Status)
      modifies this`wire, this`answers, this`log, this`bytesWritten, bb
      ensures (Net(bb.buckets), rv) == SendAll(old(Net(bb.buckets)))
      ensures bytesWritten + |old(wire)| == old(bytesWritten) + |wire|
    {
      rv := Success;
      while bb.buckets != []
        invariant rv.Success?
        invariant SendAll(Net(bb.buckets)) == SendAll(old(Net(bb.buckets)))
        invariant bytesWritten + |old(wire)| == old(bytesWritten) + |wire|
        decreases |answers|, |bb.buckets|
      {
        rv := SendBrigadeNonblocking(bb);
        if !rv.Success? {
          if rv.Again? {
            rv := Poll();
            if !rv.Success? {
              break;
            }
          } else {
            break;
          }
        }
      }
    }

    /** `apr_brigade_cleanup`. */
    method Cleanup(bb: Brigade)
      modifies this`log, bb
      ensures bb.buckets == [] && log == old(log) + Discarded(old(bb.buckets), |wire|)
    {
      while bb.buckets != []
        invariant log + Discarded(bb.buckets, |wire|) == old(log) + Discarded(old(bb.buckets), |wire|)
        decreases |bb.buckets|
      {
        Assoc(log, Destroyed(bb.buckets[0], |wire|), Discarded(bb.buckets[1..], |wire|));
        DeleteFirst(bb);
      }
    }

    /** The four rules: how far the brigade must be sent, and how much follows. */
    method ScanBrigade(bb: Brigade) returns (upto: nat, bytes: nat)
      ensures upto == Scan(bb.buckets).upto && bytes == Scan(bb.buckets).bytes
    {
      var nonFile: nat, eors: nat := 0, 0;
      upto, bytes := 0, 0;
      for i := 0 to |bb.buckets|
        invariant Scan(bb.buckets[..i]) == Tally(upto, bytes, nonFile, eors)
      {
        var bucket, morphing := bb.buckets[i], false;
        assert bb.buckets[..i + 1][..i] == bb.buckets[..i];
        if !bucket.IsMetadata() {
          if bucket.Stream? {
            morphing := true;
          } else {
            bytes := bytes + |bucket.bytes|;
            if !bucket.File? {
              nonFile := nonFile + |bucket.bytes|;
            }
          }
        } else if bucket.Eor? {
          eors := eors + 1;
        }
        if bucket.Flush? || nonFile >= THRESHOLD_MAX_BUFFER || morphing || eors > MAX_REQUESTS_IN_PIPELINE {
          upto, bytes, nonFile, eors := i + 1, 0, 0, 0;
        }
      }
      assert bb.buckets[..|bb.buckets|] == bb.buckets;
    }

    /** `setaside_remaining_output`; `bb` is the buffer itself, or the buffer is empty. */
    method SetAsideRemaining(bb: Brigade)
      requires bb == buffered || buffered.buckets == []
      modifies this`log, this`dataInOutputFilters, bb, buffered
      ensures Snapshot(wire, log, buffered.buckets) == Strip(old(Snapshot(wire, log, bb.buckets)))
      ensures dataInOutputFilters == (buffered.buckets != [] || old(dataInOutputFilters))
    {
      RemoveEmptyBuckets(bb);
      if bb.buckets != [] {
        dataInOutputFilters := true;
        if bb != buffered {
          buffered.buckets := buffered.buckets + bb.buckets;
          bb.buckets := [];
        }
      }
    }

    /** What every call keeps. */
    ghost predicate Sane()
      reads this, buffered, tmpFlush
    {
      buffered != tmpFlush && bytesWritten == |wire| && (!aborted ==> tmpFlush.buckets == [])
    }

    /** What it keeps of what has been passed, whatever the brigades. */
    ghost predicate Valid()
      reads this, buffered, tmpFlush
    {
      Sane() && Kept(State(), history)
    }

    /** What it keeps besides as long as all brigades are of a safe shape. */
    ghost predicate Conserving()
      reads this, buffered, tmpFlush
    {
      Valid() && Exact(State(), history)
    }

    /** A nonblocking write of `bb`, and what is kept for later. */
    method WriteAndKeep(bb: Brigade) returns (rv: Status)
      requires !aborted && bb != tmpFlush && buffered != tmpFlush && tmpFlush.buckets == []
      requires bb == buffered || buffered.buckets == []
      modifies this`wire, this`answers, this`log, this`bytesWritten, this`aborted, this`dataInOutputFilters, bb, buffered
      ensures (State(), rv) == Settle(old(State()), SendPass(old(Net(bb.buckets))))
      ensures bytesWritten + |old(wire)| == old(bytesWritten) + |wire|
    {
      rv := SendBrigadeNonblocking(bb);
      if !rv.Success? && !rv.Again? {
        Cleanup(bb);
        aborted := true;
      } else {
        SetAsideRemaining(bb);
        rv := Success;
      }
    }

    /** Rule 4. */
    method WriteRest(bb: Brigade, bytes: nat) returns (rv: Status)
      requires !aborted && tmpFlush.buckets == [] && buffered.buckets == []
      requires bb != buffered && bb != tmpFlush && buffered != tmpFlush
      modifies this`wire, this`answers, this`log, this`bytesWritten, this`aborted, this`dataInOutputFilters, bb, buffered
      ensures (State(), rv) == WriteSome(old(State()), old(Net(bb.buckets)), bytes)
      ensures bytesWritten + |old(wire)| == old(bytesWritten) + |wire|
    {
      if bytes >= THRESHOLD_MIN_WRITE {
        rv := WriteAndKeep(bb);
      } else {
        SetAsideRemaining(bb);
        rv := Success;
      }
    }

    /** Rule 3: a blocking write up to `upto`. */
    method SendDue(bb: Brigade, upto: nat) returns (rv: Status)
      requires upto <= |bb.buckets|
      requires !aborted && tmpFlush.buckets == [] && buffered.buckets == []
      requires bb != buffered && bb != tmpFlush && buffered != tmpFlush
      modifies this`wire, this`answers, this`log, this`bytesWritten, this`aborted, bb, tmpFlush
      ensures var q := old(bb.buckets);
              var (net, rv') := SendAll(old(Net(bb.buckets[..upto])));
              && rv == rv'
              && (rv.Success? ==> bb.buckets == q[upto..] && Net([]) == net && State() == old(State()).(net := net))
              && (!rv.Success? ==> State() == Abort(old(State()), net, q[upto..]))
      ensures bytesWritten + |old(wire)| == old(bytesWritten) + |wire|
    {
      tmpFlush.buckets := bb.buckets[upto..];
      bb.buckets := bb.buckets[..upto];
      rv := SendBrigadeBlocking(bb);
      if !rv.Success? {
        Cleanup(bb);
        aborted := true;
        return;
      }
      bb.buckets := bb.buckets + tmpFlush.buckets;
      tmpFlush.buckets := [];
    }

    /** Rules 2 to 4, for a brigade that already starts with what was buffered. */
    method SendNewBrigade(bb: Brigade) returns (rv: Status)
      requires !aborted && tmpFlush.buckets == [] && buffered.buckets == []
      requires bb != buffered && bb != tmpFlush && buffered != tmpFlush
      modifies this`wire, this`answers, this`log, this`bytesWritten, this`aborted, this`dataInOutputFilters, bb, buffered, tmpFlush
      ensures (State(), rv) == SendNew(old(State()), old(bb.buckets))
      ensures bytesWritten + |old(wire)| == old(bytesWritten) + |wire|
    {
      var upto, bytes := ScanBrigade(bb);
      if upto > 0 {
        rv := SendDue(bb, upto);
        if !rv.Success? {
          return;
        }
      }
      rv := WriteRest(bb, bytes);
    }

    /** A call with nothing new: the MPM has found the connection writable. */
    method CompleteWrite() returns (rv: Status)
      requires !aborted && buffered != tmpFlush && tmpFlush.buckets == []
      modifies this`wire, this`answers, this`log, this`bytesWritten, this`aborted, this`dataInOutputFilters, buffered
      ensures (State(), rv) == Filter(old(State()), None)
      ensures bytesWritten + |old(wire)| == old(bytesWritten) + |wire|
    {
      if buffered.buckets == [] {
        return Success;
      }
      dataInOutputFilters := false;
      rv := WriteAndKeep(buffered);
    }

    /** A call with a new brigade. */
    method TakeBrigade(newBB: Brigade) returns (rv: Status)
      requires !aborted && buffered != tmpFlush && tmpFlush.buckets == []
      requires newBB != buffered && newBB != tmpFlush
      modifies this`wire, this`answers, this`log, this`bytesWritten, this`aborted, this`dataInOutputFilters, newBB, buffered, tmpFlush
      ensures (State(), rv) == Filter(old(State()), Some(old(newBB.buckets)))
      ensures bytesWritten + |old(wire)| == old(bytesWritten) + |wire|
    {
      if buffered.buckets != [] {
        newBB.buckets := buffered.buckets + newBB.buckets;
        buffered.buckets := [];
        dataInOutputFilters := false;
      } else {
        assert newBB.buckets == buffered.buckets + newBB.buckets;
      }
      rv := SendNewBrigade(newBB);
    }

    /** `ap_core_output_filter`, whatever the brigade, the socket and the outcome. */
    method CoreOutputFilter(newBB: Brigade?) returns (rv: Status)
      requires Sane() && (newBB != null ==> newBB != buffered && newBB != tmpFlush)
      modifies this, buffered, tmpFlush, newBB
      ensures buffered == old(buffered) && tmpFlush == old(tmpFlush)
      ensures Sane() && history == old(history) + if newBB == null then [] else old(newBB.buckets)
      ensures (State(), rv) == Filter(old(State()), if newBB == null then None else Some(old(newBB.buckets)))
      ensures old(Valid()) ==> Valid()
      ensures old(Conserving()) && (newBB == null || Safe(old(newBB.buckets), 0)) ==> Conserving()
    {
      ghost var input := if newBB == null then None else Some(newBB.buckets);
      if Valid() {
        CallKeepsOrder(State(), input, history);
        if Conserving() && Safe(Given(input), 0) {
          FilterKeeps(State(), input, history);
        }
      }
      NothingStranded(State(), input);
      rv := Handle(newBB);
      history := history + Given(input);
    }

    method Handle(newBB: Brigade?) returns (rv: Status)
      requires Sane() && (newBB != null ==> newBB != buffered && newBB != tmpFlush)
      modifies this`wire, this`answers, this`log, this`bytesWritten, this`aborted, this`dataInOutputFilters, newBB, buffered, tmpFlush
      ensures bytesWritten == |wire|
      ensures (State(), rv) == Filter(old(State()), if newBB == null then None else Some(old(newBB.buckets)))
    {
      if aborted {
        rv := Failed;
        if newBB != null {
          Cleanup(newBB);
        }
      } else if newBB == null {
        rv := CompleteWrite();
      } else {
        rv := TakeBrigade(newBB);
      }
    }
  }

  /** A connection that is not aborted has nothing stranded. */
  lemma NothingStranded(c: Conn, input: Option<seq<Bucket>>)
    requires !c.aborted ==> c.stranded == []
    ensures var c' := Filter(c, input).0; !c'.aborted ==> c'.stranded == []
  {
  }

  /** Any series of calls on one connection. */
  method Serve(answers: seq<Answer>, inputs: seq<Option<seq<Bucket>>>) returns (c: Connection)
    ensures c.Valid() && c.history == Queued(inputs) && c.State() == Run(Start(answers), inputs)
    ensures SafeInputs(inputs) ==> c.Conserving()
  {
    c := new Connection(answers);
    for i := 0 to |inputs|
      invariant c.Valid() && c.history == Queued(inputs[..i]) && c.State() == Run(Start(answers), inputs[..i])
      invariant SafeInputs(inputs) ==> c.Conserving()
      invariant fresh(c) && fresh(c.buffered) && fresh(c.tmpFlush)
    {
      assert inputs[..i + 1][..i] == inputs[..i];
      var rv;
      if inputs[i].None? {
        rv := c.CoreOutputFilter(null);
      } else {
        var bb := new Brigade(inputs[i].value);
        rv := c.CoreOutputFilter(bb);
      }
    }
    assert inputs[..|inputs|] == inputs;
  }
}
