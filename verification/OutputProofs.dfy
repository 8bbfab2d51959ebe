/** What the output filter's steps preserve: `Drains` through every write, and on top of it
    the invariant of whole runs.
 */
module OutputProofs {
  import opened Sequences
  import opened Buckets
  import opened OutputModel

  // ----- the shape of a brigade

  lemma {:induction false} SafeWeaken(q: seq<Bucket>, held: nat)
    requires Safe(q, held)
    ensures Safe(q, 0)
  {
    if q != [] && !q[0].Stream? {
      SafeWeaken(q[1..], Hold(q[0], held));
    }
  }

  lemma {:induction false} SafeBehindKnown(a: seq<Bucket>, b: seq<Bucket>)
    requires forall x :: x in a ==> !x.Stream?
    ensures Safe(a + b, 0) == Safe(b, 0)
  {
    if a == [] {
      assert a + b == b;
    } else {
      SafeBehindKnown(a[1..], b);
      HeadTail(a, b);
    }
  }

  lemma {:induction false} SafePrefix(a: seq<Bucket>, b: seq<Bucket>, held: nat)
    requires Safe(a + b, held)
    ensures Safe(a, held)
  {
    if a != [] {
      HeadTail(a, b);
      SafePrefix(a[1..], b, Hold(a[0], held));
    }
  }

  // ----- remove_empty_buckets

  lemma {:induction false} StripDrains(s: Snapshot)
    ensures Drains(s, Strip(s))
    ensures Safe(s.queue, 0) ==> Safe(Strip(s).queue, 0)
    decreases |s.queue|
  {
    if s.queue != [] && Skippable(s.queue[0]) {
      var t := Snapshot(s.wire, s.log + Destroyed(s.queue[0], |s.wire|), s.queue[1..]);
      DrainsDelete(s);
      StripDrains(t);
      DrainsTrans(s, t, Strip(t));
    }
  }

  // ----- writev_nonblocking

  /** `vec` holds the contents of the data buckets of `q`, all of them in memory. */
  predicate Pending(q: seq<Bucket>, vec: seq<seq<Byte>>) {
    && DataContents(q) == vec
    && forall x :: x in q ==> x.Heap? || x.IsMetadata()
  }

  lemma PendingHead(q: seq<Bucket>, vec: seq<seq<Byte>>)
    requires Pending(q, vec) && vec != []
    ensures q != []
    ensures q[0].IsMetadata() ==> q[0].Content() == [] && Pending(q[1..], vec)
    ensures !q[0].IsMetadata() ==> q[0].Heap? && vec[0] == q[0].bytes && Pending(q[1..], vec[1..])
  {
    assert q[0] in q;
    assert DataContents(q) == (if q[0].IsMetadata() then [] else [q[0].Content()]) + DataContents(q[1..]);
  }

  /** `t` is `s` after `n` bytes at the head of the queue, already on the wire, are dropped. */
  ghost predicate Retired(log: seq<Mark>, q: seq<Bucket>, n: nat, at: nat, log': seq<Mark>, q': seq<Bucket>)
    requires n <= at
  {
    && n <= |Bytes(q)| && Bytes(q') == Bytes(q)[n..]
    && log <= log' && (forall i :: |log| <= i < |log'| ==> log'[i].at <= at)
    && Later(log' + EorMarks(q', at), log + EorMarks(q, at - n))
    && Eases(q, q')
  }

  lemma RetiredFirst(log: seq<Mark>, q: seq<Bucket>, n: nat, at: nat, log': seq<Mark>, q': seq<Bucket>)
    requires q != [] && |q[0].Content()| <= n <= at
    requires Retired(log + Destroyed(q[0], at), q[1..], n - |q[0].Content()|, at, log', q')
    ensures Retired(log, q, n, at, log', q')
  {
    DropFirst(q, n);
    assert log' == log + Destroyed(q[0], at) + log'[|log + Destroyed(q[0], at)|..];
    var k := n - |q[0].Content()|;
    var ms, rest := log' + EorMarks(q', at), EorMarks(q[1..], at - k);
    LaterTrans(ms, log, Destroyed(q[0], at), Destroyed(q[0], at - n), rest, EorMarks(q, at - n));
  }

  lemma DropFirst(q: seq<Bucket>, n: nat)
    requires q != [] && |q[0].Content()| <= n && n - |q[0].Content()| <= |Bytes(q[1..])|
    ensures n <= |Bytes(q)| && Bytes(q)[n..] == Bytes(q[1..])[n - |q[0].Content()|..]
    ensures Eases(q, q[1..])
  {
    assert Bytes(q) == q[0].Content() + Bytes(q[1..]);
    DropOfConcat(q[0].Content(), Bytes(q[1..]), n);
  }

  lemma LaterTrans(ms: seq<Mark>, log: seq<Mark>, d': seq<Mark>, d: seq<Mark>, rest: seq<Mark>, marks: seq<Mark>)
    requires Later(ms, log + d' + rest) && Later(d', d) && marks == d + rest
    ensures Later(ms, log + marks)
  {
    Assoc(log, d, rest);
  }

  lemma RetiredPart(log: seq<Mark>, q: seq<Bucket>, n: nat, at: nat)
    requires q != [] && q[0].Heap? && n <= |q[0].bytes| && n <= at
    ensures Retired(log, q, n, at, log, Cut(q[0], n) + q[1..])
  {
    CutBytes(q, n);
    CutMarks(q, n, at);
    assert Later(log + EorMarks(q, at - n), log + EorMarks(q, at - n));
  }

  lemma CutBytes(q: seq<Bucket>, n: nat)
    requires q != [] && q[0].Heap? && n <= |q[0].bytes|
    ensures n <= |Bytes(q)| && Bytes(Cut(q[0], n) + q[1..]) == Bytes(q)[n..]
    ensures Eases(q, Cut(q[0], n) + q[1..])
  {
    var b := Heap(q[0].bytes[n..], q[0].fromFile);
    var q' := [b] + q[1..];
    assert q'[1..] == q[1..];
    assert Bytes(q') == b.bytes + Bytes(q[1..]);
    DropOfConcat(q[0].bytes, Bytes(q[1..]), n);
  }

  lemma {:induction false} CutMarks(q: seq<Bucket>, n: nat, at: nat)
    requires q != [] && q[0].Heap? && n <= |q[0].bytes| && n <= at
    ensures EorMarks(Cut(q[0], n) + q[1..], at) == EorMarks(q, at - n)
  {
    var b := Heap(q[0].bytes[n..], q[0].fromFile);
    var q' := [b] + q[1..];
    assert q'[1..] == q[1..];
    assert EorMarks(q', at) == [] + EorMarks(q[1..], at + |b.bytes|);
    assert EorMarks(q, at - n) == [] + EorMarks(q[1..], at - n + |q[0].bytes|);
  }

  lemma PendingPart(q: seq<Bucket>, vec: seq<seq<Byte>>, n: nat)
    requires Pending(q, vec) && vec != [] && q != [] && !q[0].IsMetadata() && n <= |vec[0]|
    ensures Pending(Cut(q[0], n) + q[1..], [vec[0][n..]] + vec[1..])
  {
    PendingHead(q, vec);
    var q' := [Heap(q[0].bytes[n..], q[0].fromFile)] + q[1..];
    assert q'[1..] == q[1..];
    assert DataContents(q') == [vec[0][n..]] + DataContents(q[1..]);
  }

  /** The buckets after the last data bucket. */
  function Trailing(q: seq<Bucket>): seq<Bucket> {
    if DataContents(q) == [] then q else Trailing(q[1..])
  }

  /** Vector and brigade stay in step through a partial send, and when the whole vector has
      gone, exactly the vectored buckets and the metadata between them have. */
  lemma {:induction false} RetireKeepsStep(v: Vectored, n: nat, at: nat)
    requires Pending(v.queue, v.vec) && n <= |Flat(v.vec)| && n <= at
    ensures var r := Retire(v, n, at);
            && Pending(r.queue, r.vec)
            && Retired(v.log, v.queue, n, at, r.log, r.queue)
            && (n == |Flat(v.vec)| ==> r.vec == [])
            && Trailing(r.queue) == Trailing(v.queue)
    decreases |v.vec| + |v.queue|
  {
    var q, vec := v.queue, v.vec;
    FlatOfDataContents(q);
    if vec == [] {
      assert EorMarks(q, at - n) == EorMarks(q, at);
    } else {
      PendingHead(q, vec);
      if q[0].IsMetadata() {
        var v' := Vectored(v.log + Destroyed(q[0], at), q[1..], vec);
        RetireKeepsStep(v', n, at);
        RetiredFirst(v.log, q, n, at, Retire(v', n, at).log, Retire(v', n, at).queue);
      } else if n >= |vec[0]| {
        var v' := Vectored(v.log, q[1..], vec[1..]);
        RetireKeepsStep(v', n - |vec[0]|, at);
        assert v.log + Destroyed(q[0], at) == v.log;
        RetiredFirst(v.log, q, n, at, Retire(v', n - |vec[0]|, at).log, Retire(v', n - |vec[0]|, at).queue);
      } else {
        PendingPart(q, vec, n);
        RetiredPart(v.log, q, n, at);
        assert (Cut(q[0], n) + q[1..])[1..] == q[1..];
      }
    }
  }

  /** Sending `n` bytes and retiring them. */
  lemma RetiredDrains(s: Snapshot, n: nat, log: seq<Mark>, q: seq<Bucket>)
    requires n <= |Bytes(s.queue)| && Retired(s.log, s.queue, n, |s.wire| + n, log, q)
    ensures Drains(s, Snapshot(s.wire + Bytes(s.queue)[..n], log, q))
  {
    var bytes := Bytes(s.queue);
    Assoc(s.wire, bytes[..n], bytes[n..]);
    assert bytes == bytes[..n] + bytes[n..];
  }

  lemma {:induction false} RetireDrains(s: Snapshot, vec: seq<seq<Byte>>, n: nat)
    requires Pending(s.queue, vec) && n <= |Flat(vec)|
    ensures var wire := s.wire + Flat(vec)[..n];
            var r := Retire(Vectored(s.log, s.queue, vec), n, |wire|);
            && Drains(s, Snapshot(wire, r.log, r.queue)) && Pending(r.queue, r.vec)
            && Trailing(r.queue) == Trailing(s.queue)
            && (n == |Flat(vec)| ==> r.vec == [])
  {
    FlatOfDataContents(s.queue);
    var v, wire := Vectored(s.log, s.queue, vec), s.wire + Bytes(s.queue)[..n];
    assert wire == s.wire + Flat(vec)[..n] && |wire| == |s.wire| + n;
    RetireKeepsStep(v, n, |wire|);
    RetiredDrains(s, n, Retire(v, n, |wire|).log, Retire(v, n, |wire|).queue);
  }

  lemma {:induction false} SendOnceDrains(net: Net, vec: seq<seq<Byte>>)
    requires Pending(net.out.queue, vec)
    ensures var (net', vec', rv) := SendOnce(net, vec);
            && Drains(net.out, net'.out) && Pending(net'.out.queue, vec')
            && Trailing(net'.out.queue) == Trailing(net.out.queue)
            && (rv.Success? && Flat(vec) != [] && Flat(vec') == [] ==> vec' == [])
  {
    FlatOfDataContents(net.out.queue);
    var n := Taken(net.Peek(), |Flat(vec)|);
    if n > 0 {
      RetireDrains(net.out, vec, n);
    } else {
      assert net.out.wire + Flat(vec)[..0] == net.out.wire;
    }
  }

  /** A successful write of a vector that is not all empty removes exactly the vectored buckets
      and the metadata before the last of them. */
  lemma {:induction false} WriteLoopDrains(net: Net, vec: seq<seq<Byte>>)
    requires Pending(net.out.queue, vec)
    ensures var (net', rv) := WriteLoop(net, vec);
            && Drains(net.out, net'.out)
            && Pending(net'.out.queue, DataContents(net'.out.queue))
            && Trailing(net'.out.queue) == Trailing(net.out.queue)
            && (rv.Success? && Flat(vec) != [] ==> Pending(net'.out.queue, []))
            && (Flat(vec) == [] ==> net' == net)
    decreases |Flat(vec)|
  {
    if Flat(vec) != [] {
      var (net', vec', rv) := SendOnce(net, vec);
      SendOnceDrains(net, vec);
      if rv.Success? {
        WriteLoopDrains(net', vec');
        DrainsTrans(net.out, net'.out, WriteLoop(net', vec').0.out);
      }
    }
  }

  lemma WritevDrains(net: Net, vec: seq<seq<Byte>>)
    requires Pending(net.out.queue, vec)
    ensures var (net', rv) := WritevIfAny(net, vec);
            && Drains(net.out, net'.out)
            && Pending(net'.out.queue, DataContents(net'.out.queue))
            && (rv.Success? && Flat(vec) != [] ==> Pending(net'.out.queue, []) && net'.out.queue == Trailing(net.out.queue))
            && (rv.Success? && Flat(vec) == [] ==> net'.out == net.out)
  {
    var set0 := net.Next().Next();
    WriteLoopDrains(set0, vec);
    assert WriteLoop(set0, vec).0.Next().out == WriteLoop(set0, vec).0.out;
  }

  // ----- sendfile_nonblocking

  lemma SendfileDrains(wire: seq<Byte>, log: seq<Mark>, file: Bucket, n: nat, left: seq<Bucket>)
    requires file.File? && n <= |file.bytes|
    requires left == if n < |file.bytes| then [File(file.bytes[n..], file.sendfile)] else []
    ensures Drains(Snapshot(wire, log, [file]), Snapshot(wire + file.bytes[..n], log, left))
  {
    BytesOne(file);
    assert Bytes(left) == file.bytes[n..] by {
      if n < |file.bytes| {
        BytesOne(left[0]);
      }
    }
    assert wire + file.bytes[..n] + file.bytes[n..] == wire + file.bytes by {
      assert file.bytes == file.bytes[..n] + file.bytes[n..];
      Assoc(wire, file.bytes[..n], file.bytes[n..]);
    }
    NoMarks([file], |wire|);
    NoMarks(left, |wire| + n);
  }

  /** The shape stays safe when a file in front is replaced by what is left of it. */
  lemma FileLeftSafe(q: seq<Bucket>, todo: seq<Bucket>, left: seq<Bucket>)
    requires todo != [] && todo[0].File? && Safe(todo, 0)
    requires (forall x :: x in q ==> !x.Stream?) && forall x :: x in left ==> !x.Stream?
    ensures Safe(q + (left + todo[1..]), 0)
  {
    SafeWeaken(todo[1..], Hold(todo[0], 0));
    SafeBehindKnown(q, left + todo[1..]);
    SafeBehindKnown(left, todo[1..]);
  }

  lemma {:induction false} SendFileAndStopDrains(net: Net, todo: seq<Bucket>)
    requires todo != [] && BySendfile(todo[0]) && Bytes(net.out.queue) == []
    requires (forall x :: x in net.out.queue ==> !x.Stream?) && Safe(todo, 0)
    ensures var (net', rv) := SendFileAndStop(net, todo);
            Drains(net.out.Append(todo), net'.out) && Safe(net'.out.queue, 0)
  {
    var s, file, tail := net.out, todo[0], todo[1..];
    var (net', rv, left) := SendFile(net, file);
    var full := net'.Append(left + tail);
    SendFileKeeps(net, file, tail);
    assert [file] + tail == todo;
    FileLeftSafe(s.queue, todo, left);
    StripDrains(full.out);
    DrainsTrans(s.Append(todo), full.out, Strip(full.out));
  }

  lemma SendFileKeeps(net: Net, file: Bucket, tail: seq<Bucket>)
    requires BySendfile(file) && Bytes(net.out.queue) == []
    ensures var (net', rv, left) := SendFile(net, file);
            Drains(net.out.Append([file] + tail), net'.out.Append(left + tail))
  {
    var s := net.out;
    var (net', rv, left) := SendFile(net, file);
    var n := |net'.out.wire| - |s.wire|;
    assert net'.out.wire == s.wire + file.bytes[..n];
    var a, b := Snapshot(s.wire, s.log, [file]), Snapshot(net'.out.wire, s.log, left);
    SendfileDrains(s.wire, s.log, file, n, left);
    DrainsFrame(a, b, tail);
    DrainsBehind(s.queue, a.Append(tail), b.Append(tail));
  }

  // ----- apr_bucket_read

  /** A read replaces the bucket by others of the same content. */
  lemma ReadMorphs(b: Bucket, a: Answer, block: bool)
    requires !b.IsMetadata()
    ensures var r := ReadBucket(b, a, block);
            var bs := if r.status.Success? then [Morphed(b, r.data)] + r.rest else r.rest;
            && Bytes(bs) == b.Content() && Eases([b], bs)
            && (forall x :: x in bs ==> !x.IsMetadata())
  {
    var r := ReadBucket(b, a, block);
    if r.status.Success? {
      ReadContent(b, a, block);
      TwoPieces(Morphed(b, r.data), r.rest);
      ReadEases(b, a, block);
    } else {
      UnreadKeeps(b, a, block);
    }
  }

  lemma ReadEases(b: Bucket, a: Answer, block: bool)
    requires !b.IsMetadata() && ReadBucket(b, a, block).status.Success?
    ensures var r := ReadBucket(b, a, block); Eases([b], [Morphed(b, r.data)] + r.rest)
  {
    var r := ReadBucket(b, a, block);
    ReadContent(b, a, block);
    TwoPieces(Morphed(b, r.data), r.rest);
  }

  lemma UnreadKeeps(b: Bucket, a: Answer, block: bool)
    requires !b.IsMetadata() && !ReadBucket(b, a, block).status.Success?
    ensures var r := ReadBucket(b, a, block);
            Bytes(r.rest) == b.Content() && Eases([b], r.rest) && forall x :: x in r.rest ==> !x.IsMetadata()
  {
    if b.Stream? {
      WaitedSize(b.future);
    }
    BytesOne(ReadBucket(b, a, block).rest[0]);
  }

  lemma ReadContent(b: Bucket, a: Answer, block: bool)
    requires !b.IsMetadata() && ReadBucket(b, a, block).status.Success?
    ensures var r := ReadBucket(b, a, block);
            && |r.rest| <= 1 && r.data + (if r.rest == [] then [] else r.rest[0].Content()) == b.Content()
            && (r.rest == [] || r.rest[0].File? || (r.rest[0].Stream? && b.Stream?))
  {
    if b.Stream? {
      WaitedSize(b.future);
    }
  }

  lemma {:induction false} TwoPieces(m: Bucket, rest: seq<Bucket>)
    requires |rest| <= 1 && (rest == [] || !rest[0].Heap?)
    ensures Bytes([m] + rest) == m.Content() + (if rest == [] then [] else rest[0].Content())
    ensures MemoryBytes([m] + rest) == MemoryBytes([m])
    ensures Alarms([m] + rest) == Alarms([m]) + Alarms(rest)
  {
    if rest == [] {
      assert [m] + rest == [m];
      BytesOne(m);
    } else {
      assert rest == [rest[0]];
      BytesOne(rest[0]);
      assert ([m] + rest)[1..] == rest && rest[1..] == [];
    }
  }

  /** Is a vector waiting that holds no byte at all? */
  predicate Hollow(vec: seq<seq<Byte>>) {
    vec != [] && Flat(vec) == []
  }

  /** The entries of a vector that holds no byte and is not written yet. */
  function Held(vec: seq<seq<Byte>>): nat {
    if Hollow(vec) && |vec| < MAX_IOVEC_TO_WRITE then |vec| else 0
  }

  /** A read that does not succeed leaves the shape as it was. */
  lemma UnreadKeepsSafe(held: nat, b: Bucket, a: Answer, block: bool, t: seq<Bucket>)
    requires !b.IsMetadata() && Safe([b] + t, held) && !ReadBucket(b, a, block).status.Success?
    ensures Safe(ReadBucket(b, a, block).rest + t, 0)
  {
    var r := ReadBucket(b, a, block);
    assert ([b] + t)[1..] == t && (r.rest + t)[1..] == t;
    SafeWeaken([b] + t, held);
    SafeWeaken(t, Hold(b, held));
  }

  /** What a read leaves in front of `t` does no harm. */
  lemma RestKeepsSafe(b: Bucket, a: Answer, block: bool, t: seq<Bucket>)
    requires !b.IsMetadata() && ReadBucket(b, a, block).status.Success? && ReadBucket(b, a, block).rest != []
    requires Safe(t, if b.Stream? then 1 else 0)
    ensures Safe(ReadBucket(b, a, block).rest + t, 0)
  {
    ReadContent(b, a, block);
    var r := ReadBucket(b, a, block);
    assert (r.rest + t)[1..] == t;
    SafeWeaken(t, if b.Stream? then 1 else 0);
  }

  /** What `Safe` counts is what the vector holds, or too much. */
  lemma HeldNext(vec: seq<seq<Byte>>, b: Bucket, data: seq<Byte>)
    requires !b.IsMetadata() && |vec| < MAX_IOVEC_TO_WRITE && (vec == [] ==> !Skippable(b)) && (b.Stream? ==> Held(vec) == 0)
    requires b.Stream? || (data == [] <==> b.Content() == [])
    ensures Held(vec + [data]) == 0 || (data == [] && Held(vec + [data]) == Hold(b, Held(vec)))
  {
    FlatConcat(vec, [data]);
    assert [data][1..] == [] && Flat([data]) == data;
  }

  /** A read keeps the shape safe. */
  lemma ReadKeepsSafe(vec: seq<seq<Byte>>, b: Bucket, a: Answer, block: bool, t: seq<Bucket>)
    requires !b.IsMetadata() && |vec| < MAX_IOVEC_TO_WRITE && Safe([b] + t, Held(vec)) && (vec == [] ==> !Skippable(b))
    ensures var r := ReadBucket(b, a, block);
            Safe(r.rest + t, if r.status.Success? then Held(vec + [r.data]) else 0)
  {
    var r := ReadBucket(b, a, block);
    assert ([b] + t)[1..] == t;
    if !r.status.Success? {
      UnreadKeepsSafe(Held(vec), b, a, block, t);
    } else {
      ReadContent(b, a, block);
      HeldNext(vec, b, r.data);
      SafeWeaken(t, Hold(b, Held(vec)));
      if r.rest == [] {
        assert r.rest + t == t;
      } else {
        RestKeepsSafe(b, a, block, t);
      }
    }
  }

  // ----- send_brigade_nonblocking

  lemma PendingAppend(q: seq<Bucket>, vec: seq<seq<Byte>>, b: Bucket)
    requires Pending(q, vec) && (b.Heap? || b.IsMetadata())
    ensures Pending(q + [b], if b.IsMetadata() then vec else vec + [b.Content()])
  {
    DataContentsConcat(q, [b]);
    assert [b][1..] == [];
  }

  /** Whatever ends a pass leaves a queue like this one. */
  ghost predicate Passed(s: Snapshot, r: (Net, Status)) {
    Drains(s, r.0.out) && Safe(r.0.out.queue, 0)
  }

  lemma StopHere(s: Snapshot, net: Net, tail: seq<Bucket>, rv: Status)
    requires Drains(s, net.out.Append(tail)) && Safe(tail, 0)
    requires forall x :: x in net.out.queue ==> !x.Stream?
    ensures Passed(s, (net.Append(tail), rv))
    ensures Passed(s, (net.Append(tail).(out := Strip(net.Append(tail).out)), Success))
  {
    SafeBehindKnown(net.out.queue, tail);
    StripDrains(net.out.Append(tail));
    DrainsTrans(s, net.out.Append(tail), Strip(net.out.Append(tail)));
  }

  /** Writing what is waiting, with `tail` behind it. */
  lemma WriteWaiting(net: Net, vec: seq<seq<Byte>>, tail: seq<Bucket>)
    requires Pending(net.out.queue, vec) && Safe(tail, 0)
    ensures var (net', rv) := WritevIfAny(net, vec);
            && Drains(net.out.Append(tail), net'.out.Append(tail))
            && Passed(net.out.Append(tail), (net'.Append(tail), rv))
            && Passed(net.out.Append(tail), (net'.Append(tail).(out := Strip(net'.Append(tail).out)), Success))
            && (forall x :: x in net'.out.queue ==> !x.Stream?)
            && (rv.Success? ==> Bytes(net'.out.queue) == [])
            && (rv.Success? && !Hollow(vec) ==> Pending(net'.out.queue, []))
  {
    WritevDrains(net, vec);
    var (net', rv) := WritevIfAny(net, vec);
    DrainsFrame(net.out, net'.out, tail);
    StopHere(net.out.Append(tail), net', tail, rv);
    FlatOfDataContents(net'.out.queue);
    FlatOfDataContents(net.out.queue);
  }

  lemma {:induction false} GatherDrains(net: Net, vec: seq<seq<Byte>>, todo: seq<Bucket>)
    requires |vec| < MAX_IOVEC_TO_WRITE && Pending(net.out.queue, vec)
    requires Safe(todo, Held(vec)) && (vec == [] ==> todo == [] || !Skippable(todo[0]))
    ensures Passed(net.out.Append(todo), Gather(net, vec, todo))
    decreases Work(todo), 1
  {
    if todo != [] && !BySendfile(todo[0]) {
      if todo[0].IsMetadata() {
        PendingAppend(net.out.queue, vec, todo[0]);
        GatherDrains(net.Append([todo[0]]), vec, todo[1..]);
        AppendInTwo(net.out, todo);
      } else {
        GatherRead(net, vec, todo);
      }
    } else {
      GatherStop(net, vec, todo);
    }
  }

  /** The cursor at the end, or at a file that `sendfile` takes. */
  lemma GatherStop(net: Net, vec: seq<seq<Byte>>, todo: seq<Bucket>)
    requires |vec| < MAX_IOVEC_TO_WRITE && Pending(net.out.queue, vec)
    requires Safe(todo, Held(vec)) && (todo == [] || BySendfile(todo[0]))
    ensures Passed(net.out.Append(todo), Gather(net, vec, todo))
  {
    SafeWeaken(todo, Held(vec));
    WriteWaiting(net, vec, todo);
    var (net', rv) := WritevIfAny(net, vec);
    if todo == [] {
      assert net'.Append([]) == net';
    } else if rv.Success? {
      SendFileAndStopDrains(net', todo);
      DrainsTrans(net.out.Append(todo), net'.out.Append(todo), SendFileAndStop(net', todo).0.out);
    }
  }

  lemma AppendInTwo(s: Snapshot, todo: seq<Bucket>)
    requires todo != []
    ensures s.Append([todo[0]]).Append(todo[1..]) == s.Append(todo)
  {
    Assoc(s.queue, [todo[0]], todo[1..]);
    assert [todo[0]] + todo[1..] == todo;
  }

  /** The cursor at a data bucket that is read. */
  lemma {:induction false} GatherRead(net: Net, vec: seq<seq<Byte>>, todo: seq<Bucket>)
    requires |vec| < MAX_IOVEC_TO_WRITE && Pending(net.out.queue, vec)
    requires Safe(todo, Held(vec)) && todo != [] && (vec == [] ==> !Skippable(todo[0]))
    requires !BySendfile(todo[0]) && !todo[0].IsMetadata()
    ensures Passed(net.out.Append(todo), Gather(net, vec, todo))
    decreases Work(todo), 0, 1
  {
    var b, t := todo[0], todo[1..];
    assert todo == [b] + t;
    var first := ReadBucket(b, net.Peek(), false);
    ReadIsProgress(b, net.Peek(), false);
    if !first.status.Again? {
      ProceedDrains(AfterRead(net, b), vec, todo, b, net.Peek(), false);
    } else {
      ReadStep(net, b, net.Peek(), false, t);
      GatherBlocked(net, vec, todo);
      DrainsTrans(net.out.Append(todo), net.out.Append(first.rest + t), Gather(net, vec, todo).0.out);
    }
  }

  /** A read that would block: what is waiting is written first. */
  lemma {:induction false} GatherBlocked(net: Net, vec: seq<seq<Byte>>, todo: seq<Bucket>)
    requires |vec| < MAX_IOVEC_TO_WRITE && Pending(net.out.queue, vec)
    requires Safe(todo, Held(vec)) && todo != [] && !BySendfile(todo[0]) && !todo[0].IsMetadata()
    requires ReadBucket(todo[0], net.Peek(), false).status.Again?
    ensures Passed(net.out.Append(ReadBucket(todo[0], net.Peek(), false).rest + todo[1..]), Gather(net, vec, todo))
    decreases Work(todo), 0, 0, 1
  {
    var rest, t := ReadBucket(todo[0], net.Peek(), false).rest, todo[1..];
    ReadIsProgress(todo[0], net.Peek(), false);
    var b' := rest[0];
    assert !Hollow(vec);
    assert rest + t == [b'] + t && ([b'] + t)[1..] == t;
    WriteWaiting(net, vec, [b'] + t);
    var (net', rv) := WritevIfAny(net, vec);
    if rv.Success? {
      ReadIsProgress(b', net'.Peek(), true);
      ProceedDrains(net', [], todo, b', net'.Peek(), true);
      DrainsTrans(net.out.Append(rest + t), net'.out.Append(rest + t), Gather(net, vec, todo).0.out);
    }
  }

  lemma {:induction false} ProceedDrains(net: Net, vec: seq<seq<Byte>>, todo: seq<Bucket>, b: Bucket, a: Answer, block: bool)
    requires |vec| < MAX_IOVEC_TO_WRITE && Pending(net.out.queue, vec)
    requires todo != [] && !b.IsMetadata() && Effort(b) <= Effort(todo[0])
    requires Safe([b] + todo[1..], Held(vec)) && (vec == [] ==> !Skippable(b))
    requires !ReadBucket(b, a, block).status.Again?
    requires var read := ReadBucket(b, a, block);
             |read.rest| <= 1 && (read.status.Success? && read.rest != [] ==> Effort(read.rest[0]) < Effort(todo[0]))
    ensures Passed(net.out.Append([b] + todo[1..]), Proceed(net, vec, todo, b, ReadBucket(b, a, block)))
    decreases Work(todo), 0, 0, 0
  {
    var read, t := ReadBucket(b, a, block), todo[1..];
    var s := net.out.Append([b] + t);
    var todo' := read.rest + t;
    ReadStep(net, b, a, block, t);
    ReadKeepsSafe(vec, b, a, block, t);
    if !read.status.Success? {
      StopHere(s, net, todo', read.status);
    } else {
      var net', vec' := net.Append([Morphed(b, read.data)]), vec + [read.data];
      PendingAppend(net.out.queue, vec, Morphed(b, read.data));
      assert if read.rest == [] then todo' == t else todo'[1..] == t;
      PushDrains(net', vec', todo');
      DrainsTrans(s, net'.out.Append(todo'), Push(net', vec', todo').0.out);
    }
  }

  lemma {:induction false} PushDrains(net: Net, vec: seq<seq<Byte>>, todo: seq<Bucket>)
    requires 0 < |vec| <= MAX_IOVEC_TO_WRITE && Pending(net.out.queue, vec) && Safe(todo, Held(vec))
    ensures Passed(net.out.Append(todo), Push(net, vec, todo))
    decreases Work(todo), 2
  {
    if |vec| < MAX_IOVEC_TO_WRITE {
      GatherDrains(net, vec, todo);
    } else {
      WriteWaiting(net, vec, todo);
    }
  }

  /** What a read at the cursor does to the whole brigade. */
  lemma ReadStep(net: Net, b: Bucket, a: Answer, block: bool, t: seq<Bucket>)
    requires !b.IsMetadata()
    ensures var r := ReadBucket(b, a, block);
            var s := net.out.Append([b] + t);
            if r.status.Success? then Drains(s, net.Append([Morphed(b, r.data)]).out.Append(r.rest + t))
            else Drains(s, net.out.Append(r.rest + t))
  {
    var r, q := ReadBucket(b, a, block), net.out.queue;
    ReadMorphs(b, a, block);
    Assoc(q, [b], t);
    if r.status.Success? {
      var m := [Morphed(b, r.data)];
      DrainsMorph(net.out.Append([b] + t), q, b, m + r.rest, t);
      Assoc(q, m, r.rest + t);
      Assoc(m, r.rest, t);
      Assoc(q, m + r.rest, t);
    } else {
      DrainsMorph(net.out.Append([b] + t), q, b, r.rest, t);
      Assoc(q, r.rest, t);
    }
  }

  lemma SendPassDrains(net: Net)
    requires Safe(net.out.queue, 0)
    ensures Passed(net.out, SendPass(net))
  {
    StripDrains(net.out);
    var s := Strip(net.out);
    var start := Net(s.(queue := []), net.answers);
    GatherDrains(start, [], s.queue);
    assert start.out.Append(s.queue) == s;
    DrainsTrans(net.out, s, SendPass(net).0.out);
  }

  // ----- send_brigade_blocking

  lemma {:induction false} SendAllDrains(net: Net)
    requires Safe(net.out.queue, 0)
    ensures Drains(net.out, SendAll(net).0.out)
    decreases |net.answers|, |net.out.queue|
  {
    if net.out.queue != [] {
      var (sent, rv) := SendPass(net);
      SendPassDrains(net);
      if rv.Success? {
        SendAllDrains(sent);
        DrainsTrans(net.out, sent.out, SendAll(sent).0.out);
      } else if rv.Again? {
        var (ready, prv) := Poll(sent);
        if prv.Success? {
          SendAllDrains(ready);
          DrainsTrans(net.out, sent.out, SendAll(ready).0.out);
        }
      }
    }
  }
}
