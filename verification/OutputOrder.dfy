/** What every brigade keeps, also one for which vector and queue fall out of step: the order of
    request ends.
 */
module OutputOrder {
  import opened Sequences
  import opened Buckets
  import opened OutputModel
  import opened OutputProofs

  // ----- vector and brigade, in step or not

  /** Every entry of `vec` is backed by one of the last data buckets of `q`, all of them in memory. */
  ghost predicate Backed(q: seq<Bucket>, vec: seq<seq<Byte>>) {
    && (forall x :: x in q ==> x.Heap? || x.IsMetadata())
    && var d := DataContents(q);
       |vec| <= |d| && forall i :: 0 <= i < |vec| ==> |vec[i]| <= |d[|d| - |vec| + i]|
  }

  lemma BackedHead(q: seq<Bucket>, vec: seq<seq<Byte>>)
    requires Backed(q, vec) && vec != []
    ensures q != []
    ensures q[0].IsMetadata() ==> Backed(q[1..], vec)
    ensures !q[0].IsMetadata() ==> q[0].Heap? && Backed(q[1..], vec[1..])
  {
    assert q[0] in q;
    assert DataContents(q) == (if q[0].IsMetadata() then [] else [q[0].Content()]) + DataContents(q[1..]);
  }

  lemma BackedCut(q: seq<Bucket>, vec: seq<seq<Byte>>, n: nat)
    requires Backed(q, vec) && vec != [] && q != [] && !q[0].IsMetadata() && n < |vec[0]|
    ensures Backed(Cut(q[0], n) + q[1..], [vec[0][n..]] + vec[1..])
  {
    assert q[0] in q;
    assert DataContents(q) == [q[0].Content()] + DataContents(q[1..]);
    if |vec| <= |DataContents(q[1..])| {
      BackedLess(q[1..], vec, n);
      BackedBehind(Cut(q[0], n), q[1..], [vec[0][n..]] + vec[1..]);
    } else {
      BackedFirst(q[0], q[1..], vec, n);
    }
  }

  lemma BackedLess(q: seq<Bucket>, vec: seq<seq<Byte>>, n: nat)
    requires Backed(q, vec) && vec != [] && n < |vec[0]|
    ensures Backed(q, [vec[0][n..]] + vec[1..])
  {
  }

  lemma BackedBehind(front: seq<Bucket>, q: seq<Bucket>, vec: seq<seq<Byte>>)
    requires Backed(q, vec) && forall x :: x in front ==> x.Heap?
    ensures Backed(front + q, vec)
  {
    DataContentsConcat(front, q);
  }

  /** The bucket that backs the first entry loses as much as the entry. */
  lemma BackedFirst(b: Bucket, q: seq<Bucket>, vec: seq<seq<Byte>>, n: nat)
    requires b.Heap? && (forall x :: x in q ==> x.Heap? || x.IsMetadata())
    requires |vec| == |DataContents(q)| + 1 && n < |vec[0]| <= |b.bytes|
    requires forall i :: 1 <= i < |vec| ==> |vec[i]| <= |DataContents(q)[i - 1]|
    ensures Backed(Cut(b, n) + q, [vec[0][n..]] + vec[1..])
  {
    var cut := Heap(b.bytes[n..], b.fromFile);
    assert Cut(b, n) + q == [cut] + q && ([cut] + q)[1..] == q;
    assert DataContents([cut] + q) == [cut.bytes] + DataContents(q);
  }

  lemma BackedAppend(q: seq<Bucket>, vec: seq<seq<Byte>>, b: Bucket)
    requires Backed(q, vec) && (b.Heap? || b.IsMetadata())
    ensures Backed(q + [b], if b.IsMetadata() then vec else vec + [b.Content()])
  {
    DataContentsConcat(q, [b]);
    assert [b][1..] == [];
  }

  lemma {:induction false} RetireBacked(v: Vectored, n: nat, at: nat)
    requires n <= |Flat(v.vec)| && Backed(v.queue, v.vec)
    ensures Backed(Retire(v, n, at).queue, Retire(v, n, at).vec)
    decreases |v.vec| + |v.queue|
  {
    if v.vec != [] {
      BackedHead(v.queue, v.vec);
      if v.queue[0].IsMetadata() {
        RetireBacked(Vectored(v.log + Destroyed(v.queue[0], at), v.queue[1..], v.vec), n, at);
      } else if n >= |v.vec[0]| {
        RetireBacked(Vectored(v.log, v.queue[1..], v.vec[1..]), n - |v.vec[0]|, at);
      } else {
        BackedCut(v.queue, v.vec, n);
      }
    }
  }

  lemma SendOnceBacked(net: Net, vec: seq<seq<Byte>>)
    requires Backed(net.out.queue, vec)
    ensures var (net', vec', rv) := SendOnce(net, vec); Backed(net'.out.queue, vec')
  {
    var n := Taken(net.Peek(), |Flat(vec)|);
    var sent := net.Next().Put(Flat(vec)[..n]);
    RetireBacked(Vectored(sent.out.log, sent.out.queue, vec), n, |sent.out.wire|);
  }

  lemma {:induction false} WriteBacked(net: Net, vec: seq<seq<Byte>>)
    requires Backed(net.out.queue, vec)
    ensures Backed(WriteLoop(net, vec).0.out.queue, []) && Backed(WritevIfAny(net, vec).0.out.queue, [])
    decreases |Flat(vec)|, |net.answers|
  {
    LoopBacked(net, vec);
    LoopBacked(net.Next().Next(), vec);
  }

  lemma {:induction false} LoopBacked(net: Net, vec: seq<seq<Byte>>)
    requires Backed(net.out.queue, vec)
    ensures Backed(WriteLoop(net, vec).0.out.queue, [])
    decreases |Flat(vec)|
  {
    if Flat(vec) != [] {
      SendOnceBacked(net, vec);
      var (net', vec', rv) := SendOnce(net, vec);
      if rv.Success? {
        LoopBacked(net', vec');
      }
    }
  }

  // ----- the order of request ends, in step or not

  /** A brigade on its way out: the requests ended, the buckets left and where in the stream the first of
      them is taken to lie, and how long the wire is. Out of step, the queue lies behind the wire. */
  datatype Stage = Stage(log: seq<Mark>, queue: seq<Bucket>, pos: nat, len: nat) {
    function Marks(): seq<Mark> {
      log + EorMarks(queue, pos)
    }

    function End(): nat {
      pos + |Bytes(queue)|
    }

    function Append(tail: seq<Bucket>): Stage {
      this.(queue := queue + tail)
    }
  }

  function Now(s: Snapshot): Stage {
    Stage(s.log, s.queue, |s.wire|, |s.wire|)
  }

  /** From `s` to `t` no request is ended early or out of order, whatever becomes of the bytes. */
  ghost predicate Follows(s: Stage, t: Stage) {
    && s.len <= t.len && s.End() <= t.End()
    && s.log <= t.log && (forall i :: |s.log| <= i < |t.log| ==> t.log[i].at <= t.len)
    && Later(t.Marks(), s.Marks())
  }

  lemma {:induction false} FollowsTrans(s: Stage, t: Stage, u: Stage)
    requires Follows(s, t) && Follows(t, u)
    ensures Follows(s, u)
  {
  }

  lemma {:induction false} DrainsFollow(s: Snapshot, t: Snapshot)
    requires Drains(s, t)
    ensures Follows(Now(s), Now(t))
  {
    assert |s.Total()| == |t.Total()|;
  }

  lemma {:induction false} MarksOfAppend(s: Stage, tail: seq<Bucket>)
    ensures s.Append(tail).Marks() == s.Marks() + EorMarks(tail, s.End())
    ensures s.Append(tail).End() == s.End() + |Bytes(tail)|
  {
    BytesConcat(s.queue, tail);
    EorMarksConcat(s.queue, tail, s.pos);
    Assoc(s.log, EorMarks(s.queue, s.pos), EorMarks(tail, s.End()));
  }

  lemma {:induction false} FollowsFrame(s: Stage, t: Stage, tail: seq<Bucket>)
    requires Follows(s, t)
    ensures Follows(s.Append(tail), t.Append(tail))
  {
    MarksOfAppend(s, tail);
    MarksOfAppend(t, tail);
    LaterWhenShifted(tail, t.End(), s.End());
    LaterConcat(t.Append(tail).Marks(), s.Append(tail).Marks(), t.Marks(), s.Marks(), EorMarks(tail, t.End()), EorMarks(tail, s.End()));
  }

  /** The queue may always be taken to lie further on. */
  lemma {:induction false} FollowsOn(s: Stage, pos: nat, len: nat)
    requires s.pos <= pos && s.len <= len
    ensures Follows(s, Stage(s.log, s.queue, pos, len))
  {
    LaterWhenShifted(s.queue, pos, s.pos);
    LaterConcat(s.log + EorMarks(s.queue, pos), s.Marks(), s.log, s.log, EorMarks(s.queue, pos), EorMarks(s.queue, s.pos));
  }

  lemma {:induction false} FlatWithin(d: seq<seq<Byte>>, vec: seq<seq<Byte>>)
    requires |vec| <= |d| && forall i :: 0 <= i < |vec| ==> |vec[i]| <= |d[|d| - |vec| + i]|
    ensures |Flat(vec)| <= |Flat(d)|
    decreases |d|
  {
    if |d| > |vec| {
      FlatWithin(d[1..], vec);
    } else if vec != [] {
      FlatWithin(d[1..], vec[1..]);
    }
  }

  lemma {:induction false} BackedBytes(q: seq<Bucket>, vec: seq<seq<Byte>>)
    requires Backed(q, vec)
    ensures |Flat(vec)| <= |Bytes(q)|
  {
    FlatWithin(DataContents(q), vec);
    FlatOfDataContents(q);
  }

  // ----- through a write

  /** What is left of the queue ends, at `end`, no later than wire and vector together. */
  ghost predicate Lags(q: seq<Bucket>, len: nat, vec: seq<seq<Byte>>, end: nat) {
    Backed(q, vec) && |Bytes(q)| <= end <= len + |Flat(vec)|
  }

  /** The stage at which the queue of `s` ends at `end`. */
  function Ending(log: seq<Mark>, q: seq<Bucket>, len: nat, end: nat): Stage
    requires |Bytes(q)| <= end
  {
    Stage(log, q, end - |Bytes(q)|, len)
  }

  lemma {:induction false} LagsBehind(q: seq<Bucket>, len: nat, vec: seq<seq<Byte>>, end: nat)
    requires Lags(q, len, vec, end)
    ensures end - |Bytes(q)| <= len
  {
    BackedBytes(q, vec);
  }

  lemma {:induction false} HeadMarks(log: seq<Mark>, q: seq<Bucket>, pos: nat, len: nat)
    requires q != [] && pos <= len
    ensures Later(log + Destroyed(q[0], len) + EorMarks(q[1..], pos + |q[0].Content()|), log + EorMarks(q, pos))
  {
    var rest := EorMarks(q[1..], pos + |q[0].Content()|);
    Assoc(log, Destroyed(q[0], pos), rest);
    assert Later(log + Destroyed(q[0], len), log + Destroyed(q[0], pos));
    LaterConcat(log + Destroyed(q[0], len) + rest, log + Destroyed(q[0], pos) + rest,
                log + Destroyed(q[0], len), log + Destroyed(q[0], pos), rest, rest);
  }

  /** A first bucket that goes. */
  lemma {:induction false} HeadGoes(log: seq<Mark>, q: seq<Bucket>, len: nat, end: nat)
    requires q != [] && |Bytes(q)| <= end && end - |Bytes(q)| <= len
    ensures |Bytes(q[1..])| <= end
    ensures Follows(Ending(log, q, len, end), Ending(log + Destroyed(q[0], len), q[1..], len, end))
  {
    var pos, n := end - |Bytes(q)|, |q[0].Content()|;
    assert |Bytes(q)| == n + |Bytes(q[1..])|;
    HeadMarks(log, q, pos, len);
    FollowsByMarks(Stage(log, q, pos, len), Destroyed(q[0], len), q[1..], pos + n);
  }

  lemma {:induction false} FollowsByMarks(s: Stage, more: seq<Mark>, q: seq<Bucket>, pos: nat)
    requires (forall i :: 0 <= i < |more| ==> more[i].at <= s.len) && s.End() <= pos + |Bytes(q)|
    requires Later(s.log + more + EorMarks(q, pos), s.Marks())
    ensures Follows(s, Stage(s.log + more, q, pos, s.len))
  {
  }

  /** A first bucket that is cut, or goes when there is less in it. */
  lemma {:induction false} HeadCut(log: seq<Mark>, q: seq<Bucket>, n: nat, len: nat, end: nat)
    requires q != [] && q[0].Heap? && |Bytes(q)| <= end && end - |Bytes(q)| <= len
    ensures |Bytes(Cut(q[0], n) + q[1..])| <= end
    ensures Follows(Ending(log, q, len, end), Ending(log, Cut(q[0], n) + q[1..], len, end))
  {
    if n <= |q[0].bytes| {
      CutBytes(q, n);
      CutMarks(q, n, end - |Bytes(q)| + n);
    } else {
      assert Cut(q[0], n) + q[1..] == q[1..];
      assert log + Destroyed(q[0], len) == log;
      HeadGoes(log, q, len, end);
    }
  }

  /** The vector and queue without a first bucket that is done with. */
  ghost function Onward(v: Vectored, at: nat): Vectored
    requires v.vec != [] && v.queue != []
  {
    var b := v.queue[0];
    Vectored(v.log + Destroyed(b, at), v.queue[1..], if b.IsMetadata() then v.vec else v.vec[1..])
  }

  /** How many of `n` bytes written lie past that bucket. */
  ghost function Beyond(v: Vectored, n: nat): int
    requires v.vec != [] && v.queue != []
  {
    if v.queue[0].IsMetadata() then n else n - |v.vec[0]|
  }

  lemma {:induction false} OnwardFollows(v: Vectored, n: nat, at: nat, end: nat)
    requires v.vec != [] && n <= |Flat(v.vec)| && n <= at && Lags(v.queue, at - n, v.vec, end)
    ensures v.queue != []
    ensures var (w, k) := (Onward(v, at), Beyond(v, n));
            0 <= k ==> k <= |Flat(w.vec)| && Lags(w.queue, at - k, w.vec, end) &&
                       Follows(Ending(v.log, v.queue, at, end), Ending(w.log, w.queue, at, end))
  {
    LagsBehind(v.queue, at - n, v.vec, end);
    BackedHead(v.queue, v.vec);
    HeadGoes(v.log, v.queue, at, end);
  }

  lemma {:induction false} RetireOnward(v: Vectored, n: nat, at: nat)
    requires v.vec != [] && v.queue != [] && n <= |Flat(v.vec)| && 0 <= Beyond(v, n)
    ensures Beyond(v, n) <= |Flat(Onward(v, at).vec)|
    ensures Retire(v, n, at) == Retire(Onward(v, at), Beyond(v, n), at)
  {
    assert v.log + [] == v.log;
  }

  lemma {:induction false} RetireCuts(v: Vectored, n: nat, at: nat, end: nat)
    requires v.vec != [] && n <= |Flat(v.vec)| && n <= at && Lags(v.queue, at - n, v.vec, end)
    requires v.queue != [] && Beyond(v, n) < 0
    ensures var r := Retire(v, n, at);
            Lags(r.queue, at, r.vec, end) && Follows(Ending(v.log, v.queue, at, end), Ending(r.log, r.queue, at, end))
  {
    LagsBehind(v.queue, at - n, v.vec, end);
    BackedHead(v.queue, v.vec);
    RetireBacked(v, n, at);
    HeadCut(v.log, v.queue, n, at, end);
  }

  /** Through the inner loop the end of the queue stays where it is. */
  lemma {:induction false} RetireFollows(v: Vectored, n: nat, at: nat, end: nat)
    requires n <= |Flat(v.vec)| && n <= at && Lags(v.queue, at - n, v.vec, end)
    ensures var r := Retire(v, n, at);
            Lags(r.queue, at, r.vec, end) && Follows(Ending(v.log, v.queue, at, end), Ending(r.log, r.queue, at, end))
    decreases |v.vec| + |v.queue|
  {
    if v.vec == [] {
      LagsBehind(v.queue, at - n, v.vec, end);
    } else {
      OnwardFollows(v, n, at, end);
      if 0 <= Beyond(v, n) {
        var w, k := Onward(v, at), Beyond(v, n);
        RetireOnward(v, n, at);
        RetireFollows(w, k, at, end);
        FollowsTrans(Ending(v.log, v.queue, at, end), Ending(w.log, w.queue, at, end),
                     Ending(Retire(w, k, at).log, Retire(w, k, at).queue, at, end));
      } else {
        RetireCuts(v, n, at, end);
      }
    }
  }

  lemma {:induction false} SendOnceFollows(net: Net, vec: seq<seq<Byte>>, end: nat)
    requires Lags(net.out.queue, |net.out.wire|, vec, end)
    ensures var (net', vec', rv) := SendOnce(net, vec);
            && Lags(net'.out.queue, |net'.out.wire|, vec', end)
            && Follows(Ending(net.out.log, net.out.queue, |net.out.wire|, end), Ending(net'.out.log, net'.out.queue, |net'.out.wire|, end))
  {
    var n, s := Taken(net.Peek(), |Flat(vec)|), net.out;
    if n > 0 {
      SentFollows(s, vec, n, end);
    } else {
      assert Flat(vec)[..0] == [] && s.wire + [] == s.wire;
      LagsBehind(s.queue, |s.wire|, vec, end);
      FollowsOn(Ending(s.log, s.queue, |s.wire|, end), end - |Bytes(s.queue)|, |s.wire|);
    }
  }

  lemma {:induction false} SentFollows(s: Snapshot, vec: seq<seq<Byte>>, n: nat, end: nat)
    requires Lags(s.queue, |s.wire|, vec, end) && n <= |Flat(vec)|
    ensures var at := |s.wire| + n;
            var r := Retire(Vectored(s.log, s.queue, vec), n, at);
            && Lags(r.queue, at, r.vec, end)
            && Follows(Ending(s.log, s.queue, |s.wire|, end), Ending(r.log, r.queue, at, end))
  {
    var at := |s.wire| + n;
    var v := Vectored(s.log, s.queue, vec);
    RetireFollows(v, n, at, end);
    FollowsOn(Ending(s.log, s.queue, |s.wire|, end), end - |Bytes(s.queue)|, at);
    FollowsTrans(Ending(s.log, s.queue, |s.wire|, end), Ending(s.log, s.queue, at, end),
                 Ending(Retire(v, n, at).log, Retire(v, n, at).queue, at, end));
  }

  /** Where a write of a vector may leave queue and wire. */
  ghost predicate Written(s: Snapshot, t: Snapshot, end: nat) {
    && Backed(t.queue, []) && |Bytes(s.queue)| <= end && |Bytes(t.queue)| <= end <= |t.wire| + |Bytes(t.queue)|
    && Follows(Ending(s.log, s.queue, |s.wire|, end), Ending(t.log, t.queue, |t.wire|, end))
  }

  /** Nothing written. */
  lemma {:induction false} LagsWritten(s: Snapshot, vec: seq<seq<Byte>>, end: nat)
    requires Lags(s.queue, |s.wire|, vec, end)
    ensures Written(s, s, end)
  {
    LagsBehind(s.queue, |s.wire|, vec, end);
    FollowsOn(Ending(s.log, s.queue, |s.wire|, end), end - |Bytes(s.queue)|, |s.wire|);
  }

  lemma {:induction false} WriteLoopFollows(net: Net, vec: seq<seq<Byte>>, end: nat)
    requires Lags(net.out.queue, |net.out.wire|, vec, end)
    ensures var (net', rv) := WriteLoop(net, vec);
            Written(net.out, net'.out, end) && (rv.Success? ==> end <= |net'.out.wire|)
    decreases |Flat(vec)|
  {
    LagsWritten(net.out, vec, end);
    if Flat(vec) != [] {
      var (net', vec', rv) := SendOnce(net, vec);
      SendOnceFollows(net, vec, end);
      LagsBehind(net'.out.queue, |net'.out.wire|, vec', end);
      if rv.Success? {
        WriteLoopFollows(net', vec', end);
        var done := WriteLoop(net', vec').0.out;
        FollowsTrans(Ending(net.out.log, net.out.queue, |net.out.wire|, end), Ending(net'.out.log, net'.out.queue, |net'.out.wire|, end),
                     Ending(done.log, done.queue, |done.wire|, end));
      }
    }
  }

  lemma {:induction false} WritevFollows(net: Net, vec: seq<seq<Byte>>, end: nat)
    requires Lags(net.out.queue, |net.out.wire|, vec, end)
    ensures var (net', rv) := WritevIfAny(net, vec);
            Written(net.out, net'.out, end) && (rv.Success? ==> end <= |net'.out.wire|)
  {
    LagsWritten(net.out, vec, end);
    var set0 := net.Next().Next();
    WriteLoopFollows(set0, vec, end);
    assert WriteLoop(set0, vec).0.Next().out == WriteLoop(set0, vec).0.out;
  }

  // ----- through a pass

  /** Behind a queue that ends at `end` comes `tail`; a pass has led from there to `t`. */
  ghost predicate Led(s: Snapshot, tail: seq<Bucket>, end: nat, t: Snapshot) {
    |Bytes(s.queue)| <= end && Follows(Ending(s.log, s.queue, |s.wire|, end).Append(tail), Now(t))
  }

  /** After a write, `tail` behind what is left. */
  lemma {:induction false} WrittenLeads(s: Snapshot, t: Snapshot, tail: seq<Bucket>, end: nat)
    requires Written(s, t, end)
    ensures Led(s, tail, end, t.Append(tail)) && Led(s, tail, end, Strip(t.Append(tail)))
  {
    var a, b := Ending(s.log, s.queue, |s.wire|, end), Ending(t.log, t.queue, |t.wire|, end);
    FollowsFrame(a, b, tail);
    FollowsOn(b.Append(tail), |t.wire|, |t.wire|);
    FollowsTrans(a.Append(tail), b.Append(tail), Now(t.Append(tail)));
    StripDrains(t.Append(tail));
    DrainsFollow(t.Append(tail), Strip(t.Append(tail)));
    FollowsTrans(a.Append(tail), Now(t.Append(tail)), Now(Strip(t.Append(tail))));
  }

  /** A pass that goes on after a write. */
  lemma {:induction false} WrittenThenLed(s: Snapshot, t: Snapshot, tail: seq<Bucket>, end: nat, u: Snapshot)
    requires Written(s, t, end) && Led(t, tail, end, u)
    ensures Led(s, tail, end, u)
  {
    var a, b := Ending(s.log, s.queue, |s.wire|, end), Ending(t.log, t.queue, |t.wire|, end);
    FollowsFrame(a, b, tail);
    FollowsTrans(a.Append(tail), b.Append(tail), Now(u));
  }

  lemma {:induction false} SendFileLeads(net: Net, todo: seq<Bucket>, end: nat)
    requires todo != [] && BySendfile(todo[0]) && |Bytes(net.out.queue)| <= end <= |net.out.wire|
    ensures Led(net.out, todo, end, SendFileAndStop(net, todo).0.out)
  {
    var s, file, tail := net.out, todo[0], todo[1..];
    var (net', rv, left) := SendFile(net, file);
    var full := net'.out.Append(left + tail);
    var a, b := Ending(s.log, s.queue, |s.wire|, end), Stage(s.log, s.queue, |net'.out.wire|, |net'.out.wire|);
    FileGoes(net, file, end);
    FollowsFrame(a.Append([file]), b.Append(left), tail);
    Assoc(s.queue, [file], tail);
    Assoc(s.queue, left, tail);
    assert [file] + tail == todo;
    StripDrains(full);
    DrainsFollow(full, Strip(full));
    FollowsTrans(a.Append(todo), Now(full), Now(Strip(full)));
  }

  lemma {:induction false} FileGoes(net: Net, file: Bucket, end: nat)
    requires BySendfile(file) && |Bytes(net.out.queue)| <= end <= |net.out.wire|
    ensures var s := net.out; var (net', rv, left) := SendFile(net, file); var len := |net'.out.wire|;
            Follows(Ending(s.log, s.queue, |s.wire|, end).Append([file]), Stage(s.log, s.queue, len, len).Append(left))
  {
    var s := net.out;
    var (net', rv, left) := SendFile(net, file);
    var len := |net'.out.wire|;
    var a, b := Ending(s.log, s.queue, |s.wire|, end), Stage(s.log, s.queue, len, len);
    assert len + |Bytes(left)| == |s.wire| + |file.bytes| by {
      if left != [] {
        BytesOne(left[0]);
      }
    }
    BytesOne(file);
    FollowsOn(a, len, len);
    MarksOfAppend(a, [file]);
    MarksOfAppend(b, left);
    NoMarks([file], a.End());
    NoMarks(left, b.End());
  }

  /** A data bucket replaced by others of the same content. */
  lemma {:induction false} Exchanged(s: Stage, b: Bucket, bs: seq<Bucket>, t: seq<Bucket>)
    requires !b.IsMetadata() && (forall x :: x in bs ==> !x.IsMetadata()) && Bytes(bs) == b.Content()
    ensures Follows(s.Append([b] + t), s.Append(bs + t))
  {
    BytesOne(b);
    SameInTheMiddle(s.queue, [b], bs, t, s.pos);
    Assoc(s.queue, [b], t);
    Assoc(s.queue, bs, t);
  }

  /** A read moves the end of what lies ahead of the cursor on by what it gives. */
  lemma {:induction false} GotFollows(s: Snapshot, b: Bucket, a: Answer, block: bool, t: seq<Bucket>, end: nat)
    requires !b.IsMetadata() && |Bytes(s.queue)| <= end && ReadBucket(b, a, block).status.Success?
    ensures var r := ReadBucket(b, a, block);
            var q, end' := s.queue + [Morphed(b, r.data)], end + |r.data|;
            && |Bytes(q)| <= end'
            && Follows(Ending(s.log, s.queue, |s.wire|, end).Append([b] + t), Ending(s.log, q, |s.wire|, end').Append(r.rest + t))
  {
    var r := ReadBucket(b, a, block);
    var m := [Morphed(b, r.data)];
    ReadMorphs(b, a, block);
    Exchanged(Ending(s.log, s.queue, |s.wire|, end), b, m + r.rest, t);
    BytesConcat(s.queue, m);
    BytesOne(m[0]);
    Assoc(m, r.rest, t);
    Assoc(s.queue, m, r.rest + t);
  }

  lemma {:induction false} GotThenLed(s: Snapshot, b: Bucket, a: Answer, block: bool, t: seq<Bucket>, end: nat, u: Snapshot)
    requires !b.IsMetadata() && |Bytes(s.queue)| <= end && ReadBucket(b, a, block).status.Success?
    requires var r := ReadBucket(b, a, block);
             Led(s.(queue := s.queue + [Morphed(b, r.data)]), r.rest + t, end + |r.data|, u)
    ensures Led(s, [b] + t, end, u)
  {
    var r := ReadBucket(b, a, block);
    GotFollows(s, b, a, block, t, end);
    FollowsTrans(Ending(s.log, s.queue, |s.wire|, end).Append([b] + t),
                 Ending(s.log, s.queue + [Morphed(b, r.data)], |s.wire|, end + |r.data|).Append(r.rest + t), Now(u));
  }

  lemma {:induction false} UnreadThenLed(s: Snapshot, b: Bucket, a: Answer, block: bool, t: seq<Bucket>, end: nat, u: Snapshot)
    requires !b.IsMetadata() && |Bytes(s.queue)| <= end && !ReadBucket(b, a, block).status.Success?
    requires Led(s, ReadBucket(b, a, block).rest + t, end, u)
    ensures Led(s, [b] + t, end, u)
  {
    ReadMorphs(b, a, block);
    Exchanged(Ending(s.log, s.queue, |s.wire|, end), b, ReadBucket(b, a, block).rest, t);
    FollowsTrans(Ending(s.log, s.queue, |s.wire|, end).Append([b] + t),
                 Ending(s.log, s.queue, |s.wire|, end).Append(ReadBucket(b, a, block).rest + t), Now(u));
  }

  /** A bucket read joins queue and vector. */
  lemma {:induction false} LagsOn(q: seq<Bucket>, len: nat, vec: seq<seq<Byte>>, end: nat, b: Bucket)
    requires Lags(q, len, vec, end) && (b.Heap? || b.IsMetadata())
    ensures if b.IsMetadata() then Lags(q + [b], len, vec, end) && |Bytes(q + [b])| == |Bytes(q)|
            else Lags(q + [b], len, vec + [b.Content()], end + |b.Content()|)
  {
    BackedAppend(q, vec, b);
    BytesConcat(q, [b]);
    BytesOne(b);
    FlatConcat(vec, [b.Content()]);
    assert [b.Content()][1..] == [] && Flat([b.Content()]) == b.Content() + [];
  }

  /** A pass that stops here leads on. */
  lemma {:induction false} StopLeads(s: Snapshot, vec: seq<seq<Byte>>, tail: seq<Bucket>, end: nat)
    requires Lags(s.queue, |s.wire|, vec, end)
    ensures Led(s, tail, end, s.Append(tail))
  {
    LagsBehind(s.queue, |s.wire|, vec, end);
    FollowsOn(Ending(s.log, s.queue, |s.wire|, end).Append(tail), |s.wire|, |s.wire|);
  }

  lemma {:induction false} GatherLeads(net: Net, vec: seq<seq<Byte>>, todo: seq<Bucket>, end: nat)
    requires |vec| < MAX_IOVEC_TO_WRITE && Lags(net.out.queue, |net.out.wire|, vec, end)
    ensures Led(net.out, todo, end, Gather(net, vec, todo).0.out)
    decreases Work(todo), 1
  {
    if todo != [] && !BySendfile(todo[0]) {
      if todo[0].IsMetadata() {
        LagsOn(net.out.queue, |net.out.wire|, vec, end, todo[0]);
        GatherLeads(net.Append([todo[0]]), vec, todo[1..], end);
        AppendInTwo(net.out, todo);
      } else {
        ReadLeads(net, vec, todo, end);
      }
    } else {
      EndLeads(net, vec, todo, end);
    }
  }

  /** The cursor at the end, or at a file that `sendfile` takes. */
  lemma {:induction false} EndLeads(net: Net, vec: seq<seq<Byte>>, todo: seq<Bucket>, end: nat)
    requires |vec| < MAX_IOVEC_TO_WRITE && Lags(net.out.queue, |net.out.wire|, vec, end)
    requires todo == [] || BySendfile(todo[0])
    ensures Led(net.out, todo, end, Gather(net, vec, todo).0.out)
  {
    var (net', rv) := WritevIfAny(net, vec);
    WritevFollows(net, vec, end);
    WrittenLeads(net.out, net'.out, todo, end);
    if todo == [] {
      assert net'.out.Append([]) == net'.out;
    } else if rv.Success? {
      SendFileLeads(net', todo, end);
      WrittenThenLed(net.out, net'.out, todo, end, SendFileAndStop(net', todo).0.out);
    }
  }

  /** The cursor at a data bucket that is read. */
  lemma {:induction false} ReadLeads(net: Net, vec: seq<seq<Byte>>, todo: seq<Bucket>, end: nat)
    requires |vec| < MAX_IOVEC_TO_WRITE && Lags(net.out.queue, |net.out.wire|, vec, end)
    requires todo != [] && !BySendfile(todo[0]) && !todo[0].IsMetadata()
    ensures Led(net.out, todo, end, Gather(net, vec, todo).0.out)
    decreases Work(todo), 0, 1
  {
    var b, t := todo[0], todo[1..];
    assert todo == [b] + t;
    var first := ReadBucket(b, net.Peek(), false);
    ReadIsProgress(b, net.Peek(), false);
    if !first.status.Again? {
      ProceedLeads(AfterRead(net, b), vec, todo, b, net.Peek(), false, end);
    } else {
      BlockedLeads(net, vec, todo, end);
      UnreadThenLed(net.out, b, net.Peek(), false, t, end, Gather(net, vec, todo).0.out);
    }
  }

  /** A read that would block: the vector is written first. */
  lemma {:induction false} BlockedLeads(net: Net, vec: seq<seq<Byte>>, todo: seq<Bucket>, end: nat)
    requires |vec| < MAX_IOVEC_TO_WRITE && Lags(net.out.queue, |net.out.wire|, vec, end)
    requires todo != [] && !BySendfile(todo[0]) && !todo[0].IsMetadata() && ReadBucket(todo[0], net.Peek(), false).status.Again?
    ensures Led(net.out, ReadBucket(todo[0], net.Peek(), false).rest + todo[1..], end, Gather(net, vec, todo).0.out)
    decreases Work(todo), 0, 0
  {
    var rest, t := ReadBucket(todo[0], net.Peek(), false).rest, todo[1..];
    ReadIsProgress(todo[0], net.Peek(), false);
    var b' := rest[0];
    assert rest == [b'];
    var (net', rv) := WritevIfAny(net, vec);
    WritevFollows(net, vec, end);
    WrittenLeads(net.out, net'.out, rest + t, end);
    if rv.Success? {
      ReadIsProgress(b', net'.Peek(), true);
      ProceedLeads(net', [], todo, b', net'.Peek(), true, end);
      WrittenThenLed(net.out, net'.out, rest + t, end, Gather(net, vec, todo).0.out);
    }
  }

  lemma {:induction false} ProceedLeads(net: Net, vec: seq<seq<Byte>>, todo: seq<Bucket>, b: Bucket, a: Answer, block: bool, end: nat)
    requires |vec| < MAX_IOVEC_TO_WRITE && Lags(net.out.queue, |net.out.wire|, vec, end)
    requires todo != [] && !b.IsMetadata() && !ReadBucket(b, a, block).status.Again?
    requires var read := ReadBucket(b, a, block);
             |read.rest| <= 1 && (read.status.Success? && read.rest != [] ==> Effort(read.rest[0]) < Effort(todo[0]))
    ensures Led(net.out, [b] + todo[1..], end, Proceed(net, vec, todo, b, ReadBucket(b, a, block)).0.out)
    decreases Work(todo), 0, 0, 0
  {
    var read, t := ReadBucket(b, a, block), todo[1..];
    ProceedIs(net, vec, todo, b, read);
    if !read.status.Success? {
      StopLeads(net.out, vec, read.rest + t, end);
      UnreadThenLed(net.out, b, a, block, t, end, net.out.Append(read.rest + t));
    } else {
      GotLeads(net, vec, b, a, block, t, end);
    }
  }

  lemma {:induction false} GotLeads(net: Net, vec: seq<seq<Byte>>, b: Bucket, a: Answer, block: bool, t: seq<Bucket>, end: nat)
    requires |vec| < MAX_IOVEC_TO_WRITE && Lags(net.out.queue, |net.out.wire|, vec, end)
    requires !b.IsMetadata() && ReadBucket(b, a, block).status.Success?
    ensures var read := ReadBucket(b, a, block);
            Led(net.out, [b] + t, end, Push(net.Append([Morphed(b, read.data)]), vec + [read.data], read.rest + t).0.out)
    decreases Work(ReadBucket(b, a, block).rest + t), 4
  {
    var read := ReadBucket(b, a, block);
    var u := Push(net.Append([Morphed(b, read.data)]), vec + [read.data], read.rest + t).0.out;
    GivenLeads(net, vec, Morphed(b, read.data), read.rest + t, end);
    GotThenLed(net.out, b, a, block, t, end, u);
  }

  lemma {:induction false} ProceedIs(net: Net, vec: seq<seq<Byte>>, todo: seq<Bucket>, b: Bucket, read: ReadResult)
    requires |vec| < MAX_IOVEC_TO_WRITE && todo != []
    requires |read.rest| <= 1 && (read.status.Success? && read.rest != [] ==> Effort(read.rest[0]) < Effort(todo[0]))
    ensures Proceed(net, vec, todo, b, read)
         == if !read.status.Success? then (net.Append(read.rest + todo[1..]), read.status)
            else Push(net.Append([Morphed(b, read.data)]), vec + [read.data], read.rest + todo[1..])
    ensures Work(read.rest + todo[1..]) < Work(todo) || !read.status.Success?
  {
    var todo' := read.rest + todo[1..];
    assert if read.rest == [] then todo' == todo[1..] else todo'[1..] == todo[1..];
  }

  /** What was read put behind queue and vector. */
  lemma {:induction false} GivenLeads(net: Net, vec: seq<seq<Byte>>, m: Bucket, todo: seq<Bucket>, end: nat)
    requires m.Heap? && |vec| < MAX_IOVEC_TO_WRITE && Lags(net.out.queue, |net.out.wire|, vec, end)
    ensures Led(net.out.(queue := net.out.queue + [m]), todo, end + |m.bytes|, Push(net.Append([m]), vec + [m.bytes], todo).0.out)
    decreases Work(todo), 3
  {
    LagsOn(net.out.queue, |net.out.wire|, vec, end, m);
    PushLeads(net.Append([m]), vec + [m.bytes], todo, end + |m.bytes|);
  }

  lemma {:induction false} PushLeads(net: Net, vec: seq<seq<Byte>>, todo: seq<Bucket>, end: nat)
    requires 0 < |vec| <= MAX_IOVEC_TO_WRITE && Lags(net.out.queue, |net.out.wire|, vec, end)
    ensures Led(net.out, todo, end, Push(net, vec, todo).0.out)
    decreases Work(todo), 2
  {
    if |vec| < MAX_IOVEC_TO_WRITE {
      GatherLeads(net, vec, todo, end);
    } else {
      WritevFollows(net, vec, end);
      WrittenLeads(net.out, Writev(net, vec).0.out, todo, end);
    }
  }

  /** A pass over any brigade ends requests in order, none early. */
  lemma {:induction false} SendPassFollows(net: Net)
    ensures Follows(Now(net.out), Now(SendPass(net).0.out))
  {
    var s := Strip(net.out);
    var start := Net(s.(queue := []), net.answers);
    StripDrains(net.out);
    DrainsFollow(net.out, s);
    GatherLeads(start, [], s.queue, |s.wire|);
    assert [] + s.queue == s.queue;
    FollowsTrans(Now(net.out), Now(s), Now(SendPass(net).0.out));
  }

  /** So does the blocking send. */
  lemma {:induction false} SendAllFollows(net: Net)
    ensures Follows(Now(net.out), Now(SendAll(net).0.out))
    decreases |net.answers|, |net.out.queue|
  {
    if net.out.queue != [] {
      var (sent, rv) := SendPass(net);
      SendPassFollows(net);
      if rv.Success? {
        SendAllFollows(sent);
        FollowsTrans(Now(net.out), Now(sent.out), Now(SendAll(sent).0.out));
      } else if rv.Again? {
        var (ready, prv) := Poll(sent);
        if prv.Success? {
          SendAllFollows(ready);
          FollowsTrans(Now(net.out), Now(sent.out), Now(SendAll(ready).0.out));
        }
      }
    } else {
      FollowsOn(Now(net.out), |net.out.wire|, |net.out.wire|);
    }
  }
}
