/** The condition `Safe` on brigades is exact: whenever a brigade does not meet it, there is one
    of the same shape for which a run repeats bytes, on a socket that takes everything at once.
 */
module OutputExact {
  import opened Wrappers
  import opened Sequences
  import opened Buckets
  import opened OutputModel
  import opened OutputProofs
  import opened OutputRuns

  // ----- a socket that takes everything

  /** At least `k` more calls will succeed, each taking up to `cap` bytes. */
  ghost predicate Willing(answers: seq<Answer>, cap: nat, k: nat) {
    |answers| >= k && forall i :: 0 <= i < |answers| ==> answers[i] == Answer(cap, Success)
  }

  lemma WillingNext(net: Net, cap: nat, k: nat)
    requires Willing(net.answers, cap, k + 1)
    ensures net.Peek() == Answer(cap, Success) && Willing(net.Next().answers, cap, k)
  {
  }

  /** What the state is after a vector has been taken whole. */
  function Sent(out: Snapshot, vec: seq<seq<Byte>>): Snapshot {
    if Flat(vec) == [] then out
    else
      var wire := out.wire + Flat(vec);
      var r := Retire(Vectored(out.log, out.queue, vec), |Flat(vec)|, |wire|);
      Snapshot(wire, r.log, r.queue)
  }

  lemma LoopTakesAll(net: Net, vec: seq<seq<Byte>>, cap: nat, k: nat)
    requires Willing(net.answers, cap, k + 1) && |Flat(vec)| <= cap
    ensures var (net', rv) := WriteLoop(net, vec);
            rv.Success? && Willing(net'.answers, cap, k) && net'.out == Sent(net.out, vec)
  {
    if Flat(vec) != [] {
      WillingNext(net, cap, k);
      var n := |Flat(vec)|;
      assert Flat(vec)[..n] == Flat(vec);
      var (net', vec', rv) := SendOnce(net, vec);
      assert Flat(vec') == Flat(vec)[n..] == [];
      assert WriteLoop(net, vec) == WriteLoop(net', vec') == (net', Success);
    }
  }

  lemma WriteTakesAll(net: Net, vec: seq<seq<Byte>>, cap: nat, k: nat)
    requires Willing(net.answers, cap, k + 4) && |Flat(vec)| <= cap
    ensures var (net', rv) := WritevIfAny(net, vec);
            rv.Success? && Willing(net'.answers, cap, k) && net'.out == Sent(net.out, vec)
  {
    if vec != [] {
      WillingNext(net, cap, k + 3);
      WillingNext(net.Next(), cap, k + 2);
      LoopTakesAll(net.Next().Next(), vec, cap, k + 1);
      WillingNext(WriteLoop(net.Next().Next(), vec).0, cap, k);
    }
  }

  lemma FileTakenWhole(net: Net, b: Bucket, cap: nat, k: nat)
    requires BySendfile(b) && Willing(net.answers, cap, k + 4) && |b.bytes| <= cap
    ensures var (net', rv, left) := SendFile(net, b);
            rv.Success? && left == [] && Willing(net'.answers, cap, k)
            && net'.out == net.out.(wire := net.out.wire + b.bytes)
  {
    WillingNext(net, cap, k + 3);
    WillingNext(net.Next(), cap, k + 2);
    var set0 := net.Next().Next();
    WillingNext(set0, cap, k + 1);
    assert b.bytes[..|b.bytes|] == b.bytes;
    WillingNext(set0.Next().Put(b.bytes), cap, k);
  }

  /** Writing loses and repeats nothing when vector and brigade are in step. */
  lemma SentKeeps(out: Snapshot, vec: seq<seq<Byte>>)
    requires Pending(out.queue, vec)
    ensures var s := Sent(out, vec);
            && |s.wire| + |Bytes(s.queue)| == |out.wire| + |Bytes(out.queue)|
            && |s.queue| <= |out.queue|
            && Pending(s.queue, DataContents(s.queue)) && Bytes(s.queue) == []
            && (Flat(vec) != [] ==> DataContents(s.queue) == [] && |s.queue| < |out.queue|)
  {
    FlatOfDataContents(out.queue);
    if Flat(vec) != [] {
      var wire := out.wire + Flat(vec);
      var v := Vectored(out.log, out.queue, vec);
      RetireKeepsStep(v, |Flat(vec)|, |wire|);
      RetireShrinks(v, |Flat(vec)|, |wire|);
      var r := Retire(v, |Flat(vec)|, |wire|);
      FlatOfDataContents(r.queue);
    }
  }

  lemma {:induction false} RetireShrinks(v: Vectored, n: nat, at: nat)
    requires n <= |Flat(v.vec)| && Pending(v.queue, v.vec)
    ensures |Retire(v, n, at).queue| <= |v.queue|
    ensures n == |Flat(v.vec)| && v.vec != [] ==> |Retire(v, n, at).queue| < |v.queue|
    decreases |v.vec| + |v.queue|
  {
    if v.vec != [] {
      PendingHead(v.queue, v.vec);
      if v.queue[0].IsMetadata() {
        RetireShrinks(Vectored(v.log + Destroyed(v.queue[0], at), v.queue[1..], v.vec), n, at);
      } else if n >= |v.vec[0]| {
        RetireShrinks(Vectored(v.log, v.queue[1..], v.vec[1..]), n - |v.vec[0]|, at);
      }
    }
  }

  // ----- a pass over buckets that do not block

  /** Every unknown-length bucket has ended. */
  predicate Still(q: seq<Bucket>) {
    q == [] || ((q[0].Stream? ==> q[0].future.Ended?) && Still(q[1..]))
  }

  lemma {:induction false} StillConcat(a: seq<Bucket>, b: seq<Bucket>)
    ensures Still(a + b) <==> Still(a) && Still(b)
  {
    if a == [] {
      assert a + b == b;
    } else {
      HeadTail(a, b);
      StillConcat(a[1..], b);
    }
  }

  /** Where the loop over the brigade is after `pre`: it has stopped, or it has come to what is behind. */
  datatype Reach = Broke(out: Snapshot) | Came(out: Snapshot, vec: seq<seq<Byte>>)

  function Advance(out: Snapshot, vec: seq<seq<Byte>>, pre: seq<Bucket>): Reach
    decreases |pre|
  {
    if pre == [] then Came(out, vec)
    else if BySendfile(pre[0]) then
      var s := Sent(out, vec);
      Broke(Snapshot(s.wire + pre[0].bytes, s.log, s.queue + pre[1..]))
    else if pre[0].IsMetadata() then Advance(out.Append([pre[0]]), vec, pre[1..])
    else
      var d := pre[0].Content();
      var out', vec' := out.Append([Morphed(pre[0], d)]), vec + [d];
      if |vec'| >= MAX_IOVEC_TO_WRITE then Broke(Sent(out', vec').Append(pre[1..]))
      else Advance(out', vec', pre[1..])
  }

  /** Reading a bucket that does not block gives all it holds. */
  lemma ReadsAll(net: Net, vec: seq<seq<Byte>>, b: Bucket, t: seq<Bucket>, cap: nat, k: nat)
    requires !b.IsMetadata() && !BySendfile(b) && (b.Stream? ==> b.future.Ended?) && |vec| < MAX_IOVEC_TO_WRITE
    requires Willing(net.answers, cap, k + 1) && |b.Content()| <= cap
    ensures Willing(AfterRead(net, b).answers, cap, k)
    ensures Gather(net, vec, [b] + t) == Push(AfterRead(net, b).Append([Morphed(b, b.Content())]), vec + [b.Content()], t)
  {
    WillingNext(net, cap, k);
    assert ([b] + t)[1..] == t && [] + t == t;
    if b.File? {
      assert b.bytes[..|b.bytes|] == b.bytes;
    }
    var r := ReadBucket(b, net.Peek(), false);
    assert r.status.Success? && r.data == b.Content() && r.rest == [];
  }

  /** The pass does what `Advance` says, whatever is behind `pre`. */
  lemma {:induction false} AdvanceIs(net: Net, vec: seq<seq<Byte>>, pre: seq<Bucket>, t: seq<Bucket>, cap: nat, k: nat)
      returns (answers: seq<Answer>)
    requires Still(pre) && |vec| < MAX_IOVEC_TO_WRITE && |Flat(vec)| + |Bytes(pre)| <= cap
    requires Willing(net.answers, cap, k + |pre| + 8)
    ensures Willing(answers, cap, k)
    ensures var r := Advance(net.out, vec, pre);
            && (r.Broke? ==> Gather(net, vec, pre + t) == (Net(Strip(r.out.Append(t)), answers), Success))
            && (r.Came? ==> |r.vec| < MAX_IOVEC_TO_WRITE && Gather(net, vec, pre + t) == Gather(Net(r.out, answers), r.vec, t))
    decreases |pre|, 1
  {
    if pre == [] {
      assert pre + t == t;
      return net.answers;
    }
    var b := pre[0];
    assert (pre + t)[0] == b && (pre + t)[1..] == pre[1..] + t && pre + t == [b] + (pre[1..] + t);
    assert |Bytes(pre)| == |b.Content()| + |Bytes(pre[1..])|;
    if BySendfile(b) {
      answers := AdvanceFile(net, vec, b, pre[1..], t, cap, k);
    } else if b.IsMetadata() {
      assert Gather(net, vec, pre + t) == Gather(net.Append([b]), vec, pre[1..] + t);
      answers := AdvanceIs(net.Append([b]), vec, pre[1..], t, cap, k);
    } else {
      answers := AdvanceData(net, vec, b, pre, t, cap, k);
    }
  }

  lemma {:induction false} AdvanceData(net: Net, vec: seq<seq<Byte>>, b: Bucket, pre: seq<Bucket>, t: seq<Bucket>, cap: nat, k: nat)
      returns (answers: seq<Answer>)
    requires Still(pre) && pre != [] && b == pre[0] && !BySendfile(b) && !b.IsMetadata()
    requires |vec| < MAX_IOVEC_TO_WRITE && |Flat(vec)| + |Bytes(pre)| <= cap
    requires Willing(net.answers, cap, k + |pre| + 8)
    ensures Willing(answers, cap, k)
    ensures var r, all := Advance(net.out, vec, pre), Gather(net, vec, [b] + (pre[1..] + t));
            && (r.Broke? ==> all == (Net(Strip(r.out.Append(t)), answers), Success))
            && (r.Came? ==> |r.vec| < MAX_IOVEC_TO_WRITE && all == Gather(Net(r.out, answers), r.vec, t))
    decreases |pre|, 0
  {
    ReadsAll(net, vec, b, pre[1..] + t, cap, k + |pre| - 1 + 8);
    var d := b.Content();
    FlatSnoc(vec, d);
    var net' := AfterRead(net, b).Append([Morphed(b, d)]);
    if |vec| + 1 == MAX_IOVEC_TO_WRITE {
      answers := AdvanceFull(net', vec + [d], pre[1..], t, cap, k);
      assert Advance(net.out, vec, pre) == Broke(Sent(net'.out, vec + [d]).Append(pre[1..]));
    } else {
      answers := AdvanceIs(net', vec + [d], pre[1..], t, cap, k);
      assert Advance(net.out, vec, pre) == Advance(net'.out, vec + [d], pre[1..]);
    }
  }

  lemma FlatSnoc(vec: seq<seq<Byte>>, d: seq<Byte>)
    ensures Flat(vec + [d]) == Flat(vec) + d
  {
    FlatConcat(vec, [d]);
    assert [d][1..] == [] && Flat([d]) == d;
  }

  lemma AdvanceFull(net: Net, vec: seq<seq<Byte>>, rest: seq<Bucket>, t: seq<Bucket>, cap: nat, k: nat)
      returns (answers: seq<Answer>)
    requires |vec| == MAX_IOVEC_TO_WRITE && |Flat(vec)| <= cap && Willing(net.answers, cap, k + 4)
    ensures Willing(answers, cap, k)
    ensures Push(net, vec, rest + t) == (Net(Strip(Sent(net.out, vec).Append(rest).Append(t)), answers), Success)
  {
    WriteTakesAll(net, vec, cap, k);
    var done := Writev(net, vec).0;
    Assoc(done.out.queue, rest, t);
    answers := done.answers;
  }

  lemma AdvanceFile(net: Net, vec: seq<seq<Byte>>, b: Bucket, rest: seq<Bucket>, t: seq<Bucket>, cap: nat, k: nat)
      returns (answers: seq<Answer>)
    requires BySendfile(b) && |vec| < MAX_IOVEC_TO_WRITE && |Flat(vec)| <= cap && |b.bytes| <= cap
    requires Willing(net.answers, cap, k + 8)
    ensures Willing(answers, cap, k)
    ensures var s := Sent(net.out, vec);
            Gather(net, vec, [b] + (rest + t)) == (Net(Strip(Snapshot(s.wire + b.bytes, s.log, s.queue + rest).Append(t)), answers), Success)
  {
    WriteTakesAll(net, vec, cap, k + 4);
    var net' := WritevIfAny(net, vec).0;
    FileTakenWhole(net', b, cap, k);
    var done := SendFile(net', b).0;
    assert ([b] + (rest + t))[1..] == rest + t && [] + (rest + t) == rest + t;
    Assoc(done.out.queue, rest, t);
    answers := done.answers;
  }

  function Amount(s: Snapshot): nat {
    |s.wire| + |Bytes(s.queue)|
  }

  lemma AppendAmount(s: Snapshot, q: seq<Bucket>)
    ensures Amount(s.Append(q)) == Amount(s) + |Bytes(q)|
  {
    BytesConcat(s.queue, q);
  }

  lemma {:induction false} PendingStill(q: seq<Bucket>)
    requires forall x :: x in q ==> x.Heap? || x.IsMetadata()
    ensures Still(q)
  {
    if q != [] {
      assert q[0] in q;
      PendingStill(q[1..]);
    }
  }

  /** `Advance` loses and repeats nothing, and when it stops there is less to do. */
  lemma {:induction false} AdvanceKeeps(out: Snapshot, vec: seq<seq<Byte>>, pre: seq<Bucket>)
    requires Pending(out.queue, vec) && Still(pre) && |vec| < MAX_IOVEC_TO_WRITE
    ensures var r := Advance(out, vec, pre);
            && Amount(r.out) == Amount(out) + |Bytes(pre)|
            && (r.Came? ==> Pending(r.out.queue, r.vec) && r.out.wire == out.wire && |r.out.queue| == |out.queue| + |pre|)
            && (r.Broke? ==> Still(r.out.queue) && |Strip(r.out).queue| < |out.queue| + |pre|)
    decreases |pre|
  {
    if pre != [] {
      var b, rest := pre[0], pre[1..];
      assert |Bytes(pre)| == |b.Content()| + |Bytes(rest)|;
      if BySendfile(b) {
        SentKeeps(out, vec);
        var q := Sent(out, vec).queue;
        BytesConcat(q, rest);
        PendingStill(q);
        StillConcat(q, rest);
      } else {
        var d := b.Content();
        var m := if b.IsMetadata() then b else Morphed(b, d);
        var vec' := if b.IsMetadata() then vec else vec + [d];
        PendingAppend(out.queue, vec, m);
        AppendAmount(out, [m]);
        BytesOne(m);
        if |vec'| < MAX_IOVEC_TO_WRITE {
          AdvanceKeeps(out.Append([m]), vec', rest);
        } else {
          FullKeeps(out.Append([m]), vec', rest);
        }
      }
    }
  }

  lemma FullKeeps(out: Snapshot, vec: seq<seq<Byte>>, rest: seq<Bucket>)
    requires Pending(out.queue, vec) && Still(rest) && out.queue != []
    ensures var s := Sent(out, vec).Append(rest);
            Amount(s) == Amount(out) + |Bytes(rest)| && Still(s.queue) && |Strip(s).queue| < |out.queue| + |rest|
  {
    SentKeeps(out, vec);
    var t := Sent(out, vec);
    AppendAmount(t, rest);
    PendingStill(t.queue);
    StillConcat(t.queue, rest);
    if Flat(vec) == [] {
      FlatOfDataContents(out.queue);
      HeadTail(out.queue, rest);
      assert out.queue[0] in out.queue;
      assert |Bytes(out.queue)| == |out.queue[0].Content()| + |Bytes(out.queue[1..])|;
    }
  }

  /** What keeps the vector from being hollow where the next bucket may block. */
  lemma {:induction false} AdvanceSafe(out: Snapshot, vec: seq<seq<Byte>>, pre: seq<Bucket>, b: Bucket)
    requires Pending(out.queue, vec) && Still(pre) && |vec| < MAX_IOVEC_TO_WRITE && b.Stream?
    requires Safe(pre + [b], Held(vec)) && (vec == [] ==> pre == [] || !Skippable(pre[0]))
    ensures var r := Advance(out, vec, pre);
            if r.Came? then Held(r.vec) == 0 else Safe(r.out.queue + [b], 0)
    decreases |pre|
  {
    if pre == [] {
      assert pre + [b] == [b];
    } else {
      var x, rest := pre[0], pre[1..];
      HeadTail(pre, [b]);
      SafeWeaken(rest + [b], Hold(x, Held(vec)));
      if BySendfile(x) {
        SentKeeps(out, vec);
        StoppedSafe(Sent(out, vec).queue, rest, b);
      } else {
        var d := x.Content();
        var m := if x.IsMetadata() then x else Morphed(x, d);
        var vec' := if x.IsMetadata() then vec else vec + [d];
        PendingAppend(out.queue, vec, m);
        if !x.IsMetadata() {
          HeldNext(vec, x, d);
        }
        if |vec'| < MAX_IOVEC_TO_WRITE {
          AdvanceSafe(out.Append([m]), vec', rest, b);
        } else {
          SentKeeps(out.Append([m]), vec');
          StoppedSafe(Sent(out.Append([m]), vec').queue, rest, b);
        }
      }
    }
  }

  lemma StoppedSafe(q: seq<Bucket>, rest: seq<Bucket>, b: Bucket)
    requires (forall x :: x in q ==> x.Heap? || x.IsMetadata()) && Safe(rest + [b], 0)
    ensures Safe(q + rest + [b], 0)
  {
    Assoc(q, rest, [b]);
    SafeBehindKnown(q, rest + [b]);
  }

  // ----- passes until all is sent

  lemma {:induction false} StripKeeps(s: Snapshot)
    ensures var t := Strip(s);
            && Amount(t) == Amount(s) && t.wire == s.wire && (Still(s.queue) ==> Still(t.queue))
            && (forall b: Bucket :: Safe(s.queue + [b], 0) ==> Safe(t.queue + [b], 0))
    decreases |s.queue|
  {
    if s.queue != [] && Skippable(s.queue[0]) {
      var u := Snapshot(s.wire, s.log + Destroyed(s.queue[0], |s.wire|), s.queue[1..]);
      StripKeeps(u);
      assert |Bytes(s.queue)| == |s.queue[0].Content()| + |Bytes(u.queue)|;
      forall b: Bucket | Safe(s.queue + [b], 0) ensures Safe(u.queue + [b], 0) {
        HeadTail(s.queue, [b]);
        SafeWeaken(u.queue + [b], Hold(s.queue[0], 0));
      }
    }
  }

  /** Nothing behind a bucket that stays is stripped. */
  lemma {:induction false} StripFront(s: Snapshot, t: seq<Bucket>)
    requires t != [] && !Skippable(t[0])
    ensures Strip(s.Append(t)) == Strip(s).Append(t)
    decreases |s.queue|
  {
    if s.queue == [] {
      assert [] + t == t;
    } else {
      HeadTail(s.queue, t);
      if Skippable(s.queue[0]) {
        StripFront(Snapshot(s.wire, s.log + Destroyed(s.queue[0], |s.wire|), s.queue[1..]), t);
      }
    }
  }

  lemma {:induction false} StillPass(net: Net, cap: nat, k: nat) returns (net': Net)
    requires Still(net.out.queue) && |Bytes(net.out.queue)| <= cap && Willing(net.answers, cap, k + |net.out.queue| + 16)
    ensures SendPass(net) == (net', Success) && Willing(net'.answers, cap, k)
    ensures Amount(net'.out) == Amount(net.out) && Still(net'.out.queue) && net.out.wire <= net'.out.wire
    ensures net.out.queue == [] || |net'.out.queue| < |net.out.queue|
  {
    var s := Strip(net.out);
    StripKeeps(net.out);
    var start, q := s.(queue := []), s.queue;
    assert q + [] == q;
    var answers := AdvanceIs(Net(start, net.answers), [], q, [], cap, k + 8);
    AdvanceKeeps(start, [], q);
    var r := Advance(start, [], q);
    AdvanceGrows(start, [], q);
    if r.Broke? {
      assert r.out.Append([]) == r.out;
      StripKeeps(r.out);
      net' := Net(Strip(r.out), answers);
    } else {
      FlatOfDataContents(r.out.queue);
      WriteTakesAll(Net(r.out, answers), r.vec, cap, k);
      SentKeeps(r.out, r.vec);
      var done := WritevIfAny(Net(r.out, answers), r.vec).0;
      PendingStill(done.out.queue);
      StripKeeps(done.out);
      net' := Net(Strip(done.out), done.answers);
      AllStripped(done.out);
    }
  }

  lemma {:induction false} AllStripped(s: Snapshot)
    requires Bytes(s.queue) == [] && forall x :: x in s.queue ==> x.Heap? || x.IsMetadata()
    ensures Strip(s).queue == []
    decreases |s.queue|
  {
    if s.queue != [] {
      assert s.queue[0] in s.queue;
      assert |Bytes(s.queue)| == |s.queue[0].Content()| + |Bytes(s.queue[1..])|;
      AllStripped(Snapshot(s.wire, s.log + Destroyed(s.queue[0], |s.wire|), s.queue[1..]));
    }
  }

  lemma {:induction false} AdvanceGrows(out: Snapshot, vec: seq<seq<Byte>>, pre: seq<Bucket>)
    ensures out.wire <= Advance(out, vec, pre).out.wire
    decreases |pre|
  {
    if pre != [] && !BySendfile(pre[0]) {
      var d := pre[0].Content();
      if pre[0].IsMetadata() {
        AdvanceGrows(out.Append([pre[0]]), vec, pre[1..]);
      } else if |vec| + 1 < MAX_IOVEC_TO_WRITE {
        AdvanceGrows(out.Append([Morphed(pre[0], d)]), vec + [d], pre[1..]);
      }
    }
  }

  /** Calls that are enough for `n` buckets that do not block. */
  function Budget(n: nat): nat {
    if n == 0 then 0 else n + 16 + Budget(n - 1)
  }

  lemma {:induction false} BudgetGrows(m: nat, n: nat)
    requires m <= n
    ensures Budget(m) <= Budget(n)
  {
    if m < n {
      BudgetGrows(m, n - 1);
    }
  }

  lemma {:induction false} StillAll(net: Net, cap: nat, k: nat) returns (net': Net)
    requires Still(net.out.queue) && Amount(net.out) <= cap && Willing(net.answers, cap, k + Budget(|net.out.queue|))
    ensures SendAll(net) == (net', Success) && Willing(net'.answers, cap, k)
    ensures net'.out.queue == [] && Amount(net'.out) == Amount(net.out)
    decreases |net.out.queue|
  {
    if net.out.queue == [] {
      net' := net;
    } else {
      var n := |net.out.queue|;
      var sent := StillPass(net, cap, k + Budget(n - 1));
      BudgetGrows(|sent.out.queue|, n - 1);
      net' := StillAll(sent, cap, k);
    }
  }

  // ----- the two buckets

  /** A byte at a time, `j` times. */
  function Burst(j: nat): Future {
    if j == 0 then Ended else Arrives([0], Burst(j - 1))
  }

  function Zeros(j: nat): seq<Bucket> {
    if j == 0 then [] else [Heap([0], false)] + Zeros(j - 1)
  }

  const FIRST := Stream(WouldBlock(Ended))
  const SECOND := Stream(WouldBlock(Burst(MAX_IOVEC_TO_WRITE)))

  function Pair(mid: seq<Bucket>, post: seq<Bucket>): seq<Bucket> {
    [FIRST] + (mid + ([SECOND] + post))
  }

  /** What may lie between the two: no byte, no unknown-length bucket, and too few to fill the vector. */
  predicate Thin(mid: seq<Bucket>) {
    Bytes(mid) == [] && |DataContents(mid)| < MAX_IOVEC_TO_WRITE - 1 && forall x :: x in mid ==> !x.Stream?
  }

  lemma {:induction false} ZerosAre(j: nat)
    ensures Pending(Zeros(j), DataContents(Zeros(j))) && |DataContents(Zeros(j))| == |Zeros(j)| == j && |Flat(DataContents(Zeros(j)))| == j
    ensures forall i :: 0 <= i < j ==> DataContents(Zeros(j))[i] == [0]
  {
    if j > 0 {
      ZerosAre(j - 1);
      assert Zeros(j)[1..] == Zeros(j - 1);
      assert DataContents(Zeros(j)) == [[0]] + DataContents(Zeros(j - 1));
    }
  }

  /** A bucket that would block and then ends: what is waiting is written, and an empty entry begins the
      next vector. */
  lemma BlockedThenEnded(net: Net, vec: seq<seq<Byte>>, t: seq<Bucket>)
    requires |vec| < MAX_IOVEC_TO_WRITE && WritevIfAny(net, vec).1.Success?
    ensures Gather(net, vec, [FIRST] + t) == Gather(WritevIfAny(net, vec).0.Append([Heap([], false)]), [[]], t)
  {
    var todo := [FIRST] + t;
    var empty: seq<Byte> := [];
    assert todo[1..] == t && [] + [empty] == [empty] && [] + t == t;
    assert Gather(net, vec, todo) == Push(WritevIfAny(net, vec).0.Append([Heap([], false)]), [[]], t);
  }

  lemma BlockedThenBurst(net: Net, vec: seq<seq<Byte>>, j: nat, t: seq<Bucket>)
    requires |vec| < MAX_IOVEC_TO_WRITE && WritevIfAny(net, vec).1.Success? && j > 0
    ensures Gather(net, vec, [Stream(WouldBlock(Burst(j)))] + t)
         == Gather(WritevIfAny(net, vec).0.Append([Heap([0], false)]), [[0]], [Stream(Burst(j - 1))] + t)
  {
    var todo := [Stream(WouldBlock(Burst(j)))] + t;
    var byte: seq<Byte> := [0];
    assert todo[1..] == t && [] + [byte] == [byte];
    assert Gather(net, vec, todo) == Push(WritevIfAny(net, vec).0.Append([Heap([0], false)]), [[0]], [Stream(Burst(j - 1))] + t);
  }

  lemma BurstStep(net: Net, vec: seq<seq<Byte>>, j: nat, t: seq<Bucket>)
    requires |vec| < MAX_IOVEC_TO_WRITE && j > 0
    ensures Gather(net, vec, [Stream(Burst(j))] + t) == Push(net.Append([Heap([0], false)]), vec + [[0]], [Stream(Burst(j - 1))] + t)
  {
    var todo := [Stream(Burst(j))] + t;
    assert todo[1..] == t;
  }

  /** The bytes fill the vector. */
  lemma {:induction false} BurstGathered(net: Net, vec: seq<seq<Byte>>, j: nat, t: seq<Bucket>)
    requires j > 0 && |vec| + j == MAX_IOVEC_TO_WRITE
    ensures |DataContents(Zeros(j))| == j
    ensures Gather(net, vec, [Stream(Burst(j))] + t) == Push(net.Append(Zeros(j)), vec + DataContents(Zeros(j)), [Stream(Ended)] + t)
    decreases j
  {
    ZerosAre(j);
    BurstStep(net, vec, j, t);
    ZerosAre(j - 1);
    assert Zeros(j)[1..] == Zeros(j - 1);
    assert DataContents(Zeros(j)) == [[0]] + DataContents(Zeros(j - 1));
    if j == 1 {
      assert Zeros(1) == [Heap([0], false)] && DataContents(Zeros(1)) == [[0]];
    } else {
      BurstGathered(net.Append([Heap([0], false)]), vec + [[0]], j - 1, t);
      Assoc(net.out.queue, [Heap([0], false)], Zeros(j - 1));
      Assoc(vec, [[0]], DataContents(Zeros(j - 1)));
    }
  }

  /** All of a vector is retired from a brigade it is not in step with: as many data buckets go as the
      vector has entries, whatever they hold. */
  lemma {:induction false} RetireDrops(v: Vectored, at: nat)
    requires |v.vec| <= |DataContents(v.queue)| && forall x :: x in v.queue ==> x.Heap? || x.IsMetadata()
    ensures var r := Retire(v, |Flat(v.vec)|, at);
            && DataContents(r.queue) == DataContents(v.queue)[|v.vec|..]
            && |r.queue| <= |v.queue| && forall x :: x in r.queue ==> x in v.queue
    decreases |v.vec| + |v.queue|
  {
    if v.vec != [] {
      var b := v.queue[0];
      if b.IsMetadata() {
        RetireDrops(Vectored(v.log + Destroyed(b, at), v.queue[1..], v.vec), at);
      } else {
        RetireDrops(Vectored(v.log, v.queue[1..], v.vec[1..]), at);
        assert DataContents(v.queue) == [b.Content()] + DataContents(v.queue[1..]);
      }
    }
  }

  lemma {:induction false} ThinCame(out: Snapshot, vec: seq<seq<Byte>>, mid: seq<Bucket>)
    requires Flat(vec) == [] && Bytes(mid) == [] && |vec| + |DataContents(mid)| < MAX_IOVEC_TO_WRITE
    ensures var r := Advance(out, vec, mid);
            r.Came? && Flat(r.vec) == [] && |r.vec| == |vec| + |DataContents(mid)|
    decreases |mid|
  {
    if mid != [] {
      var b := mid[0];
      assert |Bytes(mid)| == |b.Content()| + |Bytes(mid[1..])|;
      if b.IsMetadata() {
        ThinCame(out.Append([b]), vec, mid[1..]);
      } else {
        FlatSnoc(vec, []);
        assert DataContents(mid) == [b.Content()] + DataContents(mid[1..]);
        ThinCame(out.Append([Morphed(b, [])]), vec + [[]], mid[1..]);
      }
    }
  }

  lemma {:induction false} NoStreamIsStill(q: seq<Bucket>)
    requires forall x :: x in q ==> !x.Stream?
    ensures Still(q)
  {
    if q != [] {
      assert q[0] in q;
      NoStreamIsStill(q[1..]);
    }
  }

  /** What is left of a brigade in which `stale` empty data buckets stand before a full vector of bytes. */
  lemma BytesLeft(q: seq<Bucket>, stale: seq<seq<Byte>>, rest: seq<Bucket>)
    requires |stale| <= MAX_IOVEC_TO_WRITE && DataContents(q) == stale + DataContents(Zeros(MAX_IOVEC_TO_WRITE))
    requires |DataContents(q)| >= MAX_IOVEC_TO_WRITE && DataContents(rest) == DataContents(q)[MAX_IOVEC_TO_WRITE..]
    ensures |Bytes(rest)| == |stale|
  {
    var n, k := MAX_IOVEC_TO_WRITE, |stale|;
    ZerosAre(n);
    ZerosAre(k);
    FlatOfDataContents(rest);
    assert DataContents(rest) == DataContents(Zeros(k));
  }

  /** The full vector is written with the stale entries still in front. */
  lemma StaleWrite(out: Snapshot, stale: seq<seq<Byte>>)
    requires Pending(out.queue, stale) && |stale| <= MAX_IOVEC_TO_WRITE
    ensures var full := out.Append(Zeros(MAX_IOVEC_TO_WRITE));
            var s := Sent(full, DataContents(Zeros(MAX_IOVEC_TO_WRITE)));
            && Amount(s) == |out.wire| + MAX_IOVEC_TO_WRITE + |stale|
            && |s.queue| <= |out.queue| + MAX_IOVEC_TO_WRITE && Still(s.queue)
  {
    var n := MAX_IOVEC_TO_WRITE;
    var vec, q := DataContents(Zeros(n)), out.queue + Zeros(n);
    ZerosAre(n);
    DataContentsConcat(out.queue, Zeros(n));
    RetireDrops(Vectored(out.log, q, vec), |out.wire| + n);
    var r := Retire(Vectored(out.log, q, vec), n, |out.wire| + n);
    BytesLeft(q, stale, r.queue);
    PendingStill(r.queue);
  }

  /** From the second bucket on: a hollow vector is waiting, and nothing of it is removed. */
  lemma AtSecond(net: Net, vec: seq<seq<Byte>>, post: seq<Bucket>, cap: nat, k: nat) returns (net': Net, s: Snapshot)
    requires Pending(net.out.queue, vec) && vec != [] && Flat(vec) == [] && |vec| < MAX_IOVEC_TO_WRITE <= cap
    requires Willing(net.answers, cap, k + 8)
    ensures Gather(net, vec, [SECOND] + post) == (net', Success) && Willing(net'.answers, cap, k)
    ensures net'.out == Strip(s.Append([Stream(Ended)] + post)) && Amount(s) == |net.out.wire| + MAX_IOVEC_TO_WRITE + |vec|
    ensures |s.queue| <= |net.out.queue| + MAX_IOVEC_TO_WRITE && Still(s.queue)
  {
    var n := MAX_IOVEC_TO_WRITE;
    WriteTakesAll(net, vec, cap, k + 4);
    var net1 := WritevIfAny(net, vec).0;
    BlockedThenBurst(net, vec, n, post);
    var net2 := net1.Append([Heap([0], false)]);
    BurstGathered(net2, [[0]], n - 1, post);
    ZerosAre(n);
    ZerosAre(n - 1);
    assert Zeros(n)[1..] == Zeros(n - 1);
    assert DataContents(Zeros(n)) == [[0]] + DataContents(Zeros(n - 1));
    Assoc(net1.out.queue, [Heap([0], false)], Zeros(n - 1));
    var net3, all := net1.Append(Zeros(n)), DataContents(Zeros(n));
    WriteTakesAll(net3, all, cap, k);
    StaleWrite(net.out, vec);
    s := Sent(net3.out, all);
    net' := Net(Strip(s.Append([Stream(Ended)] + post)), Writev(net3, all).0.answers);
  }

  /** From the first bucket on: what is waiting is written, and an empty entry stays behind. */
  lemma AtFirst(net: Net, vec: seq<seq<Byte>>, mid: seq<Bucket>, post: seq<Bucket>, cap: nat, k: nat) returns (net': Net, s: Snapshot)
    requires Pending(net.out.queue, vec) && |vec| < MAX_IOVEC_TO_WRITE <= cap && Held(vec) == 0 && |Flat(vec)| <= cap && Thin(mid)
    requires Willing(net.answers, cap, k + |mid| + 20)
    ensures Gather(net, vec, Pair(mid, post)) == (net', Success) && Willing(net'.answers, cap, k)
    ensures net'.out == Strip(s.Append([Stream(Ended)] + post)) && Still(s.queue)
    ensures Amount(net.out) + MAX_IOVEC_TO_WRITE < Amount(s) <= Amount(net.out) + 2 * MAX_IOVEC_TO_WRITE
    ensures |s.queue| <= |net.out.queue| + |mid| + 1 + MAX_IOVEC_TO_WRITE
  {
    WriteTakesAll(net, vec, cap, k + |mid| + 16);
    SentKeeps(net.out, vec);
    BlockedThenEnded(net, vec, mid + ([SECOND] + post));
    var net1 := WritevIfAny(net, vec).0;
    var net2 := net1.Append([Heap([], false)]);
    var hollow: seq<seq<Byte>> := [[]];
    PendingAppend(net1.out.queue, [], Heap([], false));
    assert [] + hollow == hollow && hollow[1..] == [] && Flat(hollow) == [];
    NoStreamIsStill(mid);
    var answers := AdvanceIs(net2, hollow, mid, [SECOND] + post, cap, k + 8);
    ThinCame(net2.out, hollow, mid);
    AdvanceKeeps(net2.out, hollow, mid);
    var r := Advance(net2.out, hollow, mid);
    net', s := AtSecond(Net(r.out, answers), r.vec, post, cap, k);
  }

  /** Calls that are enough for `i` buckets before the pair, in a brigade of at most `n`, and those left of
      them after a pass. */
  function PairBudget(i: nat, n: nat): nat
    decreases i, 1
  {
    2 * n + 60 + BudgetLeft(i, n)
  }

  function BudgetLeft(i: nat, n: nat): nat
    decreases i, 0
  {
    if i == 0 then Budget(2 * n + 60) else PairBudget(i - 1, n)
  }

  lemma {:induction false} PairBudgetGrows(i: nat, j: nat, n: nat)
    requires i <= j
    ensures PairBudget(i, n) <= PairBudget(j, n)
  {
    if i < j {
      PairBudgetGrows(i, j - 1, n);
    }
  }

  /** A pass over the pair and what is in front of it: either it stops in front, or it repeats bytes. */
  lemma PairPass(net: Net, pre: seq<Bucket>, mid: seq<Bucket>, post: seq<Bucket>, cap: nat, k: nat)
      returns (net': Net, broke: bool, s: Snapshot)
    requires net.out.queue == pre + Pair(mid, post) && Still(pre) && Still(post) && Thin(mid) && Safe(pre + [FIRST], 0)
    requires |Bytes(pre)| + MAX_IOVEC_TO_WRITE <= cap && Willing(net.answers, cap, k + |pre| + |mid| + 40)
    ensures SendPass(net) == (net', Success) && Willing(net'.answers, cap, k)
    ensures broke ==>
              && net'.out == s.Append(Pair(mid, post)) && Still(s.queue) && Safe(s.queue + [FIRST], 0)
              && |s.queue| < |pre| && Amount(s) == |net.out.wire| + |Bytes(pre)|
    ensures !broke ==>
              && Still(net'.out.queue) && |net'.out.queue| <= |pre| + |mid| + |post| + 20
              && var n := |net.out.wire| + |Bytes(pre)| + |Bytes(post)|; n + MAX_IOVEC_TO_WRITE < Amount(net'.out) <= n + 2 * MAX_IOVEC_TO_WRITE
  {
    var pair, before := Pair(mid, post), net.out.(queue := pre);
    assert net.out == before.Append(pair);
    StripFront(before, pair);
    StripKeeps(before);
    var strip := Strip(before);
    var start := strip.(queue := []);
    assert SendPass(net) == Gather(Net(start, net.answers), [], strip.queue + pair);
    var answers := AdvanceIs(Net(start, net.answers), [], strip.queue, pair, cap, k + |mid| + 20);
    AdvanceKeeps(start, [], strip.queue);
    AdvanceSafe(start, [], strip.queue, FIRST);
    var r := Advance(start, [], strip.queue);
    broke := r.Broke?;
    if broke {
      StripFront(r.out, pair);
      StripKeeps(r.out);
      s := Strip(r.out);
      net' := Net(s.Append(pair), answers);
    } else {
      FlatOfDataContents(r.out.queue);
      net', s := AtFirst(Net(r.out, answers), r.vec, mid, post, cap, k);
      RepeatedStill(s, post);
    }
  }

  lemma RepeatedStill(s: Snapshot, post: seq<Bucket>)
    requires Still(s.queue) && Still(post)
    ensures var t := Strip(s.Append([Stream(Ended)] + post));
            Still(t.queue) && Amount(t) == Amount(s) + |Bytes(post)| && |t.queue| <= |s.queue| + 1 + |post|
  {
    var tail := [Stream(Ended)] + post;
    assert tail[1..] == post;
    StillConcat(s.queue, tail);
    AppendAmount(s, tail);
    BytesConcat([Stream(Ended)], post);
    BytesOne(Stream(Ended));
    StripKeeps(s.Append(tail));
  }

  /** The brigade is `pre`, the pair and `post`, and nothing in `pre` keeps the pair from being reached. */
  ghost predicate Poised(q: seq<Bucket>, pre: seq<Bucket>, mid: seq<Bucket>, post: seq<Bucket>) {
    q == pre + Pair(mid, post) && Still(pre) && Still(post) && Thin(mid) && Safe(pre + [FIRST], 0)
  }

  /** The blocking send of a brigade with such a pair succeeds, and has put too much on the wire. */
  lemma {:induction false} PairAll(net: Net, pre: seq<Bucket>, mid: seq<Bucket>, post: seq<Bucket>, n: nat, cap: nat, k: nat)
      returns (net': Net)
    requires Poised(net.out.queue, pre, mid, post) && |pre| + |mid| + |post| <= n
    requires |net.out.wire| + |Bytes(pre)| + |Bytes(post)| + 2 * MAX_IOVEC_TO_WRITE <= cap
    requires Willing(net.answers, cap, k + PairBudget(|pre|, n))
    ensures SendAll(net) == (net', Success) && Willing(net'.answers, cap, k)
    ensures net'.out.queue == [] && |net'.out.wire| > |net.out.wire| + |Bytes(pre)| + MAX_IOVEC_TO_WRITE + |Bytes(post)|
    decreases |pre|
  {
    var sent, broke, front := PairOnward(net, pre, mid, post, n, cap, k);
    if broke {
      net' := PairAll(sent, front, mid, post, n, cap, k);
    } else {
      net' := PairDone(sent, |pre|, n, cap, k);
    }
  }

  /** One pass of it: the pair is still to come, behind less than before, or has gone wrong. */
  lemma {:induction false} PairOnward(net: Net, pre: seq<Bucket>, mid: seq<Bucket>, post: seq<Bucket>, n: nat, cap: nat, k: nat)
      returns (sent: Net, broke: bool, front: seq<Bucket>)
    requires Poised(net.out.queue, pre, mid, post) && |pre| + |mid| + |post| <= n
    requires |net.out.wire| + |Bytes(pre)| + |Bytes(post)| + 2 * MAX_IOVEC_TO_WRITE <= cap
    requires Willing(net.answers, cap, k + PairBudget(|pre|, n))
    ensures SendAll(net) == SendAll(sent)
    ensures broke ==>
              && Poised(sent.out.queue, front, mid, post) && |front| < |pre|
              && |sent.out.wire| + |Bytes(front)| == |net.out.wire| + |Bytes(pre)|
              && Willing(sent.answers, cap, k + PairBudget(|front|, n))
    ensures !broke ==>
              && Still(sent.out.queue) && Willing(sent.answers, cap, k + BudgetLeft(|pre|, n)) && |sent.out.queue| <= n + 20
              && |net.out.wire| + |Bytes(pre)| + |Bytes(post)| + MAX_IOVEC_TO_WRITE < Amount(sent.out) <= cap
  {
    var s;
    sent, broke, s := PairPass(net, pre, mid, post, cap, k + BudgetLeft(|pre|, n));
    PassGoesOn(net, sent);
    front := s.queue;
    if broke {
      PairBudgetGrows(|front|, |pre| - 1, n);
      assert Poised(sent.out.queue, front, mid, post);
    }
  }

  lemma PairDone(sent: Net, i: nat, n: nat, cap: nat, k: nat) returns (net': Net)
    requires Still(sent.out.queue) && Amount(sent.out) <= cap && |sent.out.queue| <= n + 20
    requires Willing(sent.answers, cap, k + BudgetLeft(i, n))
    ensures SendAll(sent) == (net', Success) && Willing(net'.answers, cap, k)
    ensures net'.out.queue == [] && |net'.out.wire| == Amount(sent.out)
  {
    LeftIsEnough(i, n);
    BudgetGrows(|sent.out.queue|, 2 * n + 60);
    net' := StillAll(sent, cap, k);
  }

  lemma PassGoesOn(net: Net, sent: Net)
    requires net.out.queue != [] && SendPass(net) == (sent, Success)
    ensures SendAll(net) == SendAll(sent)
  {
  }

  lemma {:induction false} LeftIsEnough(i: nat, n: nat)
    ensures BudgetLeft(i, n) >= Budget(2 * n + 60)
  {
    if i > 0 {
      LeftIsEnough(i - 1, n);
    }
  }

  // ----- brigades of the same shape

  /** The same buckets, but for what unknown-length ones will deliver. */
  ghost predicate SameShape(a: seq<Bucket>, b: seq<Bucket>) {
    |a| == |b| && forall k :: 0 <= k < |a| ==> a[k] == b[k] || (a[k].Stream? && b[k].Stream?)
  }

  /** `Safe` looks at nothing else. */
  lemma {:induction false} SafeByShape(a: seq<Bucket>, b: seq<Bucket>, held: nat)
    requires SameShape(a, b)
    ensures Safe(a, held) == Safe(b, held)
  {
    if a != [] {
      assert a[0] == b[0] || (a[0].Stream? && b[0].Stream?);
      SafeByShape(a[1..], b[1..], Hold(a[0], held));
    }
  }

  /** The shape with every unknown-length bucket at its end. */
  function Calm(q: seq<Bucket>): seq<Bucket> {
    if q == [] then [] else [if q[0].Stream? then Stream(Ended) else q[0]] + Calm(q[1..])
  }

  lemma {:induction false} CalmIs(q: seq<Bucket>)
    ensures Still(Calm(q)) && SameShape(q, Calm(q))
  {
    if q != [] {
      CalmIs(q[1..]);
      assert Calm(q)[1..] == Calm(q[1..]);
    }
  }

  /** What `held` has become behind `q`. */
  function HeldBehind(q: seq<Bucket>, held: nat): nat {
    if q == [] then held else HeldBehind(q[1..], Hold(q[0], held))
  }

  lemma {:induction false} SafeSnoc(q: seq<Bucket>, b: Bucket, held: nat)
    ensures Safe(q + [b], held) <==> Safe(q, held) && (b.Stream? ==> HeldBehind(q, held) == 0)
  {
    if q == [] {
      assert q + [b] == [b];
    } else {
      HeadTail(q, [b]);
      SafeSnoc(q[1..], b, Hold(q[0], held));
    }
  }

  /** Something is held behind `q` because of what was held before, or of an unknown-length bucket in `q`. */
  lemma {:induction false} HeldSince(q: seq<Bucket>, held: nat) returns (i: int)
    requires HeldBehind(q, held) > 0 && held < MAX_IOVEC_TO_WRITE
    ensures HeldBehind(q, held) < MAX_IOVEC_TO_WRITE && -1 <= i < |q|
    ensures i == -1 ==> held > 0
    ensures i >= 0 ==> q[i].Stream?
    ensures var rest := q[i + 1..];
            Bytes(rest) == [] && (forall x :: x in rest ==> !x.Stream?) && HeldBehind(q, held) == (if i == -1 then held else 1) + |DataContents(rest)|
  {
    if q == [] {
      i := -1;
    } else {
      var b, held' := q[0], Hold(q[0], held);
      var j := HeldSince(q[1..], held');
      assert q[1..][j + 1..] == q[j + 2..];
      if j >= 0 || b.Stream? {
        i := j + 1;
      } else {
        i := -1;
        assert q[0..] == q && q[1..][0..] == q[1..];
        assert b.Content() == [];
        assert DataContents(q) == (if b.IsMetadata() then [] else [b.Content()]) + DataContents(q[1..]);
        forall x | x in q ensures !x.Stream? {
          assert x == b || x in q[1..];
        }
      }
    }
  }

  /** A brigade that is not safe has two unknown-length buckets too close, and is safe up to the first. */
  lemma {:induction false} FirstPair(bb: seq<Bucket>) returns (i: nat, j: nat)
    requires !Safe(bb, 0)
    ensures i < j < |bb| && bb[i].Stream? && bb[j].Stream? && Thin(bb[i + 1..j]) && Safe(bb[..i + 1], 0)
  {
    var n := |bb| - 1;
    var p, b := bb[..n], bb[n];
    assert bb == p + [b];
    SafeSnoc(p, b, 0);
    if !Safe(p, 0) {
      i, j := FirstPair(p);
      assert p[i + 1..j] == bb[i + 1..j] && p[..i + 1] == bb[..i + 1];
    } else {
      i := LastPair(p, b);
      j := n;
      assert p[i + 1..] == bb[i + 1..j] && p[..i + 1] == bb[..i + 1];
    }
  }

  /** The stream in front of the one that makes a safe brigade unsafe. */
  lemma LastPair(p: seq<Bucket>, b: Bucket) returns (i: nat)
    requires Safe(p, 0) && !Safe(p + [b], 0)
    ensures b.Stream? && i < |p| && p[i].Stream? && Thin(p[i + 1..]) && Safe(p[..i + 1], 0)
  {
    SafeSnoc(p, b, 0);
    i := HeldSince(p, 0);
    assert p == p[..i + 1] + p[i + 1..];
    SafePrefix(p[..i + 1], p[i + 1..], 0);
  }

  /** A brigade of the shape of `bb` with the pair in place. */
  function Refit(bb: seq<Bucket>, i: nat, j: nat): seq<Bucket>
    requires i < j < |bb|
  {
    Calm(bb[..i]) + Pair(bb[i + 1..j], Calm(bb[j + 1..]))
  }

  lemma RefitShape(bb: seq<Bucket>, i: nat, j: nat)
    requires i < j < |bb| && bb[i].Stream? && bb[j].Stream?
    ensures SameShape(bb, Refit(bb, i, j))
  {
    CalmIs(bb[..i]);
    CalmIs(bb[j + 1..]);
    var pre, mid, post, bb' := Calm(bb[..i]), bb[i + 1..j], Calm(bb[j + 1..]), Refit(bb, i, j);
    forall k | 0 <= k < |bb| ensures bb[k] == bb'[k] || (bb[k].Stream? && bb'[k].Stream?) {
      if k < i {
        assert bb[..i][k] == bb[k] && bb'[k] == pre[k];
      } else if k > j {
        assert bb[j + 1..][k - j - 1] == bb[k] && bb'[k] == post[k - j - 1];
      }
    }
  }

  lemma {:induction false} BurstContent(j: nat)
    ensures |Burst(j).Content()| == j
  {
    if j > 0 {
      BurstContent(j - 1);
    }
  }

  lemma PairBytes(pre: seq<Bucket>, mid: seq<Bucket>, post: seq<Bucket>)
    requires Bytes(mid) == []
    ensures |Bytes(pre + Pair(mid, post))| == |Bytes(pre)| + MAX_IOVEC_TO_WRITE + |Bytes(post)|
  {
    BytesConcat(pre, Pair(mid, post));
    BytesConcat([FIRST], mid + ([SECOND] + post));
    BytesConcat(mid, [SECOND] + post);
    BytesConcat([SECOND], post);
    BytesOne(FIRST);
    BytesOne(SECOND);
    BurstContent(MAX_IOVEC_TO_WRITE);
  }

  lemma PairCut(pre: seq<Bucket>, mid: seq<Bucket>, post: seq<Bucket>, k: nat)
    requires k <= |post|
    ensures var q, n := pre + Pair(mid, post), |pre| + |mid| + 2;
            |q| == n + |post| && q[n - 1] == SECOND && q[..n + k] == pre + Pair(mid, post[..k]) && q[n + k..] == post[k..]
  {
    assert Pair(mid, post) == [FIRST] + mid + [SECOND] + post;
    assert Pair(mid, post[..k]) == [FIRST] + mid + [SECOND] + post[..k];
  }

  lemma StopPast(q: seq<Bucket>, n: nat) returns (k: nat)
    requires 0 < n <= |q| && Urgent(q[n - 1])
    ensures n + k <= |q| && Scan(q).upto == n + k && Alarms(q[n + k..]) == 0
  {
    UrgentBeforeStop(q, n - 1);
    ScanTail(q);
    k := Scan(q).upto - n;
  }

  /** Where the scan stops is behind the pair; what is behind that is quiet. */
  lemma {:induction false} ScanPastPair(pre: seq<Bucket>, mid: seq<Bucket>, post: seq<Bucket>) returns (due: seq<Bucket>, tail: seq<Bucket>)
    ensures var q := pre + Pair(mid, post); var upto := Scan(q).upto;
            upto > 0 && q[..upto] == pre + Pair(mid, due) && q[upto..] == tail && post == due + tail && Alarms(tail) == 0
  {
    var q, n := pre + Pair(mid, post), |pre| + |mid| + 2;
    PairCut(pre, mid, post, 0);
    var k := StopPast(q, n);
    PairCut(pre, mid, post, k);
    due, tail := post[..k], post[k..];
  }

  lemma {:induction false} QuietIsStill(q: seq<Bucket>)
    requires Alarms(q) == 0
    ensures Still(q)
  {
    if q != [] {
      QuietIsStill(q[1..]);
    }
  }

  /** Rule 4 on a willing socket: nothing lost, no abort. */
  lemma TailKept(c: Conn, net: Net, bytes: nat, cap: nat)
    requires Alarms(net.out.queue) == 0 && |Bytes(net.out.queue)| <= cap && Willing(net.answers, cap, |net.out.queue| + 16)
    ensures var c' := WriteSome(c, net, bytes).0;
            c'.aborted == c.aborted && Amount(c'.net.out) == Amount(net.out)
  {
    QuietIsStill(net.out.queue);
    if bytes >= THRESHOLD_MIN_WRITE {
      var sent := StillPass(net, cap, 0);
      StripKeeps(sent.out);
    } else {
      StripKeeps(net.out);
    }
  }

  function Willingly(cap: nat, k: nat): seq<Answer> {
    seq(k, _ => Answer(cap, Success))
  }

  /** The run: no abort, and more bytes than were passed in. */
  lemma PairRun(pre: seq<Bucket>, mid: seq<Bucket>, post: seq<Bucket>) returns (answers: seq<Answer>)
    requires Still(pre) && Still(post) && Thin(mid) && Safe(pre + [FIRST], 0)
    ensures var bb := pre + Pair(mid, post);
            var c := Run(Start(answers), [Some(bb)]);
            !c.aborted && Amount(c.net.out) > |Bytes(bb)|
  {
    var bb := pre + Pair(mid, post);
    PairBytes(pre, mid, post);
    var n, cap := |bb|, |Bytes(bb)| + 2 * MAX_IOVEC_TO_WRITE;
    var due, tail := ScanPastPair(pre, mid, post);
    StillConcat(due, tail);
    BytesConcat(due, tail);
    answers := Willingly(cap, n + 16 + PairBudget(|pre|, n));
    var c := Start(answers);
    var net := PairAll(c.net.WithQueue(pre + Pair(mid, due)), pre, mid, due, n, cap, n + 16);
    TailKept(c, net.WithQueue(tail), Scan(bb).bytes, cap);
    SentThenKept(c, bb, net);
    OneCall(c, bb);
  }

  lemma SentThenKept(c: Conn, bb: seq<Bucket>, net: Net)
    requires !c.aborted && c.net.out.queue == [] && Scan(bb).upto > 0
    requires SendAll(c.net.WithQueue(bb[..Scan(bb).upto])) == (net, Success)
    ensures Filter(c, Some(bb)).0 == WriteSome(c, net.WithQueue(bb[Scan(bb).upto..]), Scan(bb).bytes).0
  {
    assert [] + bb == bb && c.net.WithQueue([]) == c.net;
  }

  lemma OneCall(c: Conn, bb: seq<Bucket>)
    ensures Run(c, [Some(bb)]) == Filter(c, Some(bb)).0
  {
    assert [Some(bb)][..0] == [];
  }

  /** What conservation asks of a run of one call. */
  ghost predicate Conserved(answers: seq<Answer>, bb: seq<Bucket>) {
    var c := Run(Start(answers), [Some(bb)]);
    if c.aborted then c.net.out.wire <= Bytes(bb) else c.net.out.wire + Bytes(c.net.out.queue) == Bytes(bb)
  }

  /** Whatever a brigade that is not safe holds, one of its shape is sent with bytes repeated. */
  lemma UnsafeShapeFails(bb: seq<Bucket>) returns (bb': seq<Bucket>, answers: seq<Answer>)
    requires !Safe(bb, 0)
    ensures SameShape(bb, bb') && !Run(Start(answers), [Some(bb')]).aborted && !Conserved(answers, bb')
  {
    var i, j := FirstPair(bb);
    var pre, mid, post := Calm(bb[..i]), bb[i + 1..j], Calm(bb[j + 1..]);
    CalmIs(bb[..i]);
    CalmIs(bb[j + 1..]);
    RefitShape(bb, i, j);
    assert SameShape(bb[..i + 1], pre + [FIRST]);
    SafeByShape(bb[..i + 1], pre + [FIRST], 0);
    bb' := Refit(bb, i, j);
    answers := PairRun(pre, mid, post);
    var c := Run(Start(answers), [Some(bb')]);
    assert |c.net.out.wire + Bytes(c.net.out.queue)| == Amount(c.net.out);
  }

  /** The condition is exact: conservation holds for every brigade of a shape, on every socket, if and
      only if the shape is safe. */
  lemma SafeIsExact(bb: seq<Bucket>)
    ensures Safe(bb, 0) <==> forall bb', answers :: SameShape(bb, bb') ==> Conserved(answers, bb')
  {
    if Safe(bb, 0) {
      forall bb', answers | SameShape(bb, bb') ensures Conserved(answers, bb') {
        SafeByShape(bb, bb', 0);
        var inputs := [Some(bb')];
        assert Queued(inputs) == bb' by {
          assert inputs[..0] == [] && [] + bb' == bb';
        }
        BytesConserved(answers, inputs);
      }
    } else {
      var bb', answers := UnsafeShapeFails(bb);
      assert SameShape(bb, bb') && !Conserved(answers, bb');
    }
  }
}
