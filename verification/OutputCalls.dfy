/** The calls the output filter makes, on the socket and to read buckets: which answer each of them gets, what
    they bring, and when they make it give the connection up.
 */
module OutputCalls {
  import opened Wrappers
  import opened Sequences
  import opened Buckets
  import opened OutputModel
  import opened OutputProofs
  import opened OutputOrder
  import opened OutputRuns

  /** A call on the socket, or a read of a bucket that is not in memory, with how it ended. */
  datatype Made =
    | Timeout(status: Status)                 // `apr_socket_timeout_get`, and `_set` before a write
    | Send(status: Status)                    // `apr_socket_sendv`, `apr_socket_sendfile`
    | Restore(status: Status, sent: Status)   // `apr_socket_timeout_set` after a write that ended in `sent`
    | Read(status: Status)                    // of an unknown-length bucket
    | FileRead(status: Status)
    | Polled(status: Status)

  /** It ends the pass it is made in; only the first failure of a write counts. */
  predicate Stops(e: Made) {
    match e
    case Timeout(s) => !s.Success?
    case Send(s) => !s.Success?
    case Restore(s, sent) => sent.Success? && !s.Success?
    case Read(s) => s.Failed?
    case FileRead(s) => s.Failed?
    case Polled(s) => !s.Success? && !s.Interrupted?
  }

  /** It is neither a success nor would-block; a poll has nothing to wait for but a success. */
  predicate Fatal(e: Made) {
    Stops(e) && (e.status.Again? ==> e.Polled?)
  }

  ghost predicate Stopped(es: seq<Made>) {
    exists e :: e in es && Stops(e)
  }

  ghost predicate GivenUp(es: seq<Made>) {
    exists e :: e in es && Fatal(e)
  }

  // ----- the calls that are made

  function Sends(net: Net, vec: seq<seq<Byte>>): seq<Made>
    decreases |Flat(vec)|
  {
    if Flat(vec) == [] then []
    else if !net.Peek().status.Success? then [Send(net.Peek().status)]
    else
      var (net', vec', _) := SendOnce(net, vec);
      [Send(Success)] + Sends(net', vec')
  }

  /** How a series of sends ended. */
  function Sent(es: seq<Made>): Status {
    if es == [] then Success else es[|es| - 1].status
  }

  function WriteCalls(net: Net, vec: seq<seq<Byte>>): seq<Made> {
    var got, set0 := net.Next(), net.Next().Next();
    if vec == [] then []
    else if !net.Peek().status.Success? then [Timeout(net.Peek().status)]
    else if !got.Peek().status.Success? then [Timeout(Success), Timeout(got.Peek().status)]
    else
      var es := Sends(set0, vec);
      [Timeout(Success), Timeout(Success)] + es + [Restore(WriteLoop(set0, vec).0.Peek().status, Sent(es))]
  }

  function FileCalls(net: Net): seq<Made> {
    var got, set0 := net.Next(), net.Next().Next();
    if !net.Peek().status.Success? then [Timeout(net.Peek().status)]
    else if !got.Peek().status.Success? then [Timeout(Success), Timeout(got.Peek().status)]
    else [Timeout(Success), Timeout(Success), Send(set0.Peek().status), Restore(set0.Next().Peek().status, set0.Peek().status)]
  }

  function ReadCalls(net: Net, b: Bucket, block: bool): seq<Made> {
    match b
    case File(_, _) => [FileRead(net.Peek().status)]
    case Stream(f) =>
      (match if block then f.Waited() else f
       case WouldBlock(_) => [Read(Again)]
       case Broken => [Read(Failed)]
       case _ => [Read(Success)])
    case _ => []
  }

  /** Files go by `sendfile` from 256 bytes on. */
  predicate SentByFile(b: Bucket) {
    b.File? && b.sendfile && |b.bytes| >= 256
  }

  ghost function GatherCalls(net: Net, vec: seq<seq<Byte>>, todo: seq<Bucket>): seq<Made>
    requires |vec| < MAX_IOVEC_TO_WRITE
    decreases Work(todo), 1
  {
    var w := WriteCalls(net, vec);
    if todo == [] then w
    else if SentByFile(todo[0]) then (if Stopped(w) then w else w + FileCalls(WritevIfAny(net, vec).0))
    else if todo[0].IsMetadata() then GatherCalls(net.Append([todo[0]]), vec, todo[1..])
    else
      var b := todo[0];
      var first := ReadBucket(b, net.Peek(), false);
      ReadIsProgress(b, net.Peek(), false);
      if !first.status.Again? then ReadCalls(net, b, false) + ProceedCalls(AfterRead(net, b), vec, todo, b, first)
      else if Stopped(w) then ReadCalls(net, b, false) + w
      else
        var net' := WritevIfAny(net, vec).0;
        ReadIsProgress(first.rest[0], net'.Peek(), true);
        ReadCalls(net, b, false) + w + ReadCalls(net', first.rest[0], true)
        + ProceedCalls(net', [], todo, first.rest[0], ReadBucket(first.rest[0], net'.Peek(), true))
  }

  ghost function ProceedCalls(net: Net, vec: seq<seq<Byte>>, todo: seq<Bucket>, b: Bucket, read: ReadResult): seq<Made>
    requires |vec| < MAX_IOVEC_TO_WRITE && todo != []
    requires |read.rest| <= 1 && (read.status.Success? && read.rest != [] ==> Effort(read.rest[0]) < Effort(todo[0]))
    decreases Work(todo), 0
  {
    if !read.status.Success? then []
    else
      var todo' := read.rest + todo[1..];
      assert if read.rest == [] then todo' == todo[1..] else todo'[1..] == todo[1..];
      var net', vec' := net.Append([Morphed(b, read.data)]), vec + [read.data];
      if |vec'| < 16 then GatherCalls(net', vec', todo') else WriteCalls(net', vec')
  }

  ghost function PassCalls(net: Net): seq<Made> {
    var s := Strip(net.out);
    GatherCalls(Net(s.(queue := []), net.answers), [], s.queue)
  }

  function PollCalls(net: Net): seq<Made>
    decreases |net.answers|
  {
    [Polled(net.Peek().status)] + if net.Peek().status.Interrupted? then PollCalls(net.Next()) else []
  }

  // ----- how they end it

  lemma {:induction false} Joined(a: seq<Made>, b: seq<Made>)
    ensures Stopped(a + b) <==> Stopped(a) || Stopped(b)
    ensures GivenUp(a + b) <==> GivenUp(a) || GivenUp(b)
  {
    if Stopped(a) {
      var e :| e in a && Stops(e);
      assert e in a + b;
    }
    if Stopped(b) {
      var e :| e in b && Stops(e);
      assert e in a + b;
    }
    if GivenUp(a) {
      var e :| e in a && Fatal(e);
      assert e in a + b;
    }
    if GivenUp(b) {
      var e :| e in b && Fatal(e);
      assert e in a + b;
    }
  }

  lemma {:induction false} One(e: Made)
    ensures Stopped([e]) <==> Stops(e)
    ensures GivenUp([e]) <==> Fatal(e)
  {
    assert e in [e];
  }

  /** The status is a success if nothing has stopped, and neither success nor would-block if something was fatal. */
  ghost predicate Tells(es: seq<Made>, rv: Status) {
    && (rv.Success? <==> !Stopped(es))
    && (!rv.Success? && !rv.Again? <==> GivenUp(es))
  }

  lemma {:induction false} SendsTell(net: Net, vec: seq<seq<Byte>>)
    ensures Tells(Sends(net, vec), WriteLoop(net, vec).1) && Sent(Sends(net, vec)) == WriteLoop(net, vec).1
    decreases |Flat(vec)|
  {
    if Flat(vec) != [] {
      var (net', vec', rv) := SendOnce(net, vec);
      One(Send(net.Peek().status));
      if rv.Success? {
        SendsTell(net', vec');
        Joined([Send(Success)], Sends(net', vec'));
        assert Sent([Send(Success)] + Sends(net', vec')) == Sent(Sends(net', vec'));
      }
    }
  }

  lemma {:induction false} WriteTells(net: Net, vec: seq<seq<Byte>>)
    ensures Tells(WriteCalls(net, vec), WritevIfAny(net, vec).1)
  {
    if vec != [] {
      var set0 := net.Next().Next();
      var es, last := Sends(set0, vec), Restore(WriteLoop(set0, vec).0.Peek().status, Sent(Sends(set0, vec)));
      SendsTell(set0, vec);
      TimeoutsTell(net);
      Joined([Timeout(Success), Timeout(Success)], es);
      Joined([Timeout(Success), Timeout(Success)] + es, [last]);
      One(last);
    }
  }

  lemma {:induction false} TimeoutsTell(net: Net)
    ensures var a, b := Timeout(net.Peek().status), Timeout(net.Next().Peek().status);
            && Tells([a], a.status) && (a.status.Success? ==> Tells([a, b], b.status))
  {
    var a, b := Timeout(net.Peek().status), Timeout(net.Next().Peek().status);
    One(a);
    One(b);
    Joined([a], [b]);
    assert [a] + [b] == [a, b];
  }

  lemma {:induction false} FileTells(net: Net, b: Bucket)
    requires b.File? && b.bytes != []
    ensures Tells(FileCalls(net), SendFile(net, b).1)
  {
    var set0 := net.Next().Next();
    var sent, last := Send(set0.Peek().status), Restore(set0.Next().Peek().status, set0.Peek().status);
    TimeoutsTell(net);
    Joined([Timeout(Success), Timeout(Success)], [sent]);
    Joined([Timeout(Success), Timeout(Success)] + [sent], [last]);
    One(sent);
    One(last);
    assert [Timeout(Success), Timeout(Success)] + [sent] + [last] == [Timeout(Success), Timeout(Success), sent, last];
  }

  lemma {:induction false} ReadTells(net: Net, b: Bucket, block: bool)
    requires !b.IsMetadata()
    ensures var rv, es := ReadBucket(b, net.Peek(), block).status, ReadCalls(net, b, block);
            && (Stopped(es) <==> rv.Failed?) && (GivenUp(es) <==> rv.Failed?) && !rv.Interrupted?
  {
    if ReadCalls(net, b, block) != [] {
      One(ReadCalls(net, b, block)[0]);
    }
  }

  lemma {:induction false} GatherTells(net: Net, vec: seq<seq<Byte>>, todo: seq<Bucket>)
    requires |vec| < MAX_IOVEC_TO_WRITE
    ensures Tells(GatherCalls(net, vec, todo), Gather(net, vec, todo).1)
    decreases Work(todo), 1
  {
    WriteTells(net, vec);
    if todo == [] {
    } else if BySendfile(todo[0]) {
      FileTells(WritevIfAny(net, vec).0, todo[0]);
      Joined(WriteCalls(net, vec), FileCalls(WritevIfAny(net, vec).0));
    } else if todo[0].IsMetadata() {
      GatherTells(net.Append([todo[0]]), vec, todo[1..]);
    } else {
      ReadAtTells(net, vec, todo);
    }
  }

  lemma {:induction false} ReadAtTells(net: Net, vec: seq<seq<Byte>>, todo: seq<Bucket>)
    requires |vec| < MAX_IOVEC_TO_WRITE && todo != [] && !BySendfile(todo[0]) && !todo[0].IsMetadata()
    ensures Tells(GatherCalls(net, vec, todo), Gather(net, vec, todo).1)
    decreases Work(todo), 0, 1
  {
    var b := todo[0];
    var first, es := ReadBucket(b, net.Peek(), false), ReadCalls(net, b, false);
    ReadIsProgress(b, net.Peek(), false);
    ReadTells(net, b, false);
    if !first.status.Again? {
      ProceedTells(AfterRead(net, b), vec, todo, b, first);
      Joined(es, ProceedCalls(AfterRead(net, b), vec, todo, b, first));
    } else {
      WriteTells(net, vec);
      var w, net' := WriteCalls(net, vec), WritevIfAny(net, vec).0;
      Joined(es, w);
      if !Stopped(w) {
        var b' := first.rest[0];
        var read := ReadBucket(b', net'.Peek(), true);
        ReadIsProgress(b', net'.Peek(), true);
        ReadTells(net', b', true);
        ProceedTells(net', [], todo, b', read);
        Joined(es + w, ReadCalls(net', b', true));
        Joined(es + w + ReadCalls(net', b', true), ProceedCalls(net', [], todo, b', read));
      }
    }
  }

  lemma {:induction false} ProceedTells(net: Net, vec: seq<seq<Byte>>, todo: seq<Bucket>, b: Bucket, read: ReadResult)
    requires |vec| < MAX_IOVEC_TO_WRITE && todo != []
    requires |read.rest| <= 1 && (read.status.Success? && read.rest != [] ==> Effort(read.rest[0]) < Effort(todo[0]))
    ensures read.status.Success? ==> Tells(ProceedCalls(net, vec, todo, b, read), Proceed(net, vec, todo, b, read).1)
    ensures !read.status.Success? ==> ProceedCalls(net, vec, todo, b, read) == [] && Proceed(net, vec, todo, b, read).1 == read.status
    decreases Work(todo), 0, 0
  {
    if read.status.Success? {
      var todo' := read.rest + todo[1..];
      assert if read.rest == [] then todo' == todo[1..] else todo'[1..] == todo[1..];
      var net', vec' := net.Append([Morphed(b, read.data)]), vec + [read.data];
      if |vec'| < MAX_IOVEC_TO_WRITE {
        GatherTells(net', vec', todo');
      } else {
        WriteTells(net', vec');
      }
    }
  }

  lemma {:induction false} PassTells(net: Net)
    ensures Tells(PassCalls(net), SendPass(net).1)
  {
    var s := Strip(net.out);
    GatherTells(Net(s.(queue := []), net.answers), [], s.queue);
  }

  // ----- the blocking send, and a whole call

  /** A poll that is interrupted is made again. */
  lemma {:induction false} PollTells(net: Net)
    ensures var es, rv := PollCalls(net), OutputModel.Poll(net).1;
            (rv.Success? <==> !Stopped(es)) && (rv.Success? <==> !GivenUp(es))
    decreases |net.answers|
  {
    One(Polled(net.Peek().status));
    if net.Peek().status.Interrupted? {
      PollTells(net.Next());
      Joined([Polled(net.Peek().status)], PollCalls(net.Next()));
    } else {
      assert PollCalls(net) == [Polled(net.Peek().status)];
    }
  }

  /** Passes, with a poll after each that would block, until all is sent or a call is fatal. */
  ghost function AllCalls(net: Net): seq<Made>
    decreases |net.answers|, |net.out.queue|
  {
    if net.out.queue == [] then []
    else
      var pass, sent := PassCalls(net), SendPass(net).0;
      PassTells(net);
      if GivenUp(pass) then pass
      else if !Stopped(pass) then pass + AllCalls(sent)
      else
        var wait := PollCalls(sent);
        if GivenUp(wait) then pass + wait else pass + wait + AllCalls(OutputModel.Poll(sent).0)
  }

  lemma {:induction false} AllTells(net: Net)
    ensures (SendAll(net).1.Success? <==> !GivenUp(AllCalls(net)))
    decreases |net.answers|, |net.out.queue|
  {
    if net.out.queue != [] {
      var pass, sent := PassCalls(net), SendPass(net).0;
      PassTells(net);
      if GivenUp(pass) {
      } else if !Stopped(pass) {
        AllTells(sent);
        Joined(pass, AllCalls(sent));
      } else {
        var wait, ready := PollCalls(sent), OutputModel.Poll(sent).0;
        PollTells(sent);
        Joined(pass, wait);
        if !GivenUp(wait) {
          AllTells(ready);
          Joined(pass + wait, AllCalls(ready));
        }
      }
    }
  }

  /** What follows the segment that must go is written if it holds 4096 bytes of known length or more. */
  ghost function RestCalls(net: Net): seq<Made> {
    if |Bytes(net.out.queue)| >= 4096 then PassCalls(net) else []
  }

  /** All calls of a call to the filter: none on a connection that is given up; a pass over what is buffered when
      there is no brigade; else what must go, and what is worth a write. */
  ghost function CallsOf(c: Conn, input: Option<seq<Bucket>>): seq<Made> {
    if c.aborted then []
    else if input.None? then (if c.net.out.queue == [] then [] else PassCalls(c.net))
    else
      var q := c.net.out.queue + input.value;
      var upto := Scan(q).upto;
      var front := c.net.WithQueue(q[..upto]);
      AllCalls(front) + if GivenUp(AllCalls(front)) then [] else RestCalls(SendAll(front).0.WithQueue(q[upto..]))
  }

  lemma {:induction false} RestTells(c: Conn, net: Net, bytes: nat)
    requires bytes == |Bytes(net.out.queue)| && !c.aborted
    ensures var (c', rv) := WriteSome(c, net, bytes);
            (c'.aborted <==> GivenUp(RestCalls(net))) && (rv.Success? <==> !c'.aborted)
  {
    PassTells(net);
  }

  /** A call on a live connection gives it up, and reports an error, if and only if one of the calls it made ended
      in something other than success or would-block. */
  lemma {:induction false} AbortsExactly(c: Conn, input: Option<seq<Bucket>>)
    requires !c.aborted
    ensures var (c', rv) := Filter(c, input);
            (c'.aborted <==> GivenUp(CallsOf(c, input))) && (rv.Success? <==> !c'.aborted)
  {
    if input.None? {
      PassTells(c.net);
    } else {
      var q := c.net.out.queue + input.value;
      var upto := Scan(q).upto;
      var front := c.net.WithQueue(q[..upto]);
      var c0 := (if c.net.out.queue == [] then c else c.(waiting := false)).(net := c.net.WithQueue([]));
      AllTells(front);
      ScanTail(q);
      var net := SendAll(front).0.WithQueue(q[upto..]);
      RestTells(c0, net, Scan(q).bytes);
      Joined(AllCalls(front), RestCalls(net));
      assert c0.net.WithQueue(q[..upto]) == front;
      if upto == 0 {
        assert q[..0] == [] && q[0..] == q && net == c0.net.WithQueue(q);
      }
    }
  }

  /** A connection that has been given up stays so: every call fails, and makes no other. */
  lemma {:induction false} AbortedStays(c: Conn, input: Option<seq<Bucket>>)
    requires c.aborted
    ensures var (c', rv) := Filter(c, input); c'.aborted && rv.Failed? && c'.net.answers == c.net.answers && c'.net.out.wire == c.net.out.wire
  {
  }

  // ----- each answer of the socket is that to one call

  function First(answers: seq<Answer>): Status {
    if answers == [] then Failed else answers[0].status
  }

  function Tail(answers: seq<Answer>): seq<Answer> {
    if answers == [] then [] else answers[1..]
  }

  /** The calls, one after the other, end as the answers say, which are then `left`. */
  ghost predicate Uses(answers: seq<Answer>, es: seq<Made>, left: seq<Answer>)
    decreases |es|
  {
    if es == [] then answers == left
    else if es[0].Read? then Uses(answers, es[1..], left)
    else es[0].status == First(answers) && Uses(Tail(answers), es[1..], left)
  }

  lemma {:induction false} UsesJoined(answers: seq<Answer>, a: seq<Made>, between: seq<Answer>, b: seq<Made>, left: seq<Answer>)
    requires Uses(answers, a, between) && Uses(between, b, left)
    ensures Uses(answers, a + b, left)
    decreases |a|
  {
    if a == [] {
      assert a + b == b;
    } else {
      HeadTail(a, b);
      UsesJoined(if a[0].Read? then answers else Tail(answers), a[1..], between, b, left);
    }
  }

  lemma {:induction false} UsesOne(net: Net, e: Made)
    requires !e.Read? && e.status == net.Peek().status
    ensures Uses(net.answers, [e], net.Next().answers)
  {
    assert [e][1..] == [];
  }

  lemma {:induction false} SendsUse(net: Net, vec: seq<seq<Byte>>)
    ensures Uses(net.answers, Sends(net, vec), WriteLoop(net, vec).0.answers)
    decreases |Flat(vec)|
  {
    if Flat(vec) != [] {
      var (net', vec', rv) := SendOnce(net, vec);
      assert net'.answers == net.Next().answers;
      UsesOne(net, Send(net.Peek().status));
      if rv.Success? {
        SendsUse(net', vec');
        UsesJoined(net.answers, [Send(Success)], net'.answers, Sends(net', vec'), WriteLoop(net', vec').0.answers);
      }
    }
  }

  lemma {:induction false} TimeoutsUse(net: Net)
    ensures var a, b := Timeout(net.Peek().status), Timeout(net.Next().Peek().status);
            Uses(net.answers, [a], net.Next().answers) && Uses(net.answers, [a, b], net.Next().Next().answers)
  {
    var a, b := Timeout(net.Peek().status), Timeout(net.Next().Peek().status);
    UsesOne(net, a);
    UsesOne(net.Next(), b);
    UsesJoined(net.answers, [a], net.Next().answers, [b], net.Next().Next().answers);
    assert [a] + [b] == [a, b];
  }

  lemma {:induction false} WriteUse(net: Net, vec: seq<seq<Byte>>)
    ensures Uses(net.answers, WriteCalls(net, vec), WritevIfAny(net, vec).0.answers)
  {
    if vec != [] {
      var set0 := net.Next().Next();
      var es, done := Sends(set0, vec), WriteLoop(set0, vec).0;
      var last := Restore(done.Peek().status, Sent(es));
      TimeoutsUse(net);
      SendsUse(set0, vec);
      UsesOne(done, last);
      UsesJoined(net.answers, [Timeout(net.Peek().status), Timeout(net.Next().Peek().status)], set0.answers, es, done.answers);
      UsesJoined(net.answers, [Timeout(net.Peek().status), Timeout(net.Next().Peek().status)] + es, done.answers, [last], done.Next().answers);
    }
  }

  lemma {:induction false} FileUse(net: Net, b: Bucket)
    requires b.File? && b.bytes != []
    ensures Uses(net.answers, FileCalls(net), SendFile(net, b).0.answers)
  {
    var set0 := net.Next().Next();
    var a, b' := Timeout(net.Peek().status), Timeout(net.Next().Peek().status);
    var sent, last := Send(set0.Peek().status), Restore(set0.Next().Peek().status, set0.Peek().status);
    TimeoutsUse(net);
    UsesOne(set0, sent);
    UsesOne(set0.Next(), last);
    UsesJoined(net.answers, [a, b'], set0.answers, [sent], set0.Next().answers);
    UsesJoined(net.answers, [a, b'] + [sent], set0.Next().answers, [last], set0.Next().Next().answers);
    assert [a, b'] + [sent] + [last] == [a, b', sent, last];
  }

  lemma {:induction false} ReadUse(net: Net, b: Bucket, block: bool)
    ensures Uses(net.answers, ReadCalls(net, b, block), AfterRead(net, b).answers)
  {
    var es := ReadCalls(net, b, block);
    if b.File? {
      UsesOne(net, es[0]);
    } else if es != [] {
      assert es[1..] == [];
    }
  }

  lemma {:induction false} GatherUse(net: Net, vec: seq<seq<Byte>>, todo: seq<Bucket>)
    requires |vec| < MAX_IOVEC_TO_WRITE
    ensures Uses(net.answers, GatherCalls(net, vec, todo), Gather(net, vec, todo).0.answers)
    decreases Work(todo), 1
  {
    WriteUse(net, vec);
    WriteTells(net, vec);
    var w, net' := WriteCalls(net, vec), WritevIfAny(net, vec).0;
    if todo == [] {
    } else if BySendfile(todo[0]) {
      FileUse(net', todo[0]);
      UsesJoined(net.answers, w, net'.answers, FileCalls(net'), SendFile(net', todo[0]).0.answers);
    } else if todo[0].IsMetadata() {
      GatherUse(net.Append([todo[0]]), vec, todo[1..]);
    } else {
      ReadAtUse(net, vec, todo);
    }
  }

  lemma {:induction false} ReadAtUse(net: Net, vec: seq<seq<Byte>>, todo: seq<Bucket>)
    requires |vec| < MAX_IOVEC_TO_WRITE && todo != [] && !BySendfile(todo[0]) && !todo[0].IsMetadata()
    ensures Uses(net.answers, GatherCalls(net, vec, todo), Gather(net, vec, todo).0.answers)
    decreases Work(todo), 0, 1
  {
    var b := todo[0];
    var first, es, left := ReadBucket(b, net.Peek(), false), ReadCalls(net, b, false), Gather(net, vec, todo).0.answers;
    ReadIsProgress(b, net.Peek(), false);
    ReadUse(net, b, false);
    if !first.status.Again? {
      ProceedUse(AfterRead(net, b), vec, todo, b, first);
      UsesJoined(net.answers, es, AfterRead(net, b).answers, ProceedCalls(AfterRead(net, b), vec, todo, b, first), left);
    } else {
      BlockedUse(net, vec, todo);
    }
  }

  lemma {:induction false} BlockedUse(net: Net, vec: seq<seq<Byte>>, todo: seq<Bucket>)
    requires |vec| < MAX_IOVEC_TO_WRITE && todo != [] && !BySendfile(todo[0]) && !todo[0].IsMetadata()
    requires ReadBucket(todo[0], net.Peek(), false).status.Again?
    ensures Uses(net.answers, GatherCalls(net, vec, todo), Gather(net, vec, todo).0.answers)
    decreases Work(todo), 0, 0, 1
  {
    var first, es, left := ReadBucket(todo[0], net.Peek(), false), ReadCalls(net, todo[0], false), Gather(net, vec, todo).0.answers;
    ReadIsProgress(todo[0], net.Peek(), false);
    ReadUse(net, todo[0], false);
    WriteUse(net, vec);
    WriteTells(net, vec);
    var w, net' := WriteCalls(net, vec), WritevIfAny(net, vec).0;
    UsesJoined(net.answers, es, net.answers, w, net'.answers);
    if !Stopped(w) {
      var b' := first.rest[0];
      var read := ReadBucket(b', net'.Peek(), true);
      ReadIsProgress(b', net'.Peek(), true);
      ReadUse(net', b', true);
      ProceedUse(net', [], todo, b', read);
      UsesJoined(net.answers, es + w, net'.answers, ReadCalls(net', b', true), net'.answers);
      UsesJoined(net.answers, es + w + ReadCalls(net', b', true), net'.answers, ProceedCalls(net', [], todo, b', read), left);
    }
  }

  lemma {:induction false} ProceedUse(net: Net, vec: seq<seq<Byte>>, todo: seq<Bucket>, b: Bucket, read: ReadResult)
    requires |vec| < MAX_IOVEC_TO_WRITE && todo != []
    requires |read.rest| <= 1 && (read.status.Success? && read.rest != [] ==> Effort(read.rest[0]) < Effort(todo[0]))
    ensures Uses(net.answers, ProceedCalls(net, vec, todo, b, read), Proceed(net, vec, todo, b, read).0.answers)
    decreases Work(todo), 0, 0, 0
  {
    if read.status.Success? {
      var todo' := read.rest + todo[1..];
      assert if read.rest == [] then todo' == todo[1..] else todo'[1..] == todo[1..];
      var net', vec' := net.Append([Morphed(b, read.data)]), vec + [read.data];
      assert Proceed(net, vec, todo, b, read) == Push(net', vec', todo');
      assert net'.answers == net.answers;
      if |vec'| < MAX_IOVEC_TO_WRITE {
        GatherUse(net', vec', todo');
      } else {
        WriteUse(net', vec');
        assert ProceedCalls(net, vec, todo, b, read) == WriteCalls(net', vec');
      }
    }
  }

  lemma {:induction false} PassUse(net: Net)
    ensures Uses(net.answers, PassCalls(net), SendPass(net).0.answers)
  {
    var s := Strip(net.out);
    GatherUse(Net(s.(queue := []), net.answers), [], s.queue);
  }

  lemma {:induction false} PollUse(net: Net)
    ensures Uses(net.answers, PollCalls(net), OutputModel.Poll(net).0.answers)
    decreases |net.answers|
  {
    var e := Polled(net.Peek().status);
    UsesOne(net, e);
    if net.Peek().status.Interrupted? {
      PollUse(net.Next());
      UsesJoined(net.answers, [e], net.Next().answers, PollCalls(net.Next()), OutputModel.Poll(net).0.answers);
    } else {
      assert PollCalls(net) == [e];
    }
  }

  lemma {:induction false} AllUse(net: Net)
    ensures Uses(net.answers, AllCalls(net), SendAll(net).0.answers)
    decreases |net.answers|, |net.out.queue|
  {
    if net.out.queue != [] {
      var pass, sent, left := PassCalls(net), SendPass(net).0, SendAll(net).0.answers;
      PassTells(net);
      PassUse(net);
      if GivenUp(pass) {
      } else if !Stopped(pass) {
        AllUse(sent);
        UsesJoined(net.answers, pass, sent.answers, AllCalls(sent), left);
      } else {
        var wait, ready := PollCalls(sent), OutputModel.Poll(sent).0;
        PollTells(sent);
        PollUse(sent);
        UsesJoined(net.answers, pass, sent.answers, wait, ready.answers);
        if !GivenUp(wait) {
          AllUse(ready);
          UsesJoined(net.answers, pass + wait, ready.answers, AllCalls(ready), left);
        }
      }
    }
  }

  lemma {:induction false} RestUse(c: Conn, net: Net, bytes: nat)
    requires bytes == |Bytes(net.out.queue)|
    ensures Uses(net.answers, RestCalls(net), WriteSome(c, net, bytes).0.net.answers)
  {
    PassUse(net);
  }

  lemma {:induction false} NewUse(c: Conn, q: seq<Bucket>)
    ensures var front := c.net.WithQueue(q[..Scan(q).upto]);
            Uses(c.net.answers, AllCalls(front) + if GivenUp(AllCalls(front)) then [] else RestCalls(SendAll(front).0.WithQueue(q[Scan(q).upto..])),
                 SendNew(c, q).0.net.answers)
  {
    var upto := Scan(q).upto;
    var front := c.net.WithQueue(q[..upto]);
    var net := SendAll(front).0.WithQueue(q[upto..]);
    AllTells(front);
    AllUse(front);
    ScanTail(q);
    RestUse(c, net, Scan(q).bytes);
    if upto == 0 {
      assert q[..0] == [] && q[0..] == q && net == c.net.WithQueue(q);
    }
    if GivenUp(AllCalls(front)) {
      assert AllCalls(front) + [] == AllCalls(front);
    } else {
      UsesJoined(c.net.answers, AllCalls(front), net.answers, RestCalls(net), WriteSome(c, net, Scan(q).bytes).0.net.answers);
    }
  }

  /** The calls on the socket end, one after the other, as its answers say; no answer is passed over. */
  lemma {:induction false} AnswersInTurn(c: Conn, input: Option<seq<Bucket>>)
    ensures Uses(c.net.answers, CallsOf(c, input), Filter(c, input).0.net.answers)
  {
    if c.aborted {
    } else if input.None? {
      PassUse(c.net);
    } else {
      var q := c.net.out.queue + input.value;
      var c0 := (if c.net.out.queue == [] then c else c.(waiting := false)).(net := c.net.WithQueue([]));
      NewUse(c0, q);
      assert c0.net.WithQueue(q[..Scan(q).upto]) == c.net.WithQueue(q[..Scan(q).upto]);
    }
  }

  // ----- a connection that is only slow

  /** Reading it never fails. */
  predicate Whole(f: Future) {
    match f
    case Broken => false
    case Ended => true
    case WouldBlock(next) => Whole(next)
    case Arrives(_, next) => Whole(next)
  }

  predicate WholeBucket(b: Bucket) {
    b.Stream? ==> Whole(b.future)
  }

  ghost predicate AllWhole(q: seq<Bucket>) {
    forall b :: b in q ==> WholeBucket(b)
  }

  /** Neither reads nor file reads fail, and what is left in the queue can still be read. */
  ghost predicate ReadsWell(es: seq<Made>) {
    forall e :: e in es && e.Read? ==> !e.status.Failed?
  }

  lemma {:induction false} WaitedWhole(f: Future)
    requires Whole(f)
    ensures Whole(f.Waited())
  {
    if f.WouldBlock? {
      WaitedWhole(f.next);
    }
  }

  lemma {:induction false} StripWhole(s: Snapshot)
    requires AllWhole(s.queue)
    ensures AllWhole(Strip(s).queue)
    decreases |s.queue|
  {
    if s.queue != [] && Skippable(s.queue[0]) {
      assert forall b :: b in s.queue[1..] ==> b in s.queue;
      StripWhole(Snapshot(s.wire, s.log + Destroyed(s.queue[0], |s.wire|), s.queue[1..]));
    }
  }

  lemma {:induction false} SendsReadNothing(net: Net, vec: seq<seq<Byte>>)
    ensures forall e :: e in Sends(net, vec) ==> e.Send?
    decreases |Flat(vec)|
  {
    if Flat(vec) != [] && net.Peek().status.Success? {
      SendsReadNothing(SendOnce(net, vec).0, SendOnce(net, vec).1);
    }
  }

  lemma {:induction false} WriteReadsNothing(net: Net, vec: seq<seq<Byte>>)
    ensures ReadsWell(WriteCalls(net, vec))
  {
    SendsReadNothing(net.Next().Next(), vec);
  }

  /** A read of a whole bucket does not fail, and leaves a whole one. */
  lemma {:induction false} ReadWhole(net: Net, b: Bucket, block: bool)
    requires !b.IsMetadata() && WholeBucket(b)
    ensures ReadsWell(ReadCalls(net, b, block)) && AllWhole(ReadBucket(b, net.Peek(), block).rest)
  {
    if b.Stream? {
      WaitedWhole(b.future);
    }
  }

  /** What a pass over whole buckets does. */
  ghost predicate GoesWell(es: seq<Made>, q: seq<Bucket>) {
    ReadsWell(es) && AllWhole(q)
  }

  lemma {:induction false} WholeJoined(a: seq<Bucket>, b: seq<Bucket>)
    requires AllWhole(a) && AllWhole(b)
    ensures AllWhole(a + b)
  {
  }

  lemma {:induction false} WholeRest(q: seq<Bucket>)
    requires q != [] && AllWhole(q)
    ensures WholeBucket(q[0]) && AllWhole(q[1..])
  {
    assert q[0] in q && forall b :: b in q[1..] ==> b in q;
  }

  lemma {:induction false} ReadsJoined(a: seq<Made>, b: seq<Made>)
    requires ReadsWell(a) && ReadsWell(b)
    ensures ReadsWell(a + b)
  {
  }

  /** After a write, whole buckets are behind buckets in memory. */
  lemma {:induction false} WriteGoesWell(net: Net, vec: seq<seq<Byte>>, tail: seq<Bucket>)
    requires Backed(net.out.queue, vec) && AllWhole(tail)
    ensures var net' := WritevIfAny(net, vec).0;
            && GoesWell(WriteCalls(net, vec), net'.Append(tail).out.queue)
            && Backed(net'.out.queue, []) && AllWhole(Strip(net'.Append(tail).out).queue)
  {
    var net' := WritevIfAny(net, vec).0;
    WriteReadsNothing(net, vec);
    WriteBacked(net, vec);
    WholeJoined(net'.out.queue, tail);
    StripWhole(net'.Append(tail).out);
  }

  lemma {:induction false} FileGoesWell(net: Net, todo: seq<Bucket>)
    requires todo != [] && BySendfile(todo[0]) && AllWhole(net.out.queue) && AllWhole(todo)
    ensures GoesWell(FileCalls(net), SendFileAndStop(net, todo).0.out.queue)
  {
    var (net', rv, left) := SendFile(net, todo[0]);
    WholeRest(todo);
    WholeJoined(left, todo[1..]);
    WholeJoined(net.out.queue, left + todo[1..]);
    StripWhole(net'.Append(left + todo[1..]).out);
  }

  lemma {:induction false} GatherGoesWell(net: Net, vec: seq<seq<Byte>>, todo: seq<Bucket>)
    requires |vec| < MAX_IOVEC_TO_WRITE && Backed(net.out.queue, vec) && AllWhole(todo)
    ensures GoesWell(GatherCalls(net, vec, todo), Gather(net, vec, todo).0.out.queue)
    decreases Work(todo), 1
  {
    if todo != [] && !BySendfile(todo[0]) {
      WholeRest(todo);
      if todo[0].IsMetadata() {
        BackedAppend(net.out.queue, vec, todo[0]);
        GatherGoesWell(net.Append([todo[0]]), vec, todo[1..]);
      } else {
        ReadGoesWell(net, vec, todo);
      }
    } else {
      EndGoesWell(net, vec, todo);
    }
  }

  lemma {:induction false} EndGoesWell(net: Net, vec: seq<seq<Byte>>, todo: seq<Bucket>)
    requires |vec| < MAX_IOVEC_TO_WRITE && Backed(net.out.queue, vec) && AllWhole(todo) && (todo == [] || BySendfile(todo[0]))
    ensures GoesWell(GatherCalls(net, vec, todo), Gather(net, vec, todo).0.out.queue)
  {
    var net' := WritevIfAny(net, vec).0;
    WriteTells(net, vec);
    WriteGoesWell(net, vec, todo);
    WriteGoesWell(net, vec, []);
    if todo == [] {
      assert net'.Append([]) == net';
    } else if !Stopped(WriteCalls(net, vec)) {
      FileGoesWell(net', todo);
      ReadsJoined(WriteCalls(net, vec), FileCalls(net'));
    }
  }

  lemma {:induction false} ReadGoesWell(net: Net, vec: seq<seq<Byte>>, todo: seq<Bucket>)
    requires |vec| < MAX_IOVEC_TO_WRITE && Backed(net.out.queue, vec) && AllWhole(todo)
    requires todo != [] && !BySendfile(todo[0]) && !todo[0].IsMetadata()
    ensures GoesWell(GatherCalls(net, vec, todo), Gather(net, vec, todo).0.out.queue)
    decreases Work(todo), 0, 1
  {
    var b := todo[0];
    var first, es := ReadBucket(b, net.Peek(), false), ReadCalls(net, b, false);
    ReadIsProgress(b, net.Peek(), false);
    WholeRest(todo);
    ReadWhole(net, b, false);
    if !first.status.Again? {
      ProceedGoesWell(AfterRead(net, b), vec, todo, b, first);
      ReadsJoined(es, ProceedCalls(AfterRead(net, b), vec, todo, b, first));
    } else {
      BlockedGoesWell(net, vec, todo);
    }
  }

  lemma {:induction false} BlockedGoesWell(net: Net, vec: seq<seq<Byte>>, todo: seq<Bucket>)
    requires |vec| < MAX_IOVEC_TO_WRITE && Backed(net.out.queue, vec) && AllWhole(todo)
    requires todo != [] && !BySendfile(todo[0]) && !todo[0].IsMetadata() && ReadBucket(todo[0], net.Peek(), false).status.Again?
    ensures GoesWell(GatherCalls(net, vec, todo), Gather(net, vec, todo).0.out.queue)
    decreases Work(todo), 0, 0, 1
  {
    var first, es, w := ReadBucket(todo[0], net.Peek(), false), ReadCalls(net, todo[0], false), WriteCalls(net, vec);
    var net', b' := WritevIfAny(net, vec).0, first.rest[0];
    ReadIsProgress(todo[0], net.Peek(), false);
    WholeRest(todo);
    ReadWhole(net, todo[0], false);
    WholeJoined(first.rest, todo[1..]);
    WriteTells(net, vec);
    WriteGoesWell(net, vec, first.rest + todo[1..]);
    ReadsJoined(es, w);
    if !Stopped(w) {
      assert b' in first.rest;
      var read := ReadBucket(b', net'.Peek(), true);
      ReadIsProgress(b', net'.Peek(), true);
      ReadWhole(net', b', true);
      ProceedGoesWell(net', [], todo, b', read);
      ReadsJoined(es + w, ReadCalls(net', b', true));
      ReadsJoined(es + w + ReadCalls(net', b', true), ProceedCalls(net', [], todo, b', read));
    }
  }

  lemma {:induction false} ProceedGoesWell(net: Net, vec: seq<seq<Byte>>, todo: seq<Bucket>, b: Bucket, read: ReadResult)
    requires |vec| < MAX_IOVEC_TO_WRITE && todo != [] && Backed(net.out.queue, vec) && AllWhole(todo) && AllWhole(read.rest)
    requires |read.rest| <= 1 && (read.status.Success? && read.rest != [] ==> Effort(read.rest[0]) < Effort(todo[0]))
    ensures GoesWell(ProceedCalls(net, vec, todo, b, read), Proceed(net, vec, todo, b, read).0.out.queue)
    decreases Work(todo), 0, 0, 0
  {
    var todo' := read.rest + todo[1..];
    WholeRest(todo);
    WholeJoined(read.rest, todo[1..]);
    ProceedIs(net, vec, todo, b, read);
    if read.status.Success? {
      GivenGoesWell(net, vec, Morphed(b, read.data), todo');
    } else {
      WriteGoesWell(net, [], todo');
    }
  }

  lemma {:induction false} GivenGoesWell(net: Net, vec: seq<seq<Byte>>, m: Bucket, todo: seq<Bucket>)
    requires |vec| < MAX_IOVEC_TO_WRITE && Backed(net.out.queue, vec) && m.Heap? && AllWhole(todo)
    ensures var net', vec' := net.Append([m]), vec + [m.bytes];
            GoesWell(if |vec'| < MAX_IOVEC_TO_WRITE then GatherCalls(net', vec', todo) else WriteCalls(net', vec'), Push(net', vec', todo).0.out.queue)
    decreases Work(todo), 2
  {
    var net', vec' := net.Append([m]), vec + [m.bytes];
    BackedAppend(net.out.queue, vec, m);
    if |vec'| < MAX_IOVEC_TO_WRITE {
      GatherGoesWell(net', vec', todo);
    } else {
      WriteGoesWell(net', vec', todo);
    }
  }

  lemma {:induction false} PassGoesWell(net: Net)
    requires AllWhole(net.out.queue)
    ensures GoesWell(PassCalls(net), SendPass(net).0.out.queue)
  {
    var s := Strip(net.out);
    StripWhole(net.out);
    GatherGoesWell(Net(s.(queue := []), net.answers), [], s.queue);
  }

  lemma {:induction false} PollReadsNothing(net: Net)
    ensures ReadsWell(PollCalls(net))
    decreases |net.answers|
  {
    if net.Peek().status.Interrupted? {
      PollReadsNothing(net.Next());
    }
  }

  lemma {:induction false} AllGoWell(net: Net)
    requires AllWhole(net.out.queue)
    ensures ReadsWell(AllCalls(net))
    decreases |net.answers|, |net.out.queue|
  {
    if net.out.queue != [] {
      var pass, sent := PassCalls(net), SendPass(net).0;
      PassTells(net);
      PassGoesWell(net);
      if !GivenUp(pass) && !Stopped(pass) {
        AllGoWell(sent);
      } else if !GivenUp(pass) {
        PollTells(sent);
        PollReadsNothing(sent);
        if !GivenUp(PollCalls(sent)) {
          AllGoWell(OutputModel.Poll(sent).0);
        }
      }
    }
  }

  lemma {:induction false} CallReadsWell(c: Conn, input: Option<seq<Bucket>>)
    requires AllWhole(c.net.out.queue + Given(input))
    ensures ReadsWell(CallsOf(c, input))
  {
    if c.aborted {
    } else if input.None? {
      assert c.net.out.queue + [] == c.net.out.queue;
      PassGoesWell(c.net);
    } else {
      var q := c.net.out.queue + input.value;
      var upto := Scan(q).upto;
      var front := c.net.WithQueue(q[..upto]);
      assert forall b :: b in q[..upto] ==> b in q;
      assert forall b :: b in q[upto..] ==> b in q;
      AllGoWell(front);
      PassGoesWell(SendAll(front).0.WithQueue(q[upto..]));
    }
  }

  /** When every call on the socket succeeds or would block, every poll succeeds, and no stream is broken, the call
      succeeds and the connection is kept. */
  lemma {:induction false} SlowIsKept(c: Conn, input: Option<seq<Bucket>>)
    requires !c.aborted && AllWhole(c.net.out.queue + Given(input))
    requires forall e :: e in CallsOf(c, input) && !e.Read? ==> e.status.Success? || (e.status.Again? && !e.Polled?)
    ensures !Filter(c, input).0.aborted && Filter(c, input).1.Success?
  {
    AbortsExactly(c, input);
    CallReadsWell(c, input);
  }

  // ----- what is tried, and what it brings

  /** The sends that succeeded. */
  function Successes(es: seq<Made>): nat {
    if es == [] then 0 else (if es[0] == Send(Success) then 1 else 0) + Successes(es[1..])
  }

  lemma {:induction false} SuccessesJoined(a: seq<Made>, b: seq<Made>)
    ensures Successes(a + b) == Successes(a) + Successes(b)
  {
    if a == [] {
      assert a + b == b;
    } else {
      HeadTail(a, b);
      SuccessesJoined(a[1..], b);
    }
  }

  lemma {:induction false} SuccessesOne(e: Made)
    ensures Successes([e]) == if e == Send(Success) then 1 else 0
  {
    assert [e][1..] == [];
  }

  /** The wire has grown by a byte for each send that succeeded, at least. */
  ghost predicate Brings(wire: seq<Byte>, es: seq<Made>, wire': seq<Byte>) {
    |wire| + Successes(es) <= |wire'|
  }

  lemma {:induction false} BringsJoined(wire: seq<Byte>, a: seq<Made>, between: seq<Byte>, b: seq<Made>, wire': seq<Byte>)
    requires Brings(wire, a, between) && Brings(between, b, wire')
    ensures Brings(wire, a + b, wire')
  {
    SuccessesJoined(a, b);
  }

  lemma {:induction false} SendsBring(net: Net, vec: seq<seq<Byte>>)
    ensures Brings(net.out.wire, Sends(net, vec), WriteLoop(net, vec).0.out.wire)
    decreases |Flat(vec)|
  {
    if Flat(vec) != [] {
      var (net', vec', rv) := SendOnce(net, vec);
      SuccessesOne(Send(net.Peek().status));
      if rv.Success? {
        SendsBring(net', vec');
        BringsJoined(net.out.wire, [Send(Success)], net'.out.wire, Sends(net', vec'), WriteLoop(net', vec').0.out.wire);
      }
    }
  }

  lemma {:induction false} WriteBrings(net: Net, vec: seq<seq<Byte>>)
    ensures Brings(net.out.wire, WriteCalls(net, vec), WritevIfAny(net, vec).0.out.wire)
  {
    if vec != [] {
      var set0 := net.Next().Next();
      var es, done := Sends(set0, vec), WriteLoop(set0, vec).0;
      var last := Restore(done.Peek().status, Sent(es));
      TimeoutsBring(net);
      SendsBring(set0, vec);
      SuccessesOne(last);
      BringsJoined(net.out.wire, [Timeout(Success), Timeout(Success)], net.out.wire, es, done.out.wire);
      BringsJoined(net.out.wire, [Timeout(Success), Timeout(Success)] + es, done.out.wire, [last], done.out.wire);
    }
  }

  lemma {:induction false} TimeoutsBring(net: Net)
    ensures var a, b := Timeout(net.Peek().status), Timeout(net.Next().Peek().status); Successes([a]) == 0 && Successes([a, b]) == 0
  {
    var a, b := Timeout(net.Peek().status), Timeout(net.Next().Peek().status);
    SuccessesOne(a);
    SuccessesOne(b);
    SuccessesJoined([a], [b]);
    assert [a] + [b] == [a, b];
  }

  lemma {:induction false} FileBrings(net: Net, b: Bucket)
    requires b.File? && b.bytes != []
    ensures Brings(net.out.wire, FileCalls(net), SendFile(net, b).0.out.wire)
  {
    var set0 := net.Next().Next();
    var sent, last := Send(set0.Peek().status), Restore(set0.Next().Peek().status, set0.Peek().status);
    TimeoutsBring(net);
    SuccessesOne(sent);
    SuccessesOne(last);
    SuccessesJoined([Timeout(Success), Timeout(Success)], [sent]);
    SuccessesJoined([Timeout(Success), Timeout(Success)] + [sent], [last]);
    assert [Timeout(Success), Timeout(Success)] + [sent] + [last] == [Timeout(Success), Timeout(Success), sent, last];
  }

  lemma {:induction false} ReadBrings(net: Net, b: Bucket, block: bool)
    ensures Successes(ReadCalls(net, b, block)) == 0
  {
    if ReadCalls(net, b, block) != [] {
      SuccessesOne(ReadCalls(net, b, block)[0]);
    }
  }

  lemma {:induction false} GatherBrings(net: Net, vec: seq<seq<Byte>>, todo: seq<Bucket>)
    requires |vec| < MAX_IOVEC_TO_WRITE
    ensures Brings(net.out.wire, GatherCalls(net, vec, todo), Gather(net, vec, todo).0.out.wire)
    decreases Work(todo), 1
  {
    WriteBrings(net, vec);
    WriteTells(net, vec);
    var w, net' := WriteCalls(net, vec), WritevIfAny(net, vec).0;
    if todo == [] {
    } else if BySendfile(todo[0]) {
      FileBrings(net', todo[0]);
      BringsJoined(net.out.wire, w, net'.out.wire, FileCalls(net'), SendFile(net', todo[0]).0.out.wire);
    } else if todo[0].IsMetadata() {
      GatherBrings(net.Append([todo[0]]), vec, todo[1..]);
    } else {
      ReadAtBrings(net, vec, todo);
    }
  }

  lemma {:induction false} ReadAtBrings(net: Net, vec: seq<seq<Byte>>, todo: seq<Bucket>)
    requires |vec| < MAX_IOVEC_TO_WRITE && todo != [] && !BySendfile(todo[0]) && !todo[0].IsMetadata()
    ensures Brings(net.out.wire, GatherCalls(net, vec, todo), Gather(net, vec, todo).0.out.wire)
    decreases Work(todo), 0, 1
  {
    var b := todo[0];
    var first, es, wire := ReadBucket(b, net.Peek(), false), ReadCalls(net, b, false), Gather(net, vec, todo).0.out.wire;
    ReadIsProgress(b, net.Peek(), false);
    ReadBrings(net, b, false);
    if !first.status.Again? {
      ProceedBrings(AfterRead(net, b), vec, todo, b, first);
      BringsJoined(net.out.wire, es, net.out.wire, ProceedCalls(AfterRead(net, b), vec, todo, b, first), wire);
    } else {
      BlockedBrings(net, vec, todo);
    }
  }

  lemma {:induction false} BlockedBrings(net: Net, vec: seq<seq<Byte>>, todo: seq<Bucket>)
    requires |vec| < MAX_IOVEC_TO_WRITE && todo != [] && !BySendfile(todo[0]) && !todo[0].IsMetadata()
    requires ReadBucket(todo[0], net.Peek(), false).status.Again?
    ensures Brings(net.out.wire, GatherCalls(net, vec, todo), Gather(net, vec, todo).0.out.wire)
    decreases Work(todo), 0, 0, 1
  {
    var first, es, wire := ReadBucket(todo[0], net.Peek(), false), ReadCalls(net, todo[0], false), Gather(net, vec, todo).0.out.wire;
    ReadIsProgress(todo[0], net.Peek(), false);
    ReadBrings(net, todo[0], false);
    WriteBrings(net, vec);
    WriteTells(net, vec);
    var w, net' := WriteCalls(net, vec), WritevIfAny(net, vec).0;
    BringsJoined(net.out.wire, es, net.out.wire, w, net'.out.wire);
    if !Stopped(w) {
      var b' := first.rest[0];
      var read := ReadBucket(b', net'.Peek(), true);
      ReadIsProgress(b', net'.Peek(), true);
      ReadBrings(net', b', true);
      ProceedBrings(net', [], todo, b', read);
      BringsJoined(net.out.wire, es + w, net'.out.wire, ReadCalls(net', b', true), net'.out.wire);
      BringsJoined(net.out.wire, es + w + ReadCalls(net', b', true), net'.out.wire, ProceedCalls(net', [], todo, b', read), wire);
    }
  }

  lemma {:induction false} ProceedBrings(net: Net, vec: seq<seq<Byte>>, todo: seq<Bucket>, b: Bucket, read: ReadResult)
    requires |vec| < MAX_IOVEC_TO_WRITE && todo != []
    requires |read.rest| <= 1 && (read.status.Success? && read.rest != [] ==> Effort(read.rest[0]) < Effort(todo[0]))
    ensures Brings(net.out.wire, ProceedCalls(net, vec, todo, b, read), Proceed(net, vec, todo, b, read).0.out.wire)
    decreases Work(todo), 0, 0, 0
  {
    if read.status.Success? {
      var todo' := read.rest + todo[1..];
      assert if read.rest == [] then todo' == todo[1..] else todo'[1..] == todo[1..];
      var net', vec' := net.Append([Morphed(b, read.data)]), vec + [read.data];
      if |vec'| < MAX_IOVEC_TO_WRITE {
        GatherBrings(net', vec', todo');
      } else {
        WriteBrings(net', vec');
      }
    }
  }

  lemma {:induction false} PassBrings(net: Net)
    ensures Brings(net.out.wire, PassCalls(net), SendPass(net).0.out.wire)
  {
    var s := Strip(net.out);
    GatherBrings(Net(s.(queue := []), net.answers), [], s.queue);
  }

  lemma {:induction false} PollBrings(net: Net)
    ensures Successes(PollCalls(net)) == 0
    decreases |net.answers|
  {
    SuccessesOne(Polled(net.Peek().status));
    if net.Peek().status.Interrupted? {
      PollBrings(net.Next());
      SuccessesJoined([Polled(net.Peek().status)], PollCalls(net.Next()));
    } else {
      assert PollCalls(net) == [Polled(net.Peek().status)];
    }
  }

  lemma {:induction false} AllBring(net: Net)
    ensures Brings(net.out.wire, AllCalls(net), SendAll(net).0.out.wire)
    decreases |net.answers|, |net.out.queue|
  {
    if net.out.queue != [] {
      var pass, sent, wire := PassCalls(net), SendPass(net).0, SendAll(net).0.out.wire;
      PassTells(net);
      PassBrings(net);
      if GivenUp(pass) {
      } else if !Stopped(pass) {
        AllBring(sent);
        BringsJoined(net.out.wire, pass, sent.out.wire, AllCalls(sent), wire);
      } else {
        var wait, ready := PollCalls(sent), OutputModel.Poll(sent).0;
        PollTells(sent);
        PollBrings(sent);
        BringsJoined(net.out.wire, pass, sent.out.wire, wait, ready.out.wire);
        if !GivenUp(wait) {
          AllBring(ready);
          BringsJoined(net.out.wire, pass + wait, ready.out.wire, AllCalls(ready), wire);
        }
      }
    }
  }

  lemma {:induction false} NewBrings(c: Conn, q: seq<Bucket>)
    ensures var front := c.net.WithQueue(q[..Scan(q).upto]);
            Brings(c.net.out.wire, AllCalls(front) + if GivenUp(AllCalls(front)) then [] else RestCalls(SendAll(front).0.WithQueue(q[Scan(q).upto..])),
                   SendNew(c, q).0.net.out.wire)
  {
    var upto := Scan(q).upto;
    var front := c.net.WithQueue(q[..upto]);
    var net := SendAll(front).0.WithQueue(q[upto..]);
    AllTells(front);
    AllBring(front);
    ScanTail(q);
    RestBrings(c, net, Scan(q).bytes);
    if upto == 0 {
      assert q[..0] == [] && q[0..] == q && net == c.net.WithQueue(q);
    }
    if GivenUp(AllCalls(front)) {
      assert AllCalls(front) + [] == AllCalls(front);
    } else {
      BringsJoined(c.net.out.wire, AllCalls(front), net.out.wire, RestCalls(net), WriteSome(c, net, Scan(q).bytes).0.net.out.wire);
    }
  }

  lemma {:induction false} RestBrings(c: Conn, net: Net, bytes: nat)
    requires bytes == |Bytes(net.out.queue)|
    ensures Brings(net.out.wire, RestCalls(net), WriteSome(c, net, bytes).0.net.out.wire)
  {
    PassBrings(net);
  }

  /** Whatever the brigade: the wire has grown by a byte at least for each send that succeeded. */
  lemma {:induction false} EverySendBrings(c: Conn, input: Option<seq<Bucket>>)
    ensures Brings(c.net.out.wire, CallsOf(c, input), Filter(c, input).0.net.out.wire)
  {
    if c.aborted {
    } else if input.None? {
      PassBrings(c.net);
    } else {
      var q := c.net.out.queue + input.value;
      var c0 := (if c.net.out.queue == [] then c else c.(waiting := false)).(net := c.net.WithQueue([]));
      NewBrings(c0, q);
      assert c0.net.WithQueue(q[..Scan(q).upto]) == c.net.WithQueue(q[..Scan(q).upto]);
    }
  }

  /** Something is sent, or a call has not succeeded. */
  ghost predicate Tries(es: seq<Made>) {
    exists e :: e in es && (e.Send? || !e.status.Success?)
  }

  lemma {:induction false} TriesJoined(a: seq<Made>, b: seq<Made>)
    ensures Tries(a) || Tries(b) ==> Tries(a + b)
  {
    if Tries(a) {
      var e :| e in a && (e.Send? || !e.status.Success?);
      assert e in a + b;
    } else if Tries(b) {
      var e :| e in b && (e.Send? || !e.status.Success?);
      assert e in a + b;
    }
  }

  lemma {:induction false} WriteTries(net: Net, vec: seq<seq<Byte>>)
    requires Flat(vec) != []
    ensures Tries(WriteCalls(net, vec))
  {
    var es, set0 := WriteCalls(net, vec), net.Next().Next();
    if net.Peek().status.Success? && net.Next().Peek().status.Success? {
      assert Sends(set0, vec)[0] in es && Sends(set0, vec)[0].Send?;
    } else if net.Peek().status.Success? {
      assert es[1] in es;
    } else {
      assert es[0] in es;
    }
  }

  lemma {:induction false} FileTries(net: Net)
    ensures Tries(FileCalls(net))
  {
    var es := FileCalls(net);
    assert es[|es| - 1] in es && (|es| == 4 ==> es[2] in es);
  }

  lemma {:induction false} GatherTries(net: Net, vec: seq<seq<Byte>>, todo: seq<Bucket>)
    requires |vec| < MAX_IOVEC_TO_WRITE && Flat(vec) != []
    ensures Tries(GatherCalls(net, vec, todo))
    decreases Work(todo), 1
  {
    WriteTries(net, vec);
    var w := WriteCalls(net, vec);
    if todo == [] {
    } else if BySendfile(todo[0]) {
      TriesJoined(w, FileCalls(WritevIfAny(net, vec).0));
    } else if todo[0].IsMetadata() {
      GatherTries(net.Append([todo[0]]), vec, todo[1..]);
    } else {
      ReadTries(net, vec, todo);
    }
  }

  lemma {:induction false} ReadTries(net: Net, vec: seq<seq<Byte>>, todo: seq<Bucket>)
    requires |vec| < MAX_IOVEC_TO_WRITE && todo != [] && !BySendfile(todo[0]) && !todo[0].IsMetadata()
    requires Flat(vec) != [] || (todo[0].Content() != [] && !todo[0].Stream?)
    ensures Tries(GatherCalls(net, vec, todo))
    decreases Work(todo), 0, 1
  {
    var b := todo[0];
    var first, es := ReadBucket(b, net.Peek(), false), ReadCalls(net, b, false);
    ReadIsProgress(b, net.Peek(), false);
    if first.status.Success? {
      var todo' := first.rest + todo[1..];
      assert if first.rest == [] then todo' == todo[1..] else todo'[1..] == todo[1..];
      FlatConcat(vec, [first.data]);
      assert [first.data][1..] == [] && Flat([first.data]) == first.data + [];
      var net', vec' := AfterRead(net, b).Append([Morphed(b, first.data)]), vec + [first.data];
      if |vec'| < MAX_IOVEC_TO_WRITE {
        GatherTries(net', vec', todo');
      } else {
        WriteTries(net', vec');
      }
      TriesJoined(es, ProceedCalls(AfterRead(net, b), vec, todo, b, first));
    } else {
      FailedTries(net, vec, todo, first, es);
    }
  }

  lemma {:induction false} FailedTries(net: Net, vec: seq<seq<Byte>>, todo: seq<Bucket>, first: ReadResult, es: seq<Made>)
    requires |vec| < MAX_IOVEC_TO_WRITE && todo != [] && !BySendfile(todo[0]) && !todo[0].IsMetadata()
    requires first == ReadBucket(todo[0], net.Peek(), false) && es == ReadCalls(net, todo[0], false) && !first.status.Success?
    ensures Tries(GatherCalls(net, vec, todo))
  {
    ReadIsProgress(todo[0], net.Peek(), false);
    assert es[0] in GatherCalls(net, vec, todo) && !es[0].status.Success?;
  }

  /** A pass over a queue that holds a byte, and nothing of unknown length, tries to send. */
  lemma {:induction false} PassTries(net: Net)
    requires Alarms(net.out.queue) == 0 && Bytes(net.out.queue) != []
    ensures Tries(PassCalls(net))
  {
    var s := Strip(net.out);
    StripDrains(net.out);
    NoAlarms(s.queue);
    assert |net.out.Total()| == |s.Total()|;
    var start := Net(s.(queue := []), net.answers);
    if BySendfile(s.queue[0]) {
      FileTries(start);
      assert WriteCalls(start, []) == [];
      assert WriteCalls(start, []) + FileCalls(start) == FileCalls(start);
      assert !Stopped(WriteCalls(start, []));
    } else {
      ReadTries(start, [], s.queue);
    }
  }

  /** A write is tried when there is one to make: at write completion if anything is buffered, and for what follows
      the segment that must go if it holds 4096 bytes. */
  lemma {:induction false} WriteIsTried(c: Conn, input: Option<seq<Bucket>>, h: seq<Bucket>)
    requires Kept(c, h) && !c.aborted
    requires input.None? ==> c.net.out.queue != []
    requires input.Some? ==> var q := c.net.out.queue + input.value; |Bytes(q[Scan(q).upto..])| >= 4096
    ensures Tries(CallsOf(c, input))
  {
    if input.None? {
      var q := c.net.out.queue;
      NoAlarms(q);
      assert Bytes(q) == q[0].Content() + Bytes(q[1..]);
      PassTries(c.net);
    } else {
      var q := c.net.out.queue + input.value;
      var front := c.net.WithQueue(q[..Scan(q).upto]);
      var net := SendAll(front).0.WithQueue(q[Scan(q).upto..]);
      ScanTail(q);
      PassTries(net);
      TriesJoined(AllCalls(front), RestCalls(net));
      FatalTries(AllCalls(front));
      TriesJoined(AllCalls(front), []);
    }
  }

  lemma {:induction false} FatalTries(es: seq<Made>)
    ensures GivenUp(es) ==> Tries(es)
  {
    if GivenUp(es) {
      var e :| e in es && Fatal(e);
    }
  }
}
