/** What the core output filter does to its queue and to the wire, as functions.

    The socket is an adversary: every system call takes its reply from `answers`, which
    nothing constrains beyond the contracts stated at each call; once they are used up
    every call fails, so a run sees as many calls as the list is long.
 */
module OutputModel {
  import opened Wrappers
  import opened Buckets

  const THRESHOLD_MIN_WRITE := 4096
  const THRESHOLD_MAX_BUFFER := 65536
  const MAX_REQUESTS_IN_PIPELINE := 5
  const MIN_SENDFILE_BYTES := 256
  const MAX_IOVEC_TO_WRITE: nat := 16

  /** How many entries a vector that may hold no byte has behind the bucket `b`, when it had `held`: it
      starts with an unknown-length bucket, and is written when it is full. */
  function Hold(b: Bucket, held: nat): nat {
    if b.Stream? then 1
    else if b.IsMetadata() then held
    else if held == 0 || b.Content() != [] || held + 1 >= MAX_IOVEC_TO_WRITE then 0
    else held + 1
  }

  /** Between an unknown-length bucket and the next there is a byte, or there are so many empty data
      buckets that they fill the vector. */
  predicate Safe(q: seq<Bucket>, held: nat) {
    q == [] || ((q[0].Stream? ==> held == 0) && Safe(q[1..], Hold(q[0], held)))
  }

  datatype Status = Success | Again | Interrupted | Failed

  /** A reply: a byte count, for calls that take bytes, and a status. */
  datatype Answer = Answer(n: nat, status: Status)

  datatype Net = Net(out: Snapshot, answers: seq<Answer>) {
    function Append(tail: seq<Bucket>): Net {
      this.(out := out.Append(tail))
    }

    function Peek(): Answer {
      if answers == [] then Answer(0, Failed) else answers[0]
    }

    /** The state once a call has taken its answer. */
    function Next(): (r: Net)
      ensures r.out == out && |r.answers| <= |answers|
      ensures !Peek().status.Failed? ==> |r.answers| < |answers|
    {
      if answers == [] then this else this.(answers := answers[1..])
    }

    function Put(data: seq<Byte>): Net {
      this.(out := out.(wire := out.wire + data))
    }

    function WithQueue(queue: seq<Bucket>): Net {
      this.(out := out.(queue := queue))
    }
  }

  /** How many of `len` bytes `apr_socket_sendv` takes: any number, but a success takes one
      at least when there is one. */
  function Taken(a: Answer, len: nat): (n: nat)
    ensures n <= len && (a.status.Success? && len > 0 ==> n > 0)
  {
    if a.n > len then len else if a.n == 0 && a.status.Success? && len > 0 then 1 else a.n
  }

  /** As `Taken`, for `apr_socket_sendfile`: a failure takes nothing. */
  function TakenFromFile(a: Answer, len: nat): (n: nat)
    ensures n <= len && (a.status.Success? && len > 0 ==> n > 0)
  {
    if a.status.Success? then Taken(a, len) else 0
  }

  // ----- remove_empty_buckets

  predicate Skippable(b: Bucket) {
    b.IsMetadata() || b.IsEmpty()
  }

  function Strip(s: Snapshot): (t: Snapshot)
    ensures t.wire == s.wire && |t.queue| <= |s.queue|
    ensures t.queue == [] || !Skippable(t.queue[0])
    decreases |s.queue|
  {
    if s.queue != [] && Skippable(s.queue[0]) then
      Strip(Snapshot(s.wire, s.log + Destroyed(s.queue[0], |s.wire|), s.queue[1..]))
    else s
  }

  // ----- writev_nonblocking

  datatype Vectored = Vectored(log: seq<Mark>, queue: seq<Bucket>, vec: seq<seq<Byte>>)

  /** What `apr_bucket_split(b, n)` and the deletion of its first half leave. */
  function Cut(b: Bucket, n: nat): seq<Bucket> {
    if b.Heap? && n <= |b.bytes| then [Heap(b.bytes[n..], b.fromFile)] else []
  }

  /** The inner loop: `n` bytes of `vec` have just gone out and the wire is `at` bytes long.
      It takes the brigade's first bucket to be what `vec[0]` was made from. */
  function Retire(v: Vectored, n: nat, at: nat): (r: Vectored)
    requires n <= |Flat(v.vec)|
    ensures Flat(r.vec) == Flat(v.vec)[n..]
    ensures |r.vec| <= |v.vec|
    decreases |v.vec| + |v.queue|
  {
    if v.vec == [] then v
    else if v.queue != [] && v.queue[0].IsMetadata() then
      Retire(Vectored(v.log + Destroyed(v.queue[0], at), v.queue[1..], v.vec), n, at)
    else if n >= |v.vec[0]| then
      Retire(Vectored(v.log, if v.queue == [] then [] else v.queue[1..], v.vec[1..]), n - |v.vec[0]|, at)
    else
      assert Flat([v.vec[0][n..]] + v.vec[1..]) == v.vec[0][n..] + Flat(v.vec[1..]) by {
        assert ([v.vec[0][n..]] + v.vec[1..])[1..] == v.vec[1..];
      }
      Vectored(v.log,
               if v.queue == [] then [] else Cut(v.queue[0], n) + v.queue[1..],
               [v.vec[0][n..]] + v.vec[1..])
  }

  function Apply(net: Net, v: Vectored): Net {
    net.(out := net.out.(log := v.log, queue := v.queue))
  }

  /** One `apr_socket_sendv` and what follows it in the outer loop. */
  function SendOnce(net: Net, vec: seq<seq<Byte>>): (r: (Net, seq<seq<Byte>>, Status))
    ensures |r.0.answers| <= |net.answers|
    ensures r.2.Success? && Flat(vec) != [] ==> |Flat(r.1)| < |Flat(vec)|
  {
    var n := Taken(net.Peek(), |Flat(vec)|);
    var sent := net.Next().Put(Flat(vec)[..n]);
    if n == 0 then (sent, vec, net.Peek().status)
    else
      var v := Retire(Vectored(sent.out.log, sent.out.queue, vec), n, |sent.out.wire|);
      (Apply(sent, v), v.vec, net.Peek().status)
  }

  /** The outer loop. */
  function WriteLoop(net: Net, vec: seq<seq<Byte>>): (r: (Net, Status))
    ensures |r.0.answers| <= |net.answers|
    decreases |Flat(vec)|
  {
    if Flat(vec) == [] then (net, Success)
    else
      var (net', vec', rv) := SendOnce(net, vec);
      if !rv.Success? then (net', rv) else WriteLoop(net', vec')
  }

  function Writev(net: Net, vec: seq<seq<Byte>>): (r: (Net, Status))
    ensures |r.0.answers| <= |net.answers|
    ensures !r.1.Failed? ==> |r.0.answers| < |net.answers|
  {
    var got := net.Next();
    if !net.Peek().status.Success? then (got, net.Peek().status)
    else
      var set0 := got.Next();
      if !got.Peek().status.Success? then (set0, got.Peek().status)
      else
        var (done, rv) := WriteLoop(set0, vec);
        if rv.Success? then (done.Next(), done.Peek().status) else (done.Next(), rv)
  }

  function WritevIfAny(net: Net, vec: seq<seq<Byte>>): (r: (Net, Status))
    ensures |r.0.answers| <= |net.answers|
    ensures !r.1.Failed? && vec != [] ==> |r.0.answers| < |net.answers|
  {
    if vec == [] then (net, Success) else Writev(net, vec)
  }

  // ----- sendfile_nonblocking

  /** The result is the state without the file bucket, the status, and what is left of the bucket. */
  function SendFile(net: Net, b: Bucket): (r: (Net, Status, seq<Bucket>))
    requires b.File? && b.bytes != []
    ensures |r.0.answers| <= |net.answers|
    ensures !r.1.Failed? ==> |r.0.answers| < |net.answers|
  {
    var got := net.Next();
    if !net.Peek().status.Success? then (got, net.Peek().status, [b])
    else
      var set0 := got.Next();
      if !got.Peek().status.Success? then (set0, got.Peek().status, [b])
      else
        var n := TakenFromFile(set0.Peek(), |b.bytes|);
        var sent := set0.Next().Put(b.bytes[..n]);
        var rv := if set0.Peek().status.Success? then sent.Peek().status else set0.Peek().status;
        (sent.Next(), rv, if n < |b.bytes| then [File(b.bytes[n..], b.sendfile)] else [])
  }

  // ----- apr_bucket_read

  /** A read succeeds with `data`, and `rest` holds what remains behind it; or it would block
      or fails, and `rest` is the bucket as the attempt leaves it. */
  datatype ReadResult = ReadResult(status: Status, data: seq<Byte>, rest: seq<Bucket>)

  function ReadStream(f: Future, block: bool): (r: ReadResult)
    ensures block ==> !r.status.Again?
  {
    match if block then f.Waited() else f
    case Ended => ReadResult(Success, [], [])
    case Broken => ReadResult(Failed, [], [Stream(f)])
    case WouldBlock(next) => ReadResult(Again, [], [Stream(next)])
    case Arrives(bytes, next) => ReadResult(Success, bytes, [Stream(next)])
  }

  /** A file is read in pieces of any positive size; `a` says how much this read gives. */
  function ReadFile(b: Bucket, a: Answer): ReadResult
    requires b.File?
  {
    if a.status.Failed? then ReadResult(Failed, [], [b])
    else
      var n := Taken(Answer(a.n, Success), |b.bytes|);
      ReadResult(Success, b.bytes[..n], if n < |b.bytes| then [File(b.bytes[n..], b.sendfile)] else [])
  }

  function ReadBucket(b: Bucket, a: Answer, block: bool): ReadResult
    requires !b.IsMetadata()
  {
    match b
    case Heap(bytes, _) => ReadResult(Success, bytes, [])
    case File(_, _) => ReadFile(b, a)
    case Stream(f) => ReadStream(f, block)
  }

  /** Reading a file takes an answer. */
  function AfterRead(net: Net, b: Bucket): (r: Net)
    ensures r.out == net.out && |r.answers| <= |net.answers|
  {
    if b.File? then net.Next() else net
  }

  /** The bucket that holds what was read. */
  function Morphed(b: Bucket, data: seq<Byte>): Bucket {
    Heap(data, b.File? || (b.Heap? && b.fromFile))
  }

  // ----- send_brigade_nonblocking

  function Effort(b: Bucket): nat {
    match b
    case File(bytes, _) => 1 + |bytes|
    case Stream(f) => 1 + f.Size()
    case _ => 1
  }

  function Work(q: seq<Bucket>): nat {
    if q == [] then 0 else Effort(q[0]) + Work(q[1..])
  }

  lemma ReadIsProgress(b: Bucket, a: Answer, block: bool)
    requires !b.IsMetadata()
    ensures var r := ReadBucket(b, a, block);
            |r.rest| <= 1 && (!r.status.Failed? && r.rest != [] ==> Effort(r.rest[0]) < Effort(b))
  {
    if b.Stream? {
      WaitedSize(b.future);
    }
  }

  lemma WaitedSize(f: Future)
    ensures f.Waited().Size() <= f.Size() && f.Waited().Content() == f.Content()
  {
  }

  /** Is this file sent by `sendfile`? */
  predicate BySendfile(b: Bucket) {
    b.File? && b.sendfile && |b.bytes| >= MIN_SENDFILE_BYTES
  }

  /** The loop over the brigade: the queue of `net` is what lies before the cursor, `vec` what
      of it is waiting to be written, `todo` the cursor and what follows. */
  function Gather(net: Net, vec: seq<seq<Byte>>, todo: seq<Bucket>): (r: (Net, Status))
    requires |vec| < MAX_IOVEC_TO_WRITE
    ensures |r.0.answers| <= |net.answers|
    ensures !r.1.Failed? && (vec != [] || (todo != [] && !Skippable(todo[0]))) ==> |r.0.answers| < |net.answers|
    decreases Work(todo), 1
  {
    if todo == [] then
      var (net', rv) := WritevIfAny(net, vec);
      if !rv.Success? then (net', rv) else (net'.(out := Strip(net'.out)), Success)
    else if BySendfile(todo[0]) then
      var (net', rv) := WritevIfAny(net, vec);
      if !rv.Success? then (net'.Append(todo), rv) else SendFileAndStop(net', todo)
    else if todo[0].IsMetadata() then
      Gather(net.Append([todo[0]]), vec, todo[1..])
    else
      var b := todo[0];
      var first := ReadBucket(b, net.Peek(), false);
      ReadIsProgress(b, net.Peek(), false);
      if !first.status.Again? then Proceed(AfterRead(net, b), vec, todo, b, first)
      else
        // reading would block: write what is waiting, then read again
        var (net', rv) := WritevIfAny(net, vec);
        if !rv.Success? then (net'.Append(first.rest + todo[1..]), rv)
        else
          ReadIsProgress(first.rest[0], net'.Peek(), true);
          Proceed(net', [], todo, first.rest[0], ReadBucket(first.rest[0], net'.Peek(), true))
  }

  /** What follows a read of the bucket `b` at the cursor. */
  function Proceed(net: Net, vec: seq<seq<Byte>>, todo: seq<Bucket>, b: Bucket, read: ReadResult): (r: (Net, Status))
    requires |vec| < MAX_IOVEC_TO_WRITE && todo != []
    requires |read.rest| <= 1 && (read.status.Success? && read.rest != [] ==> Effort(read.rest[0]) < Effort(todo[0]))
    ensures |r.0.answers| <= |net.answers|
    ensures !r.1.Failed? && !read.status.Again? ==> |r.0.answers| < |net.answers| || !read.status.Success?
    decreases Work(todo), 0
  {
    if !read.status.Success? then (net.Append(read.rest + todo[1..]), read.status)
    else
      var net' := net.Append([Morphed(b, read.data)]);
      var vec' := vec + [read.data];
      var todo' := read.rest + todo[1..];
      assert if read.rest == [] then todo' == todo[1..] else todo'[1..] == todo[1..];
      Push(net', vec', todo')
  }

  /** A bucket has just been put into the vector: go on, unless it is full. */
  function Push(net: Net, vec: seq<seq<Byte>>, todo: seq<Bucket>): (r: (Net, Status))
    requires 0 < |vec| <= MAX_IOVEC_TO_WRITE
    ensures |r.0.answers| <= |net.answers|
    ensures !r.1.Failed? ==> |r.0.answers| < |net.answers|
    decreases Work(todo), 2
  {
    if |vec| < MAX_IOVEC_TO_WRITE then Gather(net, vec, todo)
    else
      var (done, rv) := Writev(net, vec);
      var full := done.Append(todo);
      if !rv.Success? then (full, rv) else (full.(out := Strip(full.out)), Success)
  }

  function SendFileAndStop(net: Net, todo: seq<Bucket>): (r: (Net, Status))
    requires todo != [] && BySendfile(todo[0])
    ensures |r.0.answers| <= |net.answers|
    ensures !r.1.Failed? ==> |r.0.answers| < |net.answers|
  {
    var (net', rv, left) := SendFile(net, todo[0]);
    var full := net'.Append(left + todo[1..]);
    if !rv.Success? then (full, rv) else (full.(out := Strip(full.out)), Success)
  }

  function SendPass(net: Net): (r: (Net, Status))
    ensures |r.0.answers| <= |net.answers|
    ensures !r.1.Failed? ==> |r.0.answers| < |net.answers| || r.0.out.queue == []
  {
    var s := Strip(net.out);
    Gather(Net(s.(queue := []), net.answers), [], s.queue)
  }

  // ----- send_brigade_blocking

  function Poll(net: Net): (r: (Net, Status))
    ensures r.0.out == net.out && |r.0.answers| <= |net.answers|
    decreases |net.answers|
  {
    if net.Peek().status.Interrupted? then Poll(net.Next()) else (net.Next(), net.Peek().status)
  }

  function SendAll(net: Net): (r: (Net, Status))
    ensures r.1.Success? ==> r.0.out.queue == []
    decreases |net.answers|, |net.out.queue|
  {
    if net.out.queue == [] then (net, Success)
    else
      var (sent, rv) := SendPass(net);
      if rv.Success? then SendAll(sent)
      else if !rv.Again? then (sent, rv)
      else
        var (ready, prv) := Poll(sent);
        if prv.Success? then SendAll(ready) else (ready, prv)
  }

  // ----- ap_core_output_filter

  /** Where the segment that must be sent ends (0: there is none), and the bytes known to follow
      it, those of them not in files, and the EOR buckets among them. */
  datatype Tally = Tally(upto: nat, bytes: nat, nonFile: nat, eors: nat)

  /** One round of the scan, at the bucket before index `next`. */
  function Count(t: Tally, b: Bucket, next: nat): Tally {
    var bytes := t.bytes + if b.Stream? then 0 else |b.Content()|;
    var nonFile := t.nonFile + if b.Heap? then |b.bytes| else 0;
    var eors := t.eors + if b.Eor? then 1 else 0;
    if b.Flush? || nonFile >= THRESHOLD_MAX_BUFFER || b.Stream? || eors > MAX_REQUESTS_IN_PIPELINE
    then Tally(next, 0, 0, 0)
    else Tally(t.upto, bytes, nonFile, eors)
  }

  function Scan(q: seq<Bucket>): (t: Tally)
    ensures t.upto <= |q|
  {
    if q == [] then Tally(0, 0, 0, 0) else Count(Scan(q[..|q| - 1]), q[|q| - 1], |q|)
  }

  /** `apr_brigade_cleanup`: what it adds to the log. */
  function Discarded(q: seq<Bucket>, at: nat): seq<Mark> {
    if q == [] then [] else Destroyed(q[0], at) + Discarded(q[1..], at)
  }

  /** A connection between calls; the queue of `net` is `buffered_bb`, `stranded` what an abort left
      in `tmp_flush_bb`, `waiting` the flag `data_in_output_filters`. */
  datatype Conn = Conn(net: Net, stranded: seq<Bucket>, aborted: bool, waiting: bool)

  function Discard(net: Net, q: seq<Bucket>): Net {
    net.(out := net.out.(log := net.out.log + Discarded(q, |net.out.wire|)))
  }

  function Abort(c: Conn, net: Net, stranded: seq<Bucket>): Conn {
    Conn(Discard(net, net.out.queue).WithQueue([]), stranded, true, c.waiting)
  }

  function SetAside(c: Conn, net: Net): Conn {
    var s := Strip(net.out);
    c.(net := net.(out := s), waiting := s.queue != [] || c.waiting)
  }

  function Settle(c: Conn, sent: (Net, Status)): (Conn, Status) {
    if sent.1.Success? || sent.1.Again? then (SetAside(c, sent.0), Success)
    else (Abort(c, sent.0, []), sent.1)
  }

  /** Rule 4, and what is kept for later. */
  function WriteSome(c: Conn, net: Net, bytes: nat): (Conn, Status) {
    if bytes >= THRESHOLD_MIN_WRITE then Settle(c, SendPass(net)) else (SetAside(c, net), Success)
  }

  function Filter(c: Conn, input: Option<seq<Bucket>>): (Conn, Status) {
    if c.aborted then
      (if input.None? then c else c.(net := Discard(c.net, input.value)), Failed)
    else
      var c' := if c.net.out.queue == [] then c else c.(waiting := false);
      match input
      case None =>
        if c.net.out.queue == [] then (c, Success) else Settle(c', SendPass(c.net))
      case Some(bb) => SendNew(c'.(net := c.net.WithQueue([])), c.net.out.queue + bb)
  }

  /** Rules 2 to 4, for a brigade `q` that already starts with what was buffered. */
  function SendNew(c: Conn, q: seq<Bucket>): (Conn, Status) {
    var t := Scan(q);
    if t.upto == 0 then WriteSome(c, c.net.WithQueue(q), t.bytes)
    else
      var (net, rv) := SendAll(c.net.WithQueue(q[..t.upto]));
      if !rv.Success? then (Abort(c, net, q[t.upto..]), rv)
      else WriteSome(c, net.WithQueue(q[t.upto..]), t.bytes)
  }

  /** Any series of calls: new brigades, and write completions without one. */
  function Run(c: Conn, inputs: seq<Option<seq<Bucket>>>): Conn {
    if inputs == [] then c else Filter(Run(c, inputs[..|inputs| - 1]), inputs[|inputs| - 1]).0
  }

  function Start(answers: seq<Answer>): Conn {
    Conn(Net(Snapshot([], [], []), answers), [], false, false)
  }
}
