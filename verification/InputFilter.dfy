/** The READBYTES and SPECULATIVE modes of the core input filter: a prefix of what has come in is
    taken, or looked at and left.
 */
module InputFilter {
  import opened Wrappers
  import opened Sequences
  import opened Buckets

  /** Pending input: bytes that were read, and the socket they came from. */
  datatype Piece = Data(bytes: seq<Byte>) | Socket(future: Future)

  datatype Status = Fine | Eof | Lost

  /** What the caller gets: bytes, and whether an end-of-stream bucket comes with them. */
  datatype Reply = Reply(status: Status, bytes: seq<Byte>, eos: bool)

  /** The filter before its first call, and after. */
  datatype Input = Unopened(socket: Future) | Opened(pending: seq<Piece>)
  {
    /** All that is still to be delivered, read already or not. */
    function Content(): seq<Byte> {
      if Unopened? then socket.Content() else All(pending)
    }
  }

  function All(ps: seq<Piece>): seq<Byte> {
    if ps == [] then [] else (if ps[0].Data? then ps[0].bytes else ps[0].future.Content()) + All(ps[1..])
  }

  /** The bytes that can be had without reading the socket. */
  function Lead(ps: seq<Piece>): seq<Byte> {
    if ps == [] || ps[0].Socket? then [] else ps[0].bytes + Lead(ps[1..])
  }

  /** `BRIGADE_NORMALIZE` */
  function Normalize(ps: seq<Piece>): seq<Piece> {
    if ps == [] then [] else (if ps[0] == Data([]) then [] else [ps[0]]) + Normalize(ps[1..])
  }

  /** What a bucket read makes of a piece; `Again` when it would block. */
  datatype Read = Got(pieces: seq<Piece>, length: nat) | Again(piece: Piece) | Failed(piece: Piece)

  function ReadPiece(p: Piece, block: bool): (r: Read)
    ensures r.Got? ==> r.pieces != [] && r.pieces[0].Data? && |r.pieces[0].bytes| == r.length
  {
    if p.Data? then Got([p], |p.bytes|)
    else
      var f := if block then p.future.Waited() else p.future;
      match f
      case Arrives(bytes, next) => Got([Data(bytes), Socket(next)], |bytes|)
      case Ended => Got([Data([])], 0)
      case WouldBlock(next) => Again(Socket(next))
      case Broken => Failed(Socket(f))
  }

  function Work(ps: seq<Piece>): nat {
    if ps == [] then 0 else (if ps[0].Data? then 1 else 1 + ps[0].future.Size()) + Work(ps[1..])
  }

  /** The pieces and the count of their bytes as the greedy loop leaves them; `done` is behind its cursor. */
  function Greedy(done: seq<Piece>, rest: seq<Piece>, len: nat, n: nat): (seq<Piece>, nat)
    decreases Work(rest)
  {
    if len >= n || rest == [] then (done + rest, len)
    else
      match ReadPiece(rest[0], false)
      case Got(ps, k) =>
        WorkShrinks(rest);
        Greedy(done + [ps[0]], ps[1..] + rest[1..], len + k, n)
      case Again(p) => (done + [p] + rest[1..], len)
      case Failed(p) => (done + [p] + rest[1..], len)
  }

  lemma WorkShrinks(rest: seq<Piece>)
    requires rest != []
    ensures var r := ReadPiece(rest[0], false); r.Got? ==> Work(r.pieces[1..] + rest[1..]) < Work(rest)
  {
    var r := ReadPiece(rest[0], false);
    if r.Got? {
      if |r.pieces| > 1 {
        assert r.pieces[1..] + rest[1..] == [r.pieces[1]] + rest[1..];
        assert (r.pieces[1..] + rest[1..])[1..] == rest[1..];
      } else {
        assert r.pieces[1..] + rest[1..] == rest[1..];
      }
    }
  }

  /** `apr_brigade_partition`: `k` bytes in front, a piece split if need be. */
  function Partition(ps: seq<Piece>, k: nat): (seq<Piece>, seq<Piece>) {
    if k == 0 || ps == [] || ps[0].Socket? then ([], ps)
    else if k < |ps[0].bytes| then ([Data(ps[0].bytes[..k])], [Data(ps[0].bytes[k..])] + ps[1..])
    else
      var (before, after) := Partition(ps[1..], k - |ps[0].bytes|);
      ([ps[0]] + before, after)
  }

  function Min(a: nat, b: nat): nat {
    if a < b then a else b
  }

  /** The first `n` bytes there are, taken or looked at. */
  function Take(ps: seq<Piece>, len: nat, n: nat, peek: bool): (Input, Reply) {
    var (all, total) := Greedy(ps[..Min(1, |ps|)], ps[Min(1, |ps|)..], len, n);
    var (before, after) := Partition(all, Min(n, total));
    (Opened(if peek then before + after else after), Reply(Fine, All(before), false))
  }

  /** A call, once the pending pieces are known and not empty. */
  function Fetch(ps: seq<Piece>, n: nat, block: bool, peek: bool): (Input, Reply)
    requires ps != []
  {
    match ReadPiece(ps[0], block)
    case Again(p) => (Opened([p] + ps[1..]), Reply(if block then Lost else Fine, [], false))
    case Failed(p) => (Opened([p] + ps[1..]), Reply(Lost, [], false))
    case Got(got, len) =>
      if block && len == 0 then (Opened(got[1..] + ps[1..]), Reply(Fine, [], !peek))
      else Take(got + ps[1..], len, n, peek)
  }

  /** `ap_core_input_filter` */
  function Call(s: Input, n: nat, block: bool, peek: bool): (Input, Reply) {
    if s == Opened([]) then (s, Reply(Eof, [], false))
    else
      var ps := Normalize(if s.Unopened? then [Socket(s.socket)] else s.pending);
      if ps == [] then (Opened([]), Reply(Eof, [], false)) else Fetch(ps, n, block, peek)
  }

  // ----- nothing is lost

  lemma {:induction false} AllJoins(a: seq<Piece>, b: seq<Piece>)
    ensures All(a + b) == All(a) + All(b)
  {
    if a != [] {
      AllJoins(a[1..], b);
      assert (a + b)[1..] == a[1..] + b;
    } else {
      assert a + b == b;
    }
  }

  lemma {:induction false} NormalizeKeeps(ps: seq<Piece>)
    ensures All(Normalize(ps)) == All(ps) && Lead(Normalize(ps)) == Lead(ps)
    ensures Normalize(ps) != [] ==> Normalize(ps)[0] != Data([])
  {
    if ps != [] {
      NormalizeKeeps(ps[1..]);
      if ps[0] != Data([]) {
        assert Normalize(ps)[1..] == Normalize(ps[1..]);
      } else {
        assert Normalize(ps) == Normalize(ps[1..]);
      }
    }
  }

  lemma WaitedKeeps(f: Future)
    ensures f.Waited().Content() == f.Content()
  {
  }

  lemma ReadKeeps(p: Piece, block: bool)
    ensures match ReadPiece(p, block)
            case Got(ps, _) => All(ps) == All([p])
            case Again(p') => All([p']) == All([p])
            case Failed(p') => All([p']) == All([p])
  {
    if p.Socket? {
      WaitedKeeps(p.future);
      var f := if block then p.future.Waited() else p.future;
      if f.Arrives? {
        assert [Data(f.bytes), Socket(f.next)][1..] == [Socket(f.next)];
        assert All([Socket(f.next)]) == f.next.Content() + [] == f.next.Content();
        assert All([p]) == p.future.Content() + [] == f.bytes + f.next.Content();
      }
    }
  }

  /** A read in front of `rest`, whatever comes behind. */
  lemma ReadKeepsAll(p: Piece, rest: seq<Piece>, block: bool)
    ensures var r := ReadPiece(p, block);
            All(if r.Got? then r.pieces + rest else [r.piece] + rest) == All([p] + rest)
  {
    var r := ReadPiece(p, block);
    ReadKeeps(p, block);
    AllJoins([p], rest);
    AllJoins(if r.Got? then r.pieces else [r.piece], rest);
  }

  lemma LeadJoins(a: seq<Piece>, b: seq<Piece>)
    requires forall i :: 0 <= i < |a| ==> a[i].Data?
    ensures Lead(a + b) == All(a) + Lead(b)
  {
    if a != [] {
      LeadJoins(a[1..], b);
      assert (a + b)[1..] == a[1..] + b;
    } else {
      assert a + b == b;
    }
  }

  ghost predicate AllData(ps: seq<Piece>) {
    forall i :: 0 <= i < |ps| ==> ps[i].Data?
  }

  /** What the greedy loop leaves: nothing lost, as many bytes in front as it has counted, all that was
      there or enough, and what was in front still there. */
  lemma {:induction false} GreedyKeeps(done: seq<Piece>, rest: seq<Piece>, len: nat, n: nat)
    requires AllData(done) && |All(done)| == len
    ensures var (all, total) := Greedy(done, rest, len, n);
            && All(all) == All(done + rest)
            && total <= |Lead(all)| && Lead(done + rest) <= Lead(all)
            && total >= Min(n, |Lead(done + rest)|)
    decreases Work(rest)
  {
    LeadJoins(done, rest);
    if len < n && rest != [] {
      var r := ReadPiece(rest[0], false);
      if r.Got? {
        WorkShrinks(rest);
        GreedyGot(done, rest, r);
        GreedyKeeps(done + [r.pieces[0]], r.pieces[1..] + rest[1..], len + r.length, n);
      } else {
        GreedyStuck(done, rest, r);
      }
    }
  }

  /** A read that gives nothing ends the loop. */
  lemma {:induction false} GreedyStuck(done: seq<Piece>, rest: seq<Piece>, r: Read)
    requires AllData(done) && rest != [] && r == ReadPiece(rest[0], false) && !r.Got?
    ensures var all := done + [r.piece] + rest[1..];
            All(all) == All(done + rest) && Lead(all) == Lead(done + rest) == All(done)
  {
    var rest' := [r.piece] + rest[1..];
    assert done + [r.piece] + rest[1..] == done + rest';
    assert rest == [rest[0]] + rest[1..];
    ReadKeepsAll(rest[0], rest[1..], false);
    AllJoins(done, rest);
    AllJoins(done, rest');
    LeadJoins(done, rest);
    LeadJoins(done, rest');
  }

  lemma {:induction false} GreedyGot(done: seq<Piece>, rest: seq<Piece>, r: Read)
    requires AllData(done) && rest != [] && r == ReadPiece(rest[0], false) && r.Got?
    ensures var done', rest' := done + [r.pieces[0]], r.pieces[1..] + rest[1..];
            && AllData(done') && |All(done')| == |All(done)| + r.length
            && All(done' + rest') == All(done + rest)
            && Lead(done + rest) <= Lead(done' + rest')
  {
    var done', rest' := done + [r.pieces[0]], r.pieces[1..] + rest[1..];
    AllJoins(done, [r.pieces[0]]);
    assert All([r.pieces[0]]) == r.pieces[0].bytes + [];
    assert done' + rest' == done + (r.pieces + rest[1..]);
    assert rest == [rest[0]] + rest[1..];
    GotKeepsAll(done, rest, r);
    GotKeepsLead(done, rest, r);
  }

  lemma GotKeepsAll(done: seq<Piece>, rest: seq<Piece>, r: Read)
    requires rest != [] && r == ReadPiece(rest[0], false) && r.Got?
    ensures All(done + (r.pieces + rest[1..])) == All(done + rest)
  {
    assert rest == [rest[0]] + rest[1..];
    ReadKeepsAll(rest[0], rest[1..], false);
    AllJoins(done, rest);
    AllJoins(done, r.pieces + rest[1..]);
  }

  lemma GotKeepsLead(done: seq<Piece>, rest: seq<Piece>, r: Read)
    requires AllData(done) && rest != [] && r == ReadPiece(rest[0], false) && r.Got?
    ensures Lead(done + rest) <= Lead(done + (r.pieces + rest[1..]))
  {
    assert rest == [rest[0]] + rest[1..];
    LeadJoins(done, rest);
    LeadJoins(done, r.pieces + rest[1..]);
    assert rest[0].Data? ==> r.pieces + rest[1..] == rest;
  }

  /** A piece split in two. */
  lemma SplitKeeps(bytes: seq<Byte>, rest: seq<Piece>, k: nat)
    requires k <= |bytes|
    ensures var ps := [Data(bytes[..k])] + ([Data(bytes[k..])] + rest);
            Lead(ps) == bytes + Lead(rest) && All(ps) == bytes + All(rest)
  {
    var a, b := Data(bytes[..k]), Data(bytes[k..]);
    assert bytes[..k] + bytes[k..] == bytes;
    assert ([a] + ([b] + rest))[1..] == [b] + rest && ([b] + rest)[1..] == rest;
    assert bytes[..k] + (bytes[k..] + Lead(rest)) == bytes + Lead(rest);
    assert bytes[..k] + (bytes[k..] + All(rest)) == bytes + All(rest);
  }

  /** A piece that goes whole. */
  lemma {:induction false} WholePieceKeeps(ps: seq<Piece>, k: nat, before: seq<Piece>, after: seq<Piece>)
    requires ps != [] && ps[0].Data? && |ps[0].bytes| <= k <= |Lead(ps)|
    requires All(before) == Lead(ps[1..])[..k - |ps[0].bytes|]
    requires Lead(before + after) == Lead(ps[1..]) && All(before + after) == All(ps[1..])
    ensures All([ps[0]] + before) == Lead(ps)[..k]
    ensures Lead([ps[0]] + before + after) == Lead(ps) && All([ps[0]] + before + after) == All(ps)
  {
    var bytes := ps[0].bytes;
    assert ([ps[0]] + before)[1..] == before;
    assert Lead(ps)[..k] == bytes + Lead(ps[1..])[..k - |bytes|];
    PieceInFront(ps[0], before + after);
    assert [ps[0]] + before + after == [ps[0]] + (before + after);
  }

  lemma PieceInFront(p: Piece, rest: seq<Piece>)
    requires p.Data?
    ensures Lead([p] + rest) == p.bytes + Lead(rest) && All([p] + rest) == p.bytes + All(rest)
  {
    assert ([p] + rest)[1..] == rest;
  }

  lemma {:induction false} PartitionKeeps(ps: seq<Piece>, k: nat)
    requires k <= |Lead(ps)|
    ensures var (before, after) := Partition(ps, k);
            && All(before) == Lead(ps)[..k]
            && Lead(before + after) == Lead(ps) && All(before + after) == All(ps)
  {
    var (before, after) := Partition(ps, k);
    if k == 0 || ps == [] || ps[0].Socket? {
      assert before + after == ps;
    } else {
      var bytes := ps[0].bytes;
      if k < |bytes| {
        SplitKeeps(bytes, ps[1..], k);
        assert before + after == [Data(bytes[..k])] + ([Data(bytes[k..])] + ps[1..]);
        assert All(before) == bytes[..k] + [];
      } else {
        PartitionKeeps(ps[1..], k - |bytes|);
        WholePieceKeeps(ps, k, Partition(ps[1..], k - |bytes|).0, after);
      }
    }
  }

  lemma {:induction false} TakeKeeps(ps: seq<Piece>, len: nat, n: nat, peek: bool)
    requires ps != [] && ps[0].Data? && |ps[0].bytes| == len
    ensures var (s, r) := Take(ps, len, n, peek);
            && (if peek then s.Content() == All(ps) else r.bytes + s.Content() == All(ps))
            && |r.bytes| <= n && |r.bytes| >= Min(n, |Lead(ps)|)
            && (peek ==> r.bytes <= Lead(s.pending))
            && Lead(ps)[..Min(n, |Lead(ps)|)] <= r.bytes
  {
    var (s, r) := Take(ps, len, n, peek);
    var (all, total) := Greedy(ps[..1], ps[1..], len, n);
    assert ps[..1] + ps[1..] == ps && ps[..1] == [ps[0]];
    assert All([ps[0]]) == ps[0].bytes + [];
    GreedyKeeps(ps[..1], ps[1..], len, n);
    PartitionKeeps(all, Min(n, total));
    var (before, after) := Partition(all, Min(n, total));
    AllJoins(before, after);
  }

  lemma FetchKeeps(ps: seq<Piece>, n: nat, block: bool, peek: bool)
    requires ps != []
    ensures var (s, r) := Fetch(ps, n, block, peek);
            && s.Opened? && |r.bytes| <= n
            && (if peek then s.Content() == All(ps) else r.bytes + s.Content() == All(ps))
            && (peek ==> r.bytes <= Lead(s.pending))
  {
    var got := ReadPiece(ps[0], block);
    assert ps == [ps[0]] + ps[1..];
    ReadKeepsAll(ps[0], ps[1..], block);
    if got.Got? {
      if block && got.length == 0 {
        EmptyPieceGone(got.pieces, ps[1..]);
      } else {
        TakeKeeps(got.pieces + ps[1..], got.length, n, peek);
      }
    }
  }

  lemma EmptyPieceGone(got: seq<Piece>, rest: seq<Piece>)
    requires got != [] && got[0] == Data([])
    ensures All(got[1..] + rest) == All(got + rest)
  {
    assert (got + rest)[1..] == got[1..] + rest;
    assert [] + All(got[1..] + rest) == All(got[1..] + rest);
  }

  /** Whatever a call does, the bytes it hands out and those it leaves are those that were there; a
      peek leaves them all, and no more are handed out than asked for. */
  lemma CallKeeps(s: Input, n: nat, block: bool, peek: bool)
    ensures var (s', r) := Call(s, n, block, peek);
            && (if peek then s'.Content() == s.Content() else r.bytes + s'.Content() == s.Content())
            && |r.bytes| <= n && s'.Opened?
            && (peek ==> r.bytes <= Lead(s'.pending))
  {
    if s != Opened([]) {
      var start := if s.Unopened? then [Socket(s.socket)] else s.pending;
      assert s.Unopened? ==> All(start) == s.socket.Content() + [];
      NormalizeKeeps(start);
      if Normalize(start) != [] {
        FetchKeeps(Normalize(start), n, block, peek);
      }
    }
  }

  /** A read gets at least what is there, up to what it asks for. */
  lemma ReadGetsLead(s: Input, n: nat, block: bool)
    requires s.Opened? && Lead(s.pending) != []
    ensures var r := Call(s, n, block, false).1;
            r.status == Fine && Lead(s.pending)[..Min(n, |Lead(s.pending)|)] <= r.bytes
  {
    var ps := Normalize(s.pending);
    NormalizeKeeps(s.pending);
    assert [ps[0]] + ps[1..] == ps;
    TakeKeeps(ps, |ps[0].bytes|, n, false);
  }

  /** What a peek has shown, the next read of the same size hands out first. */
  lemma PeekThenRead(s: Input, n: nat, block: bool, block': bool)
    ensures var (s', peeked) := Call(s, n, block, true);
            peeked.bytes <= Call(s', n, block', false).1.bytes
  {
    var (s', peeked) := Call(s, n, block, true);
    CallKeeps(s, n, block, true);
    if peeked.bytes != [] {
      ReadGetsLead(s', n, block');
      var lead := Lead(s'.pending);
      assert peeked.bytes <= lead[..Min(n, |lead|)];
    }
  }

  // ----- any run of calls

  datatype Request = Request(n: nat, block: bool, peek: bool)

  /** The bytes that are the caller's to keep. */
  function HandedOut(c: Request, r: Reply): seq<Byte> {
    if c.peek then [] else r.bytes
  }

  /** The filter after the calls, and the bytes the reads among them have handed out. */
  function Run(s: Input, calls: seq<Request>): (Input, seq<Byte>)
    decreases |calls|
  {
    if calls == [] then (s, [])
    else
      var (s', r) := Call(s, calls[0].n, calls[0].block, calls[0].peek);
      var (s'', out) := Run(s', calls[1..]);
      (s'', HandedOut(calls[0], r) + out)
  }

  lemma Joined(a: seq<Byte>, b: seq<Byte>, c: seq<Byte>, bc: seq<Byte>, abc: seq<Byte>)
    requires b + c == bc && a + bc == abc
    ensures (a + b) + c == abc
  {
  }

  /** Over any run of reads and peeks, what was handed out, followed by what is pending and what the
      socket has still to bring, is what the socket had to bring. */
  lemma {:induction false} InputConserved(s: Input, calls: seq<Request>)
    ensures Run(s, calls).1 + Run(s, calls).0.Content() == s.Content()
    decreases |calls|
  {
    if calls == [] {
      assert [] + s.Content() == s.Content();
    } else {
      var c := calls[0];
      var (s', r) := Call(s, c.n, c.block, c.peek);
      var (s'', out) := Run(s', calls[1..]);
      CallKeeps(s, c.n, c.block, c.peek);
      assert HandedOut(c, r) + s'.Content() == s.Content();
      InputConserved(s', calls[1..]);
      Joined(HandedOut(c, r), out, s''.Content(), s'.Content(), s.Content());
    }
  }

  // ----- the reads get on

  /** Only the last piece can be the socket. */
  predicate SocketLast(ps: seq<Piece>) {
    |ps| <= 1 || (ps[0].Data? && SocketLast(ps[1..]))
  }

  predicate Placed(s: Input) {
    s.Opened? ==> SocketLast(s.pending)
  }

  lemma {:induction false} DataInFront(a: seq<Piece>, b: seq<Piece>)
    requires AllData(a) && SocketLast(b)
    ensures SocketLast(a + b)
  {
    if a == [] {
      assert a + b == b;
    } else {
      DataInFront(a[1..], b);
      assert (a + b)[1..] == a[1..] + b;
    }
  }

  lemma {:induction false} NormalizeLast(ps: seq<Piece>)
    requires SocketLast(ps)
    ensures SocketLast(Normalize(ps))
  {
    if |ps| > 1 {
      NormalizeLast(ps[1..]);
      DataInFront(if ps[0] == Data([]) then [] else [ps[0]], Normalize(ps[1..]));
    } else if ps != [] {
      assert ps[1..] == [];
    }
  }

  lemma {:induction false} ReadLast(ps: seq<Piece>, block: bool)
    requires SocketLast(ps) && ps != []
    ensures var r := ReadPiece(ps[0], block);
            if r.Got? then SocketLast(r.pieces + ps[1..]) && SocketLast(r.pieces[1..] + ps[1..]) else SocketLast([r.piece] + ps[1..])
  {
    var r := ReadPiece(ps[0], block);
    if ps[0].Data? {
      assert [ps[0]] + ps[1..] == ps && [ps[0]][1..] + ps[1..] == ps[1..];
    } else if r.Got? {
      assert ps[1..] == [] && r.pieces + [] == r.pieces && r.pieces[1..] + [] == r.pieces[1..];
    }
  }

  lemma {:induction false} GreedyLast(done: seq<Piece>, rest: seq<Piece>, len: nat, n: nat)
    requires AllData(done) && SocketLast(rest)
    ensures SocketLast(Greedy(done, rest, len, n).0)
    decreases Work(rest)
  {
    if len >= n || rest == [] {
      DataInFront(done, rest);
    } else {
      var r := ReadPiece(rest[0], false);
      ReadLast(rest, false);
      if r.Got? {
        WorkShrinks(rest);
        GreedyLast(done + [r.pieces[0]], r.pieces[1..] + rest[1..], len + r.length, n);
      } else {
        DataInFront(done, [r.piece] + rest[1..]);
        assert done + [r.piece] + rest[1..] == done + ([r.piece] + rest[1..]);
      }
    }
  }

  lemma {:induction false} PartitionLast(ps: seq<Piece>, k: nat)
    requires SocketLast(ps)
    ensures var (before, after) := Partition(ps, k); AllData(before) && SocketLast(after)
  {
    if k != 0 && ps != [] && ps[0].Data? {
      if k < |ps[0].bytes| {
        assert ([Data(ps[0].bytes[k..])] + ps[1..])[1..] == ps[1..];
      } else {
        PartitionLast(ps[1..], k - |ps[0].bytes|);
      }
    }
  }

  /** What a call leaves has the socket last. */
  lemma {:induction false} CallPlaced(s: Input, n: nat, block: bool, peek: bool)
    requires Placed(s)
    ensures Placed(Call(s, n, block, peek).0)
  {
    var start := if s.Unopened? then [Socket(s.socket)] else s.pending;
    NormalizeLast(start);
    var ps := Normalize(start);
    if s != Opened([]) && ps != [] {
      ReadLast(ps, block);
      var r := ReadPiece(ps[0], block);
      if r.Got? && !(block && r.length == 0) {
        TakePlaced(r.pieces + ps[1..], r.length, n, peek);
      }
    }
  }

  lemma {:induction false} TakePlaced(ps: seq<Piece>, len: nat, n: nat, peek: bool)
    requires SocketLast(ps) && ps != [] && ps[0].Data?
    ensures Placed(Take(ps, len, n, peek).0)
  {
    var (all, total) := Greedy(ps[..1], ps[1..], len, n);
    GreedyLast(ps[..1], ps[1..], len, n);
    PartitionLast(all, Min(n, total));
    var (before, after) := Partition(all, Min(n, total));
    DataInFront(before, after);
  }

  predicate HeadReady(ps: seq<Piece>, block: bool) {
    ps != [] && (ps[0].Data? || (if block then ps[0].future.Waited() else ps[0].future).Arrives?)
  }

  /** There is something to hand out: bytes read already, or the socket brings some. */
  predicate Ready(s: Input, block: bool) {
    HeadReady(Normalize(if s.Unopened? then [Socket(s.socket)] else s.pending), block)
  }

  lemma {:induction false} NothingTaken(n: nat, peek: bool)
    ensures Take([Data([])], 0, n, peek).1.bytes == []
  {
    var ps := [Data([])];
    assert ps[..1] == ps && ps[1..] == [] && ps + [] == ps;
    assert Greedy(ps, [], 0, n) == (ps, 0);
  }

  lemma {:induction false} FetchGives(ps: seq<Piece>, n: nat, block: bool, peek: bool)
    requires SocketLast(ps) && ps != [] && ps[0] != Data([]) && n > 0
    ensures Fetch(ps, n, block, peek).1.bytes != [] <==> HeadReady(ps, block)
  {
    var r := ReadPiece(ps[0], block);
    if r.Got? && r.length > 0 {
      TakeKeeps(r.pieces + ps[1..], r.length, n, peek);
    } else if r.Got? {
      assert ps[1..] == [] && r.pieces + [] == [Data([])];
      NothingTaken(n, peek);
    }
  }

  /** A call that asks for bytes gets none if and only if there is nothing to hand out. */
  lemma GivesExactly(s: Input, n: nat, block: bool, peek: bool)
    requires Placed(s) && n > 0
    ensures Call(s, n, block, peek).1.bytes != [] <==> Ready(s, block)
  {
    var start := if s.Unopened? then [Socket(s.socket)] else s.pending;
    NormalizeKeeps(start);
    NormalizeLast(start);
    if Normalize(start) != [] {
      FetchGives(Normalize(start), n, block, peek);
    }
  }

  /** The end is announced only when nothing is left, and a blocking read that gets no byte leaves none. */
  lemma {:induction false} EndIsTheEnd(s: Input, n: nat, block: bool, peek: bool)
    requires Placed(s)
    ensures var r := Call(s, n, block, peek).1;
            && (r.status == Eof || r.eos ==> s.Content() == [])
            && (block && n > 0 && r.bytes == [] ==> s.Content() == [])
            && (block && n > 0 && r.status == Fine && !peek ==> r.bytes != [] || r.eos)
  {
    var start := if s.Unopened? then [Socket(s.socket)] else s.pending;
    NormalizeKeeps(start);
    NormalizeLast(start);
    assert s.Unopened? ==> All(start) == s.socket.Content() + [];
    var ps := Normalize(start);
    if n > 0 {
      GivesExactly(s, n, block, peek);
    }
    if ps != [] && ps[0].Socket? {
      assert ps == [ps[0]] && ps[1..] == [];
      WaitedKeeps(ps[0].future);
    }
  }

  // ----- the reply, exactly

  /** What comes in before there would be a wait. */
  function Ripe(f: Future): seq<Byte> {
    if f.Arrives? then f.bytes + Ripe(f.next) else []
  }

  /** The bytes that can be had: those in memory, then what is ripe; only a blocking call with none in memory waits. */
  function Avail(ps: seq<Piece>, block: bool): seq<Byte> {
    if ps == [] then []
    else if ps[0].Data? then ps[0].bytes + Avail(ps[1..], block && ps[0].bytes == [])
    else Ripe(if block then ps[0].future.Waited() else ps[0].future)
  }

  /** The first piece that is not an empty one in memory. */
  function Foremost(ps: seq<Piece>): Option<Piece> {
    if ps == [] then None else if ps[0] == Data([]) then Foremost(ps[1..]) else Some(ps[0])
  }

  /** The socket as a call finds it that must read it first, once waited for if the call blocks. */
  function Met(ps: seq<Piece>, block: bool): Option<Future> {
    match Foremost(ps)
    case Some(Socket(f)) => Some(if block then f.Waited() else f)
    case _ => None
  }

  /** The reply by what is pending alone. */
  function Answer(ps: seq<Piece>, n: nat, block: bool, peek: bool): Reply {
    var av, met := Avail(ps, block), Met(ps, block);
    Reply(if Foremost(ps).None? then Eof else if met == Some(Broken) then Lost else Fine,
          av[..Min(n, |av|)], !peek && block && met == Some(Ended))
  }

  lemma {:induction false} NormalizeSame(ps: seq<Piece>, block: bool)
    ensures Avail(Normalize(ps), block) == Avail(ps, block) && Foremost(Normalize(ps)) == Foremost(ps)
    ensures Normalize(ps) != [] ==> Foremost(ps) == Some(Normalize(ps)[0])
    ensures Normalize(ps) == [] ==> Foremost(ps) == None
  {
    if ps != [] {
      var block' := block && (ps[0].Data? ==> ps[0].bytes == []);
      NormalizeSame(ps[1..], block');
      if ps[0] == Data([]) {
        NormalizeSame(ps[1..], block);
        assert [] + Normalize(ps[1..]) == Normalize(ps[1..]) && [] + Avail(ps[1..], block) == Avail(ps[1..], block);
      } else {
        assert Normalize(ps)[0] == ps[0] && Normalize(ps)[1..] == Normalize(ps[1..]);
      }
    }
  }

  lemma {:induction false} LeadAvail(ps: seq<Piece>, block: bool)
    ensures Lead(ps) <= Avail(ps, block)
  {
    if ps != [] && ps[0].Data? {
      LeadAvail(ps[1..], block && ps[0].bytes == []);
    }
  }

  /** What the greedy loop has in front is what can be had, and it goes on until that is enough or all. */
  lemma {:induction false} GreedyGets(done: seq<Piece>, rest: seq<Piece>, len: nat, n: nat)
    requires AllData(done) && |All(done)| == len && SocketLast(rest)
    ensures var (all, total) := Greedy(done, rest, len, n);
            var av := All(done) + Avail(rest, false);
            Lead(all) <= av && (total >= n || total == |av|)
    decreases Work(rest)
  {
    LeadJoins(done, rest);
    LeadAvail(rest, false);
    if len < n && rest != [] {
      var r := ReadPiece(rest[0], false);
      if r.Got? {
        WorkShrinks(rest);
        ReadLast(rest, false);
        GotOn(done, rest, r);
        GreedyGets(done + [r.pieces[0]], r.pieces[1..] + rest[1..], len + r.length, n);
      } else {
        GreedyStuck(done, rest, r);
      }
    }
  }

  lemma {:induction false} GotOn(done: seq<Piece>, rest: seq<Piece>, r: Read)
    requires AllData(done) && SocketLast(rest) && rest != [] && r == ReadPiece(rest[0], false) && r.Got?
    ensures var done', rest' := done + [r.pieces[0]], r.pieces[1..] + rest[1..];
            && AllData(done') && |All(done')| == |All(done)| + r.length
            && All(done') + Avail(rest', false) == All(done) + Avail(rest, false)
  {
    AllJoins(done, [r.pieces[0]]);
    assert All([r.pieces[0]]) == r.pieces[0].bytes + [];
    GotAvail(rest);
    Assoc(All(done), r.pieces[0].bytes, Avail(r.pieces[1..] + rest[1..], false));
  }

  lemma {:induction false} GotAvail(rest: seq<Piece>)
    requires SocketLast(rest) && rest != [] && ReadPiece(rest[0], false).Got?
    ensures var r := ReadPiece(rest[0], false);
            Avail(rest, false) == r.pieces[0].bytes + Avail(r.pieces[1..] + rest[1..], false)
  {
    var r := ReadPiece(rest[0], false);
    if rest[0].Data? {
      assert r.pieces[1..] + rest[1..] == rest[1..];
    } else {
      assert rest[1..] == [] && r.pieces[1..] + [] == r.pieces[1..];
    }
  }

  lemma {:induction false} TakeGets(ps: seq<Piece>, n: nat, peek: bool)
    requires ps != [] && ps[0].Data? && SocketLast(ps)
    ensures var av, r := Avail(ps, false), Take(ps, |ps[0].bytes|, n, peek).1;
            r == Reply(Fine, av[..Min(n, |av|)], false)
  {
    var len := |ps[0].bytes|;
    var (all, total) := Greedy(ps[..1], ps[1..], len, n);
    assert ps[..1] + ps[1..] == ps && ps[..1] == [ps[0]];
    assert All([ps[0]]) == ps[0].bytes + [] && All(ps[..1]) + Avail(ps[1..], false) == Avail(ps, false);
    GreedyKeeps(ps[..1], ps[1..], len, n);
    GreedyGets(ps[..1], ps[1..], len, n);
    PartitionKeeps(all, Min(n, total));
    EnoughOrAll(Lead(all), Avail(ps, false), total, n);
  }

  lemma EnoughOrAll(lead: seq<Byte>, av: seq<Byte>, total: nat, n: nat)
    requires lead <= av && total <= |lead| && (total >= n || total == |av|)
    ensures lead[..Min(n, total)] == av[..Min(n, |av|)]
  {
  }

  lemma {:induction false} FetchData(ps: seq<Piece>, n: nat, block: bool, peek: bool)
    requires ps != [] && ps[0].Data? && ps[0].bytes != [] && SocketLast(ps)
    ensures Fetch(ps, n, block, peek).1 == Answer(ps, n, block, peek)
  {
    assert [ps[0]] + ps[1..] == ps;
    TakeGets(ps, n, peek);
  }

  lemma {:induction false} FetchArrived(ps: seq<Piece>, n: nat, block: bool, peek: bool, bytes: Chunk, next: Future)
    requires ps != [] && ps[0].Socket? && SocketLast(ps) && (if block then ps[0].future.Waited() else ps[0].future) == Arrives(bytes, next)
    ensures Fetch(ps, n, block, peek).1 == Answer(ps, n, block, peek)
  {
    var got := [Data(bytes), Socket(next)];
    assert ps[1..] == [] && got + [] == got && got[1..] == [Socket(next)];
    TakeGets(got, n, peek);
    assert Avail(got, false) == bytes + Ripe(next) == Avail(ps, block);
  }

  lemma {:induction false} FetchNothing(ps: seq<Piece>, n: nat, block: bool, peek: bool)
    requires ps != [] && ps[0].Socket? && SocketLast(ps) && !(if block then ps[0].future.Waited() else ps[0].future).Arrives?
    ensures Fetch(ps, n, block, peek).1 == Answer(ps, n, block, peek)
  {
    assert ps[1..] == [] && [Data([])] + [] == [Data([])];
    NothingTaken(n, peek);
  }

  lemma {:induction false} FetchIs(ps: seq<Piece>, n: nat, block: bool, peek: bool)
    requires ps != [] && ps[0] != Data([]) && SocketLast(ps)
    ensures Fetch(ps, n, block, peek).1 == Answer(ps, n, block, peek)
  {
    if ps[0].Data? {
      FetchData(ps, n, block, peek);
    } else {
      match if block then ps[0].future.Waited() else ps[0].future
      case Arrives(bytes, next) => FetchArrived(ps, n, block, peek, bytes, next);
      case _ => FetchNothing(ps, n, block, peek);
    }
  }

  /** The whole reply: end of file if nothing is pending, an error if the socket must be read and is broken, and else
      the bytes that can be had, as many as are asked for; EOS when a blocking read finds the socket ended. */
  lemma ReplyIs(s: Input, n: nat, block: bool, peek: bool)
    requires Placed(s)
    ensures Call(s, n, block, peek).1 == Answer(if s.Unopened? then [Socket(s.socket)] else s.pending, n, block, peek)
  {
    var start := if s.Unopened? then [Socket(s.socket)] else s.pending;
    var ps := Normalize(start);
    NormalizeKeeps(start);
    NormalizeLast(start);
    NormalizeSame(start, block);
    if ps != [] {
      FetchIs(ps, n, block, peek);
    } else {
      assert Avail(ps, block) == [];
    }
  }

  /** A call is lost if and only if it must read the socket and that is broken, for a blocking call once waited for;
      one that would block is fine, brings nothing and no end, and leaves all as it was. */
  lemma StatusIs(s: Input, n: nat, block: bool, peek: bool)
    requires Placed(s)
    ensures var (s', r) := Call(s, n, block, peek);
            var met := Met(if s.Unopened? then [Socket(s.socket)] else s.pending, block);
            && (r.status == Lost <==> met == Some(Broken))
            && (met.Some? && met.value.WouldBlock? ==> !block && r == Reply(Fine, [], false) && s'.Content() == s.Content())
  {
    ReplyIs(s, n, block, peek);
    CallKeeps(s, n, block, peek);
    MetWaits(if s.Unopened? then [Socket(s.socket)] else s.pending, block);
    assert [] + Call(s, n, block, peek).0.Content() == Call(s, n, block, peek).0.Content();
  }

  lemma {:induction false} MetWaits(ps: seq<Piece>, block: bool)
    ensures var met := Met(ps, block); met.Some? && met.value.WouldBlock? ==> !block && Avail(ps, block) == []
  {
    if ps != [] && ps[0] == Data([]) {
      MetWaits(ps[1..], block);
    }
  }

  lemma {:induction false} RunPlaced(s: Input, calls: seq<Request>)
    requires Placed(s)
    ensures Placed(Run(s, calls).0)
    decreases |calls|
  {
    if calls != [] {
      CallPlaced(s, calls[0].n, calls[0].block, calls[0].peek);
      RunPlaced(Call(s, calls[0].n, calls[0].block, calls[0].peek).0, calls[1..]);
    }
  }

  /** Over any run from a fresh connection, the end is announced only when all that the socket had to bring has
      been handed out. */
  lemma {:induction false} EndComesLast(socket: Future, calls: seq<Request>, c: Request)
    ensures var (s, out) := Run(Unopened(socket), calls);
            var r := Call(s, c.n, c.block, c.peek).1;
            r.status == Eof || r.eos ==> out == socket.Content()
  {
    RunPlaced(Unopened(socket), calls);
    InputConserved(Unopened(socket), calls);
    EndIsTheEnd(Run(Unopened(socket), calls).0, c.n, c.block, c.peek);
  }

  // ----- how the connection ends

  /** The socket comes to an error, not to an end. */
  predicate Breaks(f: Future) {
    match f
    case Ended => false
    case Broken => true
    case WouldBlock(next) => Breaks(next)
    case Arrives(_, next) => Breaks(next)
  }

  predicate Breaking(ps: seq<Piece>) {
    ps != [] && ((ps[0].Socket? && Breaks(ps[0].future)) || Breaking(ps[1..]))
  }

  predicate Doomed(s: Input) {
    if s.Unopened? then Breaks(s.socket) else Breaking(s.pending)
  }

  lemma {:induction false} BreakingJoins(a: seq<Piece>, b: seq<Piece>)
    ensures Breaking(a + b) <==> Breaking(a) || Breaking(b)
  {
    if a == [] {
      assert a + b == b;
    } else {
      BreakingJoins(a[1..], b);
      assert (a + b)[1..] == a[1..] + b;
    }
  }

  lemma {:induction false} NormalizeBreaks(ps: seq<Piece>)
    ensures Breaking(Normalize(ps)) <==> Breaking(ps)
  {
    if ps != [] {
      NormalizeBreaks(ps[1..]);
      BreakingJoins(if ps[0] == Data([]) then [] else [ps[0]], Normalize(ps[1..]));
    }
  }

  lemma {:induction false} WaitedBreaks(f: Future)
    ensures Breaks(f.Waited()) <==> Breaks(f)
  {
    if f.WouldBlock? {
      WaitedBreaks(f.next);
    }
  }

  lemma ReadBreaks(p: Piece, rest: seq<Piece>, block: bool)
    ensures var r := ReadPiece(p, block);
            Breaking((if r.Got? then r.pieces else [r.piece]) + rest) <==> Breaking([p] + rest)
  {
    var r := ReadPiece(p, block);
    var now := if r.Got? then r.pieces else [r.piece];
    BreakingJoins(now, rest);
    BreakingJoins([p], rest);
    if p.Socket? {
      WaitedBreaks(p.future);
      assert |now| == 2 ==> now[1..] == [now[1]];
      assert |now| == 1 ==> now[1..] == [];
    }
  }

  /** One read in the middle. */
  lemma ReadBreaksAt(done: seq<Piece>, rest: seq<Piece>)
    requires rest != []
    ensures var r := ReadPiece(rest[0], false);
            if r.Got? then Breaking(done + [r.pieces[0]] + (r.pieces[1..] + rest[1..])) == Breaking(done + rest)
            else Breaking(done + [r.piece] + rest[1..]) == Breaking(done + rest)
  {
    var r := ReadPiece(rest[0], false);
    var now := if r.Got? then r.pieces else [r.piece];
    ReadBreaks(rest[0], rest[1..], false);
    assert [rest[0]] + rest[1..] == rest;
    MiddleBreaks(done, now, rest[1..]);
    BreakingJoins(done, rest);
  }

  lemma MiddleBreaks(done: seq<Piece>, now: seq<Piece>, rest: seq<Piece>)
    requires now != []
    ensures Breaking(done + [now[0]] + (now[1..] + rest)) <==> Breaking(done) || Breaking(now + rest)
    ensures |now| == 1 ==> (Breaking(done + [now[0]] + rest) <==> Breaking(done) || Breaking(now + rest))
  {
    assert done + [now[0]] + (now[1..] + rest) == done + (now + rest);
    BreakingJoins(done, now + rest);
    assert |now| == 1 ==> now[1..] + rest == rest;
  }

  lemma {:induction false} GreedyBreaks(done: seq<Piece>, rest: seq<Piece>, len: nat, n: nat)
    ensures Breaking(Greedy(done, rest, len, n).0) <==> Breaking(done + rest)
    decreases Work(rest)
  {
    if len < n && rest != [] {
      var r := ReadPiece(rest[0], false);
      ReadBreaksAt(done, rest);
      if r.Got? {
        WorkShrinks(rest);
        GreedyBreaks(done + [r.pieces[0]], r.pieces[1..] + rest[1..], len + r.length, n);
      }
    }
  }

  lemma {:induction false} PartitionBreaks(ps: seq<Piece>, k: nat)
    ensures var (before, after) := Partition(ps, k); Breaking(after) == Breaking(before + after) == Breaking(ps)
  {
    var (before, after) := Partition(ps, k);
    BreakingJoins(before, after);
    if !(k == 0 || ps == [] || ps[0].Socket?) && k >= |ps[0].bytes| {
      PartitionBreaks(ps[1..], k - |ps[0].bytes|);
      var more := Partition(ps[1..], k - |ps[0].bytes|).0;
      BreakingJoins([ps[0]], more);
      BreakingJoins(more, after);
    }
  }

  lemma TakeBreaks(ps: seq<Piece>, len: nat, n: nat, peek: bool)
    ensures Doomed(Take(ps, len, n, peek).0) <==> Breaking(ps)
  {
    var k := Min(1, |ps|);
    var got := Greedy(ps[..k], ps[k..], len, n);
    assert ps[..k] + ps[k..] == ps;
    GreedyBreaks(ps[..k], ps[k..], len, n);
    PartitionBreaks(got.0, Min(n, got.1));
  }

  lemma FetchBreaks(ps: seq<Piece>, n: nat, block: bool, peek: bool)
    requires ps != []
    ensures Doomed(Fetch(ps, n, block, peek).0) <==> Breaking(ps)
  {
    var r := ReadPiece(ps[0], block);
    ReadBreaks(ps[0], ps[1..], block);
    assert [ps[0]] + ps[1..] == ps;
    if r.Got? {
      if block && r.length == 0 {
        BreakingJoins([r.pieces[0]], r.pieces[1..] + ps[1..]);
        assert [r.pieces[0]] + (r.pieces[1..] + ps[1..]) == r.pieces + ps[1..];
      } else {
        TakeBreaks(r.pieces + ps[1..], r.length, n, peek);
      }
    }
  }

  /** No call changes how the connection will end: an error is not taken for an end, nor forgotten once reported. */
  lemma EndIsKept(s: Input, n: nat, block: bool, peek: bool)
    ensures Doomed(Call(s, n, block, peek).0) <==> Doomed(s)
  {
    var start := if s.Unopened? then [Socket(s.socket)] else s.pending;
    NormalizeBreaks(start);
    if Normalize(start) != [] {
      FetchBreaks(Normalize(start), n, block, peek);
    }
  }

  lemma {:induction false} DryMet(ps: seq<Piece>)
    requires All(ps) == [] && SocketLast(ps)
    ensures var met := Met(ps, true);
            if Breaking(ps) then met == Some(Broken) else met == Some(Ended) || Foremost(ps) == None
  {
    if ps != [] {
      if ps[0].Socket? {
        assert ps[1..] == [];
        var f := ps[0].future.Waited();
        WaitedKeeps(ps[0].future);
        WaitedBreaks(ps[0].future);
        assert All(ps) == f.Content() + [];
        assert Foremost(ps) == Some(ps[0]);
        assert ps[0] == Socket(ps[0].future);
        assert Breaking(ps) == Breaks(f);
      } else {
        DryMet(ps[1..]);
      }
    }
  }

  lemma {:induction false} RunKeepsEnd(s: Input, calls: seq<Request>)
    ensures Doomed(Run(s, calls).0) <==> Doomed(s)
    decreases |calls|
  {
    if calls != [] {
      EndIsKept(s, calls[0].n, calls[0].block, calls[0].peek);
      RunKeepsEnd(Call(s, calls[0].n, calls[0].block, calls[0].peek).0, calls[1..]);
    }
  }

  /** Once nothing is left to come, a blocking read reports the error if the socket was to end in one, and otherwise
      end of stream, or end of file when the end has been seen. */
  lemma EndAsItCame(socket: Future, calls: seq<Request>, n: nat)
    requires Run(Unopened(socket), calls).0.Content() == []
    ensures var r := Call(Run(Unopened(socket), calls).0, n, true, false).1;
            if Breaks(socket) then r == Reply(Lost, [], false) else r == Reply(Fine, [], true) || r == Reply(Eof, [], false)
  {
    var s := Run(Unopened(socket), calls).0;
    var start := if s.Unopened? then [Socket(s.socket)] else s.pending;
    RunPlaced(Unopened(socket), calls);
    RunKeepsEnd(Unopened(socket), calls);
    assert s.Unopened? ==> All(start) == s.socket.Content() + [];
    assert Doomed(s) == Breaking(start);
    DryMet(start);
    ReplyIs(s, n, true, false);
    CallKeeps(s, n, true, false);
  }

  predicate BlockingReads(calls: seq<Request>) {
    forall i :: 0 <= i < |calls| ==> calls[i].block && !calls[i].peek && calls[i].n > 0
  }

  /** Blocking reads deliver: a byte each at least, until everything has been handed out. */
  lemma {:induction false} ReadsDeliver(s: Input, calls: seq<Request>)
    requires Placed(s) && BlockingReads(calls)
    ensures |Run(s, calls).1| >= Min(|calls|, |s.Content()|)
    decreases |calls|
  {
    if calls != [] {
      var c := calls[0];
      var s' := Call(s, c.n, true, false).0;
      CallPlaced(s, c.n, true, false);
      CallKeeps(s, c.n, true, false);
      EndIsTheEnd(s, c.n, true, false);
      ReadsDeliver(s', calls[1..]);
    }
  }

  // ----- the filter as it changes its brigade

  /** `core_ctx_t` of the input side: `ready` once the context is there, and then `b`. */
  class CoreInput {
    const socket: Future
    var ready: bool
    var b: seq<Piece>

    function Now(): Input
      reads this
    {
      if ready then Opened(b) else Unopened(socket)
    }

    constructor (socket: Future)
      ensures Now() == Unopened(socket)
    {
      this.socket := socket;
      ready, b := false, [];
    }

    /** `BRIGADE_NORMALIZE` */
    method RemoveEmpty()
      modifies this`b
      ensures b == Normalize(old(b))
    {
      var e := 0;
      ghost var rest := b;
      while e < |b|
        invariant e <= |b| && b[e..] == rest
        invariant b[..e] + Normalize(rest) == Normalize(old(b))
        decreases |rest|
      {
        var p := b[e];
        ghost var seen := b[..e];
        assert rest == [p] + rest[1..];
        if p == Data([]) {
          b := b[..e] + b[e + 1..];
          assert b[..e] == seen && b[e..] == rest[1..];
        } else {
          e := e + 1;
          assert b[..e] == seen + [p] && b[e..] == rest[1..];
        }
        rest := rest[1..];
      }
    }

    /** `apr_bucket_read` on the piece at `e`. */
    method ReadAt(e: nat, block: bool) returns (r: Read)
      requires e < |b|
      modifies this`b
      ensures r == ReadPiece(old(b[e]), block)
      ensures b == old(b[..e]) + (if r.Got? then r.pieces else [r.piece]) + old(b[e + 1..])
    {
      r := ReadPiece(b[e], block);
      b := b[..e] + (if r.Got? then r.pieces else [r.piece]) + b[e + 1..];
    }

    /** The greedy loop. */
    method CountMore(first: nat, n: nat) returns (len: nat)
      requires b != []
      modifies this`b
      ensures (b, len) == Greedy(old(b[..1]), old(b[1..]), first, n)
    {
      len := first;
      var e := 1;
      while len < n && e < |b|
        invariant 1 <= e <= |b|
        invariant Greedy(b[..e], b[e..], len, n) == Greedy(old(b[..1]), old(b[1..]), first, n)
        decreases Work(b[e..])
      {
        ghost var done, rest := b[..e], b[e..];
        assert b[e + 1..] == rest[1..];
        WorkShrinks(rest);
        var r := ReadAt(e, false);
        if !r.Got? {
          return;
        }
        assert b[..e + 1] == done + [r.pieces[0]] && b[e + 1..] == r.pieces[1..] + rest[1..];
        len := len + r.length;
        e := e + 1;
      }
      assert b[..e] + b[e..] == b;
    }

    /** `apr_brigade_partition` and `apr_brigade_split_ex`: the first `k` bytes stay, the rest is set apart. */
    method SplitOff(k: nat) returns (tmp: seq<Piece>)
      modifies this`b
      ensures (b, tmp) == Partition(old(b), k)
    {
      var e: nat, point: nat := 0, k;
      assert b[..0] == [] && b[0..] == b;
      ghost var p := Partition(b, k);
      assert [] + p.0 == p.0;
      while point > 0 && e < |b| && b[e].Data? && |b[e].bytes| <= point
        invariant e <= |b|
        invariant b == old(b) && p == (b[..e] + Partition(b[e..], point).0, Partition(b[e..], point).1)
        decreases |b| - e
      {
        assert b[e..][1..] == b[e + 1..] && b[..e + 1] == b[..e] + [b[e]];
        ghost var q := Partition(b[e + 1..], point - |b[e].bytes|);
        assert b[..e] + ([b[e]] + q.0) == b[..e + 1] + q.0;
        point := point - |b[e].bytes|;
        e := e + 1;
      }
      if point > 0 && e < |b| && b[e].Data? {
        assert b[e..][1..] == b[e + 1..];
        tmp := [Data(b[e].bytes[point..])] + b[e + 1..];
        b := b[..e] + [Data(b[e].bytes[..point])];
      } else {
        assert Partition(b[e..], point) == ([], b[e..]);
        tmp := b[e..];
        b := b[..e] + [];
      }
    }

    /** `ap_core_input_filter` in the modes READBYTES and SPECULATIVE (`peek`). */
    method CoreInputFilter(readbytes: nat, block: bool, peek: bool) returns (r: Reply)
      modifies this
      ensures (Now(), r) == Call(old(Now()), readbytes, block, peek)
    {
      if !ready {
        ready := true;
        b := [Socket(socket)];
      } else if b == [] {
        return Reply(Eof, [], false);
      }
      RemoveEmpty();
      if b == [] {
        return Reply(Eof, [], false);
      }
      r := FetchBytes(readbytes, block, peek);
    }

    method FetchBytes(readbytes: nat, block: bool, peek: bool) returns (r: Reply)
      requires ready && b != []
      modifies this`b
      ensures (Now(), r) == Fetch(old(b), readbytes, block, peek)
    {
      assert b[..0] == [];
      ghost var ps := b;
      var got := ReadAt(0, block);
      assert b == (if got.Got? then got.pieces else [got.piece]) + ps[1..];
      if got.Again? || got.Failed? {
        return Reply(if got.Again? && !block then Fine else Lost, [], false);
      }
      if block && got.length == 0 {
        assert b[1..] == got.pieces[1..] + ps[1..];
        b := b[1..];
        return Reply(Fine, [], !peek);
      }
      r := TakeBytes(got.length, readbytes, peek);
    }

    method TakeBytes(first: nat, readbytes: nat, peek: bool) returns (r: Reply)
      requires ready && b != []
      modifies this`b
      ensures (Now(), r) == Take(old(b), first, readbytes, peek)
    {
      var len := CountMore(first, readbytes);
      var tmp := SplitOff(if len < readbytes then len else readbytes);
      r := Reply(Fine, All(b), false);
      assert [] + tmp == tmp;
      b := (if peek then b else []) + tmp;
    }
  }
}
