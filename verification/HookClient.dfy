/** The hook's side of the daemon socket: reading one frame from an arbitrarily chunked stream, and the
    hello-then-event exchange on one connection. */
module HookClient {
  import opened Common

  newtype Byte = x: int | 0 <= x < 256

  const NEWLINE: Byte := 10
  const RECV_LIMIT := 65536

  // ---- lines -----------------------------------------------------------------------------

  /** The position of the first newline, or the length when there is none. */
  function LineEnd(s: seq<Byte>): (p: nat)
    ensures p <= |s| && NEWLINE !in s[..p] && (p < |s| ==> s[p] == NEWLINE)
  {
    if s == [] || s[0] == NEWLINE then 0 else
      var p := 1 + LineEnd(s[1..]);
      assert s[..p] == [s[0]] + s[1..][..p - 1];
      p
  }

  /** A stream of one line, terminated or not, and nothing after it. */
  predicate AtMostOneLine(s: seq<Byte>) {
    LineEnd(s) + 1 >= |s|
  }

  /** What the daemon's buffered reader returns for a bounded read of a line, however the stream is
      chunked. */
  function ReadLine(s: seq<Byte>, size: nat): seq<Byte> {
    var n := if LineEnd(s) < |s| then LineEnd(s) + 1 else |s|;
    s[..if n <= size then n else size]
  }

  /** The daemon's frame reader: the line without its newline. */
  function DaemonFrame(s: seq<Byte>, limit: nat): Option<seq<Byte>> {
    var line := ReadLine(s, limit + 2);
    if line == [] || line[|line| - 1] != NEWLINE || |line| > limit + 1 then None else Some(line[..|line| - 1])
  }

  /** The daemon accepts exactly the streams whose first line is terminated and has at most `limit`
      bytes; whatever follows stays for the next read. */
  lemma DaemonAcceptsExactly(s: seq<Byte>, limit: nat)
    ensures DaemonFrame(s, limit) == if LineEnd(s) < |s| && LineEnd(s) <= limit then Some(s[..LineEnd(s)]) else None
  {
    var p, k := LineEnd(s), |ReadLine(s, limit + 2)|;
    assert NEWLINE !in s[..p] && (p < |s| ==> s[p] == NEWLINE);
    hide LineEnd;
    assert ReadLine(s, limit + 2) == s[..k];
    if 0 < k <= p {
      assert s[k - 1] == s[..p][k - 1];
    } else if 0 < k {
      assert k == p + 1 && s[..k][..p] == s[..p];
    }
  }

  // ---- the connection -----------------------------------------------------------------------

  const HELLO_LIMIT := 16384
  const EVENT_LIMIT := 8388608
  const PROTOCOL_VERSION := 2
  const STORAGE_GENERATION := 1

  /** A decoded reply; a flag is not a number. */
  datatype Value = Num(n: int) | Text(s: string) | Flag(b: bool) | Table(fields: Reply) | Other

  type Reply = map<string, Value>

  type Decoder = seq<Byte> -> Option<Reply>

  predicate MatchingHello(reply: Reply, buildId: string, epoch: string) {
    && reply.Keys == {
         "v", "op", "ok", "release", "build_id", "activation_epoch", "storage_generation", "schema_version", "ready"}
    && reply["v"] == Num(PROTOCOL_VERSION) && reply["op"] == Text("hello") && reply["ok"] == Flag(true)
    && reply["release"].Text? && reply["build_id"] == Text(buildId) && reply["activation_epoch"] == Text(epoch)
    && reply["storage_generation"] == Num(STORAGE_GENERATION)
    && reply["schema_version"] in {Num(0), Num(5401), Num(5402)} && reply["ready"] == Flag(true)
  }

  predicate EventReply(reply: Reply, output: Reply) {
    && "v" in reply && reply["v"] == Num(PROTOCOL_VERSION) && "op" in reply && reply["op"] == Text("event")
    && "ok" in reply && reply["ok"] == Flag(true) && "output" in reply && reply["output"] == Table(output)
  }

  /** The one form of a hello answer that is accepted, with any release and a known schema. */
  lemma HelloExactly(reply: Reply, buildId: string, epoch: string)
    ensures MatchingHello(reply, buildId, epoch)
       <==> exists release, schema ::
              schema in {0, 5401, 5402} && reply == HelloReply(release, schema, buildId, epoch)
  {
    if MatchingHello(reply, buildId, epoch) {
      var schema :| schema in {0, 5401, 5402} && reply["schema_version"] == Num(schema);
      assert reply == HelloReply(reply["release"].s, schema, buildId, epoch);
    }
  }

  /** The stream's first line is a hello for another build or epoch, of another protocol, or not ready. */
  ghost predicate ForeignHello(decode: Decoder, buildId: string, epoch: string, s: seq<Byte>) {
    var hello := FirstReply(decode, s);
    hello.Some?
    && (|| "build_id" !in hello.value || hello.value["build_id"] != Text(buildId)
        || "activation_epoch" !in hello.value || hello.value["activation_epoch"] != Text(epoch)
        || "v" !in hello.value || hello.value["v"] != Num(2)
        || "ready" !in hello.value || hello.value["ready"] != Flag(true))
  }

  lemma ForeignHelloDoesNotMatch(decode: Decoder, buildId: string, epoch: string, s: seq<Byte>)
    requires ForeignHello(decode, buildId, epoch, s)
    ensures var hello := FirstReply(decode, s); hello.Some? && !MatchingHello(hello.value, buildId, epoch)
  {
  }

  function HelloReply(release: string, schema: int, buildId: string, epoch: string): Reply {
    map["v" := Num(2), "op" := Text("hello"), "ok" := Flag(true), "release" := Text(release),
        "build_id" := Text(buildId), "activation_epoch" := Text(epoch), "storage_generation" := Num(1),
        "schema_version" := Num(schema), "ready" := Flag(true)]
  }

  /** The first line of a stream, decoded. */
  function FirstReply(decode: Decoder, s: seq<Byte>): Option<Reply> {
    if LineEnd(s) < |s| then decode(s[..LineEnd(s)]) else None
  }

  function AfterLine(s: seq<Byte>): seq<Byte> {
    if LineEnd(s) < |s| then s[LineEnd(s) + 1..] else []
  }

  datatype Answer = Object(reply: Reply) | NotAnObject | NoAnswer | Lost

  /** What the hook reports: the daemon's own output, an unverified call, or a refused runtime. */
  datatype Outcome = Relayed(output: Reply) | Unverified | Refused

  /** What the network does for one call that it completes before the deadline. */
  datatype Turn = Brings(count: nat) | Breaks

  /** The next n calls complete before the deadline and do not fail. */
  predicate Quick(turns: seq<Turn>, n: nat) {
    |turns| >= n && forall i :: 0 <= i < n ==> turns[i].Brings?
  }

  datatype Received = Chunk(bytes: seq<Byte>) | Late | Failed

  datatype Frame = Line(bytes: seq<Byte>) | Malformed | TimedOut | Broken

  /** How many bytes a turn brings to a call that asks for at most `n`, when this many are still to come. */
  function Brought(turn: Turn, n: nat, left: nat): (k: nat)
    requires turn.Brings?
    ensures k <= n && k <= left && (n > 0 && left > 0 ==> k > 0)
  {
    var most := if n < left then n else left;
    if turn.count > most then most else if turn.count == 0 && most > 0 then 1 else turn.count
  }

  /** How much a reader that has this many bytes of a line asks for. */
  function Room(have: nat, limit: nat): (n: nat)
    requires have <= limit + 1
    ensures 1 <= n <= RECV_LIMIT && have + n <= limit + 2
  {
    if limit + 2 - have < RECV_LIMIT then limit + 2 - have else RECV_LIMIT
  }

  /** The network's choices make some chunk of a stream of `total` bytes end after exactly `goal` bytes of
      it, when the chunks so far ended after `have`. */
  predicate EndsAt(turns: seq<Turn>, have: nat, total: nat, limit: nat, goal: nat)
    requires have <= total && goal <= limit + 1
    decreases |turns|
  {
    if have >= goal then have == goal
    else turns != [] && turns[0].Brings?
         && EndsAt(turns[1..], have + Brought(turns[0], Room(have, limit), total - have), total, limit, goal)
  }

  /** The network lets the hook's reader take the first line of this stream and nothing after it. */
  predicate DeliversLine(turns: seq<Turn>, s: seq<Byte>, limit: nat) {
    DeliversRest(turns, 0, s, limit)
  }

  /** The same for a reader that has taken this many bytes. */
  predicate DeliversRest(turns: seq<Turn>, have: nat, s: seq<Byte>, limit: nat)
    requires have <= |s|
  {
    LineEnd(s) < |s| && LineEnd(s) <= limit && EndsAt(turns, have, |s|, limit, LineEnd(s) + 1)
  }

  lemma NewlineIsRead(s: seq<Byte>, n: nat)
    requires n <= |s|
    ensures NEWLINE in s[..n] <==> LineEnd(s) < n
    ensures NEWLINE in s[..n] ==> LineEnd(s[..n]) == LineEnd(s)
  {
    var p, q := LineEnd(s), LineEnd(s[..n]);
    assert NEWLINE !in s[..p] && NEWLINE !in s[..n][..q];
    hide LineEnd;
    if p < n {
      assert s[..n][p] == NEWLINE;
      assert s[..n][..q] == s[..q];
      assert forall i :: 0 <= i < q ==> s[i] == s[..q][i];
      assert forall i :: 0 <= i < p ==> s[i] == s[..p][i];
    } else {
      assert forall i :: 0 <= i < n ==> s[..n][i] == s[..p][i];
    }
  }

  lemma RestAfterTurn(turns: seq<Turn>, have: nat, s: seq<Byte>, limit: nat)
    requires have <= LineEnd(s) && have <= |s| && have <= limit + 1 && turns != [] && turns[0].Brings?
    ensures var k := Brought(turns[0], Room(have, limit), |s| - have);
            DeliversRest(turns, have, s, limit) <==> DeliversRest(turns[1..], have + k, s, limit)
  {
    hide LineEnd, Brought;
  }

  lemma RestStops(turns: seq<Turn>, have: nat, s: seq<Byte>, limit: nat)
    requires have <= LineEnd(s) && have <= |s|
    requires turns == [] || turns[0].Breaks? || have == |s| || have > limit
    ensures !DeliversRest(turns, have, s, limit)
  {
    hide LineEnd, Brought;
  }

  lemma RestArrived(turns: seq<Turn>, have: nat, s: seq<Byte>, limit: nat)
    requires LineEnd(s) < have <= |s|
    ensures DeliversRest(turns, have, s, limit) <==> LineEnd(s) <= limit && have == LineEnd(s) + 1
  {
    hide LineEnd, Brought;
  }

  /** The outcome of reading a frame from the stream `s` after taking this many bytes of it. A line is
      accepted exactly when its newline was read, it is short enough, and the read that brought the
      newline brought nothing after it. */
  ghost predicate Framed(s: seq<Byte>, limit: nat, taken: nat, r: Frame) {
    var p := LineEnd(s);
    && taken <= limit + 2
    && match r
       case TimedOut => taken <= p
       case Broken => taken <= p
       case Line(bytes) => taken == p + 1 && p < |s| && p <= limit && bytes == s[..p]
       case Malformed => taken > p + 1 || p > limit || taken == p == |s|
  }

  /** At most `used` of the turns are gone, and these are left. */
  ghost predicate TurnsLeft(turns: seq<Turn>, left: seq<Turn>, used: nat) {
    |left| <= |turns| <= |left| + used && left == turns[|turns| - |left|..]
  }

  /** How the network's turns were spent on reading: one for each chunk, one for the end of the stream or
      a failure, and none past the deadline. */
  ghost predicate Spent(turns: seq<Turn>, left: seq<Turn>, taken: nat, r: Frame) {
    && TurnsLeft(turns, left, taken + 1)
    && (r.TimedOut? ==> left == [] && |turns| <= taken)
    && (r.Broken? ==> |left| < |turns| && turns[|turns| - |left| - 1].Breaks?)
  }

  /** How a read may end when these turns are left after it has taken so many bytes. */
  lemma SpentSoFar(turns: seq<Turn>, left: seq<Turn>, taken: nat)
    requires TurnsLeft(turns, left, taken)
    ensures left == [] ==> Spent(turns, [], taken, TimedOut)
    ensures left != [] ==> Spent(turns, left[1..], taken, Malformed)
    ensures left != [] && left[0].Breaks? ==> Spent(turns, left[1..], taken, Broken)
    ensures left != [] ==> forall more :: more > taken ==> TurnsLeft(turns, left[1..], more)
    ensures forall r: Frame :: !r.TimedOut? && !r.Broken? ==> Spent(turns, left, taken, r)
  {
    if left != [] {
      assert turns[|turns| - |left|..][1..] == turns[|turns| - |left[1..]|..];
    }
  }

  /** The outcomes that fit a part of the stream read so far. */
  lemma FramedSoFar(s: seq<Byte>, limit: nat, n: nat)
    requires n <= |s| && n <= limit + 2
    ensures NEWLINE !in s[..n] ==> Framed(s, limit, n, TimedOut) && Framed(s, limit, n, Broken)
    ensures NEWLINE !in s[..n] && (n == |s| || n > limit + 1) ==> Framed(s, limit, n, Malformed)
    ensures NEWLINE in s[..n] ==>
              var p := LineEnd(s[..n]);
              p < n && Framed(s, limit, n, if p > limit || p + 1 < n then Malformed else Line(s[..n][..p]))
  {
  }

  /** A read that took this many bytes and left these turns may end so; it ends with a line exactly when the
      network delivers the line and nothing after it. */
  ghost predicate Reads(s: seq<Byte>, limit: nat, turns: seq<Turn>, taken: nat, left: seq<Turn>, r: Frame) {
    && Framed(s, limit, taken, r) && Spent(turns, left, taken, r)
    && (r.Line? <==> DeliversLine(turns, s, limit))
  }

  /** A read that is still going on. */
  ghost predicate Reading(s: seq<Byte>, limit: nat, turns: seq<Turn>, have: nat, left: seq<Turn>) {
    && have <= |s| && have <= limit + 2 && TurnsLeft(turns, left, have)
    && (DeliversLine(turns, s, limit) <==> DeliversRest(left, have, s, limit))
  }

  lemma KeepsReading(s: seq<Byte>, limit: nat, turns: seq<Turn>, have: nat, left: seq<Turn>, k: nat)
    requires Reading(s, limit, turns, have, left) && NEWLINE !in s[..have] && have <= limit + 1
    requires left != [] && left[0].Brings? && k == Brought(left[0], Room(have, limit), |s| - have) && k > 0
    ensures Reading(s, limit, turns, have + k, left[1..])
  {
    NewlineIsRead(s, have);
    RestAfterTurn(left, have, s, limit);
    SpentSoFar(turns, left, have);
    hide Spent, DeliversLine, DeliversRest, LineEnd, TurnsLeft;
  }

  /** How a read ends before it has a newline. */
  lemma StopsReading(s: seq<Byte>, limit: nat, turns: seq<Turn>, have: nat, left: seq<Turn>)
    requires Reading(s, limit, turns, have, left) && NEWLINE !in s[..have]
    ensures left == [] ==> Reads(s, limit, turns, have, [], TimedOut)
    ensures left != [] && left[0].Breaks? ==> Reads(s, limit, turns, have, left[1..], Broken)
    ensures left != [] && have == |s| ==> Reads(s, limit, turns, have, left[1..], Malformed)
    ensures have > limit + 1 ==> Reads(s, limit, turns, have, left, Malformed)
  {
    NewlineIsRead(s, have);
    if left == [] || left[0].Breaks? || have == |s| || have > limit {
      RestStops(left, have, s, limit);
    }
    SpentSoFar(turns, left, have);
    FramedSoFar(s, limit, have);
    hide Spent, Framed, DeliversLine, DeliversRest, LineEnd, TurnsLeft;
  }

  /** How a read ends when it has its newline. */
  lemma HasRead(s: seq<Byte>, limit: nat, turns: seq<Turn>, have: nat, left: seq<Turn>)
    requires Reading(s, limit, turns, have, left) && NEWLINE in s[..have]
    ensures var p := LineEnd(s[..have]);
            && p < have
            && Reads(s, limit, turns, have, left, if p > limit || p + 1 < have then Malformed else Line(s[..have][..p]))
  {
    NewlineIsRead(s, have);
    RestArrived(left, have, s, limit);
    SpentSoFar(turns, left, have);
    FramedSoFar(s, limit, have);
    hide Spent, Framed, DeliversLine, DeliversRest, LineEnd, TurnsLeft;
  }

  /** What the daemon's reader decides about a stream. */
  function Decided(s: seq<Byte>, limit: nat): Frame {
    match DaemonFrame(s, limit)
    case Some(line) => Line(line)
    case None => Malformed
  }

  /** On a stream of at most one line a client that reached a decision decided what the daemon's reader
      decides, however the stream was chunked. */
  lemma ReadersAgree(s: seq<Byte>, limit: nat, taken: nat, r: Frame)
    requires taken <= |s| && Framed(s, limit, taken, r) && !r.TimedOut? && !r.Broken? && AtMostOneLine(s)
    ensures r == Decided(s, limit)
  {
    DaemonAcceptsExactly(s, limit);
    hide DaemonFrame, LineEnd;
  }

  lemma {:induction false} ByteByByteEndsThere(turns: seq<Turn>, have: nat, total: nat, limit: nat, goal: nat)
    requires have <= goal <= total && goal <= limit + 1 && |turns| >= goal - have
    requires forall i :: 0 <= i < goal - have ==> turns[i] == Brings(1)
    ensures EndsAt(turns, have, total, limit, goal)
  {
    if have == goal {
    } else {
      ByteByByteEndsThere(turns[1..], have + 1, total, limit, goal);
    }
  }

  lemma {:induction false} TwoAtTheEndOvershoot(turns: seq<Turn>, have: nat, total: nat, limit: nat, goal: nat)
    requires have < goal < total && goal <= limit + 1 && |turns| >= goal - have
    requires forall i :: 0 <= i < goal - have - 1 ==> turns[i] == Brings(1)
    requires turns[goal - have - 1] == Brings(2)
    ensures !EndsAt(turns, have, total, limit, goal)
  {
    if have + 1 == goal {
    } else {
      TwoAtTheEndOvershoot(turns[1..], have + 1, total, limit, goal);
    }
  }

  lemma {:induction false} NothingBeyondTheEnd(turns: seq<Turn>, have: nat, total: nat, limit: nat)
    requires have <= total <= limit + 1 && Quick(turns, total - have)
    ensures EndsAt(turns, have, total, limit, total)
  {
    if have == total {
    } else {
      var k := Brought(turns[0], Room(have, limit), total - have);
      NothingBeyondTheEnd(turns[1..], have + k, total, limit);
    }
  }

  /** What the hook's reader makes of a stream that nothing delays, under these choices of the network. */
  function Chunked(turns: seq<Turn>, s: seq<Byte>, limit: nat): Frame {
    if DeliversLine(turns, s, limit) then Line(s[..LineEnd(s)]) else Malformed
  }

  /** A read that decides, decides this. */
  lemma DecidesAsChunked(s: seq<Byte>, limit: nat, turns: seq<Turn>, taken: nat, left: seq<Turn>, r: Frame)
    requires Reads(s, limit, turns, taken, left, r) && !r.TimedOut? && !r.Broken?
    ensures r == Chunked(turns, s, limit)
  {
    hide DeliversLine, LineEnd, Spent;
  }

  lemma AcceptedIsDelivered(s: seq<Byte>, limit: nat, turns: seq<Turn>)
    ensures Chunked(turns, s, limit) == Decided(s, limit) <==>
              DeliversLine(turns, s, limit) || DaemonFrame(s, limit).None?
  {
    DaemonAcceptsExactly(s, limit);
    hide LineEnd, DaemonFrame, EndsAt;
  }

  lemma ReadersCanAgree(s: seq<Byte>, limit: nat) returns (turns: seq<Turn>)
    ensures Quick(turns, |s| + 1) && Chunked(turns, s, limit) == Decided(s, limit)
  {
    turns := seq(|s| + 1, i => Brings(1));
    DaemonAcceptsExactly(s, limit);
    AcceptedIsDelivered(s, limit, turns);
    if DaemonFrame(s, limit).Some? {
      ByteByByteEndsThere(turns, 0, |s|, limit, LineEnd(s) + 1);
    }
    hide DaemonFrame, LineEnd, EndsAt, Chunked, Decided;
  }

  lemma ReadersCanDiffer(s: seq<Byte>, limit: nat) returns (turns: seq<Turn>)
    requires DaemonFrame(s, limit).Some? && !AtMostOneLine(s)
    ensures Quick(turns, |s| + 1) && Chunked(turns, s, limit) != Decided(s, limit)
  {
    DaemonAcceptsExactly(s, limit);
    turns := seq(|s| + 1, i => Brings(1))[LineEnd(s) := Brings(2)];
    TwoAtTheEndOvershoot(turns, 0, |s|, limit, LineEnd(s) + 1);
    AcceptedIsDelivered(s, limit, turns);
    hide DaemonFrame, LineEnd, EndsAt, Chunked, Decided;
  }

  lemma ReadersMustAgree(s: seq<Byte>, limit: nat, turns: seq<Turn>)
    requires Quick(turns, |s| + 1) && (DaemonFrame(s, limit).None? || AtMostOneLine(s))
    ensures Chunked(turns, s, limit) == Decided(s, limit)
  {
    DaemonAcceptsExactly(s, limit);
    AcceptedIsDelivered(s, limit, turns);
    if DaemonFrame(s, limit).Some? {
      NothingBeyondTheEnd(turns, 0, |s|, limit);
    }
    hide DaemonFrame, LineEnd, EndsAt, Chunked, Decided;
  }

  /** Undelayed, the hook's reader can always decide as the daemon's does, and some chunking makes it decide
      otherwise exactly when the daemon's reader accepts the line and a byte follows it. */
  lemma TrailingBytesMatter(s: seq<Byte>, limit: nat)
    ensures exists turns :: Quick(turns, |s| + 1) && Chunked(turns, s, limit) == Decided(s, limit)
    ensures (exists turns :: Quick(turns, |s| + 1) && Chunked(turns, s, limit) != Decided(s, limit))
            <==> DaemonFrame(s, limit).Some? && !AtMostOneLine(s)
  {
    var agreeing := ReadersCanAgree(s, limit);
    if DaemonFrame(s, limit).Some? && !AtMostOneLine(s) {
      var differing := ReadersCanDiffer(s, limit);
    } else {
      forall turns | Quick(turns, |s| + 1) ensures Chunked(turns, s, limit) == Decided(s, limit) {
        ReadersMustAgree(s, limit, turns);
      }
    }
    hide *;
  }

  /** The hook's reader refuses an answer that the daemon's reader would take: an empty object and its
      newline, with one more byte in the same chunk. */
  lemma OneChunkTooMany()
    ensures var s, turns := [123, 125, NEWLINE, NEWLINE], seq(5, i => Brings(4));
            Decided(s, HELLO_LIMIT) == Line([123, 125]) && Chunked(turns, s, HELLO_LIMIT) == Malformed
  {
    var s := [123, 125, NEWLINE, NEWLINE];
    assert s[1..][1..] == [NEWLINE, NEWLINE] && LineEnd(s[1..][1..]) == 0;
    assert LineEnd(s) == 2;
    DaemonAcceptsExactly(s, HELLO_LIMIT);
    assert s[..2] == [123, 125];
    var turns := seq(5, i => Brings(4));
    assert turns[0] == Brings(4) && Brought(turns[0], Room(0, HELLO_LIMIT), 4) == 4;
    assert !EndsAt(turns[1..], 4, 4, HELLO_LIMIT, 3);
    assert !EndsAt(turns, 0, 4, HELLO_LIMIT, 3);
    hide LineEnd, DaemonFrame;
  }

  lemma NothingAfterOneLine(s: seq<Byte>)
    ensures AtMostOneLine(s) ==> AfterLine(s) == []
  {
  }

  datatype Message = Hello | Event

  datatype Delivery = Delivered | SendTimedOut | SendBroken

  /** The output of a valid event reply; anything else leaves the call unverified. */
  function Checked(reply: Reply): (r: Outcome)
    ensures r.Relayed? <==>
              && "v" in reply && reply["v"] == Num(2) && "op" in reply && reply["op"] == Text("event")
              && "ok" in reply && reply["ok"] == Flag(true) && "output" in reply && reply["output"].Table?
    ensures r.Relayed? ==> EventReply(reply, r.output) && reply["output"] == Table(r.output)
    ensures r.Relayed? || (r.Unverified? && forall output :: !EventReply(reply, output))
  {
    if "output" in reply && reply["output"].Table? && EventReply(reply, reply["output"].fields) then
      Relayed(reply["output"].fields)
    else Unverified
  }

  /** The reply in a stream, when the daemon's reader would accept its line and it is an object. */
  function ReplyIn(decode: Decoder, s: seq<Byte>, limit: nat): Option<Reply> {
    match DaemonFrame(s, limit)
    case Some(line) => decode(line)
    case None => None
  }

  predicate Welcomed(decode: Decoder, buildId: string, epoch: string, s: seq<Byte>) {
    var hello := ReplyIn(decode, s, HELLO_LIMIT);
    hello.Some? && MatchingHello(hello.value, buildId, epoch)
  }

  /** A greeting is welcome exactly when its first line is terminated, has at most 16384 bytes and is the one hello
      of this build and epoch. */
  lemma WelcomedExactly(decode: Decoder, buildId: string, epoch: string, s: seq<Byte>)
    ensures Welcomed(decode, buildId, epoch, s)
       <==> LineEnd(s) < |s| && LineEnd(s) <= 16384 && decode(s[..LineEnd(s)]).Some?
            && exists release, schema ::
                 schema in {0, 5401, 5402}
                 && decode(s[..LineEnd(s)]).value == HelloReply(release, schema, buildId, epoch)
  {
    DaemonAcceptsExactly(s, HELLO_LIMIT);
    hide DaemonFrame, LineEnd, MatchingHello;
    if LineEnd(s) < |s| && decode(s[..LineEnd(s)]).Some? {
      HelloExactly(decode(s[..LineEnd(s)]).value, buildId, epoch);
    }
    hide HelloReply;
  }

  /** The answer to an event is read exactly when its line is terminated and has at most 8388608 bytes. */
  lemma AnswerExactly(decode: Decoder, s: seq<Byte>)
    ensures ReplyIn(decode, s, EVENT_LIMIT)
         == if LineEnd(s) < |s| && LineEnd(s) <= 8388608 then decode(s[..LineEnd(s)]) else None
  {
    DaemonAcceptsExactly(s, EVENT_LIMIT);
    hide DaemonFrame, LineEnd;
  }

  predicate Sendable(size: Option<nat>) {
    size.Some? && size.value <= EVENT_LIMIT + 1
  }

  /** What an exchange that nothing delays must report, given what the peer says before the event and
      after it. */
  function Expected(decode: Decoder, buildId: string, epoch: string, size: Option<nat>,
                    greeting: seq<Byte>, answer: seq<Byte>): Outcome
  {
    if !Welcomed(decode, buildId, epoch, greeting) then Refused
    else if !Sendable(size) then Unverified
    else
      match ReplyIn(decode, answer, EVENT_LIMIT)
      case Some(reply) => Checked(reply)
      case None => Unverified
  }

  class Connection {
    /** What the peer will have sent before it hears more or closes. */
    var incoming: seq<Byte>
    /** What the peer sends once the event has reached it. */
    var answer: seq<Byte>
    /** What the network does for the calls still to come; after the last of them the deadline has
        passed. */
    var turns: seq<Turn>
    /** Every message whose transmission was begun. */
    var begun: seq<Message>

    /** Some of the bytes still to come, at least one and at most `n`; nothing at the end of the stream;
        a failure; or the deadline. How many bytes is the network's choice. */
    method Recv(n: nat) returns (r: Received)
      requires 1 <= n <= RECV_LIMIT
      modifies this`incoming, this`turns
      ensures r.Late? <==> old(turns) == []
      ensures r.Failed? <==> old(turns) != [] && old(turns)[0].Breaks?
      ensures !r.Chunk? ==> incoming == old(incoming)
      ensures r.Chunk? ==> r.bytes + incoming == old(incoming) && |r.bytes| <= n
      ensures r.Chunk? && old(incoming) != [] ==> r.bytes != []
      ensures r.Chunk? ==> |r.bytes| == Brought(old(turns)[0], n, |old(incoming)|)
      ensures turns == if r.Late? then [] else old(turns)[1..]
    {
      if turns == [] {
        return Late;
      }
      var turn := turns[0];
      turns := turns[1..];
      if turn.Breaks? {
        return Failed;
      }
      var k := Brought(turn, n, |incoming|);
      r := Chunk(incoming[..k]);
      incoming := incoming[k..];
    }

    /** One line of at most `limit` bytes, read in chunks. It reports a timeout only when the deadline has
        passed and a failure only when a call failed; undelayed on a stream of at most one line it decides
        exactly what the daemon's reader decides. */
    method ReadFrame(limit: nat) returns (r: Frame)
      modifies this`incoming, this`turns
      ensures |incoming| <= |old(incoming)| && incoming == old(incoming)[|old(incoming)| - |incoming|..]
      ensures Framed(old(incoming), limit, |old(incoming)| - |incoming|, r)
      ensures Spent(old(turns), turns, |old(incoming)| - |incoming|, r)
      ensures r.Line? <==> DeliversLine(old(turns), old(incoming), limit)
      ensures Quick(old(turns), |old(incoming)| + 1) ==> r == Chunked(old(turns), old(incoming), limit)
      ensures Quick(old(turns), |old(incoming)| + 1) && AtMostOneLine(old(incoming)) ==>
                r == Decided(old(incoming), limit)
    {
      r := ReadChunks(limit);
      if !r.TimedOut? && !r.Broken? {
        DecidesAsChunked(old(incoming), limit, old(turns), |old(incoming)| - |incoming|, turns, r);
        if AtMostOneLine(old(incoming)) {
          ReadersAgree(old(incoming), limit, |old(incoming)| - |incoming|, r);
        }
      }
      hide Framed, Decided, AtMostOneLine, DeliversLine, Chunked;
    }

    /** One more chunk of a line whose newline has not come yet; without one the read ends. */
    method ReadOn(limit: nat, buf: seq<Byte>, ghost s: seq<Byte>, ghost all: seq<Turn>)
      returns (ended: Option<Frame>, more: seq<Byte>)
      requires NEWLINE !in buf && |buf| <= limit + 1 && |buf| <= |s| && buf == s[..|buf|] && incoming == s[|buf|..]
      requires Reading(s, limit, all, |buf|, turns)
      modifies this`incoming, this`turns
      ensures ended.Some? ==>
                incoming == s[|buf|..] && Reads(s, limit, all, |buf|, turns, ended.value) && !ended.value.Line?
      ensures ended.None? ==>
                && |buf| < |more| <= |s| && more == s[..|more|] && incoming == s[|more|..]
                && Reading(s, limit, all, |more|, turns)
    {
      hide LineEnd, Reads, Reading, Brought, Room;
      StopsReading(s, limit, all, |buf|, turns);
      ghost var left := turns;
      var chunk := Recv(Room(|buf|, limit));
      if !chunk.Chunk? || chunk.bytes == [] {
        return Some(if chunk.Late? then TimedOut else if chunk.Failed? then Broken else Malformed), buf;
      }
      KeepsReading(s, limit, all, |buf|, left, |chunk.bytes|);
      assert s == s[..|buf|] + s[|buf|..];
      ended, more := None, buf + chunk.bytes;
    }

    method ReadChunks(limit: nat) returns (r: Frame)
      modifies this`incoming, this`turns
      ensures |incoming| <= |old(incoming)| && incoming == old(incoming)[|old(incoming)| - |incoming|..]
      ensures Reads(old(incoming), limit, old(turns), |old(incoming)| - |incoming|, turns, r)
    {
      ghost var s := incoming;
      assert Reading(s, limit, turns, 0, turns);
      hide LineEnd, Reads, Reading, Brought, Room;
      var buf: seq<Byte> := [];
      while NEWLINE !in buf
        invariant |buf| <= |s| && buf == s[..|buf|] && incoming == s[|buf|..]
        invariant Reading(s, limit, old(turns), |buf|, turns) && (NEWLINE !in buf ==> |buf| <= limit + 1)
        decreases |incoming|
      {
        var ended, more := ReadOn(limit, buf, s, old(turns));
        if ended.Some? {
          return ended.value;
        }
        buf := more;
        if |buf| > limit + 1 && NEWLINE !in buf {
          StopsReading(s, limit, old(turns), |buf|, turns);
          return Malformed;
        }
      }
      HasRead(s, limit, old(turns), |buf|, turns);
      var line, rest := buf[..LineEnd(buf)], buf[LineEnd(buf) + 1..];
      r := if |line| > limit || rest != [] then Malformed else Line(line);
    }

    /** A frame that must be a JSON object. */
    method ReadReply(limit: nat, decode: Decoder) returns (r: Answer)
      modifies this`incoming, this`turns
      ensures r.Object? ==> FirstReply(decode, old(incoming)) == Some(r.reply) && incoming == AfterLine(old(incoming))
      ensures |incoming| <= |old(incoming)| && |turns| <= |old(turns)| <= |turns| + |old(incoming)| - |incoming| + 1
      ensures turns == old(turns)[|old(turns)| - |turns|..]
      ensures r.NoAnswer? ==> turns == []
      ensures r.Lost? ==> Breaks in old(turns)
      ensures Quick(old(turns), |old(incoming)| + 1) && AtMostOneLine(old(incoming)) ==>
                r == match ReplyIn(decode, old(incoming), limit)
                     case Some(reply) => Object(reply)
                     case None => NotAnObject
    {
      var frame := ReadFrame(limit);
      match frame
      case TimedOut => r := NoAnswer;
      case Broken => r := Lost;
      case Malformed => r := NotAnObject;
      case Line(bytes) =>
        var decoded := decode(bytes);
        r := if decoded.Some? then Object(decoded.value) else NotAnObject;
    }

    /** Begins one message. Past the deadline it may not even be begun; a failure leaves it unknown how
        much of it arrived. */
    method Send(message: Message) returns (r: Delivery)
      modifies this`begun, this`turns, this`incoming, this`answer
      ensures begun == old(begun) + [message] || (r.SendTimedOut? && begun == old(begun))
      ensures r.SendTimedOut? <==> old(turns) == []
      ensures r.SendBroken? <==> old(turns) != [] && old(turns)[0].Breaks?
      ensures turns == if r.SendTimedOut? then [] else old(turns)[1..]
      ensures incoming == if r.Delivered? && message.Event? then old(incoming) + old(answer) else old(incoming)
      ensures answer == if r.Delivered? && message.Event? then [] else old(answer)
    {
      if turns == [] {
        if * {
          begun := begun + [message];
        }
        return SendTimedOut;
      }
      var turn := turns[0];
      turns := turns[1..];
      begun := begun + [message];
      if turn.Breaks? {
        return SendBroken;
      }
      if message.Event? {
        incoming, answer := incoming + answer, [];
      }
      r := Delivered;
    }

    /** The hello and its answer; nothing when the hello matched. */
    method Greet(decode: Decoder, buildId: string, epoch: string) returns (r: Option<Outcome>)
      modifies this`begun, this`turns, this`incoming, this`answer
      ensures begun in {old(begun), old(begun) + [Hello]} && answer == old(answer)
      ensures begun == old(begun) ==> old(turns) == [] && r == Some(Unverified)
      ensures r.None? ==>
                var hello := FirstReply(decode, old(incoming));
                hello.Some? && MatchingHello(hello.value, buildId, epoch) && incoming == AfterLine(old(incoming))
      ensures r.Some? ==> !r.value.Relayed? && (r.value.Unverified? ==> turns == [])
      ensures ForeignHello(decode, buildId, epoch, old(incoming)) ==> r.Some?
      ensures |incoming| <= |old(incoming)| && |turns| <= |old(turns)| <= |turns| + |old(incoming)| - |incoming| + 2
      ensures turns == old(turns)[|old(turns)| - |turns|..]
      ensures Quick(old(turns), |old(incoming)| + 2) && AtMostOneLine(old(incoming)) ==>
                r == if Welcomed(decode, buildId, epoch, old(incoming)) then None else Some(Refused)
    {
      hide MatchingHello, ForeignHello, FirstReply, AfterLine, ReplyIn, AtMostOneLine;
      var sent := Send(Hello);
      if sent.SendTimedOut? {
        return Some(Unverified);
      } else if sent.SendBroken? {
        return Some(Refused);
      }
      var hello := ReadReply(HELLO_LIMIT, decode);
      ghost var foreign := ForeignHello(decode, buildId, epoch, old(incoming));
      if foreign {
        ForeignHelloDoesNotMatch(decode, buildId, epoch, old(incoming));
      }
      if hello.NoAnswer? {
        return Some(Unverified);
      }
      r := if hello.Object? && MatchingHello(hello.reply, buildId, epoch) then None else Some(Refused);
    }

    /** The event and its answer. */
    method Deliver(decode: Decoder) returns (r: Outcome)
      modifies this
      ensures begun in {old(begun), old(begun) + [Event]} && !r.Refused?
      ensures begun == old(begun) ==> old(turns) == []
      ensures r.Relayed? ==>
                var reply := FirstReply(decode, old(incoming) + old(answer));
                begun == old(begun) + [Event] && reply.Some? && EventReply(reply.value, r.output)
      ensures Quick(old(turns), |old(incoming)| + |old(answer)| + 2) && AtMostOneLine(old(incoming) + old(answer)) ==>
                && begun == old(begun) + [Event]
                && r == match ReplyIn(decode, old(incoming) + old(answer), EVENT_LIMIT)
                        case Some(reply) => Checked(reply)
                        case None => Unverified
      ensures begun == old(begun) ==> turns == []
    {
      hide EventReply, FirstReply, AfterLine, ReplyIn, AtMostOneLine, Checked;
      var sent := Send(Event);
      if !sent.Delivered? {
        return Unverified;
      }
      var reply := ReadReply(EVENT_LIMIT, decode);
      r := if reply.Object? then Checked(reply.reply) else Unverified;
    }

    /** Hello, then the event only after a matching hello on this connection, each begun at most once.
        Undelayed, with a peer that says at most one line before the event and one after it, the outcome
        is exactly the expected one, and the event is begun exactly when the hello matched and the event
        can be sent. `size` is the length of the encoded event, unless it cannot be encoded. */
    method Exchange(decode: Decoder, buildId: string, epoch: string, size: Option<nat>) returns (r: Outcome)
      modifies this
      ensures begun in {old(begun), old(begun) + [Hello], old(begun) + [Hello, Event]}
      ensures begun == old(begun) ==> old(turns) == [] && r.Unverified?
      ensures begun == old(begun) + [Hello, Event] ==>
                var hello := FirstReply(decode, old(incoming));
                hello.Some? && MatchingHello(hello.value, buildId, epoch) && size.Some? && size.value <= 8388609
      ensures ForeignHello(decode, buildId, epoch, old(incoming)) ==>
                begun != old(begun) + [Hello, Event] && !r.Relayed? && (r.Unverified? ==> turns == [])
      ensures r.Refused? ==> begun == old(begun) + [Hello]
      ensures r.Unverified? && begun == old(begun) + [Hello] ==>
                var hello := FirstReply(decode, old(incoming));
                turns == [] || (hello.Some? && MatchingHello(hello.value, buildId, epoch) && !Sendable(size))
      ensures r.Relayed? ==>
                var reply := FirstReply(decode, AfterLine(old(incoming)) + old(answer));
                begun == old(begun) + [Hello, Event] && reply.Some? && EventReply(reply.value, r.output)
      ensures Quick(old(turns), |old(incoming)| + |old(answer)| + 4)
              && AtMostOneLine(old(incoming)) && AtMostOneLine(old(answer)) ==>
                && r == Expected(decode, buildId, epoch, size, old(incoming), old(answer))
                && (begun == old(begun) + [Hello, Event] <==>
                      Welcomed(decode, buildId, epoch, old(incoming)) && size.Some? && size.value <= 8388609)
    {
      hide MatchingHello, ForeignHello, EventReply, FirstReply, AfterLine, ReplyIn, AtMostOneLine, Checked, Welcomed;
      NothingAfterOneLine(incoming);
      var welcome := Greet(decode, buildId, epoch);
      if welcome.Some? {
        return welcome.value;
      }
      if !Sendable(size) {
        return Unverified;
      }
      assert begun + [Event] == old(begun) + [Hello, Event];
      assert incoming == [] ==> incoming + answer == answer;
      r := Deliver(decode);
    }
  }
}
