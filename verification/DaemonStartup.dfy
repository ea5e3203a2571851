/** Single-instance startup and shutdown of the daemon: any number of processes race for one
    socket path, one startup lock and one writer lease, and any of them may die at any step. */
module DaemonStartup {
  import opened Common

  // ---- the shared host and the processes on it -----------------------------------

  /** A daemon binds at most once, so a socket file is named by the daemon that bound it. */
  type Id = nat

  datatype Path = Absent | Socket(owner: Id) | NotSocket

  /** The writer lease can also be held by a process that is not a daemon. */
  datatype Lease = Free | HeldBy(daemon: Id) | HeldElsewhere

  /** Where a daemon stands between two of its atomic actions. */
  datatype Phase =
    | New        // nothing taken
    | Locked     // startup lock held
    | Leased     // writer lease held, or the state and its lease were handed in
    | StaleFound // the probe found a dead socket file
    | Cleared    // nothing at the path, as far as the claim knows
    | Built      // ledger and detectors loaded
    | Unrecorded // bound and listening, not yet recorded as bound
    | Bound      // recorded as bound, chmod pending
    | Serving
    | Closing    // stopped listening, own socket file still there
    | Unwinding  // lease and lock still to give back
    | Unleased   // lock still to give back
    | Exited
    | Dead

  /** `listening` is the kernel's side: this process's socket accepts connections. `bound` is the daemon's
      own record of it. */
  datatype Proc = Proc(
    phase: Phase, ownState: bool, lockFd: bool, lease: bool, listening: bool, bound: bool, closed: bool)

  datatype World = World(lock: Option<Id>, lease: Lease, path: Path, procs: map<Id, Proc>)

  predicate Listening(w: World, d: Id) {
    d in w.procs && w.procs[d].listening
  }

  // ---- atomic actions ------------------------------------------------------------

  datatype Status = IsAbsent | IsStale | IsLive | IsUnknown

  datatype Action =
    | Spawn(ownState: bool)
    | TakeLock
    | TakeLease
    | Probe(status: Status)
    | UnlinkStale(ok: bool)
    | BuildState
    | Bind(listens: bool)
    | Record
    | Chmod
    | Fail
    | StopListening
    | UnlinkOwn(ok: bool)
    | ReleaseLease
    | ReleaseLock
    | CloseAgain
    | Crash

  /** What a probe of the path may answer. A vanished file reads as stale, and any other
      failure to find out reads as unknown. */
  predicate Probes(w: World, status: Status) {
    match status
    case IsAbsent => w.path.Absent?
    case IsStale => w.path.Absent? || (w.path.Socket? && !Listening(w, w.path.owner))
    case IsLive => w.path.Socket? && Listening(w, w.path.owner)
    case IsUnknown => true
  }

  predicate Starting(phase: Phase) {
    phase in {Locked, Leased, StaleFound, Cleared, Built, Unrecorded, Bound}
  }

  predicate Enabled(w: World, d: Id, a: Action) {
    if a.Spawn? then d !in w.procs
    else
      && d in w.procs
      && var p := w.procs[d];
         match a
         case Spawn(_) => false
         case TakeLock => p.phase.New?
         case TakeLease => p.phase.Locked?
         case Probe(status) => p.phase.Leased? && Probes(w, status)
         case UnlinkStale(_) => p.phase.StaleFound?
         case BuildState => p.phase.Cleared? && p.ownState
         case Bind(_) => p.phase.Built? || (p.phase.Cleared? && !p.ownState)
         case Record => p.phase.Unrecorded?
         case Chmod => p.phase.Bound?
         case Fail => Starting(p.phase)
         case StopListening => p.phase.Serving?
         case UnlinkOwn(_) => p.phase.Closing?
         case ReleaseLease => p.phase.Unwinding?
         case ReleaseLock => p.phase.Unleased?
         case CloseAgain => p.closed
         case Crash => !p.phase.Dead?
  }

  function At(w: World, d: Id, p: Proc): World {
    w.(procs := w.procs[d := p])
  }

  /** What a daemon's own action makes of it. */
  function Moved(w: World, p: Proc, a: Action): Proc {
    match a
    case Spawn(_) => p
    case TakeLock => if w.lock.None? then p.(phase := Locked, lockFd := true) else p.(phase := Exited)
    case TakeLease =>
      if !p.ownState then p.(phase := Leased)
      else if w.lease.Free? then p.(phase := Leased, lease := true)
      else p.(phase := Unwinding)
    case Probe(status) =>
      p.(phase := if status.IsLive? then Unwinding else if status.IsStale? then StaleFound else Cleared)
    case UnlinkStale(ok) => p.(phase := if ok then Cleared else Unwinding)
    case BuildState => p.(phase := Built)
    case Bind(listens) =>
      if w.path.Absent? && listens then p.(phase := Unrecorded, listening := true) else p.(phase := Unwinding)
    case Record => p.(phase := Bound, bound := true)
    case Chmod => p.(phase := Serving)
    case Fail => if p.bound then p.(phase := Closing, listening := false) else p.(phase := Unwinding)
    case StopListening => p.(phase := Closing, listening := false, closed := true)
    case UnlinkOwn(ok) => p.(phase := Unwinding, bound := !ok && p.closed)
    case ReleaseLease => p.(phase := Unleased, lease := false)
    case ReleaseLock => p.(phase := Exited, lockFd := false)
    case CloseAgain => p
    case Crash => p.(phase := Dead, lockFd := false, lease := false, listening := false)
  }

  function LockAfter(w: World, d: Id, p: Proc, a: Action): Option<Id> {
    match a
    case TakeLock => if w.lock.None? then Some(d) else w.lock
    case ReleaseLock => None
    case Crash => if p.lockFd then None else w.lock
    case _ => w.lock
  }

  function LeaseAfter(w: World, d: Id, p: Proc, a: Action): Lease {
    match a
    case TakeLease => if p.ownState && w.lease.Free? then HeldBy(d) else w.lease
    case ReleaseLease => if p.lease then Free else w.lease
    case Crash => if p.lease then Free else w.lease
    case _ => w.lease
  }

  function PathAfter(w: World, d: Id, a: Action): Path {
    match a
    case UnlinkStale(ok) => if ok then Path.Absent else w.path
    case UnlinkOwn(ok) => if ok then Path.Absent else w.path
    case Bind(_) => if w.path.Absent? then Socket(d) else w.path
    case _ => w.path
  }

  function Next(w: World, d: Id, a: Action): World
    requires Enabled(w, d, a)
  {
    if a.Spawn? then At(w, d, Proc(New, a.ownState, false, false, false, false, false))
    else
      var p := w.procs[d];
      World(LockAfter(w, d, p, a), LeaseAfter(w, d, p, a), PathAfter(w, d, a), w.procs[d := Moved(w, p, a)])
  }

  // ---- runs ------------------------------------------------------------------------

  predicate Initial(w: World) {
    w.procs == map[] && w.lock.None? && !w.lease.HeldBy? && !w.path.Socket?
  }

  /** A lease taken or given back by a process that is no daemon. */
  predicate LeaseMovesElsewhere(w: World, w': World) {
    || (w.lease.Free? && w' == w.(lease := HeldElsewhere))
    || (w.lease.HeldElsewhere? && w' == w.(lease := Free))
  }

  ghost predicate Step(w: World, w': World) {
    || LeaseMovesElsewhere(w, w')
    || exists d, a :: Enabled(w, d, a) && w' == Next(w, d, a)
  }

  ghost predicate Run(ws: seq<World>) {
    && ws != [] && Initial(ws[0])
    && forall i :: 0 <= i < |ws| - 1 ==> Step(ws[i], ws[i + 1])
  }

  predicate HoldsLock(phase: Phase) {
    phase in {Locked, Leased, StaleFound, Cleared, Built, Unrecorded, Bound, Serving, Closing, Unwinding, Unleased}
  }

  predicate HoldsLease(phase: Phase) {
    phase in {Leased, StaleFound, Cleared, Built, Unrecorded, Bound, Serving, Closing}
  }

  /** What the process says it holds and what the host says. */
  predicate Holds(w: World, d: Id)
    requires d in w.procs
  {
    var p := w.procs[d];
    && (p.lockFd <==> w.lock == Some(d)) && (p.lockFd <==> HoldsLock(p.phase))
    && (p.lease <==> w.lease == HeldBy(d)) && (HoldsLease(p.phase) && p.ownState ==> p.lease)
    && (p.lease ==> HoldsLease(p.phase) || p.phase.Unwinding?)
  }

  /** Its phase, its record of the bind and its socket. */
  predicate Recorded(p: Proc) {
    && (p.phase in {Unrecorded, Bound, Serving} ==> p.listening)
    && (p.listening ==> p.phase in {Unrecorded, Bound, Serving, Unwinding, Unleased, Exited})
    && (p.phase in {Bound, Serving, Closing} ==> p.bound) && (p.bound && p.listening ==> p.phase in {Bound, Serving})
    && (p.phase in {New, Locked, Leased, StaleFound, Cleared, Built, Unrecorded} ==> !p.bound)
  }

  /** Its socket and the path. */
  predicate OnPath(w: World, d: Id)
    requires d in w.procs
  {
    var p := w.procs[d];
    && (p.listening || p.phase.Closing? ==> w.path == Socket(d))
    && (p.phase.StaleFound? ==> !w.path.NotSocket? && (w.path.Socket? ==> !Listening(w, w.path.owner)))
  }

  ghost predicate ProcInv(w: World, d: Id)
    requires d in w.procs
  {
    Holds(w, d) && Recorded(w.procs[d]) && OnPath(w, d)
  }

  ghost predicate Inv(w: World) {
    && (forall d :: d in w.procs ==> ProcInv(w, d))
    && (w.lock.Some? ==> w.lock.value in w.procs)
    && (w.lease.HeldBy? ==> w.lease.daemon in w.procs)
  }

  lemma MovedStaysHeld(w: World, d: Id, a: Action)
    requires d in w.procs && Enabled(w, d, a) && Recorded(w.procs[d]) && Holds(w, d)
    ensures Holds(Next(w, d, a), d)
  {
    hide OnPath, Listening, PathAfter, Probes;
  }

  lemma MovedStaysRecorded(w: World, d: Id, a: Action)
    requires d in w.procs && Enabled(w, d, a) && Recorded(w.procs[d])
    ensures Recorded(Moved(w, w.procs[d], a))
  {
    hide Holds, OnPath, Listening, Probes;
  }

  lemma MovedStaysOnPath(w: World, d: Id, a: Action)
    requires d in w.procs && Enabled(w, d, a) && Recorded(w.procs[d]) && OnPath(w, d)
    ensures OnPath(Next(w, d, a), d)
  {
    hide Holds, LockAfter, LeaseAfter;
  }

  lemma NextKeepsSelf(w: World, d: Id, a: Action)
    requires Inv(w) && Enabled(w, d, a)
    ensures ProcInv(Next(w, d, a), d)
  {
    if d in w.procs {
      assert ProcInv(w, d);
      MovedStaysHeld(w, d, a);
      MovedStaysRecorded(w, d, a);
      MovedStaysOnPath(w, d, a);
      assert Next(w, d, a).procs[d] == Moved(w, w.procs[d], a);
      hide Inv, Next, Holds, Recorded, OnPath, Moved;
    } else {
      SpawnIsSound(w, d, a);
    }
  }

  lemma SpawnIsSound(w: World, d: Id, a: Action)
    requires Inv(w) && Enabled(w, d, a) && a.Spawn?
    ensures ProcInv(Next(w, d, a), d)
  {
  }

  lemma NextKeepsOther(w: World, d: Id, a: Action, other: Id)
    requires Inv(w) && Enabled(w, d, a) && other != d && other in w.procs
    ensures other in Next(w, d, a).procs && ProcInv(Next(w, d, a), other)
  {
    assert ProcInv(w, other);
    if d in w.procs {
      assert ProcInv(w, d);
    }
  }

  lemma NextKeepsInv(w: World, d: Id, a: Action)
    requires Inv(w) && Enabled(w, d, a)
    ensures Inv(Next(w, d, a))
  {
    NextKeepsSelf(w, d, a);
    forall other | other in w.procs && other != d ensures ProcInv(Next(w, d, a), other) {
      NextKeepsOther(w, d, a, other);
    }
    hide ProcInv, Enabled;
  }

  lemma {:induction false} RunKeepsInv(ws: seq<World>, i: nat)
    requires Run(ws) && i < |ws|
    ensures Inv(ws[i])
  {
    if i == 0 {
    } else {
      RunKeepsInv(ws, i - 1);
      var w, w' := ws[i - 1], ws[i];
      assert Step(w, ws[i - 1 + 1]);
      if LeaseMovesElsewhere(w, w') {
        forall x | x in w'.procs ensures ProcInv(w', x) {
          assert ProcInv(w, x);
        }
      } else {
        var d, a :| Enabled(w, d, a) && w' == Next(w, d, a);
        NextKeepsInv(w, d, a);
      }
    }
  }

  // ---- safety ------------------------------------------------------------------------

  /** At every moment of every run at most one process listens, and the socket file at the path is its
      own. It holds the startup lock unless its start was aborted and it gave the lock back, and one that
      is recorded as bound also holds the writer lease unless it was handed its state. */
  lemma AtMostOneListens(ws: seq<World>, i: nat, d: Id)
    requires Run(ws) && i < |ws| && Listening(ws[i], d)
    ensures forall d' :: Listening(ws[i], d') ==> d' == d
    ensures ws[i].path == Socket(d)
    ensures ws[i].lock == Some(d) <==> !ws[i].procs[d].phase.Exited?
    ensures ws[i].procs[d].bound ==> ws[i].lock == Some(d) && (ws[i].procs[d].ownState ==> ws[i].lease == HeldBy(d))
  {
    RunKeepsInv(ws, i);
    forall d' | Listening(ws[i], d') ensures d' == d {
      assert ProcInv(ws[i], d') && ProcInv(ws[i], d);
    }
    assert ProcInv(ws[i], d);
  }

  /** An aborted start whose socket still listens. */
  predicate LeftListening(w: World, d: Id) {
    Listening(w, d) && w.procs[d].phase in {Unwinding, Unleased, Exited}
  }

  /** Aborting a start leaves its socket listening exactly when it strikes between the bind and the
      statement that records it. */
  lemma AbortLeavesListenerExactly(ws: seq<World>, i: nat, d: Id)
    requires Run(ws) && i < |ws| && Enabled(ws[i], d, Fail)
    ensures Listening(Next(ws[i], d, Fail), d) <==> ws[i].procs[d].phase.Unrecorded?
  {
    RunKeepsInv(ws, i);
    assert ProcInv(ws[i], d);
  }

  /** Every listener that its daemon has given up was aborted in that window. */
  lemma {:induction false} LeftListenersWereInterrupted(ws: seq<World>, i: nat, d: Id) returns (j: nat)
    requires Run(ws) && i < |ws| && LeftListening(ws[i], d)
    ensures j < i && d in ws[j].procs && ws[j].procs[d].phase.Unrecorded?
    ensures Enabled(ws[j], d, Fail) && ws[j + 1] == Next(ws[j], d, Fail)
  {
    hide Run, Inv, Step, LeftListening, Next, Moved, Enabled;
    if i == 0 {
      NobodyAtFirst(ws, d);
    } else {
      StepBefore(ws, i);
      if LeftListening(ws[i - 1], d) {
        j := LeftListenersWereInterrupted(ws, i - 1, d);
      } else {
        j := i - 1;
        GivenUpByFail(ws[i - 1], ws[i], d);
      }
    }
  }

  lemma NobodyAtFirst(ws: seq<World>, d: Id)
    requires Run(ws)
    ensures !LeftListening(ws[0], d)
  {
  }

  lemma StepBefore(ws: seq<World>, i: nat)
    requires Run(ws) && 0 < i < |ws|
    ensures Step(ws[i - 1], ws[i]) && Inv(ws[i - 1])
  {
    RunKeepsInv(ws, i - 1);
    assert Step(ws[i - 1], ws[i - 1 + 1]);
  }

  lemma GivenUpByFail(w: World, w': World, d: Id)
    requires Inv(w) && Step(w, w') && LeftListening(w', d) && !LeftListening(w, d)
    ensures d in w.procs && w.procs[d].phase.Unrecorded? && Enabled(w, d, Fail) && w' == Next(w, d, Fail)
  {
    if !LeaseMovesElsewhere(w, w') {
      var x, a :| Enabled(w, x, a) && w' == Next(w, x, a);
      NextMovesOne(w, x, a, d);
      if d in w.procs && x == d {
        assert ProcInv(w, d);
        GivesUp(w, d, a);
      }
      hide Next, Enabled, Inv;
    }
  }

  lemma NextMovesOne(w: World, x: Id, a: Action, d: Id)
    requires Enabled(w, x, a)
    ensures x != d && d in Next(w, x, a).procs ==> d in w.procs && Next(w, x, a).procs[d] == w.procs[d]
    ensures x == d && d !in w.procs ==> !LeftListening(Next(w, x, a), d)
  {
  }

  lemma GivesUp(w: World, d: Id, a: Action)
    requires d in w.procs && Recorded(w.procs[d]) && Enabled(w, d, a)
    requires LeftListening(Next(w, d, a), d) && !LeftListening(w, d)
    ensures w.procs[d].phase.Unrecorded? && a.Fail?
  {
  }

  /** No step of another process, and no move of the lease, touches the socket file of a listener, stops
      it listening or takes a lock it holds. */
  lemma OthersLeaveAListenerAlone(ws: seq<World>, i: nat, d: Id, other: Id, a: Action)
    requires Run(ws) && i < |ws| && Listening(ws[i], d) && other != d && Enabled(ws[i], other, a)
    ensures Next(ws[i], other, a).path == ws[i].path == Socket(d)
    ensures Listening(Next(ws[i], other, a), d)
    ensures ws[i].lock == Some(d) ==> Next(ws[i], other, a).lock == Some(d)
  {
    RunKeepsInv(ws, i);
    assert ProcInv(ws[i], d);
    if !a.Spawn? {
      assert ProcInv(ws[i], other);
    }
  }

  /** Closing and aborting unlink only the file this daemon bound, while it still holds the
      lock; clearing a stale file unlinks only one on which nobody listens. */
  lemma UnlinksAreSafe(ws: seq<World>, i: nat, d: Id, a: Action)
    requires Run(ws) && i < |ws| && Enabled(ws[i], d, a)
    requires a.UnlinkOwn? || a.UnlinkStale?
    ensures ws[i].lock == Some(d)
    ensures a.UnlinkOwn? ==> ws[i].path == Socket(d) && ws[i].procs[d].bound
    ensures forall x :: !Listening(ws[i], x)
  {
    RunKeepsInv(ws, i);
    assert ProcInv(ws[i], d);
    forall x | x in ws[i].procs ensures !Listening(ws[i], x) {
      assert ProcInv(ws[i], x);
    }
  }

  /** A probe made under the lock finds a listener only where an aborted start left one and has since
      given its lock back; no running daemon is ever found. */
  lemma ProbeFindsOnlyAbortedStarts(ws: seq<World>, i: nat, d: Id)
    requires Run(ws) && i < |ws|
    ensures Enabled(ws[i], d, Probe(IsLive)) ==>
              var w := ws[i];
              w.path.Socket? && LeftListening(w, w.path.owner) && w.procs[w.path.owner].phase.Exited?
  {
    RunKeepsInv(ws, i);
    if Enabled(ws[i], d, Probe(IsLive)) {
      assert ProcInv(ws[i], d) && ProcInv(ws[i], ws[i].path.owner);
    }
  }

  // ---- self-healing ----------------------------------------------------------------------

  datatype Outcome = Started | AlreadyRunning | Refused

  /** What the environment makes fail during one startup. */
  datatype Faults = Faults(
    probe: bool, unlink: bool, build: bool, listen: bool, record: bool, chmod: bool, cleanup: bool)

  /** The start is interrupted between a bind that succeeds and the statement that records it. */
  predicate Interrupted(w: World, faults: Faults) {
    w.path.Absent? && !faults.listen && faults.record
  }

  /** Somebody listens at the path. */
  predicate Taken(w: World) {
    w.path.Socket? && Listening(w, w.path.owner)
  }

  /** The path can be bound: nothing is there, or a socket on which nobody listens and which can be probed
      and removed. */
  predicate Clears(w: World, faults: Faults) {
    w.path.Absent? || (w.path.Socket? && !Taken(w) && !faults.probe && !faults.unlink)
  }

  /** What a start needs must not be held. */
  predicate Available(w: World, ownState: bool) {
    w.lock.None? && (ownState ==> w.lease.Free?)
  }

  /** The state is built where it has to be, and the socket is bound. */
  predicate Binds(ownState: bool, faults: Faults) {
    !(ownState && faults.build) && !faults.listen
  }

  /** What a start that has its lock and lease leaves at the path: a bind that could not listen, or was not
      recorded, leaves its file there. */
  function PathLeft(w: World, d: Id, ownState: bool, faults: Faults): Path {
    if !Clears(w, faults) then w.path
    else if ownState && faults.build then Path.Absent
    else if faults.listen || faults.record || !faults.chmod || faults.cleanup then Socket(d)
    else Path.Absent
  }

  /** A socket file on which its process, if there still is one, does not listen. */
  predicate AbandonedAt(w: World) {
    w.path.Socket? && (w.path.owner in w.procs ==> !w.procs[w.path.owner].listening)
  }

  const NO_FAULTS := Faults(false, false, false, false, false, false, false)

  /** A daemon that dies while it serves leaves no lock and no lease of its own, only its socket file, on
      which nobody listens: a start heals exactly that. */
  lemma CrashLeavesStaleFile(ws: seq<World>, i: nat, d: Id)
    requires Run(ws) && i < |ws| && d in ws[i].procs && ws[i].procs[d].phase.Serving?
    ensures var w := Next(ws[i], d, Crash);
            && w.lock == None && w.path == Socket(d) && d in w.procs && !w.procs[d].listening
            && (ws[i].procs[d].ownState ==> w.lease == Free)
  {
    RunKeepsInv(ws, i);
    assert ProcInv(ws[i], d);
  }

  /** A daemon that starts alone, serves and dies. */
  lemma CrashIsPossible() returns (ws: seq<World>)
    ensures Run(ws)
    ensures var w := ws[|ws| - 1];
            && w.lock == None && w.lease == Free && w.path == Socket(0)
            && w.procs == map[0 := Proc(Dead, true, false, false, false, true, false)]
  {
    ws := BindsAlone();
    var p := Proc(Unrecorded, true, true, true, true, false, false);
    var w := ws[|ws| - 1];
    ws := Then(ws, 0, Record, w.(procs := map[0 := p.(phase := Phase.Bound, bound := true)]));
    ws := Then(ws, 0, Chmod, w.(procs := map[0 := p.(phase := Serving, bound := true)]));
    p := Proc(Dead, true, false, false, false, true, false);
    ws := Then(ws, 0, Crash, World(None, Free, Socket(0), map[0 := p]));
  }

  lemma BindsAlone() returns (ws: seq<World>)
    ensures Run(ws)
    ensures ws[|ws| - 1]
         == World(Some(0), HeldBy(0), Socket(0), map[0 := Proc(Unrecorded, true, true, true, true, false, false)])
  {
    ws := LeasesAlone();
    var p := Proc(Leased, true, true, true, false, false, false);
    var w := ws[|ws| - 1];
    ws := Then(ws, 0, Probe(IsAbsent), w.(procs := map[0 := p.(phase := Cleared)]));
    ws := Then(ws, 0, BuildState, w.(procs := map[0 := p.(phase := Built)]));
    ws := Then(ws, 0, Bind(true), w.(path := Socket(0), procs := map[0 := p.(phase := Unrecorded, listening := true)]));
  }

  lemma LeasesAlone() returns (ws: seq<World>)
    ensures Run(ws)
    ensures ws[|ws| - 1]
         == World(Some(0), HeldBy(0), Path.Absent, map[0 := Proc(Leased, true, true, true, false, false, false)])
  {
    var w := World(None, Free, Path.Absent, map[]);
    var p := Proc(New, true, false, false, false, false, false);
    ws := Then([w], 0, Spawn(true), w.(procs := map[0 := p]));
    ws := Then(ws, 0, TakeLock, w.(lock := Some(0), procs := map[0 := p.(phase := Locked, lockFd := true)]));
    ws := Then(ws, 0, TakeLease,
               World(Some(0), HeldBy(0), Path.Absent, map[0 := Proc(Leased, true, true, true, false, false, false)]));
  }

  lemma Then(ws: seq<World>, d: Id, a: Action, next: World) returns (longer: seq<World>)
    requires Run(ws) && Enabled(ws[|ws| - 1], d, a) && Next(ws[|ws| - 1], d, a) == next
    ensures Run(longer) && longer[|longer| - 1] == next
  {
    longer := ws + [next];
    hide Enabled, Next;
  }

  /** The machine the daemons run on, with the run that led to its present state. */
  class Host {
    var world: World
    ghost var past: seq<World>

    ghost predicate Valid()
      reads this
    {
      Run(past) && past[|past| - 1] == world
    }

    /** Any reachable state is the state of some host. */
    constructor (world: World, ghost past: seq<World>)
      requires Run(past) && past[|past| - 1] == world
      ensures Valid() && this.world == world && this.past == past
    {
      this.world := world;
      this.past := past;
    }

    method Do(d: Id, a: Action)
      requires Valid() && Enabled(world, d, a)
      modifies this
      ensures Valid() && old(past) < past
      ensures world == Next(old(world), d, a)
    {
      world := Next(world, d, a);
      past := past + [world];
      assert Step(past[|past| - 2], past[|past| - 1]);
    }

    lemma ServesOwnPath(d: Id)
      requires Valid() && d in world.procs && world.procs[d].phase.Serving?
      ensures world.path == Socket(d)
    {
      RunKeepsInv(past, |past| - 1);
      assert ProcInv(world, d);
    }

    lemma ServerHolds(d: Id)
      requires Valid() && d in world.procs && world.procs[d].phase.Serving?
      ensures world.procs[d].listening && world.lock == Some(d)
      ensures world.procs[d].ownState ==> world.lease == HeldBy(d)
    {
      RunKeepsInv(past, |past| - 1);
      assert ProcInv(world, d);
    }

    /** Stop listening, remove the socket this daemon bound, then give back the lease and the
        lock, in that order. */
    method Close(d: Id, cleanupFails: bool)
      requires Valid() && d in world.procs && world.procs[d].phase.Serving?
      modifies this
      ensures Valid() && old(past) < past
      ensures world == old(world).(
          lock := None, lease := if old(world).procs[d].lease then Free else old(world).lease,
          path := if cleanupFails then Socket(d) else Path.Absent,
          procs := old(world).procs[
            d := Proc(Exited, old(world).procs[d].ownState, false, false, false, cleanupFails, true)])
    {
      hide Valid, Run, Inv, ProcInv, Step, Probes;
      ServesOwnPath(d);
      var own := world.procs[d].ownState;
      Do(d, StopListening);
      Do(d, UnlinkOwn(!cleanupFails));
      GiveBack(d);
      assert world.procs == old(world).procs[d := Proc(Exited, own, false, false, false, cleanupFails, true)];
    }

    /** Give back the lease, then the lock. */
    method GiveBack(d: Id)
      requires Valid() && d in world.procs && world.procs[d].phase.Unwinding?
      modifies this
      ensures Valid() && old(past) < past
      ensures world == old(world).(
          lock := None, lease := if old(world).procs[d].lease then Free else old(world).lease,
          procs := old(world).procs[d := old(world).procs[d].(phase := Exited, lockFd := false, lease := false)])
    {
      hide Valid, Run, Inv, ProcInv, Step;
      Do(d, ReleaseLease);
      Do(d, ReleaseLock);
      assert world.procs
          == old(world).procs[d := old(world).procs[d].(phase := Exited, lockFd := false, lease := false)];
    }

    /** Classify what is at the path, from a client's point of view. */
    method ProbeSocketPath(d: Id, unprobeable: bool) returns (status: Status)
      requires Valid() && d in world.procs && world.procs[d].phase.Leased?
      ensures Probes(world, status)
      ensures unprobeable || world.path.NotSocket? ==> status == IsUnknown
      ensures !unprobeable && !world.path.NotSocket? ==>
                status == if world.path.Absent? then IsAbsent else if Taken(world) then IsLive else IsStale
    {
      if unprobeable || world.path.NotSocket? {
        return IsUnknown;
      }
      status := if world.path.Absent? then IsAbsent else if Taken(world) then IsLive else IsStale;
    }

    /** Make the path bindable, or refuse; a listener there is refused as already running. */
    method ClaimSocketPath(d: Id, faults: Faults) returns (claimed: bool, live: bool)
      requires Valid() && d in world.procs && world.procs[d].phase.Leased?
      modifies this
      ensures Valid() && old(past) < past
      ensures claimed ==> world == At(old(world), d, old(world).procs[d].(phase := Cleared)).(path := world.path)
      ensures !claimed ==> world == At(old(world), d, old(world).procs[d].(phase := Unwinding))
      ensures live <==> Taken(old(world)) && !faults.probe
      ensures live ==> !claimed
      ensures Clears(old(world), faults) ==> claimed
      ensures AbandonedAt(old(world)) && !faults.probe ==> (claimed <==> !faults.unlink)
      ensures AbandonedAt(old(world)) && !faults.probe && claimed ==> world.path == Path.Absent
      ensures world.path == if Clears(old(world), faults) then Path.Absent else old(world).path
    {
      hide Valid, Run, Inv, ProcInv, Step;
      var status := ProbeSocketPath(d, faults.probe);
      Do(d, Probe(status));
      live := status.IsLive?;
      claimed := !live && (!status.IsStale? || !faults.unlink);
      if status.IsStale? {
        Do(d, UnlinkStale(claimed));
      }
      assert world.procs == old(world).procs[d := world.procs[d]];
    }

    /** Bind, record, chmod; on failure only the lease and the lock are left to give back, and the socket
        is left listening exactly when the failure struck between the bind and the record. */
    method BindAndChmod(d: Id, faults: Faults) returns (serving: bool)
      requires Valid() && Enabled(world, d, Bind(true)) && !world.procs[d].bound && !world.procs[d].closed
      requires !world.procs[d].listening
      modifies this
      ensures Valid() && old(past) < past
      ensures serving ==>
                var p := old(world).procs[d].(phase := Serving, bound := true, listening := true);
                world == At(old(world), d, p).(path := Socket(d))
      ensures !serving ==>
                var p := old(world).procs[d].(phase := Unwinding, listening := Interrupted(old(world), faults));
                world == At(old(world), d, p).(path := world.path)
      ensures world.path ==
                if old(world).path.Absent? then PathLeft(old(world), d, false, faults) else old(world).path
      ensures Interrupted(old(world), faults) ==> !serving
      ensures serving <==> old(world).path.Absent? && !faults.listen && !faults.record && !faults.chmod
    {
      hide Valid, Run, Inv, ProcInv, Step;
      Do(d, Bind(!faults.listen));
      serving := false;
      if world.procs[d].phase.Unrecorded? {
        serving := RecordAndChmod(d, faults);
      }
      assert world.procs == old(world).procs[d := world.procs[d]];
    }

    method RecordAndChmod(d: Id, faults: Faults) returns (serving: bool)
      requires Valid() && d in world.procs && world.procs[d].phase.Unrecorded? && world.procs[d].listening
      requires !world.procs[d].bound && !world.procs[d].closed && world.path == Socket(d)
      modifies this
      ensures Valid() && old(past) < past
      ensures serving ==> world == At(old(world), d, old(world).procs[d].(phase := Serving, bound := true))
      ensures !serving ==>
                var p := old(world).procs[d].(phase := Unwinding, listening := faults.record);
                world == At(old(world), d, p).(path := world.path)
      ensures world.path == if faults.record || !faults.chmod || faults.cleanup then Socket(d) else Path.Absent
      ensures serving <==> !faults.record && !faults.chmod
    {
      hide Valid, Run, Inv, ProcInv, Step;
      serving := !faults.record && !faults.chmod;
      if faults.record {
        Do(d, Fail);
      } else {
        Do(d, Record);
        if serving {
          Do(d, Chmod);
        } else {
          Do(d, Fail);
          Do(d, UnlinkOwn(!faults.cleanup));
        }
      }
      assert world.procs == old(world).procs[d := world.procs[d]];
    }

    /** The constructor of a daemon: lock, lease, path, state, bind, record, chmod, and on any failure the
        unwinding of what was taken. It ends serving exactly when lock and lease are to be had, the path is
        free or holds a stale socket that can be removed, and none of the later steps fails; it reports
        another daemon exactly when the lock or the lease is held or the probe finds a listener; and it
        leaves a listener behind exactly when it is struck between the bind and the record. */
    method Start(d: Id, ownState: bool, faults: Faults) returns (outcome: Outcome)
      requires Valid() && d !in world.procs
      modifies this
      ensures Valid() && old(past) < past && d in world.procs
      ensures if outcome.Started? then world.procs[d].phase.Serving?
              else world.procs[d].phase.Exited? && world.lease == old(world).lease && world.lock == old(world).lock
      ensures var w := old(world);
              w.lock == None && (ownState ==> w.lease == Free) && (w.path == Path.Absent || AbandonedAt(w)) ==>
                (faults == NO_FAULTS ==> outcome == Started && world.path == Socket(d))
      ensures var w := old(world);
              w.lock == None && (ownState ==> w.lease == Free) && AbandonedAt(w) ==>
                (faults in {NO_FAULTS.(unlink := true), NO_FAULTS.(probe := true)} ==>
                  outcome == Refused && world.path == w.path)
      ensures var w := old(world);
              w.path.NotSocket? || (w.path.Socket? && !AbandonedAt(w)) || w.lock != None ==>
                outcome != Started && world.path == w.path
      ensures old(world).lock != None || (ownState && old(world).lease != Free) ==> outcome == AlreadyRunning
      ensures outcome == Started ==>
                world.procs[d].listening && world.lock == Some(d) && (ownState ==> world.lease == HeldBy(d))
      ensures outcome.Started? <==>
                && Available(old(world), ownState) && Clears(old(world), faults) && Binds(ownState, faults)
                && !faults.record && !faults.chmod
      ensures outcome.AlreadyRunning? <==> !Available(old(world), ownState) || (Taken(old(world)) && !faults.probe)
      ensures world.path ==
                if Available(old(world), ownState) then PathLeft(old(world), d, ownState, faults) else old(world).path
      ensures !outcome.Started? ==>
                (Listening(world, d) <==>
                  && Available(old(world), ownState) && Clears(old(world), faults) && Binds(ownState, faults)
                  && faults.record)
    {
      var owns := TakeOwnership(d, ownState);
      if !owns {
        return AlreadyRunning;
      }
      hide Valid, Run, Inv, ProcInv, Step;
      outcome := ClaimAndServe(d, ownState, faults);
      if outcome.Started? {
        ServerHolds(d);
      }
    }

    /** The rest of the constructor, under the lock and the lease. */
    method ClaimAndServe(d: Id, ownState: bool, faults: Faults) returns (outcome: Outcome)
      requires Valid() && d in world.procs
      requires world.procs[d] == Proc(Leased, ownState, true, ownState, false, false, false)
      modifies this
      ensures Valid() && old(past) < past && d in world.procs
      ensures outcome.Started? ==> world.procs[d].phase.Serving? && world.procs[d].ownState == ownState
      ensures !outcome.Started? ==>
                && world.procs[d].phase.Exited? && world.lock == None
                && world.lease == if ownState then Free else old(world).lease
      ensures outcome.Started? <==>
                Clears(old(world), faults) && Binds(ownState, faults) && !faults.record && !faults.chmod
      ensures outcome.AlreadyRunning? <==> Taken(old(world)) && !faults.probe
      ensures world.path == PathLeft(old(world), d, ownState, faults)
      ensures !outcome.Started? ==>
                (Listening(world, d) <==> Clears(old(world), faults) && Binds(ownState, faults) && faults.record)
    {
      hide Valid, Run, Inv, ProcInv, Step;
      var ready, live := ClaimSocketPath(d, faults);
      if ready && ownState {
        Do(d, if faults.build then Fail else BuildState);
        ready := !faults.build;
      }
      if ready {
        ready := BindAndChmod(d, faults);
      }
      if !ready {
        GiveBack(d);
        return if live then AlreadyRunning else Refused;
      }
      return Started;
    }

    /** Startup lock first, then the writer lease unless the state was handed in. */
    method TakeOwnership(d: Id, ownState: bool) returns (owns: bool)
      requires Valid() && d !in world.procs
      modifies this
      ensures Valid() && old(past) < past
      ensures owns <==> old(world).lock.None? && (ownState ==> old(world).lease.Free?)
      ensures world == (if owns
        then At(old(world), d, Proc(Leased, ownState, true, ownState, false, false, false)).(
          lock := Some(d), lease := if ownState then HeldBy(d) else old(world).lease)
        else At(old(world), d, Proc(Exited, ownState, false, false, false, false, false)))
    {
      hide Valid, Run, Inv, ProcInv, Step;
      Do(d, Spawn(ownState));
      Do(d, TakeLock);
      owns := world.procs[d].phase.Locked?;
      if owns {
        Do(d, TakeLease);
        owns := world.procs[d].phase.Leased?;
        if !owns {
          GiveBack(d);
        }
      }
      assert world.procs == old(world).procs[d := world.procs[d]];
    }
  }
}
