/** When the daemon may exit: session references that expire, requests counted in flight, and a
    drain that is bounded even when a count leaks. */
module DaemonLifetime {
  import opened Common

  /** The three durations of the lifetime policy. */
  datatype Limits = Limits(idle: real, linger: real, drain: real)

  // ---- session references ------------------------------------------------------------

  /** The references heard from at or after the cutoff. */
  function Fresh(live: map<string, real>, cutoff: real): map<string, real> {
    map s | s in live && live[s] >= cutoff :: live[s]
  }

  lemma NoneFresh(live: map<string, real>, cutoff: real)
    ensures |Fresh(live, cutoff)| == 0 <==> forall s :: s in live ==> live[s] < cutoff
  {
    if |Fresh(live, cutoff)| != 0 {
      var s :| s in Fresh(live, cutoff);
    } else {
      assert forall s :: s in live && live[s] >= cutoff ==> s in Fresh(live, cutoff);
    }
  }

  class SessionRegistry {
    /** Session to the time of its last hook event. */
    var live: map<string, real>

    constructor ()
      ensures live == map[]
    {
      live := map[];
    }

    method Note(session: string, now: real)
      modifies this
      ensures live == if session == "" then old(live) else old(live)[session := now]
    {
      if session != "" {
        live := live[session := now];
      }
    }

    method Release(session: string)
      modifies this
      ensures live == if session == "" then old(live) else old(live) - {session}
    {
      if session != "" {
        live := live - {session};
      }
    }

    /** Sweeps the references older than `staleAfter` and counts the rest; a session heard from
        within that time is never dropped. */
    method Count(now: real, staleAfter: real) returns (n: nat)
      modifies this
      ensures live == Fresh(old(live), now - staleAfter) && n == |live|
    {
      var stale := set s | s in live && live[s] < now - staleAfter;
      live := live - stale;
      n := |live|;
    }
  }

  // ---- the exit predicate over time ----------------------------------------------------

  /** What one pass of the serve loop reads: the clock, the last accept, the session count and
      the in-flight count. */
  datatype Sample = Sample(now: real, lastActivity: real, live: nat, inflight: nat)

  predicate Due(l: Limits, s: Sample) {
    || s.now - s.lastActivity >= l.idle
    || (s.now - s.lastActivity >= l.linger && s.live == 0)
  }

  predicate Busy(l: Limits, s: Sample) {
    Due(l, s) && s.inflight > 0
  }

  /** One evaluation of the exit predicate: the verdict and the new start of the drain. */
  function Poll(l: Limits, since: Option<real>, s: Sample): (bool, Option<real>) {
    if !Due(l, s) then (false, None)
    else if s.inflight == 0 then (true, None)
    else
      match since
      case None => (false, Some(s.now))
      case Some(t) => (s.now - t >= l.drain, since)
  }

  function Since(l: Limits, ss: seq<Sample>): Option<real> {
    if ss == [] then None else Poll(l, Since(l, ss[..|ss| - 1]), ss[|ss| - 1]).1
  }

  /** The loop leaves at pass k. */
  predicate Exits(l: Limits, ss: seq<Sample>, k: nat)
    requires k < |ss|
  {
    Poll(l, Since(l, ss[..k]), ss[k]).0
  }

  /** Passes j up to (excluding) k all found the exit due and requests in flight, and j is the
      first of that stretch. */
  predicate Stretch(l: Limits, ss: seq<Sample>, j: nat, k: nat)
    requires j <= k <= |ss|
  {
    && (forall i :: j <= i < k ==> Busy(l, ss[i]))
    && (j > 0 ==> !Busy(l, ss[j - 1]))
  }

  lemma {:induction false} SinceIsStretchStart(l: Limits, ss: seq<Sample>, k: nat) returns (j: nat)
    requires k <= |ss|
    ensures j <= k && Stretch(l, ss, j, k)
    ensures Since(l, ss[..k]) == if j == k then None else Some(ss[j].now)
  {
    if k == 0 {
      j := 0;
    } else {
      j := SinceIsStretchStart(l, ss, k - 1);
      assert ss[..k][..k - 1] == ss[..k - 1] && ss[..k][k - 1] == ss[k - 1];
      if !Busy(l, ss[k - 1]) {
        j := k;
      }
    }
  }

  /** The loop leaves exactly when the exit is due and either nothing is in flight or a contiguous
      stretch of due-and-busy passes began at least the drain time ago. */
  lemma ExitsExactlyWhenDrained(l: Limits, ss: seq<Sample>, k: nat)
    requires k < |ss|
    ensures Exits(l, ss, k) <==>
      && Due(l, ss[k])
      && (ss[k].inflight == 0 || exists j | 0 <= j < k :: Stretch(l, ss, j, k) && ss[k].now - ss[j].now >= l.drain)
  {
    var j := SinceIsStretchStart(l, ss, k);
    forall i | 0 <= i < k && Stretch(l, ss, i, k) ensures i == j {
      if j > 0 {
        assert !Busy(l, ss[j - 1]);
      }
      if i > 0 {
        assert !Busy(l, ss[i - 1]);
      }
    }
  }

  /** Passes follow one another by at most a poll interval, and no connection is accepted. */
  predicate Quiet(ss: seq<Sample>, accepted: real, poll: real) {
    && ss != [] && accepted <= ss[0].now <= accepted + poll
    && (forall i :: 0 <= i < |ss| ==> ss[i].lastActivity == accepted)
    && (forall i :: 0 <= i < |ss| - 1 ==> ss[i].now <= ss[i + 1].now <= ss[i].now + poll)
  }

  lemma {:induction false} Later(ss: seq<Sample>, accepted: real, poll: real, i: nat, k: nat)
    requires Quiet(ss, accepted, poll) && i <= k < |ss|
    ensures ss[i].now <= ss[k].now
  {
    if i == k {
    } else {
      Later(ss, accepted, poll, i, k - 1);
      assert ss[k - 1].now <= ss[k - 1 + 1].now;
    }
  }

  /** The first pass at or after a moment comes at most one poll interval late. */
  lemma {:induction false} FirstAt(ss: seq<Sample>, accepted: real, poll: real, t: real, k: nat) returns (a: nat)
    requires Quiet(ss, accepted, poll) && k < |ss| && ss[k].now >= t && t >= accepted
    ensures a <= k && t <= ss[a].now <= t + poll
    ensures a > 0 ==> ss[a - 1].now < t
  {
    a := k;
    if k > 0 && ss[k - 1].now >= t {
      a := FirstAt(ss, accepted, poll, t, k - 1);
    } else if k > 0 {
      assert ss[k - 1].now <= ss[k - 1 + 1].now <= ss[k - 1].now + poll;
    }
  }

  /** Whatever the session map says and however many counts leaked, a daemon that accepts no
      connection leaves within idle + drain and two poll intervals. */
  lemma AlwaysLeaves(l: Limits, ss: seq<Sample>, accepted: real, poll: real) returns (k: nat)
    requires Quiet(ss, accepted, poll) && l.idle >= 0.0 && l.drain >= 0.0 && poll > 0.0
    requires ss[|ss| - 1].now > accepted + l.idle + poll + l.drain
    ensures k < |ss| && Exits(l, ss, k)
    ensures ss[k].now <= accepted + l.idle + l.drain + 2.0 * poll
  {
    var last := |ss| - 1;
    var a := FirstAt(ss, accepted, poll, accepted + l.idle, last);
    var b := FirstAt(ss, accepted, poll, ss[a].now + l.drain, last);
    forall i | a <= i <= last ensures Due(l, ss[i]) {
      Later(ss, accepted, poll, a, i);
    }
    if b <= a {
      Later(ss, accepted, poll, b, a);
      k := NextOrNow(l, ss, accepted, poll, a);
    } else {
      k := DrainEnds(l, ss, accepted, poll, a, b);
      Later(ss, accepted, poll, k, b);
    }
  }

  /** Between a pass from which the exit stays due and one a drain later, some pass leaves. */
  lemma DrainEnds(l: Limits, ss: seq<Sample>, accepted: real, poll: real, a: nat, b: nat) returns (k: nat)
    requires Quiet(ss, accepted, poll) && a < b < |ss| && ss[b].now >= ss[a].now + l.drain
    requires forall i :: a <= i <= b ==> Due(l, ss[i])
    ensures a <= k <= b && Exits(l, ss, k)
  {
    k := b;
    var j := SinceIsStretchStart(l, ss, b);
    if ss[b].inflight > 0 && j <= a {
      Later(ss, accepted, poll, j, a);
    } else if ss[b].inflight > 0 {
      k := j - 1;
      assert !Busy(l, ss[j - 1]);
    }
  }

  /** With no drain left to wait for, the pass at which the exit falls due or the next one leaves. */
  lemma NextOrNow(l: Limits, ss: seq<Sample>, accepted: real, poll: real, a: nat) returns (k: nat)
    requires Quiet(ss, accepted, poll) && a < |ss| - 1
    requires Due(l, ss[a]) && Due(l, ss[a + 1]) && l.drain <= 0.0
    ensures a <= k <= a + 1 && Exits(l, ss, k)
  {
    k := a;
    if ss[a].inflight > 0 && !Exits(l, ss, a) {
      k := a + 1;
      assert ss[..a + 1][..a] == ss[..a];
      assert ss[a].now <= ss[a + 1].now;
      var j := SinceIsStretchStart(l, ss, a + 1);
      Later(ss, accepted, poll, j, a + 1);
    }
  }

  // ---- the serve loop over its passes ----------------------------------------------------

  /** One accepted request, from the accept loop to the end of its handler. Flushed is a flush that was
      made, whether or not the peer was still there to take it; a leaked one never reaches its end. */
  datatype Stage = Working | Flushed | Finished | Leaked

  datatype HandlerEvent = Flushes(r: nat) | Finishes(r: nat) | Leaks(r: nat)

  datatype Touch = Heard(session: string, at: real) | Over(session: string)

  /** One pass of the serve loop: when it checks, when a connection then arrives if one does, and what
      the handlers do meanwhile to the session references and to their requests. */
  datatype Pass = Pass(now: real, arrival: Option<real>, touches: seq<Touch>, events: seq<HandlerEvent>)

  /** What the loop's checks read. */
  datatype Loop = Loop(lastActivity: real, requests: seq<Stage>, live: map<string, real>)

  ghost function CountStage(requests: seq<Stage>, s: Stage): nat {
    multiset(requests)[s]
  }

  /** The accepted requests whose handler has not finished; those not flushed are among them. */
  ghost function Unfinished(requests: seq<Stage>): (n: nat)
    ensures n >= CountStage(requests, Working)
  {
    CountStage(requests, Working) + CountStage(requests, Flushed) + CountStage(requests, Leaked)
  }

  function Moved(requests: seq<Stage>, e: HandlerEvent): seq<Stage> {
    if e.r >= |requests| then requests
    else
      match e
      case Flushes(r) => if requests[r].Working? then requests[r := Flushed] else requests
      case Finishes(r) => if requests[r].Flushed? then requests[r := Finished] else requests
      case Leaks(r) => if requests[r].Working? then requests[r := Leaked] else requests
  }

  function MovedBy(requests: seq<Stage>, events: seq<HandlerEvent>): seq<Stage> {
    if events == [] then requests
    else Moved(MovedBy(requests, events[..|events| - 1]), events[|events| - 1])
  }

  function Touched(live: map<string, real>, t: Touch): map<string, real> {
    if t.session == "" then live
    else
      match t
      case Heard(session, at) => live[session := at]
      case Over(session) => live - {session}
  }

  function TouchedBy(live: map<string, real>, touches: seq<Touch>): map<string, real> {
    if touches == [] then live
    else Touched(TouchedBy(live, touches[..|touches| - 1]), touches[|touches| - 1])
  }

  /** The check sweeps only when the linger limit has passed and the idle limit has not. */
  function Swept(l: Limits, staleAfter: real, st: Loop, now: real): Loop {
    if l.linger <= now - st.lastActivity < l.idle then st.(live := Fresh(st.live, now - staleAfter)) else st
  }

  /** What happens between one check and the next. */
  function Between(st: Loop, p: Pass): Loop {
    var accepted := if p.arrival.Some? then st.requests + [Working] else st.requests;
    Loop(if p.arrival.Some? then p.arrival.value else st.lastActivity,
         MovedBy(accepted, p.events), TouchedBy(st.live, p.touches))
  }

  /** What the check of pass i finds. */
  function StateAt(l: Limits, staleAfter: real, st: Loop, passes: seq<Pass>, i: nat): Loop
    requires i <= |passes|
  {
    if i == 0 then st
    else Between(Swept(l, staleAfter, StateAt(l, staleAfter, st, passes, i - 1), passes[i - 1].now), passes[i - 1])
  }

  ghost function Reading(staleAfter: real, st: Loop, now: real): Sample {
    Sample(now, st.lastActivity, |Fresh(st.live, now - staleAfter)|, Unfinished(st.requests))
  }

  /** The readings of all checks, were the loop never to leave. */
  ghost function Readings(l: Limits, staleAfter: real, st: Loop, passes: seq<Pass>): seq<Sample> {
    seq(|passes|, i requires 0 <= i < |passes| =>
      Reading(staleAfter, StateAt(l, staleAfter, st, passes, i), passes[i].now))
  }

  /** Of the checks with these readings n were made; either the last one left and no earlier one had
      reason to, or none had. */
  ghost predicate Judged(l: Limits, rs: seq<Sample>, n: nat, left: bool, since: Option<real>) {
    && n <= |rs| && since == Since(l, rs[..n])
    && (left ==> n > 0 && Exits(l, rs, n - 1))
    && (forall k :: 0 <= k < (if left then n - 1 else n) ==> !Exits(l, rs, k))
  }

  lemma OneMoreJudged(l: Limits, rs: seq<Sample>, i: nat, since: Option<real>)
    requires Judged(l, rs, i, false, since) && i < |rs|
    ensures Judged(l, rs, i + 1, Poll(l, since, rs[i]).0, Poll(l, since, rs[i]).1)
  {
    assert rs[..i + 1][..i] == rs[..i] && rs[..i + 1][i] == rs[i];
    hide Poll;
  }

  /** What a loop that made n checks has done and where it is: past the wait after the last check, or
      just past the check at which it left. */
  ghost predicate Served(l: Limits, staleAfter: real, st: Loop, passes: seq<Pass>, n: nat, left: bool,
                         now: Loop, since: Option<real>)
  {
    && Judged(l, Readings(l, staleAfter, st, passes), n, left, since)
    && (left ==> now == Swept(l, staleAfter, StateAt(l, staleAfter, st, passes, n - 1), passes[n - 1].now))
    && (!left ==> now == StateAt(l, staleAfter, st, passes, n))
  }

  lemma NothingServed(l: Limits, staleAfter: real, st: Loop, passes: seq<Pass>)
    ensures Served(l, staleAfter, st, passes, 0, false, st, None)
  {
  }

  /** One more check of the loop is the exit policy applied to its reading. */
  lemma OneMoreCheck(l: Limits, staleAfter: real, st: Loop, passes: seq<Pass>, i: nat, now: Loop, since: Option<real>)
    requires Served(l, staleAfter, st, passes, i, false, now, since) && i < |passes|
    ensures var (left, later) := Poll(l, since, Reading(staleAfter, now, passes[i].now));
            var swept := Swept(l, staleAfter, now, passes[i].now);
            Served(l, staleAfter, st, passes, i + 1, left, if left then swept else Between(swept, passes[i]), later)
  {
    var rs := Readings(l, staleAfter, st, passes);
    assert rs[i] == Reading(staleAfter, now, passes[i].now);
    hide Readings, Judged, Poll, Reading, Swept, Between;
    OneMoreJudged(l, rs, i, since);
  }

  /** The loop leaves either with every accepted request flushed, or after a contiguous stretch of
      due-and-busy checks as long as the drain limit. */
  lemma LeavesDrained(l: Limits, staleAfter: real, st: Loop, passes: seq<Pass>, k: nat)
    requires k < |passes| && Exits(l, Readings(l, staleAfter, st, passes), k)
    ensures var rs := Readings(l, staleAfter, st, passes);
            && Due(l, rs[k])
            && (CountStage(StateAt(l, staleAfter, st, passes, k).requests, Working) == 0
                || exists j | 0 <= j < k :: Stretch(l, rs, j, k) && rs[k].now - rs[j].now >= l.drain)
  {
    ExitsExactlyWhenDrained(l, Readings(l, staleAfter, st, passes), k);
    hide Exits, Stretch, Due, StateAt;
  }

  // ---- a daemon nobody connects to ------------------------------------------------------------

  /** No connection is accepted, checks follow one another by at most a poll interval, and the last one
      is late enough. */
  predicate Unattended(l: Limits, start: real, passes: seq<Pass>, poll: real) {
    && l.idle >= 0.0 && l.drain >= 0.0 && poll > 0.0
    && passes != [] && start <= passes[0].now <= start + poll
    && (forall i :: 0 <= i < |passes| ==> passes[i].arrival.None?)
    && (forall i :: 0 <= i < |passes| - 1 ==> passes[i].now <= passes[i + 1].now <= passes[i].now + poll)
    && passes[|passes| - 1].now > start + l.idle + poll + l.drain
  }

  lemma {:induction false} NothingAccepted(l: Limits, staleAfter: real, st: Loop, passes: seq<Pass>, i: nat)
    requires i <= |passes| && forall k :: 0 <= k < |passes| ==> passes[k].arrival.None?
    ensures StateAt(l, staleAfter, st, passes, i).lastActivity == st.lastActivity
  {
    if i == 0 {
    } else {
      NothingAccepted(l, staleAfter, st, passes, i - 1);
    }
  }

  lemma {:induction false} ChecksAreOrdered(passes: seq<Pass>, i: nat, k: nat)
    requires i <= k < |passes| && forall j :: 0 <= j < |passes| - 1 ==> passes[j].now <= passes[j + 1].now
    ensures passes[i].now <= passes[k].now
  {
    if i == k {
    } else {
      ChecksAreOrdered(passes, i, k - 1);
      assert passes[k - 1].now <= passes[k - 1 + 1].now;
    }
  }

  lemma QuietReadings(l: Limits, staleAfter: real, st: Loop, passes: seq<Pass>, poll: real)
    requires Unattended(l, st.lastActivity, passes, poll)
    ensures Quiet(Readings(l, staleAfter, st, passes), st.lastActivity, poll)
  {
    var rs := Readings(l, staleAfter, st, passes);
    forall i | 0 <= i < |passes| ensures rs[i].lastActivity == st.lastActivity && rs[i].now == passes[i].now {
      NothingAccepted(l, staleAfter, st, passes, i);
      hide StateAt;
    }
    hide Readings;
    SpacedReadings(rs, passes, st.lastActivity, poll);
  }

  lemma SpacedReadings(rs: seq<Sample>, passes: seq<Pass>, accepted: real, poll: real)
    requires |rs| == |passes| > 0 && accepted <= passes[0].now <= accepted + poll
    requires forall i :: 0 <= i < |rs| ==> rs[i].lastActivity == accepted && rs[i].now == passes[i].now
    requires forall i :: 0 <= i < |passes| - 1 ==> passes[i].now <= passes[i + 1].now <= passes[i].now + poll
    ensures Quiet(rs, accepted, poll)
  {
  }

  /** A check leaves within idle, drain and two polls of the start, whatever the session references say
      and however many requests leaked. */
  lemma UnattendedLeaves(l: Limits, staleAfter: real, st: Loop, passes: seq<Pass>, poll: real) returns (k: nat)
    requires Unattended(l, st.lastActivity, passes, poll)
    ensures k < |passes| && Exits(l, Readings(l, staleAfter, st, passes), k)
    ensures passes[k].now <= st.lastActivity + l.idle + l.drain + 2.0 * poll
  {
    var rs := Readings(l, staleAfter, st, passes);
    QuietReadings(l, staleAfter, st, passes, poll);
    assert rs[|rs| - 1].now == passes[|passes| - 1].now;
    hide Readings, Exits, Quiet;
    k := AlwaysLeaves(l, rs, st.lastActivity, poll);
  }

  lemma LeavesInTime(l: Limits, staleAfter: real, st: Loop, passes: seq<Pass>, poll: real, n: nat, left: bool,
                     now: Loop, since: Option<real>)
    requires Served(l, staleAfter, st, passes, n, left, now, since) && (!left ==> n == |passes|)
    requires Unattended(l, st.lastActivity, passes, poll)
    ensures left && passes[n - 1].now <= st.lastActivity + l.idle + l.drain + 2.0 * poll
  {
    var k := UnattendedLeaves(l, staleAfter, st, passes, poll);
    hide Readings, Exits, Since, StateAt, Swept;
    assert left && n - 1 <= k;
    ChecksAreOrdered(passes, n - 1, k);
  }

  // ---- what keeps the daemon and what lets it go ------------------------------------------------------

  /** The last accept before check i. */
  function AcceptedBefore(start: real, passes: seq<Pass>, i: nat): real
    requires i <= |passes|
  {
    if i == 0 then start
    else if passes[i - 1].arrival.Some? then passes[i - 1].arrival.value
    else AcceptedBefore(start, passes, i - 1)
  }

  /** When a session was last heard of after these touches, if it is not over. */
  function HeardOf(s: string, was: Option<real>, touches: seq<Touch>): Option<real> {
    if touches == [] then was
    else
      var t := touches[|touches| - 1];
      if t.session != s || s == "" then HeardOf(s, was, touches[..|touches| - 1])
      else if t.Heard? then Some(t.at)
      else None
  }

  function At(live: map<string, real>, s: string): Option<real> {
    if s in live then Some(live[s]) else None
  }

  /** When a session was last heard of before check i; nothing is forgotten here. */
  function HeardBefore(s: string, live: map<string, real>, passes: seq<Pass>, i: nat): Option<real>
    requires i <= |passes|
  {
    if i == 0 then At(live, s) else HeardOf(s, HeardBefore(s, live, passes, i - 1), passes[i - 1].touches)
  }

  lemma {:induction false} TouchesAreHeard(live: map<string, real>, touches: seq<Touch>, s: string)
    ensures At(TouchedBy(live, touches), s) == HeardOf(s, At(live, s), touches)
  {
    if touches == [] {
    } else {
      TouchesAreHeard(live, touches[..|touches| - 1], s);
    }
  }

  /** Either these touches decide what is known of the session, or they leave it as it was. */
  lemma {:induction false} HeardOrUnchanged(s: string, was: Option<real>, other: Option<real>, touches: seq<Touch>)
    ensures HeardOf(s, was, touches) == HeardOf(s, other, touches)
         || (HeardOf(s, was, touches) == was && HeardOf(s, other, touches) == other)
  {
    if touches == [] {
    } else {
      HeardOrUnchanged(s, was, other, touches[..|touches| - 1]);
    }
  }

  lemma SweepKeepsOrForgets(l: Limits, staleAfter: real, st: Loop, now: real, s: string)
    ensures At(Swept(l, staleAfter, st, now).live, s) in {None, At(st.live, s)}
    ensures At(st.live, s).Some? && At(st.live, s).value >= now - staleAfter ==>
              At(Swept(l, staleAfter, st, now).live, s) == At(st.live, s)
    ensures Swept(l, staleAfter, st, now).requests == st.requests
  {
  }

  /** Sweeping forgets references but makes none up. */
  lemma {:induction false} NothingIsMadeUp(l: Limits, staleAfter: real, st: Loop, passes: seq<Pass>, i: nat, s: string)
    requires i <= |passes|
    ensures At(StateAt(l, staleAfter, st, passes, i).live, s) in {None, HeardBefore(s, st.live, passes, i)}
  {
    if i == 0 {
    } else {
      NothingIsMadeUp(l, staleAfter, st, passes, i - 1, s);
      var was, p := StateAt(l, staleAfter, st, passes, i - 1), passes[i - 1];
      SweepKeepsOrForgets(l, staleAfter, was, p.now, s);
      var swept := Swept(l, staleAfter, was, p.now);
      TouchesAreHeard(swept.live, p.touches, s);
      HeardOrUnchanged(s, At(swept.live, s), HeardBefore(s, st.live, passes, i - 1), p.touches);
      hide HeardOf, Swept, TouchedBy;
    }
  }

  /** A reference that is fresh enough for every check so far is still there. */
  lemma {:induction false} FreshIsKept(l: Limits, staleAfter: real, st: Loop, passes: seq<Pass>, i: nat, s: string,
                                       cutoff: real)
    requires i <= |passes| && forall k :: 0 <= k < i ==> passes[k].now - staleAfter <= cutoff
    requires HeardBefore(s, st.live, passes, i).Some? && HeardBefore(s, st.live, passes, i).value >= cutoff
    ensures At(StateAt(l, staleAfter, st, passes, i).live, s) == HeardBefore(s, st.live, passes, i)
  {
    if i == 0 {
    } else {
      var was, p := StateAt(l, staleAfter, st, passes, i - 1), passes[i - 1];
      var before := HeardBefore(s, st.live, passes, i - 1);
      if before.Some? && before.value >= cutoff {
        FreshIsKept(l, staleAfter, st, passes, i - 1, s, cutoff);
      }
      SweepKeepsOrForgets(l, staleAfter, was, p.now, s);
      var swept := Swept(l, staleAfter, was, p.now);
      TouchesAreHeard(swept.live, p.touches, s);
      HeardOrUnchanged(s, At(swept.live, s), before, p.touches);
      hide HeardOf, Swept, TouchedBy;
    }
  }

  lemma {:induction false} AcceptsAreKnown(l: Limits, staleAfter: real, st: Loop, passes: seq<Pass>, i: nat)
    requires i <= |passes|
    ensures StateAt(l, staleAfter, st, passes, i).lastActivity == AcceptedBefore(st.lastActivity, passes, i)
  {
    if i == 0 {
    } else {
      AcceptsAreKnown(l, staleAfter, st, passes, i - 1);
    }
  }

  /** At check i neither limit has passed since the last accept, or only the linger limit has and some
      session was heard of recently enough. */
  ghost predicate Needed(l: Limits, staleAfter: real, start: real, live: map<string, real>, passes: seq<Pass>, i: nat)
    requires i < |passes|
  {
    var quiet := passes[i].now - AcceptedBefore(start, passes, i);
    && quiet < l.idle
    && (quiet < l.linger || exists s :: HeardRecently(staleAfter, live, passes, i, s))
  }

  predicate HeardRecently(staleAfter: real, live: map<string, real>, passes: seq<Pass>, i: nat, s: string)
    requires i < |passes|
  {
    var heard := HeardBefore(s, live, passes, i);
    heard.Some? && passes[i].now - heard.value <= staleAfter
  }

  predicate Ordered(passes: seq<Pass>) {
    forall i :: 0 <= i < |passes| - 1 ==> passes[i].now <= passes[i + 1].now
  }

  ghost predicate NeededThroughout(l: Limits, staleAfter: real, start: real, live: map<string, real>,
                                   passes: seq<Pass>)
  {
    Ordered(passes) && forall i :: 0 <= i < |passes| ==> Needed(l, staleAfter, start, live, passes, i)
  }

  lemma NotDue(l: Limits, staleAfter: real, st: Loop, now: real)
    requires now - st.lastActivity < l.idle
    requires now - st.lastActivity < l.linger || exists s :: s in st.live && st.live[s] >= now - staleAfter
    ensures !Due(l, Reading(staleAfter, st, now))
  {
    if s :| s in st.live && st.live[s] >= now - staleAfter {
      assert s in Fresh(st.live, now - staleAfter);
    }
  }

  lemma KeptUntilCheck(l: Limits, staleAfter: real, st: Loop, passes: seq<Pass>, i: nat, s: string)
    requires i < |passes| && Ordered(passes) && HeardRecently(staleAfter, st.live, passes, i, s)
    ensures var live := StateAt(l, staleAfter, st, passes, i).live;
            s in live && live[s] >= passes[i].now - staleAfter
  {
    hide StateAt, HeardBefore;
    forall k | 0 <= k < i ensures passes[k].now - staleAfter <= passes[i].now - staleAfter {
      ChecksAreOrdered(passes, k, i);
    }
    FreshIsKept(l, staleAfter, st, passes, i, s, passes[i].now - staleAfter);
  }

  lemma NeededStays(l: Limits, staleAfter: real, st: Loop, passes: seq<Pass>, i: nat)
    requires i < |passes| && Ordered(passes) && Needed(l, staleAfter, st.lastActivity, st.live, passes, i)
    ensures !Exits(l, Readings(l, staleAfter, st, passes), i)
  {
    AcceptsAreKnown(l, staleAfter, st, passes, i);
    hide StateAt, HeardRecently, AcceptedBefore, Due, Ordered;
    if s :| HeardRecently(staleAfter, st.live, passes, i, s) {
      KeptUntilCheck(l, staleAfter, st, passes, i, s);
    }
    NotDue(l, staleAfter, StateAt(l, staleAfter, st, passes, i), passes[i].now);
  }

  /** A daemon that is needed at every check does not leave. */
  lemma NeededNeverLeaves(l: Limits, staleAfter: real, st: Loop, passes: seq<Pass>, n: nat, left: bool,
                          now: Loop, since: Option<real>)
    requires Served(l, staleAfter, st, passes, n, left, now, since)
    requires NeededThroughout(l, staleAfter, st.lastActivity, st.live, passes)
    ensures !left
  {
    hide Exits, Needed, StateAt, Swept, Since;
    if left {
      NeededStays(l, staleAfter, st, passes, n - 1);
    }
  }

  /** Nobody connects, no request is left, and from the linger limit on no session was heard of recently
      enough; checks follow one another by at most a poll interval and reach the linger limit. */
  ghost predicate Deserted(l: Limits, staleAfter: real, start: real, requests: seq<Stage>, live: map<string, real>,
                           passes: seq<Pass>, poll: real)
  {
    && l.linger >= 0.0 && poll > 0.0
    && passes != [] && start <= passes[0].now <= start + poll
    && (forall i :: 0 <= i < |passes| ==> passes[i].arrival.None?)
    && (forall i :: 0 <= i < |passes| - 1 ==> passes[i].now <= passes[i + 1].now <= passes[i].now + poll)
    && passes[|passes| - 1].now >= start + l.linger
    && (forall r :: r in requests ==> r.Finished?)
    && (forall i, s :: 0 <= i < |passes| && passes[i].now >= start + l.linger ==>
          !HeardRecently(staleAfter, live, passes, i, s))
  }

  lemma {:induction false} FinishedStay(requests: seq<Stage>, events: seq<HandlerEvent>)
    requires forall r :: r in requests ==> r.Finished?
    ensures MovedBy(requests, events) == requests
  {
    if events == [] {
    } else {
      FinishedStay(requests, events[..|events| - 1]);
      var e := events[|events| - 1];
      if e.r < |requests| {
        assert requests[e.r] in requests;
      }
    }
  }

  lemma {:induction false} RequestsStayFinished(l: Limits, staleAfter: real, st: Loop, passes: seq<Pass>, i: nat)
    requires i <= |passes| && forall k :: 0 <= k < |passes| ==> passes[k].arrival.None?
    requires forall r :: r in st.requests ==> r.Finished?
    ensures StateAt(l, staleAfter, st, passes, i).requests == st.requests
  {
    if i == 0 {
    } else {
      RequestsStayFinished(l, staleAfter, st, passes, i - 1);
      SweepKeepsOrForgets(l, staleAfter, StateAt(l, staleAfter, st, passes, i - 1), passes[i - 1].now, "");
      FinishedStay(st.requests, passes[i - 1].events);
    }
  }

  lemma NoneUnfinished(requests: seq<Stage>)
    requires forall r :: r in requests ==> r.Finished?
    ensures Unfinished(requests) == 0
  {
    forall s | s in multiset(requests) ensures s in requests {}
  }

  lemma DesertedLeavesAt(l: Limits, staleAfter: real, st: Loop, passes: seq<Pass>, poll: real, i: nat)
    requires Deserted(l, staleAfter, st.lastActivity, st.requests, st.live, passes, poll)
    requires i < |passes| && passes[i].now >= st.lastActivity + l.linger
    ensures Exits(l, Readings(l, staleAfter, st, passes), i)
  {
    var now := StateAt(l, staleAfter, st, passes, i);
    NothingAccepted(l, staleAfter, st, passes, i);
    RequestsStayFinished(l, staleAfter, st, passes, i);
    NoneUnfinished(st.requests);
    forall s | s in now.live ensures now.live[s] < passes[i].now - staleAfter {
      NothingIsMadeUp(l, staleAfter, st, passes, i, s);
      assert !HeardRecently(staleAfter, st.live, passes, i, s);
    }
    assert Fresh(now.live, passes[i].now - staleAfter) == map[];
    hide StateAt, HeardBefore;
  }

  lemma {:induction false} FirstCheckFrom(passes: seq<Pass>, poll: real, start: real, t: real, k: nat)
    returns (a: nat)
    requires k < |passes| && passes[k].now >= t >= start && start <= passes[0].now <= start + poll
    requires forall i :: 0 <= i < |passes| - 1 ==> passes[i].now <= passes[i + 1].now <= passes[i].now + poll
    ensures a <= k && t <= passes[a].now <= t + poll
  {
    a := k;
    if k > 0 && passes[k - 1].now >= t {
      a := FirstCheckFrom(passes, poll, start, t, k - 1);
    } else if k > 0 {
      assert passes[k - 1].now <= passes[k - 1 + 1].now <= passes[k - 1].now + poll;
    }
  }

  /** A deserted daemon leaves within the linger limit and one poll. */
  lemma DesertedLeaves(l: Limits, staleAfter: real, st: Loop, passes: seq<Pass>, poll: real, n: nat, left: bool,
                       now: Loop, since: Option<real>)
    requires Served(l, staleAfter, st, passes, n, left, now, since) && (!left ==> n == |passes|)
    requires Deserted(l, staleAfter, st.lastActivity, st.requests, st.live, passes, poll)
    ensures left && passes[n - 1].now <= st.lastActivity + l.linger + poll
  {
    var a := FirstCheckFrom(passes, poll, st.lastActivity, st.lastActivity + l.linger, |passes| - 1);
    DesertedLeavesAt(l, staleAfter, st, passes, poll, a);
    hide Readings, Exits, Since, StateAt, Swept, HeardRecently;
    assert left && n - 1 <= a;
    ChecksAreOrdered(passes, n - 1, a);
  }

  // ---- the serve loop ------------------------------------------------------------------------------

  class ServeLoop {
    const limits: Limits
    var lastActivity: real
    var inflight: nat
    var drainingSince: Option<real>
    /** Every accepted request, by number. */
    var requests: seq<Stage>

    /** The count is exactly the number of accepted requests that have not finished. */
    ghost predicate Valid()
      reads this
    {
      inflight == Unfinished(requests)
    }

    ghost function Now(registry: SessionRegistry): Loop
      reads this, registry
    {
      Loop(lastActivity, requests, registry.live)
    }

    constructor (limits: Limits, now: real)
      ensures Valid() && this.limits == limits && lastActivity == now && drainingSince.None? && requests == []
    {
      this.limits := limits;
      lastActivity, inflight, drainingSince, requests := now, 0, None, [];
    }

    /** Runs in the accept loop, before the request reaches its thread. */
    method VerifyRequest(now: real)
      requires Valid()
      modifies this`lastActivity, this`inflight, this`requests
      ensures Valid() && inflight == old(inflight) + 1 && lastActivity == now
      ensures requests == old(requests) + [Working]
    {
      lastActivity := now;
      inflight := inflight + 1;
      requests := requests + [Working];
    }

    /** The handler makes its flush, or its setup raised and it never will. */
    method Leave(r: nat, stage: Stage)
      requires Valid() && r < |requests| && requests[r].Working? && (stage.Flushed? || stage.Leaked?)
      modifies this`requests
      ensures Valid() && requests == old(requests)[r := stage]
    {
      forall s { CountUpdate(requests, r, stage, s); }
      requests := requests[r := stage];
    }

    /** Called once per handler, strictly after its flush. */
    method RequestFinished(r: nat)
      requires Valid() && r < |requests| && requests[r].Flushed?
      modifies this`inflight, this`requests
      ensures Valid() && inflight == old(inflight) - 1 && requests == old(requests)[r := Finished]
    {
      CountPositive(requests, r);
      forall s { CountUpdate(requests, r, Finished, s); }
      if inflight > 0 {
        inflight := inflight - 1;
      }
      requests := requests[r := Finished];
    }

    method ExitDue(now: real, registry: SessionRegistry, staleAfter: real) returns (due: bool)
      requires Valid()
      modifies registry
      ensures due == Due(limits, Reading(staleAfter, old(Now(registry)), now))
      ensures var quiet, live := now - lastActivity, old(registry.live);
              due <==> quiet >= limits.idle
                       || (quiet >= limits.linger && forall s :: s in live ==> live[s] < now - staleAfter)
      ensures Now(registry) == Swept(limits, staleAfter, old(Now(registry)), now)
    {
      NoneFresh(registry.live, now - staleAfter);
      var idle := now - lastActivity;
      if idle >= limits.idle {
        return true;
      }
      if idle >= limits.linger {
        var n := registry.Count(now, staleAfter);
        return n == 0;
      }
      due := false;
    }

    /** The exit predicate, with the drain window it arms, keeps and clears. */
    method ReadyToExit(now: real, registry: SessionRegistry, staleAfter: real) returns (ready: bool)
      requires Valid()
      modifies this`drainingSince, registry
      ensures Valid() && Now(registry) == Swept(limits, staleAfter, old(Now(registry)), now)
      ensures (ready, drainingSince) == Poll(limits, old(drainingSince), Reading(staleAfter, old(Now(registry)), now))
    {
      var due := ExitDue(now, registry, staleAfter);
      if !due {
        drainingSince := None;
        return false;
      }
      if inflight == 0 {
        drainingSince := None;
        return true;
      }
      if drainingSince.None? {
        drainingSince := Some(now);
        return false;
      }
      return now - drainingSince.value >= limits.drain;
    }

    /** Handlers flush, finish or leak on their own threads. */
    method HandlersRun(events: seq<HandlerEvent>)
      requires Valid()
      modifies this`inflight, this`requests
      ensures Valid() && requests == MovedBy(old(requests), events)
    {
      for i := 0 to |events|
        invariant Valid() && requests == MovedBy(old(requests), events[..i])
      {
        var e := events[i];
        assert events[..i + 1][..i] == events[..i];
        if e.r < |requests| && e.Finishes? && requests[e.r].Flushed? {
          RequestFinished(e.r);
        } else if e.r < |requests| && !e.Finishes? && requests[e.r].Working? {
          Leave(e.r, if e.Flushes? then Flushed else Leaked);
        }
      }
      assert events[..|events|] == events;
    }

    /** Hook events note and end sessions on the handlers' threads. */
    static method HooksRun(registry: SessionRegistry, touches: seq<Touch>)
      modifies registry
      ensures registry.live == TouchedBy(old(registry.live), touches)
    {
      for i := 0 to |touches|
        invariant registry.live == TouchedBy(old(registry.live), touches[..i])
      {
        assert touches[..i + 1][..i] == touches[..i];
        match touches[i]
        case Heard(session, at) => registry.Note(session, at);
        case Over(session) => registry.Release(session);
      }
      assert touches[..|touches|] == touches;
    }

    /** One wait of the loop. */
    method HandleRequest(p: Pass, registry: SessionRegistry)
      requires Valid()
      modifies this`lastActivity, this`inflight, this`requests, registry
      ensures Valid() && Now(registry) == Between(old(Now(registry)), p)
    {
      if p.arrival.Some? {
        VerifyRequest(p.arrival.value);
      }
      HandlersRun(p.events);
      HooksRun(registry, p.touches);
    }

    /** The serve loop over the passes it is given; running out of them is being told to stop. It makes
        `n` checks and leaves at exactly the first whose readings say so, and a daemon nobody connects
        to leaves in time. */
    method ServeForever(start: real, passes: seq<Pass>, registry: SessionRegistry, staleAfter: real)
      returns (left: bool, n: nat)
      requires Valid()
      modifies this, registry
      ensures Valid() && (!left ==> n == |passes|)
      ensures Served(limits, staleAfter, Loop(start, old(requests), old(registry.live)), passes, n, left,
                     Now(registry), drainingSince)
      ensures forall poll :: Unattended(limits, start, passes, poll) ==>
                left && n > 0 && passes[n - 1].now <= start + limits.idle + limits.drain + 2.0 * poll
      ensures NeededThroughout(limits, staleAfter, start, old(registry.live), passes) ==> !left
      ensures forall poll :: Deserted(limits, staleAfter, start, old(requests), old(registry.live), passes, poll) ==>
                left && n > 0 && passes[n - 1].now <= start + limits.linger + poll
    {
      lastActivity, drainingSince, n, left := start, None, 0, false;
      ghost var st := Now(registry);
      NothingServed(limits, staleAfter, st, passes);
      hide Poll, Reading, Served, Swept, Between, Unattended, NeededThroughout, Deserted;
      while n < |passes| && !left
        invariant n <= |passes| && Valid() && (left ==> n > 0)
        invariant Served(limits, staleAfter, st, passes, n, left, Now(registry), drainingSince)
      {
        OneMoreCheck(limits, staleAfter, st, passes, n, Now(registry), drainingSince);
        left := ReadyToExit(passes[n].now, registry, staleAfter);
        if !left {
          HandleRequest(passes[n], registry);
        }
        n := n + 1;
      }
      forall poll | Unattended(limits, start, passes, poll)
        ensures left && passes[n - 1].now <= start + limits.idle + limits.drain + 2.0 * poll
      {
        LeavesInTime(limits, staleAfter, st, passes, poll, n, left, Now(registry), drainingSince);
      }
      if NeededThroughout(limits, staleAfter, start, st.live, passes) {
        NeededNeverLeaves(limits, staleAfter, st, passes, n, left, Now(registry), drainingSince);
      }
      forall poll | Deserted(limits, staleAfter, start, st.requests, st.live, passes, poll)
        ensures left && passes[n - 1].now <= start + limits.linger + poll
      {
        DesertedLeaves(limits, staleAfter, st, passes, poll, n, left, Now(registry), drainingSince);
      }
    }
  }

  lemma CountUpdate(requests: seq<Stage>, r: nat, to: Stage, s: Stage)
    requires r < |requests|
    ensures CountStage(requests[r := to], s)
         == CountStage(requests, s) - (if requests[r] == s then 1 else 0) + (if to == s then 1 else 0)
  {
  }

  lemma CountPositive(requests: seq<Stage>, r: nat)
    requires r < |requests|
    ensures CountStage(requests, requests[r]) > 0
  {
  }
}
