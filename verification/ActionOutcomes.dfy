/** The action-outcome resolver: which outcomes of a session's actions are settled,
    and the seven counts a session reports. */
module ActionOutcomes {

  // ---- vocabulary ------------------------------------------------------------

  datatype Bit =
    | PermissionIssued | DenyIssued | DenyEnforced | RewriteIssued | RewriteEnforced
    | ExecutionObserved | CrossingConfirmed | RejectedBeforeCrossing
    | LocalDetection | PersistenceObserved | HookObserved

  /** A flag word is the set of its bits. */
  type Evidence = set<Bit>

  const STOPPED: Evidence := {DenyEnforced, RejectedBeforeCrossing}
  const EXECUTED: Evidence := {ExecutionObserved, CrossingConfirmed}

  datatype Scope = NoScope | PairScope | BoundaryScope
  datatype ActionKind = Read | Tool | Prompt | Subagent | Lifecycle | Other
  datatype Boundary = B0 | B1 | B2 | B3 | B4

  datatype Observation = Observation(
    id: string, action: string, boundary: Boundary, kind: ActionKind,
    evidence: Evidence, scope: Scope, potentialCrossing: bool)

  datatype Event = Event(
    observation: string, subject: string, recipient: string,
    subjectResolved: bool, recipientResolved: bool, evidence: Evidence)

  type Pair = (string, string)

  /** The obligation of a potential crossing that identified no pair. */
  const ZERO_FINDING: Pair := ("", "")

  predicate Meets(a: Evidence, b: Evidence) {
    a * b != {}
  }

  predicate Resolved(e: Event) {
    e.subjectResolved && e.recipientResolved
  }

  function PairOf(e: Event): Pair {
    (e.subject, e.recipient)
  }

  function Elems<T>(s: seq<T>): set<T> {
    set x | x in s
  }

  // ---- what a partition's evidence says, as comprehensions over sets --------------

  /** The ways one finding event can bear on its partition's outcome. */
  datatype Role =
    | CrossingDue | RewriteDue | DenialDue
    | ExecutionFact | CrossingFact | StopFact | RemovalFact
    | CrossingReceipt | StopReceipt | RemovalReceipt

  predicate Plays(role: Role, o: Observation, e: Event) {
    match role
    case CrossingDue => o.potentialCrossing
    case RewriteDue => RewriteIssued in o.evidence && RewriteIssued in e.evidence
    case DenialDue => DenyIssued in o.evidence
    case ExecutionFact => Meets(e.evidence, EXECUTED)
    case CrossingFact => CrossingConfirmed in e.evidence
    case StopFact => Meets(e.evidence, STOPPED)
    case RemovalFact => RewriteEnforced in e.evidence
    case CrossingReceipt => o.scope.PairScope? && CrossingConfirmed in e.evidence
    case StopReceipt => o.scope.PairScope? && Meets(e.evidence, STOPPED)
    case RemovalReceipt => o.scope.PairScope? && RewriteEnforced in e.evidence
  }

  /** The pairs some resolved event of some observation names in a role. */
  ghost function Named(role: Role, os: set<Observation>, es: set<Event>): set<Pair> {
    set o, e | o in os && e in es && e.observation == o.id && Resolved(e) && Plays(role, o, e) :: PairOf(e)
  }

  /** Some unresolved event bears on its partition in this role. */
  ghost predicate Nameless(role: Role, os: set<Observation>, es: set<Event>) {
    exists o, e :: o in os && e in es && e.observation == o.id && !Resolved(e) && Plays(role, o, e)
  }

  ghost predicate Silent(o: Observation, es: set<Event>) {
    forall e :: e in es ==> e.observation != o.id
  }

  ghost predicate ZeroDue(os: set<Observation>, es: set<Event>) {
    exists o :: o in os && o.potentialCrossing && Silent(o, es)
  }

  ghost predicate DenyPending(os: set<Observation>) {
    exists o :: o in os && DenyIssued in o.evidence
  }

  ghost predicate DenyUnidentified(os: set<Observation>, es: set<Event>) {
    || Nameless(DenialDue, os, es)
    || exists o :: o in os && DenyIssued in o.evidence && Silent(o, es)
  }

  /** The observation issued a rewrite that none of its events names. */
  ghost predicate RewriteSilent(o: Observation, es: set<Event>) {
    && RewriteIssued in o.evidence
    && forall e :: e in es && e.observation == o.id ==> RewriteIssued !in e.evidence
  }

  ghost predicate RewriteUnidentified(os: set<Observation>, es: set<Event>) {
    exists o :: o in os && RewriteSilent(o, es)
  }

  ghost predicate Unmatchable(os: set<Observation>, es: set<Event>) {
    Nameless(CrossingDue, os, es) || Nameless(RewriteDue, os, es)
  }

  ghost predicate Executed(os: set<Observation>) {
    exists o :: o in os && Meets(o.evidence, EXECUTED)
  }

  ghost predicate BoundaryStopped(os: set<Observation>) {
    exists o :: o in os && o.scope.BoundaryScope? && Meets(o.evidence, STOPPED)
  }

  ghost predicate ZeroReceipt(os: set<Observation>, es: set<Event>) {
    exists o :: o in os && o.scope.BoundaryScope? && CrossingConfirmed in o.evidence && Silent(o, es)
  }

  ghost function CrossingsDue(os: set<Observation>, es: set<Event>): set<Pair> {
    Named(CrossingDue, os, es) + (if ZeroDue(os, es) then {ZERO_FINDING} else {})
  }

  ghost function Receipted(os: set<Observation>, es: set<Event>): set<Pair> {
    Named(CrossingReceipt, os, es) + Named(StopReceipt, os, es) + Named(RemovalReceipt, os, es)
  }

  /** Contradictory facts, whatever their scope. */
  ghost predicate Conflict(os: set<Observation>, es: set<Event>) {
    || Named(ExecutionFact, os, es) * Named(StopFact, os, es) != {}
    || Named(CrossingFact, os, es) * Named(RemovalFact, os, es) != {}
    || (BoundaryStopped(os) && Executed(os))
  }

  ghost predicate CrossingOpen(os: set<Observation>, es: set<Event>) {
    && !BoundaryStopped(os)
    && exists p :: p in CrossingsDue(os, es) &&
        if p == ZERO_FINDING then !ZeroReceipt(os, es) else p !in Receipted(os, es)
  }

  ghost predicate PairStopped(os: set<Observation>, es: set<Event>) {
    var pairs := (CrossingsDue(os, es) + Named(DenialDue, os, es)) - {ZERO_FINDING};
    && pairs != {}
    && !DenyUnidentified(os, es)
    && ZERO_FINDING !in CrossingsDue(os, es)
    && pairs <= Named(StopReceipt, os, es)
  }

  ghost predicate DenialOpen(os: set<Observation>, es: set<Event>) {
    DenyPending(os) && (Executed(os) || !(BoundaryStopped(os) || PairStopped(os, es)))
  }

  ghost predicate RewriteOpen(os: set<Observation>, es: set<Event>) {
    && !BoundaryStopped(os)
    && (RewriteUnidentified(os, es) || !(Named(RewriteDue, os, es) <= Named(RemovalReceipt, os, es)))
  }

  /** One action/boundary partition leaves some outcome unresolved. */
  ghost predicate Unresolved(os: set<Observation>, es: set<Event>) {
    || Conflict(os, es)
    || (Unmatchable(os, es) && !BoundaryStopped(os))
    || CrossingOpen(os, es)
    || DenialOpen(os, es)
    || RewriteOpen(os, es)
  }

  // ---- the accumulating loop ---------------------------------------------------------

  /** What the events of one observation name in a role, event by event. */
  ghost function NamedIn(role: Role, o: Observation, events: seq<Event>): set<Pair> {
    if events == [] then {}
    else
      var e := events[|events| - 1];
      NamedIn(role, o, events[..|events| - 1]) + (if Resolved(e) && Plays(role, o, e) then {PairOf(e)} else {})
  }

  ghost predicate NamelessIn(role: Role, o: Observation, events: seq<Event>) {
    if events == [] then false
    else
      var e := events[|events| - 1];
      NamelessIn(role, o, events[..|events| - 1]) || (!Resolved(e) && Plays(role, o, e))
  }

  lemma {:induction false} NamelessInIs(role: Role, o: Observation, events: seq<Event>)
    ensures NamelessIn(role, o, events) <==> exists e :: e in events && !Resolved(e) && Plays(role, o, e)
  {
    if events == [] {
    } else {
      var rest, e := events[..|events| - 1], events[|events| - 1];
      NamelessInIs(role, o, rest);
      assert forall x :: x in events <==> x in rest || x == e;
    }
  }

  /** The observation issued a rewrite and none of its events carries it. */
  predicate UnnamedRewrite(o: Observation, events: seq<Event>) {
    RewriteIssued in o.evidence && forall e :: e in events ==> RewriteIssued !in e.evidence
  }

  /** The obligation of a potential crossing that has no event. */
  function ZeroPairs(o: Observation, events: seq<Event>): set<Pair> {
    if o.potentialCrossing && events == [] then {ZERO_FINDING} else {}
  }

  lemma {:induction false} NamedInIs(role: Role, o: Observation, events: seq<Event>)
    requires forall e :: e in events ==> e.observation == o.id
    ensures NamedIn(role, o, events) == Named(role, {o}, Elems(events))
  {
    if events == [] {
    } else {
      var e := events[|events| - 1];
      NamedInIs(role, o, events[..|events| - 1]);
      assert Elems(events) == Elems(events[..|events| - 1]) + {e};
    }
  }

  lemma PrefixStep<T>(s: seq<T>, j: nat)
    requires j < |s|
    ensures s[..j + 1][..j] == s[..j] && s[..j + 1] != [] && s[..j + 1][|s[..j + 1]| - 1] == s[j]
  {
  }

  /** Facts an observation's events state; scope plays no part. */
  method ObservedFacts(o: Observation, events: seq<Event>)
    returns (executed: set<Pair>, crossing: set<Pair>, stop: set<Pair>, removal: set<Pair>)
    ensures executed == NamedIn(ExecutionFact, o, events)
    ensures crossing == NamedIn(CrossingFact, o, events)
    ensures stop == NamedIn(StopFact, o, events)
    ensures removal == NamedIn(RemovalFact, o, events)
  {
    executed, crossing, stop, removal := {}, {}, {}, {};
    for j := 0 to |events|
      invariant executed == NamedIn(ExecutionFact, o, events[..j])
      invariant crossing == NamedIn(CrossingFact, o, events[..j])
      invariant stop == NamedIn(StopFact, o, events[..j])
      invariant removal == NamedIn(RemovalFact, o, events[..j])
    {
      PrefixStep(events, j);
      var e := events[j];
      if Resolved(e) {
        if Meets(e.evidence, EXECUTED) { executed := executed + {PairOf(e)}; }
        if CrossingConfirmed in e.evidence { crossing := crossing + {PairOf(e)}; }
        if Meets(e.evidence, STOPPED) { stop := stop + {PairOf(e)}; }
        if RewriteEnforced in e.evidence { removal := removal + {PairOf(e)}; }
      }
    }
    assert events[..|events|] == events;
  }

  /** The pairs a potential crossing, an issued denial or an issued rewrite names,
      and whether it also names something that cannot be matched. */
  method Obligations(role: Role, o: Observation, events: seq<Event>) returns (pairs: set<Pair>, nameless: bool)
    ensures pairs == NamedIn(role, o, events)
    ensures nameless == NamelessIn(role, o, events)
  {
    pairs, nameless := {}, false;
    for j := 0 to |events|
      invariant pairs == NamedIn(role, o, events[..j])
      invariant nameless == NamelessIn(role, o, events[..j])
    {
      PrefixStep(events, j);
      if Plays(role, o, events[j]) {
        if Resolved(events[j]) { pairs := pairs + {PairOf(events[j])}; } else { nameless := true; }
      }
    }
    assert events[..|events|] == events;
  }

  lemma {:induction false} SilentIn(role: Role, o: Observation, events: seq<Event>)
    requires forall e :: e in events ==> !Plays(role, o, e)
    ensures NamedIn(role, o, events) == {}
  {
    if events == [] {
    } else {
      SilentIn(role, o, events[..|events| - 1]);
    }
  }

  /** What an observation settles within its resolution scope. */
  method Receipts(o: Observation, events: seq<Event>)
    returns (crossed: set<Pair>, stopped: set<Pair>, removed: set<Pair>, boundaryStopped: bool, zeroReceipt: bool)
    ensures crossed == NamedIn(CrossingReceipt, o, events)
    ensures stopped == NamedIn(StopReceipt, o, events)
    ensures removed == NamedIn(RemovalReceipt, o, events)
    ensures boundaryStopped == (o.scope.BoundaryScope? && Meets(o.evidence, STOPPED))
    ensures zeroReceipt == (o.scope.BoundaryScope? && CrossingConfirmed in o.evidence && events == [])
  {
    crossed, stopped, removed, boundaryStopped, zeroReceipt := {}, {}, {}, false, false;
    if !o.scope.PairScope? {
      SilentIn(CrossingReceipt, o, events);
      SilentIn(StopReceipt, o, events);
      SilentIn(RemovalReceipt, o, events);
      if o.scope.BoundaryScope? {
        boundaryStopped := Meets(o.evidence, STOPPED);
        zeroReceipt := CrossingConfirmed in o.evidence && events == [];
      }
      return;
    }
    for j := 0 to |events|
      invariant crossed == NamedIn(CrossingReceipt, o, events[..j])
      invariant stopped == NamedIn(StopReceipt, o, events[..j])
      invariant removed == NamedIn(RemovalReceipt, o, events[..j])
    {
      PrefixStep(events, j);
      var e := events[j];
      if Resolved(e) {
        if CrossingConfirmed in e.evidence { crossed := crossed + {PairOf(e)}; }
        if Meets(e.evidence, STOPPED) { stopped := stopped + {PairOf(e)}; }
        if RewriteEnforced in e.evidence { removed := removed + {PairOf(e)}; }
      }
    }
    assert events[..|events|] == events;
  }

  /** Every event the grouping holds. */
  ghost function Grouped(eventsOf: map<string, seq<Event>>): set<Event> {
    set id, e | id in eventsOf && e in eventsOf[id] :: e
  }

  ghost predicate ById(eventsOf: map<string, seq<Event>>) {
    forall id, e :: id in eventsOf && e in eventsOf[id] ==> e.observation == id
  }

  function EventsFor(eventsOf: map<string, seq<Event>>, o: Observation): seq<Event> {
    if o.id in eventsOf then eventsOf[o.id] else []
  }

  lemma EventsForIs(eventsOf: map<string, seq<Event>>, o: Observation)
    requires ById(eventsOf)
    ensures EventsOf(EventsFor(eventsOf, o), o, Grouped(eventsOf))
  {
    if EventsFor(eventsOf, o) != [] {
      assert EventsFor(eventsOf, o)[0] in EventsFor(eventsOf, o);
    }
  }

  // ---- one observation's share of every accumulator -----------------------------------

  /** What the loop over a partition has accumulated. */
  datatype Tallies = Tallies(
    crossing: set<Pair>, rewrites: set<Pair>, deniedPairs: set<Pair>,
    executedPairs: set<Pair>, crossingFacts: set<Pair>, stopFacts: set<Pair>, removalFacts: set<Pair>,
    crossed: set<Pair>, stopped: set<Pair>, removed: set<Pair>,
    denyUnidentified: bool, unmatchable: bool, denyPending: bool, rewriteUnidentified: bool,
    executed: bool, boundaryStopped: bool, zeroReceipt: bool)

  const NOTHING := Tallies({}, {}, {}, {}, {}, {}, {}, {}, {}, {}, false, false, false, false, false, false, false)

  ghost predicate Measures(t: Tallies, os: set<Observation>, es: set<Event>) {
    && t.crossing == CrossingsDue(os, es) && t.rewrites == Named(RewriteDue, os, es)
    && t.deniedPairs == Named(DenialDue, os, es)
    && t.executedPairs == Named(ExecutionFact, os, es) && t.crossingFacts == Named(CrossingFact, os, es)
    && t.stopFacts == Named(StopFact, os, es) && t.removalFacts == Named(RemovalFact, os, es)
    && t.crossed == Named(CrossingReceipt, os, es) && t.stopped == Named(StopReceipt, os, es)
    && t.removed == Named(RemovalReceipt, os, es)
    && t.denyUnidentified == DenyUnidentified(os, es) && t.unmatchable == Unmatchable(os, es)
    && t.denyPending == DenyPending(os) && t.rewriteUnidentified == RewriteUnidentified(os, es)
    && t.executed == Executed(os) && t.boundaryStopped == BoundaryStopped(os) && t.zeroReceipt == ZeroReceipt(os, es)
  }

  ghost function Grow(t: Tallies, o: Observation, events: seq<Event>): Tallies {
    Tallies(
      t.crossing + NamedIn(CrossingDue, o, events) + ZeroPairs(o, events),
      t.rewrites + NamedIn(RewriteDue, o, events),
      t.deniedPairs + NamedIn(DenialDue, o, events),
      t.executedPairs + NamedIn(ExecutionFact, o, events),
      t.crossingFacts + NamedIn(CrossingFact, o, events),
      t.stopFacts + NamedIn(StopFact, o, events),
      t.removalFacts + NamedIn(RemovalFact, o, events),
      t.crossed + NamedIn(CrossingReceipt, o, events),
      t.stopped + NamedIn(StopReceipt, o, events),
      t.removed + NamedIn(RemovalReceipt, o, events),
      t.denyUnidentified || (DenyIssued in o.evidence && (events == [] || NamelessIn(DenialDue, o, events))),
      t.unmatchable || NamelessIn(CrossingDue, o, events) || NamelessIn(RewriteDue, o, events),
      t.denyPending || DenyIssued in o.evidence,
      t.rewriteUnidentified || (UnnamedRewrite(o, events)),
      t.executed || Meets(o.evidence, EXECUTED),
      t.boundaryStopped || (o.scope.BoundaryScope? && Meets(o.evidence, STOPPED)),
      t.zeroReceipt || (o.scope.BoundaryScope? && CrossingConfirmed in o.evidence && events == []))
  }

  ghost predicate EventsOf(events: seq<Event>, o: Observation, es: set<Event>) {
    && (forall e :: e in events <==> e in es && e.observation == o.id)
    && (events == [] <==> Silent(o, es))
  }

  lemma NamedJoin(role: Role, a: set<Observation>, o: Observation, es: set<Event>, events: seq<Event>)
    requires EventsOf(events, o, es)
    ensures Named(role, a + {o}, es) == Named(role, a, es) + NamedIn(role, o, events)
  {
    NamedInIs(role, o, events);
    hide NamedIn, Plays, Resolved, Silent;
    forall p
      ensures p in Named(role, a + {o}, es) <==> p in Named(role, a, es) || p in Named(role, {o}, Elems(events))
    {
      if p in Named(role, a + {o}, es) {
        var x, e :| x in a + {o} && e in es && e.observation == x.id && Resolved(e) && Plays(role, x, e)
                    && p == PairOf(e);
        assert x in a || e in Elems(events);
      }
    }
  }

  lemma NamelessJoin(role: Role, a: set<Observation>, o: Observation, es: set<Event>, events: seq<Event>)
    requires EventsOf(events, o, es)
    ensures Nameless(role, a + {o}, es) == (Nameless(role, a, es) || NamelessIn(role, o, events))
  {
    NamelessInIs(role, o, events);
  }

  lemma FlagsJoin(a: set<Observation>, o: Observation, es: set<Event>, events: seq<Event>)
    requires EventsOf(events, o, es)
    ensures ZeroDue(a + {o}, es) == (ZeroDue(a, es) || (o.potentialCrossing && events == []))
    ensures DenyPending(a + {o}) == (DenyPending(a) || DenyIssued in o.evidence)
    ensures Executed(a + {o}) == (Executed(a) || Meets(o.evidence, EXECUTED))
    ensures BoundaryStopped(a + {o}) == (BoundaryStopped(a) || (o.scope.BoundaryScope? && Meets(o.evidence, STOPPED)))
    ensures ZeroReceipt(a + {o}, es)
      == (ZeroReceipt(a, es) || (o.scope.BoundaryScope? && CrossingConfirmed in o.evidence && events == []))
  {
  }

  lemma UnidentifiedJoin(a: set<Observation>, o: Observation, es: set<Event>, events: seq<Event>)
    requires EventsOf(events, o, es)
    ensures DenyUnidentified(a + {o}, es) == (DenyUnidentified(a, es)
      || (DenyIssued in o.evidence && (events == [] || NamelessIn(DenialDue, o, events))))
    ensures RewriteUnidentified(a + {o}, es) == (RewriteUnidentified(a, es)
      || (UnnamedRewrite(o, events)))
    ensures Unmatchable(a + {o}, es)
      == (Unmatchable(a, es) || NamelessIn(CrossingDue, o, events) || NamelessIn(RewriteDue, o, events))
  {
    NamelessJoin(DenialDue, a, o, es, events);
    NamelessJoin(CrossingDue, a, o, es, events);
    NamelessJoin(RewriteDue, a, o, es, events);
    assert RewriteSilent(o, es) <==> UnnamedRewrite(o, events);
  }

  lemma MeasuresGrow(t: Tallies, a: set<Observation>, o: Observation, es: set<Event>, events: seq<Event>)
    requires EventsOf(events, o, es) && Measures(t, a, es)
    ensures Measures(Grow(t, o, events), a + {o}, es)
  {
    hide Named, Nameless, NamedIn, NamelessIn, Silent;
    FlagsJoin(a, o, es, events);
    UnidentifiedJoin(a, o, es, events);
    NamedJoin(CrossingDue, a, o, es, events);
    NamedJoin(RewriteDue, a, o, es, events);
    NamedJoin(DenialDue, a, o, es, events);
    NamedJoin(ExecutionFact, a, o, es, events);
    NamedJoin(CrossingFact, a, o, es, events);
    NamedJoin(StopFact, a, o, es, events);
    NamedJoin(RemovalFact, a, o, es, events);
    NamedJoin(CrossingReceipt, a, o, es, events);
    NamedJoin(StopReceipt, a, o, es, events);
    NamedJoin(RemovalReceipt, a, o, es, events);
  }

  lemma OnlyIssuedDenials(o: Observation, events: seq<Event>)
    ensures NamelessIn(DenialDue, o, events) ==> DenyIssued in o.evidence
  {
    NamelessInIs(DenialDue, o, events);
  }

  /** The loop body: one observation's events, block by block. */
  method Observe(t: Tallies, o: Observation, events: seq<Event>) returns (u: Tallies)
    ensures u == Grow(t, o, events)
  {
    OnlyIssuedDenials(o, events);
    hide NamedIn, NamelessIn, Meets, UnnamedRewrite, ZeroPairs;
    var executed, crossing, stop, removal := ObservedFacts(o, events);
    var due, lostDue := Obligations(CrossingDue, o, events);
    var denied, lostDenial := Obligations(DenialDue, o, events);
    var rewrites, lostRewrite := Obligations(RewriteDue, o, events);
    var unnamed := UnnamedRewrite(o, events);
    var crossed, stopped, removed, boundaryStopped, zeroReceipt := Receipts(o, events);
    u := Tallies(
      t.crossing + due + ZeroPairs(o, events), t.rewrites + rewrites, t.deniedPairs + denied,
      t.executedPairs + executed, t.crossingFacts + crossing, t.stopFacts + stop, t.removalFacts + removal,
      t.crossed + crossed, t.stopped + stopped, t.removed + removed,
      t.denyUnidentified || lostDenial || (DenyIssued in o.evidence && events == []),
      t.unmatchable || lostDue || lostRewrite,
      t.denyPending || DenyIssued in o.evidence, t.rewriteUnidentified || unnamed,
      t.executed || Meets(o.evidence, EXECUTED), t.boundaryStopped || boundaryStopped, t.zeroReceipt || zeroReceipt);
  }

  lemma StartsMeasured(es: set<Event>)
    ensures Measures(NOTHING, {}, es)
  {
  }

  lemma ElemsGrow(observations: seq<Observation>, i: nat)
    requires i < |observations|
    ensures Elems(observations[..i + 1]) == Elems(observations[..i]) + {observations[i]}
  {
  }

  lemma NextMeasured(t: Tallies, observations: seq<Observation>, i: nat, eventsOf: map<string, seq<Event>>)
    requires ById(eventsOf) && i < |observations| && Measures(t, Elems(observations[..i]), Grouped(eventsOf))
    ensures var o := observations[i];
            Measures(Grow(t, o, EventsFor(eventsOf, o)), Elems(observations[..i + 1]), Grouped(eventsOf))
  {
    var o := observations[i];
    EventsForIs(eventsOf, o);
    ElemsGrow(observations, i);
    hide *;
    MeasuresGrow(t, Elems(observations[..i]), o, Grouped(eventsOf), EventsFor(eventsOf, o));
  }

  method Accumulate(observations: seq<Observation>, eventsOf: map<string, seq<Event>>) returns (t: Tallies)
    requires ById(eventsOf)
    ensures Measures(t, Elems(observations), Grouped(eventsOf))
  {
    t := NOTHING;
    StartsMeasured(Grouped(eventsOf));
    assert Elems(observations[..0]) == {};
    hide *;
    for i := 0 to |observations|
      invariant Measures(t, Elems(observations[..i]), Grouped(eventsOf))
    {
      NextMeasured(t, observations, i, eventsOf);
      t := Observe(t, observations[i], EventsFor(eventsOf, observations[i]));
    }
    assert observations[..|observations|] == observations;
  }

  method PartitionUnresolved(observations: seq<Observation>, eventsOf: map<string, seq<Event>>)
    returns (unresolved: bool)
    requires ById(eventsOf)
    ensures unresolved == Unresolved(Elems(observations), Grouped(eventsOf))
  {
    var t := Accumulate(observations, eventsOf);
    ghost var os, es := Elems(observations), Grouped(eventsOf);
    if t.executedPairs * t.stopFacts != {} || t.crossingFacts * t.removalFacts != {} {
      return true;
    }
    if t.boundaryStopped && t.executed {
      return true;
    }
    if t.unmatchable && !t.boundaryStopped {
      return true;
    }
    if exists p :: p in t.crossing &&
        if p == ZERO_FINDING then !(t.boundaryStopped || t.zeroReceipt)
        else !(t.boundaryStopped || p in t.crossed + t.stopped + t.removed) {
      assert CrossingOpen(os, es);
      return true;
    }
    assert !CrossingOpen(os, es);
    if t.denyPending {
      var pairs := (t.crossing + t.deniedPairs) - {ZERO_FINDING};
      var pairStopped := pairs != {} && !t.denyUnidentified && ZERO_FINDING !in t.crossing && pairs <= t.stopped;
      if t.executed || !(t.boundaryStopped || pairStopped) {
        return true;
      }
    }
    if exists p :: p in t.rewrites && !(t.boundaryStopped || p in t.removed) {
      return true;
    }
    return t.rewriteUnidentified && !t.boundaryStopped;
  }
}
