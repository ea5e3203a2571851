/** Laws of the outcome resolver: what adding evidence can and cannot settle, and how
    the counts of two independent histories combine. */
module OutcomeLaws {
  import opened ActionOutcomes
  import opened OutcomeCounts

  // ---- monotonicity of the collected facts ------------------------------------------

  lemma NamedGrows(role: Role, os: set<Observation>, es: set<Event>, os': set<Observation>, es': set<Event>)
    requires os <= os' && es <= es'
    ensures Named(role, os, es) <= Named(role, os', es')
    ensures Nameless(role, os, es) ==> Nameless(role, os', es')
  {
  }

  lemma FlagsGrow(os: set<Observation>, os': set<Observation>)
    requires os <= os'
    ensures BoundaryStopped(os) ==> BoundaryStopped(os')
    ensures Executed(os) ==> Executed(os')
    ensures DenyPending(os) ==> DenyPending(os')
  {
  }

  /** Contradictory facts stay contradictory: no further observation or event resolves
      a partition that holds them. */
  lemma ConflictIsPermanent(os: set<Observation>, es: set<Event>, os': set<Observation>, es': set<Event>)
    requires os <= os' && es <= es' && Conflict(os, es)
    ensures Conflict(os', es') && Unresolved(os', es')
  {
  }

  /** With a boundary-scoped stop, and event evidence contained in its record's evidence, a
      partition is unresolved exactly when an execution or a crossing was recorded. */
  lemma BoundaryStopIsTotal(os: set<Observation>, es: set<Event>)
    requires BoundaryStopped(os)
    requires forall o, e :: o in os && e in es && e.observation == o.id ==> e.evidence <= o.evidence
    ensures Unresolved(os, es) <==> Executed(os)
  {
    if Named(ExecutionFact, os, es) * Named(StopFact, os, es) != {} {
      var p :| p in Named(ExecutionFact, os, es);
      var o, e :| o in os && e in es && e.observation == o.id && Resolved(e) && Plays(ExecutionFact, o, e);
      SubsetMeets(e.evidence, o.evidence, EXECUTED);
    }
    if Named(CrossingFact, os, es) * Named(RemovalFact, os, es) != {} {
      var p :| p in Named(CrossingFact, os, es);
      var o, e :| o in os && e in es && e.observation == o.id && Resolved(e) && Plays(CrossingFact, o, e);
      assert CrossingConfirmed in o.evidence * EXECUTED;
    }
  }

  lemma SubsetMeets(a: Evidence, b: Evidence, c: Evidence)
    requires a <= b && Meets(a, c)
    ensures Meets(b, c)
  {
  }

  // ---- only evidence in scope resolves -------------------------------------------------

  /** Identities the ledger resolved are nonempty, so no real pair is the zero finding. */
  ghost predicate RealPairs(es: set<Event>) {
    forall e :: e in es && Resolved(e) ==> PairOf(e) != ZERO_FINDING
  }

  predicate IsReceipt(role: Role) {
    role.CrossingReceipt? || role.StopReceipt? || role.RemovalReceipt?
  }

  lemma NoScopeAddsNoReceipt(role: Role, os: set<Observation>, es: set<Event>, o: Observation, more: set<Event>)
    requires IsReceipt(role) && o.scope.NoScope?
    requires forall x :: x in os ==> x.id != o.id
    requires forall e :: e in more ==> e.observation == o.id
    ensures Named(role, os + {o}, es + more) == Named(role, os, es)
  {
  }

  lemma NoScopeKeepsFlags(os: set<Observation>, es: set<Event>, o: Observation, more: set<Event>)
    requires o.scope.NoScope?
    requires forall x :: x in os ==> x.id != o.id
    requires forall e :: e in more ==> e.observation == o.id
    ensures BoundaryStopped(os + {o}) == BoundaryStopped(os)
    ensures ZeroReceipt(os + {o}, es + more) == ZeroReceipt(os, es)
    ensures ZeroDue(os, es) ==> ZeroDue(os + {o}, es + more)
    ensures DenyUnidentified(os, es) ==> DenyUnidentified(os + {o}, es + more)
    ensures RewriteUnidentified(os, es) ==> RewriteUnidentified(os + {o}, es + more)
    ensures Unmatchable(os, es) ==> Unmatchable(os + {o}, es + more)
  {
  }

  /** The invariant hidden in the loop: a pending denial names a pair or is unidentified. */
  lemma PendingDenialNamesSomething(os: set<Observation>, es: set<Event>)
    requires RealPairs(es) && DenyPending(os) && !DenyUnidentified(os, es)
    ensures Named(DenialDue, os, es) - {ZERO_FINDING} != {}
  {
    var o :| o in os && DenyIssued in o.evidence;
    assert !Silent(o, es);
    var e :| e in es && e.observation == o.id;
    assert Plays(DenialDue, o, e) && Resolved(e);
    assert PairOf(e) in Named(DenialDue, os, es) - {ZERO_FINDING};
  }

  lemma CrossingStaysOpen(os: set<Observation>, es: set<Event>, o: Observation, more: set<Event>)
    requires o.scope.NoScope?
    requires forall x :: x in os ==> x.id != o.id
    requires forall e :: e in more ==> e.observation == o.id
    ensures CrossingsDue(os, es) <= CrossingsDue(os + {o}, es + more)
    ensures CrossingOpen(os, es) ==> CrossingOpen(os + {o}, es + more)
    ensures RewriteOpen(os, es) ==> RewriteOpen(os + {o}, es + more)
  {
    NoScopeKeepsFlags(os, es, o, more);
    NamedGrows(CrossingDue, os, es, os + {o}, es + more);
    NamedGrows(RewriteDue, os, es, os + {o}, es + more);
    NoScopeAddsNoReceipt(CrossingReceipt, os, es, o, more);
    NoScopeAddsNoReceipt(StopReceipt, os, es, o, more);
    NoScopeAddsNoReceipt(RemovalReceipt, os, es, o, more);
    hide Named, ZeroDue, ZeroReceipt, RewriteUnidentified, BoundaryStopped;
    if CrossingOpen(os, es) {
      var p :| p in CrossingsDue(os, es)
        && if p == ZERO_FINDING then !ZeroReceipt(os, es) else p !in Receipted(os, es);
      assert p in CrossingsDue(os + {o}, es + more);
    }
  }

  lemma DenialStaysOpen(os: set<Observation>, es: set<Event>, o: Observation, more: set<Event>)
    requires o.scope.NoScope? && RealPairs(es)
    requires forall x :: x in os ==> x.id != o.id
    requires forall e :: e in more ==> e.observation == o.id
    requires RealPairs(more)
    ensures DenialOpen(os, es) ==> DenialOpen(os + {o}, es + more)
  {
    NoScopeKeepsFlags(os, es, o, more);
    FlagsGrow(os, os + {o});
    CrossingStaysOpen(os, es, o, more);
    NamedGrows(DenialDue, os, es, os + {o}, es + more);
    NoScopeAddsNoReceipt(StopReceipt, os, es, o, more);
    if DenyPending(os) && !DenyUnidentified(os, es) {
      PendingDenialNamesSomething(os, es);
    }
    hide Named, ZeroDue, ZeroReceipt, RewriteUnidentified, BoundaryStopped, Executed, DenyPending, DenyUnidentified,
         CrossingsDue;
    ghost var pairs := (CrossingsDue(os, es) + Named(DenialDue, os, es)) - {ZERO_FINDING};
    ghost var grown := (CrossingsDue(os + {o}, es + more) + Named(DenialDue, os + {o}, es + more)) - {ZERO_FINDING};
    assert pairs <= grown;
  }

  /** An observation without a resolution scope never turns an unresolved partition into a
      resolved one, whatever evidence and events it carries. */
  lemma NoScopeNeverResolves(os: set<Observation>, es: set<Event>, o: Observation, more: set<Event>)
    requires o.scope.NoScope?
    requires forall x :: x in os ==> x.id != o.id
    requires forall e :: e in more ==> e.observation == o.id
    requires RealPairs(es) && RealPairs(more)
    requires Unresolved(os, es)
    ensures Unresolved(os + {o}, es + more)
  {
    if Conflict(os, es) {
      ConflictIsPermanent(os, es, os + {o}, es + more);
    } else {
      NoScopeKeepsFlags(os, es, o, more);
      CrossingStaysOpen(os, es, o, more);
      DenialStaysOpen(os, es, o, more);
    }
  }

  // ---- an unresolved event settles nothing ---------------------------------------------

  lemma NamelessEventNamesNothing(role: Role, os: set<Observation>, es: set<Event>, e: Event)
    requires !Resolved(e)
    ensures Named(role, os, es + {e}) == Named(role, os, es)
    ensures Nameless(role, os, es) ==> Nameless(role, os, es + {e})
  {
  }

  lemma NamelessEventKeepsFlags(os: set<Observation>, es: set<Event>, e: Event)
    requires !Resolved(e)
    ensures ZeroReceipt(os, es + {e}) ==> ZeroReceipt(os, es)
    ensures ZeroDue(os, es + {e}) ==> ZeroDue(os, es)
    ensures ZeroDue(os, es) ==> ZeroDue(os, es + {e}) || Unmatchable(os, es + {e})
    ensures RewriteUnidentified(os, es) ==> RewriteUnidentified(os, es + {e}) || Unmatchable(os, es + {e})
    ensures DenyUnidentified(os, es) ==> DenyUnidentified(os, es + {e})
  {
  }

  /** Attaching to any observation an event whose subject or recipient is unresolved never
      turns an unresolved partition into a resolved one. */
  lemma NamelessEventNeverResolves(os: set<Observation>, es: set<Event>, e: Event)
    requires !Resolved(e) && Unresolved(os, es)
    ensures Unresolved(os, es + {e})
  {
    forall role
      ensures Named(role, os, es + {e}) == Named(role, os, es)
      ensures Nameless(role, os, es) ==> Nameless(role, os, es + {e})
    {
      NamelessEventNamesNothing(role, os, es, e);
    }
    NamelessEventKeepsFlags(os, es, e);
    hide Named, Nameless, ZeroDue, ZeroReceipt, RewriteUnidentified, BoundaryStopped, Executed, DenyPending,
         DenyUnidentified;
    if CrossingOpen(os, es) && !CrossingOpen(os, es + {e}) {
      assert CrossingsDue(os, es) != CrossingsDue(os, es + {e});
    }
  }

  // ---- independent histories -----------------------------------------------------------

  /** Two inputs that share no action and no observation. */
  ghost predicate Independent(os: set<Observation>, es: set<Event>, os': set<Observation>, es': set<Event>) {
    && (forall o, o' :: o in os && o' in os' ==> o.action != o'.action)
    && (forall o, e' :: o in os && e' in es' ==> e'.observation != o.id)
    && (forall o', e :: o' in os' && e in es ==> e.observation != o'.id)
  }

  lemma ForeignEventsDoNotCount(os: set<Observation>, es: set<Event>, es': set<Event>)
    requires forall o, e' :: o in os && e' in es' ==> e'.observation != o.id
    ensures Unresolved(os, es + es') == Unresolved(os, es)
  {
    forall role
      ensures Named(role, os, es + es') == Named(role, os, es) && Nameless(role, os, es + es') == Nameless(role, os, es)
    {
      forall p ensures p in Named(role, os, es + es') <==> p in Named(role, os, es) {}
    }
    forall o | o in os
      ensures Silent(o, es + es') == Silent(o, es) && RewriteSilent(o, es + es') == RewriteSilent(o, es)
    {}
    assert DenyUnidentified(os, es + es') == DenyUnidentified(os, es);
    assert CrossingsDue(os, es + es') == CrossingsDue(os, es);
    hide Named, Nameless, ZeroDue, BoundaryStopped, Executed, DenyPending, DenyUnidentified, CrossingsDue, Silent,
         RewriteSilent;
  }

  lemma UnresolvedActionsJoin(os: set<Observation>, es: set<Event>, os': set<Observation>, es': set<Event>)
    requires Independent(os, es, os', es')
    ensures UnresolvedActions(os + os', es + es') == UnresolvedActions(os, es) + UnresolvedActions(os', es')
  {
    forall o | o in os
      ensures Unresolved(Partition(os + os', o.action, o.boundary), es + es')
           == Unresolved(Partition(os, o.action, o.boundary), es)
    {
      assert Partition(os + os', o.action, o.boundary) == Partition(os, o.action, o.boundary);
      ForeignEventsDoNotCount(Partition(os, o.action, o.boundary), es, es');
    }
    forall o | o in os'
      ensures Unresolved(Partition(os + os', o.action, o.boundary), es + es')
           == Unresolved(Partition(os', o.action, o.boundary), es')
    {
      assert Partition(os + os', o.action, o.boundary) == Partition(os', o.action, o.boundary);
      ForeignEventsDoNotCount(Partition(os', o.action, o.boundary), es', es);
      assert es + es' == es' + es;
    }
    hide Unresolved;
    forall a
      ensures a in UnresolvedActions(os + os', es + es')
         <==> a in UnresolvedActions(os, es) || a in UnresolvedActions(os', es')
    {}
  }

  lemma UnresolvedActionsAdd(os: set<Observation>, es: set<Event>, os': set<Observation>, es': set<Event>)
    requires Independent(os, es, os', es')
    ensures |UnresolvedActions(os + os', es + es')| == |UnresolvedActions(os, es)| + |UnresolvedActions(os', es')|
  {
    UnresolvedActionsJoin(os, es, os', es');
    hide Unresolved;
    assert UnresolvedActions(os, es) !! UnresolvedActions(os', es');
  }

  lemma CarriersJoin(os: set<Observation>, os': set<Observation>, bit: Bit)
    requires forall o, o' :: o in os && o' in os' ==> o.action != o'.action
    ensures Carriers(os + os', bit) == Carriers(os, bit) + Carriers(os', bit)
    ensures |Carriers(os + os', bit)| == |Carriers(os, bit)| + |Carriers(os', bit)|
  {
  }

  function Sum(a: Counts, b: Counts): Counts {
    Counts(a.permissionActions + b.permissionActions, a.denialsIssued + b.denialsIssued,
           a.denialsEnforced + b.denialsEnforced, a.readsStopped + b.readsStopped,
           a.rewriteActionsIssued + b.rewriteActionsIssued, a.rewriteActionsEnforced + b.rewriteActionsEnforced,
           a.unresolvedActions + b.unresolvedActions)
  }

  ghost function ActionsOf(os: set<Observation>): set<string> {
    set o | o in os :: o.action
  }

  lemma StoppedReadsJoin(os: set<Observation>, es: set<Event>, os': set<Observation>, es': set<Event>)
    requires Independent(os, es, os', es')
    ensures |StoppedReads(os + os', es + es')| == |StoppedReads(os, es)| + |StoppedReads(os', es')|
  {
    UnresolvedActionsJoin(os, es, os', es');
    forall bit { CarriersJoin(os, os', bit); }
    assert Readers(os + os') == Readers(os) + Readers(os');
    assert ActionsOf(os) !! ActionsOf(os');
    assert UnresolvedActions(os, es) <= ActionsOf(os) && UnresolvedActions(os', es') <= ActionsOf(os');
    assert Readers(os) <= ActionsOf(os) && Readers(os') <= ActionsOf(os');
    forall bit ensures Carriers(os, bit) <= ActionsOf(os) && Carriers(os', bit) <= ActionsOf(os') {}
    hide Readers, Carriers, UnresolvedActions, ActionsOf;
    assert StoppedReads(os + os', es + es') == StoppedReads(os, es) + StoppedReads(os', es');
    assert StoppedReads(os, es) !! StoppedReads(os', es');
  }

  /** Every count of two independent histories together is the sum of their counts. */
  lemma OutcomesAdd(os: set<Observation>, es: set<Event>, os': set<Observation>, es': set<Event>)
    requires Independent(os, es, os', es')
    ensures Outcomes(os + os', es + es') == Sum(Outcomes(os, es), Outcomes(os', es'))
  {
    hide Carriers, StoppedReads, UnresolvedActions;
    UnresolvedActionsAdd(os, es, os', es');
    StoppedReadsJoin(os, es, os', es');
    CarriersJoin(os, os', PermissionIssued);
    CarriersJoin(os, os', DenyIssued);
    CarriersJoin(os, os', DenyEnforced);
    CarriersJoin(os, os', RewriteIssued);
    CarriersJoin(os, os', RewriteEnforced);
  }

  /** The counts do not depend on the order in which observations and events arrive, nor on
      how often one is delivered. */
  lemma DeliveryOrderIsIrrelevant(os: seq<Observation>, es: seq<Event>, os': seq<Observation>, es': seq<Event>)
    requires forall o :: o in os <==> o in os'
    requires forall e :: e in es <==> e in es'
    ensures Outcomes(Elems(os), Elems(es)) == Outcomes(Elems(os'), Elems(es'))
  {
    assert Elems(os) == Elems(os') && Elems(es) == Elems(es');
  }

  /** A stopped read is an enforced denial of a settled action that never executed. */
  lemma StoppedReadsAreSettledDenials(os: set<Observation>, es: set<Event>, o: Observation)
    ensures StoppedReads(os, es) !! UnresolvedActions(os, es)
    ensures Outcomes(os, es).readsStopped <= Outcomes(os, es).denialsEnforced
    ensures o in os && o.action in StoppedReads(os, es)
      ==> !Meets(o.evidence, EXECUTED) && !Unresolved(Partition(os, o.action, o.boundary), es)
  {
    Smaller(StoppedReads(os, es), Carriers(os, DenyEnforced));
    if o in os && o.action in StoppedReads(os, es) {
      assert o.action !in Carriers(os, ExecutionObserved) && o.action !in Carriers(os, CrossingConfirmed);
      assert o.action !in UnresolvedActions(os, es);
    }
  }

  lemma Smaller<T>(a: set<T>, b: set<T>)
    requires a <= b
    ensures |a| <= |b|
  {
    assert b == a + (b - a);
  }

  // ---- why the zero finding must not be a real pair ---------------------------------------

  const DENIAL := Observation("1", "a", B3, Tool, {DenyIssued}, NoScope, false)
  const STOP := Observation("2", "a", B3, Tool, {DenyEnforced}, PairScope, false)
  const LATE := Observation("3", "a", B3, Tool, {}, NoScope, true)
  const DENIED_EMPTY := Event("1", "", "", true, true, {DenyIssued})
  const STOPPED_PAIR := Event("2", "s", "r", true, true, {DenyEnforced})
  const LATE_PAIR := Event("3", "s", "r", true, true, {})

  ghost function One(role: Role, o: Observation, e: Event): set<Pair> {
    if Plays(role, o, e) then {PairOf(e)} else {}
  }

  lemma EarlyFacts(role: Role)
    ensures Named(role, {DENIAL, STOP}, {DENIED_EMPTY, STOPPED_PAIR})
      == One(role, DENIAL, DENIED_EMPTY) + One(role, STOP, STOPPED_PAIR)
    ensures !Nameless(role, {DENIAL, STOP}, {DENIED_EMPTY, STOPPED_PAIR})
  {
  }

  lemma LateFacts(role: Role)
    ensures Named(role, {DENIAL, STOP} + {LATE}, {DENIED_EMPTY, STOPPED_PAIR} + {LATE_PAIR})
      == One(role, DENIAL, DENIED_EMPTY) + One(role, STOP, STOPPED_PAIR) + One(role, LATE, LATE_PAIR)
    ensures !Nameless(role, {DENIAL, STOP} + {LATE}, {DENIED_EMPTY, STOPPED_PAIR} + {LATE_PAIR})
  {
  }

  /** Were a resolved pair allowed empty identities, NoScopeNeverResolves would fail: the late
      observation, which settles nothing, would resolve this partition. */
  lemma EmptyIdentitiesWouldResolve()
    ensures Unresolved({DENIAL, STOP}, {DENIED_EMPTY, STOPPED_PAIR})
    ensures !Unresolved({DENIAL, STOP} + {LATE}, {DENIED_EMPTY, STOPPED_PAIR} + {LATE_PAIR})
  {
    EarlyFacts(CrossingDue);
    EarlyFacts(DenialDue);
    assert DENIAL in {DENIAL, STOP};
    assert DenyPending({DENIAL, STOP});
    assert !BoundaryStopped({DENIAL, STOP});
    assert !Silent(DENIAL, {DENIED_EMPTY, STOPPED_PAIR}) && !Silent(STOP, {DENIED_EMPTY, STOPPED_PAIR});
    hide Named, Nameless;
    assert (CrossingsDue({DENIAL, STOP}, {DENIED_EMPTY, STOPPED_PAIR})
      + Named(DenialDue, {DENIAL, STOP}, {DENIED_EMPTY, STOPPED_PAIR})) - {ZERO_FINDING} == {};
    LateResolved();
  }

  lemma LateFlags(os: set<Observation>, es: set<Event>)
    requires os == {DENIAL, STOP} + {LATE} && es == {DENIED_EMPTY, STOPPED_PAIR} + {LATE_PAIR}
    ensures !Executed(os) && !BoundaryStopped(os) && !ZeroDue(os, es) && !RewriteUnidentified(os, es)
         && !DenyUnidentified(os, es)
    ensures !Unmatchable(os, es)
  {
  }

  lemma LateReceipt(os: set<Observation>, es: set<Event>)
    requires os == {DENIAL, STOP} + {LATE} && es == {DENIED_EMPTY, STOPPED_PAIR} + {LATE_PAIR}
    ensures Named(StopReceipt, os, es) == {("s", "r")}
  {
    LateFacts(StopReceipt);
    assert DenyEnforced in STOP.evidence * STOPPED;
    hide Named, Nameless;
  }

  lemma LateNamed(os: set<Observation>, es: set<Event>)
    requires os == {DENIAL, STOP} + {LATE} && es == {DENIED_EMPTY, STOPPED_PAIR} + {LATE_PAIR}
    ensures Named(CrossingDue, os, es) == {("s", "r")} && Named(DenialDue, os, es) == {ZERO_FINDING}
    ensures Named(RewriteDue, os, es) == Named(ExecutionFact, os, es) == Named(CrossingFact, os, es) == {}
  {
  }

  lemma LateResolved()
    ensures !Unresolved({DENIAL, STOP} + {LATE}, {DENIED_EMPTY, STOPPED_PAIR} + {LATE_PAIR})
  {
    var os, es := {DENIAL, STOP} + {LATE}, {DENIED_EMPTY, STOPPED_PAIR} + {LATE_PAIR};
    LateNamed(os, es);
    LateReceipt(os, es);
    LateFlags(os, es);
    hide Named, Nameless, Executed, BoundaryStopped, ZeroDue, RewriteUnidentified, DenyUnidentified, Unmatchable,
         DenyPending;
    assert ("s", "r") != ZERO_FINDING by { assert |"s"| != |""|; }
    assert CrossingsDue(os, es) == {("s", "r")};
    assert ("s", "r") in Receipted(os, es);
    assert !CrossingOpen(os, es);
    assert (CrossingsDue(os, es) + Named(DenialDue, os, es)) - {ZERO_FINDING} == {("s", "r")};
    assert PairStopped(os, es);
  }
}
