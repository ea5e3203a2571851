/** What settles a partition, said of its observations and events alone: which evidence, in which scope, for
    which pair. */
module OutcomeSettlement {
  import opened ActionOutcomes
  import opened OutcomeCounts
  import opened OutcomeLaws

  // ---- observations, events and pairs ------------------------------------------------------------

  predicate EventOf(os: set<Observation>, es: set<Event>, o: Observation, e: Event) {
    o in os && e in es && e.observation == o.id
  }

  /** Both ends of the event are known. */
  predicate Known(e: Event) {
    e.subjectResolved && e.recipientResolved
  }

  predicate SamePair(e: Event, e': Event) {
    e.subject == e'.subject && e.recipient == e'.recipient
  }

  ghost predicate HasEvent(es: set<Event>, o: Observation) {
    exists e :: e in es && e.observation == o.id
  }

  /** A pair-scoped observation has a known event of the same pair that carries one of these bits. */
  ghost predicate Settles(os: set<Observation>, es: set<Event>, e: Event, bits: set<Bit>) {
    exists o', e' :: EventOf(os, es, o', e') && o'.scope == PairScope && Known(e') && SamePair(e, e')
                     && exists bit :: bit in bits && bit in e'.evidence
  }

  /** Identities that the ledger resolved are not empty. */
  ghost predicate Real(es: set<Event>) {
    forall e :: e in es && Known(e) ==> e.subject != "" || e.recipient != ""
  }

  // ---- the reference definition --------------------------------------------------------------------

  /** No pair both ran and was stopped, and none both crossed and was removed. */
  ghost predicate PairsAgree(os: set<Observation>, es: set<Event>) {
    forall o, e, o', e' ::
      EventOf(os, es, o, e) && EventOf(os, es, o', e') && Known(e) && Known(e') && SamePair(e, e') ==>
      && (ExecutionObserved in e.evidence || CrossingConfirmed in e.evidence ==>
            DenyEnforced !in e'.evidence && RejectedBeforeCrossing !in e'.evidence)
      && (CrossingConfirmed in e.evidence ==> RewriteEnforced !in e'.evidence)
  }

  /** Some observation stopped the whole boundary. */
  ghost predicate Stopped(os: set<Observation>) {
    exists o :: o in os && o.scope == BoundaryScope
                && (DenyEnforced in o.evidence || RejectedBeforeCrossing in o.evidence)
  }

  ghost predicate Ran(os: set<Observation>) {
    exists o :: o in os && (ExecutionObserved in o.evidence || CrossingConfirmed in o.evidence)
  }

  /** Whatever may have crossed or was to be rewritten is known. */
  ghost predicate NothingLost(os: set<Observation>, es: set<Event>) {
    forall o, e :: EventOf(os, es, o, e) && !Known(e) ==>
      !o.potentialCrossing && !(RewriteIssued in o.evidence && RewriteIssued in e.evidence)
  }

  /** A boundary-scoped observation without events confirms a crossing that named nothing. */
  ghost predicate NamelessCrossingConfirmed(os: set<Observation>, es: set<Event>) {
    exists b :: b in os && b.scope == BoundaryScope && CrossingConfirmed in b.evidence && !HasEvent(es, b)
  }

  /** Every potential crossing is accounted for: each of its pairs crossed, was stopped or was removed. */
  ghost predicate CrossingsSettled(os: set<Observation>, es: set<Event>) {
    && (forall o :: o in os && o.potentialCrossing && !HasEvent(es, o) ==> NamelessCrossingConfirmed(os, es))
    && (forall o, e :: EventOf(os, es, o, e) && o.potentialCrossing && Known(e) ==>
          Settles(os, es, e, {CrossingConfirmed, DenyEnforced, RejectedBeforeCrossing, RewriteEnforced}))
  }

  /** A denial holds: nothing ran, and every pair it or a potential crossing names was stopped. */
  ghost predicate DenialsHold(os: set<Observation>, es: set<Event>) {
    && !Ran(os)
    && (forall o :: o in os && (DenyIssued in o.evidence || o.potentialCrossing) ==> HasEvent(es, o))
    && (forall o, e :: EventOf(os, es, o, e) && DenyIssued in o.evidence ==> Known(e))
    && (forall o, e :: EventOf(os, es, o, e) && (DenyIssued in o.evidence || o.potentialCrossing) && Known(e) ==>
          Settles(os, es, e, {DenyEnforced, RejectedBeforeCrossing}))
  }

  /** Every rewrite names what it rewrites, and every pair it names was removed. */
  ghost predicate RewritesHold(os: set<Observation>, es: set<Event>) {
    && (forall o :: o in os && RewriteIssued in o.evidence ==>
          exists e :: e in es && e.observation == o.id && RewriteIssued in e.evidence)
    && (forall o, e :: EventOf(os, es, o, e) && Known(e) && RewriteIssued in o.evidence && RewriteIssued in e.evidence
          ==> Settles(os, es, e, {RewriteEnforced}))
  }

  ghost predicate Denied(os: set<Observation>) {
    exists o :: o in os && DenyIssued in o.evidence
  }

  /** The outcome of a partition is settled. */
  ghost predicate Settled(os: set<Observation>, es: set<Event>) {
    && PairsAgree(os, es)
    && if Stopped(os) then !Ran(os)
       else NothingLost(os, es) && CrossingsSettled(os, es) && (Denied(os) ==> DenialsHold(os, es))
            && RewritesHold(os, es)
  }

  // ---- it is what the resolver decides ---------------------------------------------------------------

  lemma MeetsExactly(a: Evidence)
    ensures Meets(a, STOPPED) <==> DenyEnforced in a || RejectedBeforeCrossing in a
    ensures Meets(a, EXECUTED) <==> ExecutionObserved in a || CrossingConfirmed in a
  {
    assert DenyEnforced in a ==> DenyEnforced in a * STOPPED;
    assert RejectedBeforeCrossing in a ==> RejectedBeforeCrossing in a * STOPPED;
    assert ExecutionObserved in a ==> ExecutionObserved in a * EXECUTED;
    assert CrossingConfirmed in a ==> CrossingConfirmed in a * EXECUTED;
  }

  lemma FlagsAre(os: set<Observation>, es: set<Event>)
    ensures BoundaryStopped(os) == Stopped(os) && Executed(os) == Ran(os) && DenyPending(os) == Denied(os)
    ensures ZeroReceipt(os, es) == NamelessCrossingConfirmed(os, es)
    ensures forall o :: Silent(o, es) == !HasEvent(es, o)
  {
    forall o: Observation { MeetsExactly(o.evidence); }
  }

  /** A pair is named in a role by a known event that plays it. */
  lemma NamedBy(role: Role, os: set<Observation>, es: set<Event>, p: Pair)
    ensures p in Named(role, os, es) <==>
              exists o, e :: EventOf(os, es, o, e) && Known(e) && Plays(role, o, e) && p == PairOf(e)
  {
  }

  lemma SettlesIs(os: set<Observation>, es: set<Event>, e: Event)
    ensures PairOf(e) in Named(CrossingReceipt, os, es) <==> Settles(os, es, e, {CrossingConfirmed})
    ensures PairOf(e) in Named(StopReceipt, os, es) <==> Settles(os, es, e, {DenyEnforced, RejectedBeforeCrossing})
    ensures PairOf(e) in Named(RemovalReceipt, os, es) <==> Settles(os, es, e, {RewriteEnforced})
  {
    forall a { MeetsExactly(a); }
  }

  lemma FactsAgree(os: set<Observation>, es: set<Event>)
    ensures PairsAgree(os, es) <==>
              && Named(ExecutionFact, os, es) * Named(StopFact, os, es) == {}
              && Named(CrossingFact, os, es) * Named(RemovalFact, os, es) == {}
  {
    forall a { MeetsExactly(a); }
    hide Named, Meets;
    forall role, p { NamedBy(role, os, es, p); }
    if PairsAgree(os, es) {
      forall p | p in Named(ExecutionFact, os, es) ensures p !in Named(StopFact, os, es) {
        NamedBy(ExecutionFact, os, es, p);
        NamedBy(StopFact, os, es, p);
      }
      forall p | p in Named(CrossingFact, os, es) ensures p !in Named(RemovalFact, os, es) {
        NamedBy(CrossingFact, os, es, p);
        NamedBy(RemovalFact, os, es, p);
      }
    } else {
      var o, e, o', e' :| EventOf(os, es, o, e) && EventOf(os, es, o', e') && Known(e) && Known(e') && SamePair(e, e')
        && !( && (ExecutionObserved in e.evidence || CrossingConfirmed in e.evidence ==>
                    DenyEnforced !in e'.evidence && RejectedBeforeCrossing !in e'.evidence)
              && (CrossingConfirmed in e.evidence ==> RewriteEnforced !in e'.evidence));
      NamedBy(ExecutionFact, os, es, PairOf(e));
      NamedBy(StopFact, os, es, PairOf(e));
      NamedBy(CrossingFact, os, es, PairOf(e));
      NamedBy(RemovalFact, os, es, PairOf(e));
      assert PairOf(e) == PairOf(e');
      assert PairOf(e) in Named(ExecutionFact, os, es) * Named(StopFact, os, es)
          || PairOf(e) in Named(CrossingFact, os, es) * Named(RemovalFact, os, es);
    }
  }

  lemma LostIsUnmatchable(os: set<Observation>, es: set<Event>)
    ensures NothingLost(os, es) == !Unmatchable(os, es)
  {
    if !NothingLost(os, es) {
      var o, e :| EventOf(os, es, o, e) && !Known(e)
        && (o.potentialCrossing || (RewriteIssued in o.evidence && RewriteIssued in e.evidence));
      assert Plays(CrossingDue, o, e) || Plays(RewriteDue, o, e);
    }
  }

  /** No real pair is the zero finding. */
  lemma RealIsNotZero(os: set<Observation>, es: set<Event>, role: Role)
    requires Real(es)
    ensures ZERO_FINDING !in Named(role, os, es)
  {
    NamedBy(role, os, es, ZERO_FINDING);
    hide Named, Plays;
  }

  lemma ZeroIsDue(os: set<Observation>, es: set<Event>)
    ensures ZeroDue(os, es) <==> exists o :: o in os && o.potentialCrossing && !HasEvent(es, o)
  {
    FlagsAre(os, es);
    hide HasEvent, Silent;
  }

  lemma ReceiptedIs(os: set<Observation>, es: set<Event>, e: Event)
    ensures PairOf(e) in Receipted(os, es) <==>
              Settles(os, es, e, {CrossingConfirmed, DenyEnforced, RejectedBeforeCrossing, RewriteEnforced})
  {
    SettlesIs(os, es, e);
    SettlesAny(os, es, e);
    hide Named, Settles;
  }

  lemma SettlesAny(os: set<Observation>, es: set<Event>, e: Event)
    ensures Settles(os, es, e, {CrossingConfirmed, DenyEnforced, RejectedBeforeCrossing, RewriteEnforced}) <==>
              || Settles(os, es, e, {CrossingConfirmed})
              || Settles(os, es, e, {DenyEnforced, RejectedBeforeCrossing})
              || Settles(os, es, e, {RewriteEnforced})
  {
  }

  lemma OpenCrossingIsUnsettled(os: set<Observation>, es: set<Event>)
    requires Real(es) && CrossingOpen(os, es)
    ensures !CrossingsSettled(os, es)
  {
    FlagsAre(os, es);
    ZeroIsDue(os, es);
    RealIsNotZero(os, es, CrossingDue);
    hide Named, Settles, HasEvent, NamelessCrossingConfirmed, ZeroReceipt, ZeroDue, BoundaryStopped, Receipted;
    var p :| p in CrossingsDue(os, es)
      && if p == ZERO_FINDING then !ZeroReceipt(os, es) else p !in Receipted(os, es);
    if p != ZERO_FINDING {
      NamedBy(CrossingDue, os, es, p);
      var o, e :| EventOf(os, es, o, e) && Known(e) && Plays(CrossingDue, o, e) && p == PairOf(e);
      ReceiptedIs(os, es, e);
    }
  }

  lemma UnsettledCrossingIsOpen(os: set<Observation>, es: set<Event>)
    requires Real(es) && !Stopped(os) && !CrossingsSettled(os, es)
    ensures CrossingOpen(os, es)
  {
    FlagsAre(os, es);
    ZeroIsDue(os, es);
    hide Named, Settles, HasEvent, NamelessCrossingConfirmed, ZeroReceipt, ZeroDue, BoundaryStopped, Stopped, Receipted;
    if o, e :| EventOf(os, es, o, e) && o.potentialCrossing && Known(e)
               && !Settles(os, es, e, {CrossingConfirmed, DenyEnforced, RejectedBeforeCrossing, RewriteEnforced}) {
      assert Plays(CrossingDue, o, e);
      NamedBy(CrossingDue, os, es, PairOf(e));
      ReceiptedIs(os, es, e);
      assert PairOf(e) in CrossingsDue(os, es) && PairOf(e) != ZERO_FINDING;
    } else {
      assert ZERO_FINDING in CrossingsDue(os, es);
    }
  }

  lemma UnidentifiedExactly(os: set<Observation>, es: set<Event>)
    ensures DenyUnidentified(os, es) <==>
              || (exists o :: o in os && DenyIssued in o.evidence && !HasEvent(es, o))
              || (exists o, e :: EventOf(os, es, o, e) && DenyIssued in o.evidence && !Known(e))
  {
    FlagsAre(os, es);
    hide HasEvent, Silent;
    if Nameless(DenialDue, os, es) {
      var o, e :| o in os && e in es && e.observation == o.id && !Resolved(e) && Plays(DenialDue, o, e);
      assert EventOf(os, es, o, e) && !Known(e);
    }
    if o, e :| EventOf(os, es, o, e) && DenyIssued in o.evidence && !Known(e) {
      assert Plays(DenialDue, o, e);
    }
  }

  /** The pairs a denial must see stopped. */
  lemma DeniedPairs(os: set<Observation>, es: set<Event>, p: Pair)
    requires Real(es)
    ensures p in (CrossingsDue(os, es) + Named(DenialDue, os, es)) - {ZERO_FINDING} <==>
              exists o, e :: EventOf(os, es, o, e) && (DenyIssued in o.evidence || o.potentialCrossing) && Known(e)
                             && p == PairOf(e)
  {
    NamedBy(CrossingDue, os, es, p);
    NamedBy(DenialDue, os, es, p);
    hide Named, ZeroDue;
    if o, e :| EventOf(os, es, o, e) && (DenyIssued in o.evidence || o.potentialCrossing) && Known(e)
               && p == PairOf(e)
    {
      assert Plays(CrossingDue, o, e) || Plays(DenialDue, o, e);
    }
  }

  lemma DenialsHoldExactly(os: set<Observation>, es: set<Event>)
    requires Real(es) && Denied(os) && !Ran(os)
    ensures DenialsHold(os, es) <==> PairStopped(os, es)
  {
    UnidentifiedExactly(os, es);
    ZeroIsDue(os, es);
    RealIsNotZero(os, es, CrossingDue);
    ghost var pairs := (CrossingsDue(os, es) + Named(DenialDue, os, es)) - {ZERO_FINDING};
    hide Named, Settles, ZeroDue, DenyUnidentified, HasEvent;
    if DenialsHold(os, es) {
      SomethingIsDenied(os, es);
      forall p | p in pairs ensures p in Named(StopReceipt, os, es) {
        DeniedPairs(os, es, p);
        var o, e :| EventOf(os, es, o, e) && (DenyIssued in o.evidence || o.potentialCrossing) && Known(e)
                    && p == PairOf(e);
        SettlesIs(os, es, e);
      }
    } else if PairStopped(os, es) {
      var o, e :| EventOf(os, es, o, e) && (DenyIssued in o.evidence || o.potentialCrossing) && Known(e)
                  && !Settles(os, es, e, {DenyEnforced, RejectedBeforeCrossing});
      DeniedPairs(os, es, PairOf(e));
      SettlesIs(os, es, e);
    }
  }

  lemma SomethingIsDenied(os: set<Observation>, es: set<Event>)
    requires Real(es) && Denied(os) && DenialsHold(os, es)
    ensures (CrossingsDue(os, es) + Named(DenialDue, os, es)) - {ZERO_FINDING} != {}
  {
    hide Named, Settles, ZeroDue;
    var o :| o in os && DenyIssued in o.evidence;
    var e :| e in es && e.observation == o.id;
    assert EventOf(os, es, o, e);
    DeniedPairs(os, es, PairOf(e));
  }

  lemma RewritesOpenExactly(os: set<Observation>, es: set<Event>)
    requires !Stopped(os)
    ensures RewriteOpen(os, es) <==> !RewritesHold(os, es)
  {
    FlagsAre(os, es);
    forall p { NamedBy(RewriteDue, os, es, p); }
    forall e { SettlesIs(os, es, e); }
    hide Named, Settles, BoundaryStopped, Stopped;
  }

  /** The resolver leaves a partition unresolved exactly when it is not settled. */
  lemma SettledExactly(os: set<Observation>, es: set<Event>)
    requires Real(es)
    ensures Unresolved(os, es) <==> !Settled(os, es)
  {
    FlagsAre(os, es);
    FactsAgree(os, es);
    if !Stopped(os) {
      LostIsUnmatchable(os, es);
      RewritesOpenExactly(os, es);
      if CrossingOpen(os, es) {
        OpenCrossingIsUnsettled(os, es);
      } else if !CrossingsSettled(os, es) {
        UnsettledCrossingIsOpen(os, es);
      }
      if Denied(os) && !Ran(os) {
        DenialsHoldExactly(os, es);
      }
    }
    hide Named, PairsAgree, NothingLost, CrossingsSettled, RewritesHold, CrossingOpen, RewriteOpen, Unmatchable, Ran,
         Stopped, Denied, BoundaryStopped, Executed, DenyPending, PairStopped;
  }

  // ---- what settles, bit by bit ------------------------------------------------------------------------

  /** An ordinary confirmed disclosure is settled: with nothing denied, rewritten, lost or contradictory, and
      some way out, by one bit, for every pair that may have crossed. The bit can be a confirmed crossing, an
      enforced denial, a rejection before the crossing or an enforced rewrite. */
  lemma PairEvidenceSettles(os: set<Observation>, es: set<Event>, bit: Bit)
    requires bit == CrossingConfirmed || bit == DenyEnforced || bit == RejectedBeforeCrossing || bit == RewriteEnforced
    requires forall o :: o in os ==> DenyIssued !in o.evidence && RewriteIssued !in o.evidence
    requires forall o, e :: EventOf(os, es, o, e) ==> e.subjectResolved && e.recipientResolved
    requires Real(es) && PairsAgree(os, es) && !(Stopped(os) && Ran(os))
    requires forall o :: o in os && o.potentialCrossing ==> exists e :: e in es && e.observation == o.id
    requires forall o, e :: EventOf(os, es, o, e) && o.potentialCrossing ==>
               exists o', e' :: EventOf(os, es, o', e') && o'.scope == PairScope && bit in e'.evidence
                                && e'.subject == e.subject && e'.recipient == e.recipient
    ensures !Unresolved(os, es)
  {
    SettledExactly(os, es);
    hide Unresolved;
    forall o, e | EventOf(os, es, o, e) && o.potentialCrossing
      ensures Settles(os, es, e, {CrossingConfirmed, DenyEnforced, RejectedBeforeCrossing, RewriteEnforced})
    {
      var o', e' :| EventOf(os, es, o', e') && o'.scope == PairScope && bit in e'.evidence
                    && e'.subject == e.subject && e'.recipient == e.recipient;
      assert Known(e') && SamePair(e, e');
    }
    hide Settles;
  }

  /** An issued denial is settled once every pair it names was stopped and nothing ran. */
  lemma StoppedPairsSettleDenial(os: set<Observation>, es: set<Event>, bit: Bit)
    requires bit == DenyEnforced || bit == RejectedBeforeCrossing
    requires forall o :: o in os ==>
               RewriteIssued !in o.evidence && ExecutionObserved !in o.evidence && CrossingConfirmed !in o.evidence
    requires forall o, e :: EventOf(os, es, o, e) ==> e.subjectResolved && e.recipientResolved
    requires Real(es) && PairsAgree(os, es)
    requires forall o :: o in os && (DenyIssued in o.evidence || o.potentialCrossing) ==>
               exists e :: e in es && e.observation == o.id
    requires forall o, e :: EventOf(os, es, o, e) && (DenyIssued in o.evidence || o.potentialCrossing) ==>
               exists o', e' :: EventOf(os, es, o', e') && o'.scope == PairScope && bit in e'.evidence
                                && e'.subject == e.subject && e'.recipient == e.recipient
    ensures !Unresolved(os, es)
  {
    SettledExactly(os, es);
    hide Unresolved;
    forall o, e | EventOf(os, es, o, e) && (DenyIssued in o.evidence || o.potentialCrossing)
      ensures Settles(os, es, e, {DenyEnforced, RejectedBeforeCrossing})
      ensures Settles(os, es, e, {CrossingConfirmed, DenyEnforced, RejectedBeforeCrossing, RewriteEnforced})
    {
      var o', e' :| EventOf(os, es, o', e') && o'.scope == PairScope && bit in e'.evidence
                    && e'.subject == e.subject && e'.recipient == e.recipient;
      assert Known(e') && SamePair(e, e');
    }
    hide Settles;
  }

  /** An issued denial whose action ran anyway is never settled, whatever else was observed. */
  lemma ExecutedDenialNeverSettles(os: set<Observation>, es: set<Event>, o: Observation, o': Observation)
    requires o in os && DenyIssued in o.evidence
    requires o' in os && (ExecutionObserved in o'.evidence || CrossingConfirmed in o'.evidence)
    ensures Unresolved(os, es)
  {
    MeetsExactly(o'.evidence);
    assert Executed(os) && DenyPending(os);
  }

  /** A rewrite is settled once every pair it names was removed. */
  lemma RemovedPairsSettleRewrite(os: set<Observation>, es: set<Event>)
    requires forall o :: o in os ==> DenyIssued !in o.evidence && !o.potentialCrossing
    requires forall o, e :: EventOf(os, es, o, e) ==> e.subjectResolved && e.recipientResolved
    requires Real(es) && PairsAgree(os, es) && !(Stopped(os) && Ran(os))
    requires forall o :: o in os && RewriteIssued in o.evidence ==>
               exists e :: e in es && e.observation == o.id && RewriteIssued in e.evidence
    requires forall o, e :: EventOf(os, es, o, e) && RewriteIssued in o.evidence && RewriteIssued in e.evidence ==>
               exists o', e' :: EventOf(os, es, o', e') && o'.scope == PairScope && RewriteEnforced in e'.evidence
                                && e'.subject == e.subject && e'.recipient == e.recipient
    ensures !Unresolved(os, es)
  {
    SettledExactly(os, es);
    hide Unresolved;
    forall o, e | EventOf(os, es, o, e) && RewriteIssued in o.evidence && RewriteIssued in e.evidence
      ensures Settles(os, es, e, {RewriteEnforced})
    {
      var o', e' :| EventOf(os, es, o', e') && o'.scope == PairScope && RewriteEnforced in e'.evidence
                    && e'.subject == e.subject && e'.recipient == e.recipient;
      assert Known(e') && SamePair(e, e');
    }
    hide Settles;
  }

  /** Without a stop of the whole boundary, a pair that a rewrite names and nothing removed stays open. */
  lemma UnremovedRewriteStaysOpen(os: set<Observation>, es: set<Event>, o: Observation, e: Event)
    requires Real(es) && !Stopped(os) && EventOf(os, es, o, e) && e.subjectResolved && e.recipientResolved
    requires RewriteIssued in o.evidence && RewriteIssued in e.evidence
    requires forall o', e' :: EventOf(os, es, o', e') && o'.scope == PairScope && RewriteEnforced in e'.evidence ==>
               e'.subject != e.subject || e'.recipient != e.recipient
    ensures Unresolved(os, es)
  {
    SettledExactly(os, es);
    hide Unresolved;
    assert !Settles(os, es, e, {RewriteEnforced});
    hide Settles;
  }

  /** Without a stop of the whole boundary, a potential crossing stays open whose pair nothing settled. */
  lemma UnsettledPairStaysOpen(os: set<Observation>, es: set<Event>, o: Observation, e: Event)
    requires Real(es) && !Stopped(os) && EventOf(os, es, o, e) && o.potentialCrossing
    requires forall o', e' :: EventOf(os, es, o', e') && o'.scope == PairScope && SamePair(e, e') ==>
               && CrossingConfirmed !in e'.evidence && DenyEnforced !in e'.evidence
               && RejectedBeforeCrossing !in e'.evidence && RewriteEnforced !in e'.evidence
    ensures Unresolved(os, es)
  {
    SettledExactly(os, es);
    hide Unresolved;
    assert Known(e) ==>
        !Settles(os, es, e, {CrossingConfirmed, DenyEnforced, RejectedBeforeCrossing, RewriteEnforced});
    hide Settles;
  }

  /** A stop of the whole boundary settles everything, unless an execution or a crossing was observed or the
      facts about some pair contradict each other. */
  lemma BoundaryStopSettles(os: set<Observation>, es: set<Event>, o: Observation)
    requires Real(es) && PairsAgree(os, es)
    requires o in os && o.scope == BoundaryScope
    requires DenyEnforced in o.evidence || RejectedBeforeCrossing in o.evidence
    ensures Unresolved(os, es) <==>
              exists o' :: o' in os && (ExecutionObserved in o'.evidence || CrossingConfirmed in o'.evidence)
  {
    SettledExactly(os, es);
    hide Unresolved, PairsAgree;
  }

  // ---- a session's count -----------------------------------------------------------------------------------

  /** A session has as many unresolved actions as it has actions with a partition that is not settled. */
  lemma UnresolvedActionsAreUnsettled(os: set<Observation>, es: set<Event>)
    requires Real(es)
    ensures Outcomes(os, es).unresolvedActions
         == |set o | o in os && !Settled(Partition(os, o.action, o.boundary), es) :: o.action|
  {
    forall o | o in os
      ensures Unresolved(Partition(os, o.action, o.boundary), es) == !Settled(Partition(os, o.action, o.boundary), es)
    {
      SettledExactly(Partition(os, o.action, o.boundary), es);
    }
    hide Unresolved, Settled;
    assert UnresolvedActions(os, es)
        == set o | o in os && !Settled(Partition(os, o.action, o.boundary), es) :: o.action;
  }

  /** A stopped read: an action that read, was stopped by an enforced denial, never ran, and whose every
      partition is settled. */
  lemma StoppedReadsExactly(os: set<Observation>, es: set<Event>, action: string)
    requires Real(es)
    ensures action in StoppedReads(os, es) <==>
              && (exists o :: o in os && o.action == action && o.kind == Read)
              && (exists o :: o in os && o.action == action && DenyEnforced in o.evidence)
              && (forall o :: o in os && o.action == action ==>
                    ExecutionObserved !in o.evidence && CrossingConfirmed !in o.evidence)
              && (forall o :: o in os && o.action == action ==> Settled(Partition(os, action, o.boundary), es))
  {
    forall o | o in os
      ensures Unresolved(Partition(os, o.action, o.boundary), es) == !Settled(Partition(os, o.action, o.boundary), es)
    {
      SettledExactly(Partition(os, o.action, o.boundary), es);
    }
    hide Unresolved, Settled, Partition;
  }
}
