/** A session's seven outcome counts, over all of its actions. */
module OutcomeCounts {
  import opened ActionOutcomes

  datatype Counts = Counts(
    permissionActions: nat, denialsIssued: nat, denialsEnforced: nat, readsStopped: nat,
    rewriteActionsIssued: nat, rewriteActionsEnforced: nat, unresolvedActions: nat)

  // ---- what each count counts ------------------------------------------------

  ghost function Partition(os: set<Observation>, action: string, boundary: Boundary): set<Observation> {
    set o | o in os && o.action == action && o.boundary == boundary
  }

  ghost function Carriers(os: set<Observation>, bit: Bit): set<string> {
    set o | o in os && bit in o.evidence :: o.action
  }

  ghost function Readers(os: set<Observation>): set<string> {
    set o | o in os && o.kind.Read? :: o.action
  }

  ghost function UnresolvedActions(os: set<Observation>, es: set<Event>): set<string> {
    set o | o in os && Unresolved(Partition(os, o.action, o.boundary), es) :: o.action
  }

  ghost function StoppedReads(os: set<Observation>, es: set<Event>): set<string> {
    Readers(os) * Carriers(os, DenyEnforced) - Carriers(os, ExecutionObserved) - Carriers(os, CrossingConfirmed)
      - UnresolvedActions(os, es)
  }

  ghost function Outcomes(os: set<Observation>, es: set<Event>): Counts {
    Counts(
      |Carriers(os, PermissionIssued)|, |Carriers(os, DenyIssued)|, |Carriers(os, DenyEnforced)|,
      |StoppedReads(os, es)|,
      |Carriers(os, RewriteIssued)|, |Carriers(os, RewriteEnforced)|, |UnresolvedActions(os, es)|)
  }

  // ---- the computation -------------------------------------------------------

  type Key = (string, Boundary)

  function KeyOf(o: Observation): Key {
    (o.action, o.boundary)
  }

  /** Events by observation, in order. */
  method GroupEvents(events: seq<Event>) returns (eventsOf: map<string, seq<Event>>)
    ensures ById(eventsOf) && Grouped(eventsOf) == Elems(events)
  {
    eventsOf := map[];
    assert Elems(events[..0]) == {};
    for i := 0 to |events|
      invariant ById(eventsOf) && Grouped(eventsOf) == Elems(events[..i])
    {
      var e := events[i];
      assert Elems(events[..i + 1]) == Elems(events[..i]) + {e};
      eventsOf := Append(eventsOf, e);
    }
    assert events[..|events|] == events;
  }

  method Append(eventsOf: map<string, seq<Event>>, e: Event) returns (grown: map<string, seq<Event>>)
    requires ById(eventsOf)
    ensures ById(grown) && Grouped(grown) == Grouped(eventsOf) + {e}
  {
    var before := if e.observation in eventsOf then eventsOf[e.observation] else [];
    grown := eventsOf[e.observation := before + [e]];
    forall x ensures x in Grouped(grown) <==> x in Grouped(eventsOf) || x == e {
      if x == e {
        assert x in grown[e.observation];
      } else if x in Grouped(eventsOf) {
        assert x in eventsOf[x.observation] && x in grown[x.observation];
      }
    }
  }

  ghost predicate Partitioned(partitions: map<Key, seq<Observation>>, os: set<Observation>) {
    && (forall o :: o in os ==> KeyOf(o) in partitions)
    && (forall k, o :: k in partitions && o in partitions[k] ==> o in os && KeyOf(o) == k)
    && (forall k, o :: k in partitions && o in os && KeyOf(o) == k ==> o in partitions[k])
    && (forall k :: k in partitions ==> partitions[k] != [])
  }

  lemma PartitionedGives(partitions: map<Key, seq<Observation>>, os: set<Observation>, k: Key)
    requires Partitioned(partitions, os) && k in partitions
    ensures Elems(partitions[k]) == Partition(os, k.0, k.1)
  {
    forall o ensures o in Elems(partitions[k]) <==> o in Partition(os, k.0, k.1) {
      assert KeyOf(o) == k <==> o.action == k.0 && o.boundary == k.1;
    }
  }

  ghost predicate Carried(carried: map<string, Evidence>, os: set<Observation>) {
    && (forall o :: o in os ==> o.action in carried)
    && (forall a, bit :: a in carried && bit in carried[a] <==> a in Carriers(os, bit))
    && (forall a :: a in carried ==> exists o :: o in os && o.action == a)
  }

  lemma ReadersGrow(os: set<Observation>, o: Observation)
    ensures Readers(os + {o}) == if o.kind.Read? then Readers(os) + {o.action} else Readers(os)
  {
  }

  method Collect(observations: seq<Observation>)
    returns (partitions: map<Key, seq<Observation>>, carried: map<string, Evidence>, readers: set<string>)
    ensures Partitioned(partitions, Elems(observations))
    ensures Carried(carried, Elems(observations))
    ensures readers == Readers(Elems(observations))
  {
    partitions, carried, readers := map[], map[], {};
    ghost var os: set<Observation> := {};
    assert Elems(observations[..0]) == os && Partitioned(partitions, os) && Carried(carried, os);
    hide Partitioned, Carried;
    for i := 0 to |observations|
      invariant os == Elems(observations[..i])
      invariant Partitioned(partitions, os) && Carried(carried, os) && readers == Readers(os)
    {
      var o := observations[i];
      assert Elems(observations[..i + 1]) == Elems(observations[..i]) + {o};
      partitions := FilePartition(partitions, o, os);
      carried := FileEvidence(carried, o, os);
      ReadersGrow(os, o);
      if o.kind.Read? {
        readers := readers + {o.action};
      }
      os := os + {o};
    }
    assert observations[..|observations|] == observations;
  }

  method FilePartition(partitions: map<Key, seq<Observation>>, o: Observation, ghost os: set<Observation>)
    returns (grown: map<Key, seq<Observation>>)
    requires Partitioned(partitions, os)
    ensures Partitioned(grown, os + {o})
  {
    var before := if KeyOf(o) in partitions then partitions[KeyOf(o)] else [];
    grown := partitions[KeyOf(o) := before + [o]];
  }

  method FileEvidence(carried: map<string, Evidence>, o: Observation, ghost os: set<Observation>)
    returns (grown: map<string, Evidence>)
    requires Carried(carried, os)
    ensures Carried(grown, os + {o})
  {
    var before := if o.action in carried then carried[o.action] else {};
    grown := carried[o.action := before + o.evidence];
    forall bit ensures Carriers(os + {o}, bit) == Carriers(os, bit) + (if bit in o.evidence then {o.action} else {}) {}
    forall a | a in grown ensures exists x :: x in os + {o} && x.action == a {
      if a == o.action {
        assert o in os + {o};
      }
    }
  }

  method UnresolvedOf(partitions: map<Key, seq<Observation>>, eventsOf: map<string, seq<Event>>,
                      ghost os: set<Observation>)
    returns (unresolved: set<string>)
    requires Partitioned(partitions, os) && ById(eventsOf)
    ensures unresolved == UnresolvedActions(os, Grouped(eventsOf))
  {
    unresolved := {};
    ghost var es := Grouped(eventsOf);
    var todo := partitions.Keys;
    while todo != {}
      invariant todo <= partitions.Keys
      invariant forall o :: o in os && KeyOf(o) !in todo && Unresolved(Partition(os, o.action, o.boundary), es) ==>
                o.action in unresolved
      invariant unresolved <= UnresolvedActions(os, es)
    {
      var k :| k in todo;
      PartitionedGives(partitions, os, k);
      var open := PartitionUnresolved(partitions[k], eventsOf);
      if open {
        var o := partitions[k][0];
        assert o in os && KeyOf(o) == k && o.action == k.0;
        unresolved := unresolved + {k.0};
      }
      todo := todo - {k};
    }
    assert forall o :: o in os ==> KeyOf(o) !in todo;
  }

  lemma CarriersAre(observations: seq<Observation>, bit: Bit)
    ensures Carriers(Elems(observations), bit) == set o | o in observations && bit in o.evidence :: o.action
  {
  }

  /** The distinct actions whose collected evidence has the bit. */
  method WithBit(carried: map<string, Evidence>, bit: Bit, ghost os: set<Observation>) returns (actions: set<string>)
    requires Carried(carried, os)
    ensures actions == Carriers(os, bit)
  {
    actions := set a | a in carried && bit in carried[a];
    forall a ensures a in actions <==> a in Carriers(os, bit) {
      if a in Carriers(os, bit) {
        assert a in carried;
      }
    }
  }

  method ResolveOutcomes(observations: seq<Observation>, events: seq<Event>) returns (counts: Counts)
    ensures counts == Outcomes(Elems(observations), Elems(events))
    ensures counts.permissionActions == |set o | o in observations && PermissionIssued in o.evidence :: o.action|
    ensures counts.denialsIssued == |set o | o in observations && DenyIssued in o.evidence :: o.action|
    ensures counts.denialsEnforced == |set o | o in observations && DenyEnforced in o.evidence :: o.action|
    ensures counts.rewriteActionsIssued == |set o | o in observations && RewriteIssued in o.evidence :: o.action|
    ensures counts.rewriteActionsEnforced == |set o | o in observations && RewriteEnforced in o.evidence :: o.action|
  {
    forall bit { CarriersAre(observations, bit); }
    var eventsOf := GroupEvents(events);
    var partitions, carried, readers := Collect(observations);
    ghost var os := Elems(observations);
    var unresolved := UnresolvedOf(partitions, eventsOf, os);
    var permitted := WithBit(carried, PermissionIssued, os);
    var denied := WithBit(carried, DenyIssued, os);
    var stopped := WithBit(carried, DenyEnforced, os);
    var rewritten := WithBit(carried, RewriteIssued, os);
    var applied := WithBit(carried, RewriteEnforced, os);
    var executed := WithBit(carried, ExecutionObserved, os);
    var crossed := WithBit(carried, CrossingConfirmed, os);
    var readsStopped := readers * stopped - executed - crossed - unresolved;
    counts := Counts(|permitted|, |denied|, |stopped|, |readsStopped|, |rewritten|, |applied|, |unresolved|);
  }
}
