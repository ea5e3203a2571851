/** Charging first disclosures to a session's budget: one charge for a pair of subject and recipient,
    each the next step of its group's sublinear score. */
module DisclosureBudget {
  import opened Common

  /** Disclosures of one data type to one recipient share a score. */
  datatype Group = Group(dataType: string, recipient: nat)

  /** A charged disclosure. */
  datatype Row = Row(subject: nat, group: Group)

  /** The session's profile: what a group weighs, the natural logarithm, and the boundary each kind of
      destination lies behind. */
  datatype Profile = Profile(weight: Group -> real, ln: nat -> real, boundaryOf: nat -> nat)

  /** The score of n distinct disclosures in one group. */
  function GroupScore(p: Profile, g: Group, n: nat): real {
    if n == 0 then 0.0 else p.weight(g) * (1.0 + p.ln(n))
  }

  function NextDelta(p: Profile, g: Group, n: nat): real {
    GroupScore(p, g, n + 1) - GroupScore(p, g, n)
  }

  function Count(rows: seq<Row>, g: Group): nat {
    if rows == [] then 0
    else Count(rows[..|rows| - 1], g) + if rows[|rows| - 1].group == g then 1 else 0
  }

  /** What the rows were charged, each when it was added. */
  function Charged(p: Profile, rows: seq<Row>): real {
    if rows == [] then 0.0
    else
      var before, g := rows[..|rows| - 1], rows[|rows| - 1].group;
      Charged(p, before) + NextDelta(p, g, Count(before, g))
  }

  // ---- the sum over groups -------------------------------------------------------------

  function Total(p: Profile, groups: seq<Group>, rows: seq<Row>): real {
    if groups == [] then 0.0 else GroupScore(p, groups[0], Count(rows, groups[0])) + Total(p, groups[1..], rows)
  }

  predicate Distinct<T(==)>(s: seq<T>) {
    forall i, j :: 0 <= i < j < |s| ==> s[i] != s[j]
  }

  predicate Covers(groups: seq<Group>, rows: seq<Row>) {
    forall i :: 0 <= i < |rows| ==> rows[i].group in groups
  }

  /** One more row adds its group's next step to the sum, and nothing when its group is not summed. */
  lemma {:induction false} TotalStep(p: Profile, groups: seq<Group>, rows: seq<Row>, row: Row)
    requires Distinct(groups)
    ensures Total(p, groups, rows + [row])
         == Total(p, groups, rows)
          + if row.group in groups then NextDelta(p, row.group, Count(rows, row.group)) else 0.0
  {
    assert (rows + [row])[..|rows|] == rows;
    if groups == [] {
    } else {
      hide GroupScore;
      TotalStep(p, groups[1..], rows, row);
      assert Count(rows + [row], groups[0]) == Count(rows, groups[0]) + if row.group == groups[0] then 1 else 0;
    }
  }

  lemma {:induction false} NoRows(p: Profile, groups: seq<Group>)
    ensures Total(p, groups, []) == 0.0
  {
    if groups == [] {
    } else {
      NoRows(p, groups[1..]);
    }
  }

  /** Charging step by step, in whatever order the groups interleave, totals the score of every group
      at its final count. */
  lemma {:induction false} ChargesTelescope(p: Profile, groups: seq<Group>, rows: seq<Row>)
    requires Distinct(groups) && Covers(groups, rows)
    ensures Charged(p, rows) == Total(p, groups, rows)
  {
    if rows == [] {
      NoRows(p, groups);
    } else {
      var before, row := rows[..|rows| - 1], rows[|rows| - 1];
      ChargesTelescope(p, groups, before);
      TotalStep(p, groups, before, row);
      assert rows == before + [row];
    }
  }

  /** The groups of the rows, each once. */
  function Groups(rows: seq<Row>): seq<Group> {
    if rows == [] then []
    else
      var before, g := Groups(rows[..|rows| - 1]), rows[|rows| - 1].group;
      if g in before then before else before + [g]
  }

  lemma {:induction false} GroupsCover(rows: seq<Row>)
    ensures Distinct(Groups(rows)) && Covers(Groups(rows), rows)
  {
    if rows == [] {
    } else {
      GroupsCover(rows[..|rows| - 1]);
      assert forall i :: 0 <= i < |rows| - 1 ==> rows[i] == rows[..|rows| - 1][i];
    }
  }

  lemma {:induction false} CountsPresent(rows: seq<Row>, i: nat)
    requires i < |rows|
    ensures Count(rows, rows[i].group) > 0
  {
    if i == |rows| - 1 {
    } else {
      CountsPresent(rows[..|rows| - 1], i);
    }
  }

  lemma {:induction false} AbsentCountsZero(rows: seq<Row>, g: Group)
    requires forall i :: 0 <= i < |rows| ==> rows[i].group != g
    ensures Count(rows, g) == 0
  {
    if rows == [] {
    } else {
      AbsentCountsZero(rows[..|rows| - 1], g);
    }
  }

  lemma {:induction false} SameTotal(p: Profile, groups: seq<Group>, a: seq<Row>, b: seq<Row>)
    requires forall g :: Count(a, g) == Count(b, g)
    ensures Total(p, groups, a) == Total(p, groups, b)
  {
    if groups == [] {
    } else {
      SameTotal(p, groups[1..], a, b);
    }
  }

  /** Two charge histories with the same number of disclosures in every group cost the same. */
  lemma InterleavingIsIrrelevant(p: Profile, a: seq<Row>, b: seq<Row>)
    requires forall g :: Count(a, g) == Count(b, g)
    ensures Charged(p, a) == Charged(p, b)
  {
    var groups := Groups(a);
    GroupsCover(a);
    forall i | 0 <= i < |b| ensures b[i].group in groups {
      CountsPresent(b, i);
      if b[i].group !in groups {
        AbsentCountsZero(a, b[i].group);
      }
    }
    ChargesTelescope(p, groups, a);
    ChargesTelescope(p, groups, b);
    SameTotal(p, groups, a, b);
  }

  // ---- recording -----------------------------------------------------------------------------

  /** An event as far as charging looks at it. */
  datatype Record = Record(exposed: bool, crossingConfirmed: bool, boundary: nat, destination: nat,
                           subject: Option<nat>, recipient: Option<nat>, dataType: string)

  predicate Chargeable(p: Profile, e: Record) {
    && e.exposed && e.crossingConfirmed && e.boundary != 0 && e.boundary == p.boundaryOf(e.destination)
    && e.subject.Some? && e.recipient.Some?
  }

  predicate Resolved(e: Record) {
    e.subject.Some? || e.recipient.Some?
  }

  function RowOf(e: Record): Row
    requires e.subject.Some? && e.recipient.Some?
  {
    Row(e.subject.value, Group(e.dataType, e.recipient.value))
  }

  /** Some row already charges this row's subject and recipient. */
  predicate Paid(rows: seq<Row>, r: Row) {
    exists i :: 0 <= i < |rows| && SamePair(rows[i], r)
  }

  predicate SamePair(r: Row, r': Row) {
    r.subject == r'.subject && r.group.recipient == r'.group.recipient
  }

  /** A subject is charged once for a recipient. */
  predicate ChargedOnce(rows: seq<Row>) {
    forall i, j :: 0 <= i < j < |rows| ==> !SamePair(rows[i], rows[j])
  }

  /** The rows after a batch of events on an open session. */
  function AfterBatch(p: Profile, rows: seq<Row>, events: seq<Record>): seq<Row> {
    if events == [] then rows
    else
      var before, e := AfterBatch(p, rows, events[..|events| - 1]), events[|events| - 1];
      if Chargeable(p, e) && !Paid(before, RowOf(e)) then before + [RowOf(e)] else before
  }

  lemma {:induction false} BatchOnlyAppends(p: Profile, rows: seq<Row>, events: seq<Record>)
    ensures rows <= AfterBatch(p, rows, events)
    ensures ChargedOnce(rows) ==> ChargedOnce(AfterBatch(p, rows, events))
  {
    if events == [] {
    } else {
      BatchOnlyAppends(p, rows, events[..|events| - 1]);
    }
  }

  /** A pair is paid after the batch exactly when it was before or a chargeable event of the batch
      names it. */
  lemma {:induction false} BatchPays(p: Profile, rows: seq<Row>, events: seq<Record>, r: Row)
    ensures Paid(AfterBatch(p, rows, events), r)
        <==> Paid(rows, r) || exists k :: 0 <= k < |events| && Names(p, events[k], r)
  {
    if events == [] {
    } else {
      var shorter, e := events[..|events| - 1], events[|events| - 1];
      var before := AfterBatch(p, rows, shorter);
      BatchPays(p, rows, shorter, r);
      assert forall k :: 0 <= k < |shorter| ==> events[k] == shorter[k];
      if Chargeable(p, e) && !Paid(before, RowOf(e)) {
        PaidGrows(before, RowOf(e), r);
      }
    }
  }

  /** An exposed, confirmed disclosure of this subject to this recipient, at the boundary that its kind of
      destination lies behind, which is not the local one. */
  predicate Names(p: Profile, e: Record, r: Row) {
    && e.exposed && e.crossingConfirmed && e.boundary != 0 && e.boundary == p.boundaryOf(e.destination)
    && e.subject == Some(r.subject) && e.recipient == Some(r.group.recipient)
  }

  /** A batch none of whose events is an exposed and confirmed crossing of a real boundary, between known ends,
      charges nothing. */
  lemma {:induction false} NothingChargeable(p: Profile, rows: seq<Row>, events: seq<Record>)
    requires forall k :: 0 <= k < |events| ==>
               var e := events[k];
               || !e.exposed || !e.crossingConfirmed || e.boundary == 0 || e.boundary != p.boundaryOf(e.destination)
               || e.subject == None || e.recipient == None
    ensures AfterBatch(p, rows, events) == rows
  {
    if events == [] {
    } else {
      NothingChargeable(p, rows, events[..|events| - 1]);
    }
  }

  lemma OneGroupScores(p: Profile, g: Group, rows: seq<Row>)
    requires forall i :: 0 <= i < |rows| ==> rows[i].group == g
    ensures Charged(p, rows) == GroupScore(p, g, |rows|)
  {
    ChargesTelescope(p, [g], rows);
    AllCounted(g, rows);
    assert [g][1..] == [];
    hide GroupScore, Count, Charged;
  }

  /** Disclosures of one data type to one recipient cost the group's weight times one plus the logarithm of
      their number. */
  lemma OneGroupCosts(p: Profile, g: Group, rows: seq<Row>, n: nat, cost: real)
    requires |rows| == n && forall i :: 0 <= i < |rows| ==> rows[i].group == g
    requires cost == if n == 0 then 0.0 else p.weight(g) * (1.0 + p.ln(n))
    ensures Charged(p, rows) == cost
  {
    ScoreIs(p, g, n);
    hide *;
    OneGroupScores(p, g, rows);
  }

  lemma ScoreIs(p: Profile, g: Group, n: nat)
    ensures GroupScore(p, g, n) == if n == 0 then 0.0 else p.weight(g) * (1.0 + p.ln(n))
  {
  }

  lemma {:induction false} AllCounted(g: Group, rows: seq<Row>)
    requires forall i :: 0 <= i < |rows| ==> rows[i].group == g
    ensures Count(rows, g) == |rows|
  {
    if rows == [] {
    } else {
      AllCounted(g, rows[..|rows| - 1]);
    }
  }

  lemma PaidGrows(rows: seq<Row>, added: Row, r: Row)
    ensures Paid(rows + [added], r)
        <==> Paid(rows, r) || SamePair(added, r)
  {
    var now := rows + [added];
    assert now[|rows|] == added && forall i :: 0 <= i < |rows| ==> now[i] == rows[i];
  }

  /** Charging a batch: the rows it leaves and what it costs. */
  method ChargeBatch(p: Profile, open: bool, rows: seq<Row>, events: seq<Record>) returns (now: seq<Row>, total: real)
    requires open || forall i :: 0 <= i < |events| ==> !Resolved(events[i])
    ensures now == AfterBatch(p, rows, events)
    ensures total == Charged(p, now) - Charged(p, rows)
  {
    now, total := rows, 0.0;
    for i := 0 to |events|
      invariant now == AfterBatch(p, rows, events[..i])
      invariant total == Charged(p, now) - Charged(p, rows)
    {
      var e := events[i];
      assert events[..i + 1][..i] == events[..i];
      if open && Chargeable(p, e) && !Paid(now, RowOf(e)) {
        var g := RowOf(e).group;
        total := total + NextDelta(p, g, Count(now, g));
        assert (now + [RowOf(e)])[..|now|] == now;
        now := now + [RowOf(e)];
      }
    }
    assert events[..|events|] == events;
  }

  /** What one delivery charged: how many rows, and how much. */
  datatype Receipt = Receipt(charges: nat, delta: real)

  /** The rows a delivery charged: the first of them and how many. */
  datatype Slice = Slice(first: nat, count: nat)

  function ReceiptOf(p: Profile, rows: seq<Row>, slice: Slice): Receipt
    requires slice.first + slice.count <= |rows|
  {
    Receipt(slice.count, Charged(p, rows[..slice.first + slice.count]) - Charged(p, rows[..slice.first]))
  }

  /** A receipt stays what it was, whatever is charged later. */
  lemma ReceiptIsStable(p: Profile, rows: seq<Row>, later: seq<Row>, slice: Slice)
    requires slice.first + slice.count <= |rows| && rows <= later
    ensures ReceiptOf(p, later, slice) == ReceiptOf(p, rows, slice)
  {
    assert later[..slice.first + slice.count] == rows[..slice.first + slice.count];
    assert later[..slice.first] == rows[..slice.first];
  }

  lemma NewReceipt(p: Profile, rows: seq<Row>, now: seq<Row>)
    requires rows <= now
    ensures ReceiptOf(p, now, Slice(|rows|, |now| - |rows|))
         == Receipt(|now| - |rows|, Charged(p, now) - Charged(p, rows))
  {
    assert now[..|rows|] == rows && now[..|now|] == now;
  }

  class Account {
    const profile: Profile
    /** Neither ended nor found unavailable. */
    var open: bool
    var rows: seq<Row>
    var score: real
    var deliveries: map<string, Slice>

    ghost predicate Valid()
      reads this
    {
      && score == Charged(profile, rows) && ChargedOnce(rows)
      && forall k :: k in deliveries ==> deliveries[k].first + deliveries[k].count <= |rows|
    }

    constructor (p: Profile)
      ensures Valid() && open && rows == [] && score == 0.0 && deliveries == map[] && profile == p
    {
      profile, open, rows, score, deliveries := p, true, [], 0.0, map[];
    }

    method Close()
      requires Valid()
      modifies this`open
      ensures Valid() && !open
    {
      open := false;
    }

    /** Records one delivery and charges its first disclosures. A repeated delivery returns its first
        receipt and writes nothing; a resolved event on a closed session is refused. */
    method RecordObservation(key: string, events: seq<Record>) returns (r: Result<Receipt, ()>)
      requires Valid()
      modifies this`rows, this`score, this`deliveries
      ensures Valid()
      ensures key in old(deliveries) || r.Err? ==>
                rows == old(rows) && score == old(score) && deliveries == old(deliveries)
      ensures var known := exists i :: 0 <= i < |events| && (events[i].subject.Some? || events[i].recipient.Some?);
              r.Err? <==> key !in old(deliveries) && !open && known
      ensures r.Ok? ==> key in deliveries && r.value == ReceiptOf(profile, rows, deliveries[key])
      ensures r.Ok? && key !in old(deliveries) ==>
                && rows == AfterBatch(profile, old(rows), events) && old(rows) <= rows
                && deliveries == old(deliveries)[key := Slice(|old(rows)|, |rows| - |old(rows)|)]
    {
      hide Charged, ChargedOnce, AfterBatch, ReceiptOf;
      if key in deliveries {
        return Ok(ReceiptOf(profile, rows, deliveries[key]));
      }
      for i := 0 to |events|
        invariant open || forall j :: 0 <= j < i ==> !Resolved(events[j])
      {
        if !open && Resolved(events[i]) {
          return Err(());
        }
      }
      var first := |rows|;
      var now, total := ChargeBatch(profile, open, rows, events);
      BatchOnlyAppends(profile, rows, events);
      NewReceipt(profile, rows, now);
      rows, score, deliveries := now, score + total, deliveries[key := Slice(first, |now| - first)];
      r := Ok(Receipt(|now| - first, total));
    }
  }
}
