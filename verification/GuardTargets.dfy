/** Correlating denied reads of one evaluated path representation: a session-local index that is
    read before an observation is recorded and written only after it committed. */
module GuardTargets {
  import opened Common

  /** The evaluated representation; the keyed digest the index uses is injective in it. */
  type Representation = string

  /** Random target IDs are fresh, hence distinct. */
  type Token = nat

  type EventId = nat

  datatype Target = Target(id: Token, sameAs: Option<EventId>)

  /** A stored row, with the window and the representation it was recorded for. */
  datatype Row = Row(window: nat, text: Representation, target: Target)

  type Rows = map<EventId, Row>

  /** What became of one delivery's write. */
  datatype Write = CoreFails | Duplicate | TargetFails | Recorded(event: EventId)

  datatype Event =
    | Deliver(text: Representation, newToken: Token, write: Write)
    | BeginOuter
    | CommitOuter
    | RollBackOuter
    | NewWindow

  /** `staged` holds the rows written inside an outer transaction that is still open. */
  datatype View = View(
    window: nat, seen: map<Representation, (Token, EventId)>, rows: Rows, staged: Option<Rows>, used: set<Token>)

  function Proposal(seen: map<Representation, (Token, EventId)>, text: Representation, newToken: Token): Target {
    if text in seen then Target(seen[text].0, Some(seen[text].1)) else Target(newToken, None)
  }

  function Recalled(seen: map<Representation, (Token, EventId)>, text: Representation, t: Target, event: EventId)
    : map<Representation, (Token, EventId)>
  {
    if text in seen then seen else seen[text := (t.id, event)]
  }

  predicate Later(id: EventId, rows: Rows) {
    forall x :: x in rows ==> x < id
  }

  /** Row IDs grow, also past the rows an open transaction has written. */
  predicate Enabled(v: View, e: Event) {
    match e
    case Deliver(_, newToken, write) =>
      newToken !in v.used
      && (write.Recorded? ==> Later(write.event, v.rows) && (v.staged.Some? ==> Later(write.event, v.staged.value)))
    case BeginOuter => v.staged.None?
    case CommitOuter => v.staged.Some?
    case RollBackOuter => v.staged.Some?
    case NewWindow => true
  }

  function Next(v: View, e: Event): View
    requires Enabled(v, e)
  {
    match e
    case Deliver(text, newToken, write) =>
      var t := Proposal(v.seen, text, newToken);
      var w := v.(used := v.used + {newToken});
      if !write.Recorded? then w
      else if v.staged.Some? then w.(staged := Some(v.staged.value[write.event := Row(v.window, text, t)]))
      else w.(rows := v.rows[write.event := Row(v.window, text, t)], seen := Recalled(v.seen, text, t, write.event))
    case BeginOuter => v.(staged := Some(map[]))
    case CommitOuter => v.(rows := v.rows + v.staged.value, staged := None)
    case RollBackOuter => v.(staged := None)
    case NewWindow => v.(window := v.window + 1, seen := map[])
  }

  // ---- stars -------------------------------------------------------------------------------

  /** A row without a link, or linked to an earlier committed row of the same window,
      representation and target that itself has no link. */
  ghost predicate Star(rows: Rows, id: EventId, r: Row) {
    r.target.sameAs.Some? ==>
      var hub := r.target.sameAs.value;
      hub < id && hub in rows && rows[hub] == Row(r.window, r.text, Target(r.target.id, None))
  }

  ghost predicate Agree(r: Row, r': Row) {
    r.target.id == r'.target.id ==> r.window == r'.window && r.text == r'.text
  }

  /** A remembered event is a committed hub of the current window. */
  ghost predicate Remembers(v: View, text: Representation)
    requires text in v.seen
  {
    var (id, event) := v.seen[text];
    event in v.rows && v.rows[event] == Row(v.window, text, Target(id, None))
  }

  ghost predicate Inv(v: View) {
    && (forall text :: text in v.seen ==> Remembers(v, text))
    && (forall id :: id in v.rows ==> Star(v.rows, id, v.rows[id]) && v.rows[id].target.id in v.used)
    && (forall id, id' :: id in v.rows && id' in v.rows ==> Agree(v.rows[id], v.rows[id']))
    && (v.staged.Some? ==>
          var s := v.staged.value;
          && (forall id :: id in s ==> id !in v.rows && Star(v.rows, id, s[id]) && s[id].target.id in v.used)
          && (forall id, id' :: id in s && id' in s ==> Agree(s[id], s[id']))
          && (forall id, id' :: id in s && id' in v.rows ==> Agree(s[id], v.rows[id']))
          && (forall id, id' :: id in s && id' in v.rows ==> id' < id))
  }

  ghost predicate Initial(v: View) {
    v.seen == map[] && v.rows == map[] && v.staged.None?
  }

  ghost predicate Run(vs: seq<View>, es: seq<Event>) {
    && |vs| == |es| + 1 && Initial(vs[0])
    && forall i :: 0 <= i < |es| ==> Enabled(vs[i], es[i]) && vs[i + 1] == Next(vs[i], es[i])
  }

  lemma StagedKeepsInv(v: View, e: Event)
    requires Inv(v) && Enabled(v, e) && e.Deliver? && (e.write.Recorded? ==> v.staged.Some?)
    ensures Inv(Next(v, e))
  {
  }

  lemma CommittedKeepsInv(v: View, e: Event)
    requires Inv(v) && Enabled(v, e) && e.Deliver? && e.write.Recorded? && v.staged.None?
    ensures Inv(Next(v, e))
  {
  }

  lemma DeliverKeepsInv(v: View, e: Event)
    requires Inv(v) && Enabled(v, e) && e.Deliver?
    ensures Inv(Next(v, e))
  {
    hide Inv, Next, Enabled;
    if e.write.Recorded? && v.staged.None? {
      CommittedKeepsInv(v, e);
    } else {
      StagedKeepsInv(v, e);
    }
  }

  lemma CommitKeepsInv(v: View)
    requires Inv(v) && v.staged.Some?
    ensures Inv(Next(v, CommitOuter))
  {
  }

  lemma NextKeepsInv(v: View, e: Event)
    requires Inv(v) && Enabled(v, e)
    ensures Inv(Next(v, e))
  {
    match e
    case Deliver(_, _, _) => DeliverKeepsInv(v, e); hide Next;
    case CommitOuter => CommitKeepsInv(v); hide Next;
    case _ =>
  }

  lemma {:induction false} RunKeepsInv(vs: seq<View>, es: seq<Event>, i: nat)
    requires Run(vs, es) && i <= |es|
    ensures Inv(vs[i])
  {
    if i == 0 {
    } else {
      RunKeepsInv(vs, es, i - 1);
      NextKeepsInv(vs[i - 1], es[i - 1]);
    }
  }

  /** Over every run of deliveries, failures, duplicates, outer transactions and clears, the stored
      links form stars. */
  lemma LinksFormStars(vs: seq<View>, es: seq<Event>, i: nat, id: EventId)
    requires Run(vs, es) && i <= |es| && id in vs[i].rows && vs[i].rows[id].target.sameAs.Some?
    ensures var r, hub := vs[i].rows[id], vs[i].rows[id].target.sameAs.value;
      && hub < id && hub in vs[i].rows && vs[i].rows[hub].target == Target(r.target.id, None)
      && vs[i].rows[hub].window == r.window && vs[i].rows[hub].text == r.text
  {
    RunKeepsInv(vs, es, i);
    assert Star(vs[i].rows, id, vs[i].rows[id]);
  }

  /** Rows that share a target ID were recorded for one representation in one window. */
  lemma SharedTargetMeansSameText(vs: seq<View>, es: seq<Event>, i: nat, id: EventId, id': EventId)
    requires Run(vs, es) && i <= |es| && id in vs[i].rows && id' in vs[i].rows
    requires vs[i].rows[id].target.id == vs[i].rows[id'].target.id
    ensures vs[i].rows[id].text == vs[i].rows[id'].text && vs[i].rows[id].window == vs[i].rows[id'].window
  {
    RunKeepsInv(vs, es, i);
    assert Agree(vs[i].rows[id], vs[i].rows[id']);
  }

  // ---- when a denial is linked ------------------------------------------------------------------

  /** Step k records a denial of this representation outside any transaction. */
  ghost predicate Commits(vs: seq<View>, es: seq<Event>, k: nat, text: Representation)
    requires |vs| == |es| + 1
  {
    k < |es| && es[k].Deliver? && es[k].text == text && es[k].write.Recorded? && vs[k].staged.None?
  }

  /** No new window opens from step i up to step j. */
  predicate SameWindow(es: seq<Event>, i: nat, j: nat) {
    forall k :: i <= k < j && k < |es| ==> es[k] != NewWindow
  }

  /** The first committed denial of a representation in a window has a fresh target and no link. */
  ghost predicate FirstOf(vs: seq<View>, es: seq<Event>, i: nat, text: Representation)
    requires |vs| == |es| + 1
  {
    Commits(vs, es, i, text) && forall k :: 0 <= k < i && Commits(vs, es, k, text) ==> !SameWindow(es, k, i)
  }

  lemma {:induction false} RememberedNeedsCommit(vs: seq<View>, es: seq<Event>, j: nat, text: Representation)
    returns (i: nat)
    requires Run(vs, es) && j <= |es| && text in vs[j].seen
    ensures i < j && Commits(vs, es, i, text) && SameWindow(es, i, j)
  {
    assert Enabled(vs[j - 1], es[j - 1]) && vs[j - 1 + 1] == Next(vs[j - 1], es[j - 1]);
    if text in vs[j - 1].seen {
      i := RememberedNeedsCommit(vs, es, j - 1, text);
    } else {
      i := j - 1;
    }
  }

  lemma {:induction false} RememberedInWindow(vs: seq<View>, es: seq<Event>, i: nat, j: nat, text: Representation)
    requires Run(vs, es) && i <= j <= |es| && text in vs[i].seen && SameWindow(es, i, j)
    ensures text in vs[j].seen && vs[j].seen[text] == vs[i].seen[text]
  {
    if i == j {
    } else {
      RememberedInWindow(vs, es, i, j - 1, text);
      assert Enabled(vs[j - 1], es[j - 1]) && vs[j - 1 + 1] == Next(vs[j - 1], es[j - 1]);
    }
  }

  /** The first committed denial of a representation in a window gets the fresh target and no link. */
  lemma FirstIsUnlinked(vs: seq<View>, es: seq<Event>, i: nat, text: Representation)
    requires Run(vs, es) && FirstOf(vs, es, i, text)
    ensures es[i].write.event in vs[i + 1].rows
    ensures vs[i + 1].rows[es[i].write.event].target == Target(es[i].newToken, None)
    ensures text in vs[i + 1].seen && vs[i + 1].seen[text] == (es[i].newToken, es[i].write.event)
  {
    if text in vs[i].seen {
      var k := RememberedNeedsCommit(vs, es, i, text);
    }
    assert Enabled(vs[i], es[i]) && vs[i + 1] == Next(vs[i], es[i]);
  }

  /** Every later committed denial of it in the same window shares its target and links to it. */
  lemma RepeatsAreLinked(vs: seq<View>, es: seq<Event>, i: nat, j: nat, text: Representation)
    requires Run(vs, es) && FirstOf(vs, es, i, text) && i < j && Commits(vs, es, j, text) && SameWindow(es, i, j)
    ensures es[j].write.event in vs[j + 1].rows
    ensures vs[j + 1].rows[es[j].write.event].target == Target(es[i].newToken, Some(es[i].write.event))
  {
    FirstIsUnlinked(vs, es, i, text);
    RememberedInWindow(vs, es, i + 1, j, text);
    assert Enabled(vs[j], es[j]) && vs[j + 1] == Next(vs[j], es[j]);
  }

  // ---- the index and its use ------------------------------------------------------------------

  class GuardTargetIndex {
    var seen: map<Representation, (Token, EventId)>

    constructor ()
      ensures seen == map[]
    {
      seen := map[];
    }

    method Prepare(text: Representation, newToken: Token) returns (target: Target)
      ensures target == Proposal(seen, text, newToken)
    {
      if text in seen {
        return Target(seen[text].0, Some(seen[text].1));
      }
      return Target(newToken, None);
    }

    method Remember(text: Representation, target: Target, event: EventId)
      modifies this
      ensures seen == Recalled(old(seen), text, target, event)
    {
      if text !in seen {
        seen := seen[text := (target.id, event)];
      }
    }

    method Clear()
      modifies this
      ensures seen == map[]
    {
      seen := map[];
    }
  }

  /** One session's guarded denials: the engine's index and the ledger rows behind it. */
  class Recorder {
    const index: GuardTargetIndex
    var rows: Rows
    var staged: Option<Rows>
    var window: nat
    ghost var used: set<Token>

    ghost function Now(): View
      reads this, index
    {
      View(window, index.seen, rows, staged, used)
    }

    constructor ()
      ensures Initial(Now()) && Inv(Now()) && fresh(index)
    {
      index := new GuardTargetIndex();
      rows, staged, window, used := map[], None, 0, {};
    }

    /** Prepare the target, record the observation with it, and remember it only when the write
        left a row behind and no transaction is open any more. */
    method Deliver(text: Representation, newToken: Token, write: Write)
      requires Inv(Now()) && Enabled(Now(), Event.Deliver(text, newToken, write))
      modifies this, index
      ensures Now() == Next(old(Now()), Event.Deliver(text, newToken, write)) && Inv(Now())
    {
      NextKeepsInv(Now(), Event.Deliver(text, newToken, write));
      var target := index.Prepare(text, newToken);
      used := used + {newToken};
      if !write.Recorded? {
        return;
      }
      if staged.Some? {
        staged := Some(staged.value[write.event := Row(window, text, target)]);
      } else {
        rows := rows[write.event := Row(window, text, target)];
        index.Remember(text, target, write.event);
      }
    }

    method ClearIdentity()
      requires Inv(Now())
      modifies this, index
      ensures Now() == Next(old(Now()), NewWindow) && Inv(Now())
    {
      NextKeepsInv(Now(), NewWindow);
      index.Clear();
      window := window + 1;
    }
  }
}
