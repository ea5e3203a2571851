/** Who may hash identities for a session: accounting keys under split locking, session starts and
    ends, lazy attachment, failed ledger writes and daemon restarts.

    Each event below is one critical section under the daemon's lock. A hook's own work is two of
    them with an unlocked scan between, so any events may come between `Resolve` and `Observe`. */
module SessionIdentity {
  import opened Common

  type Sid = string

  /** Accounting keys are fresh random values, hence distinct. */
  type Key = nat

  /** A session row: version 2 or legacy, accounting available or not, ended or open. */
  datatype Row = Row(version2: bool, available: bool, ended: bool)

  /** What one critical section's ledger calls, and the installation of a key, may do wrong. */
  datatype Faults = Faults(activate: bool, install: bool, mark: bool, start: bool, record: bool, end: bool)

  /** The ledger's rows; the daemon's engines, each with its accounting key if it has one; the
      daemon's keys; and, as history, every identity hash ever recorded, the key each session was
      activated with, and all keys ever generated. */
  datatype View = View(
    running: bool, rows: map<Sid, Row>, engines: map<Sid, Option<Key>>, keys: map<Sid, Key>,
    hashed: set<(Sid, Key)>, firstKey: map<Sid, Key>, minted: set<Key>)

  datatype Event =
    | Boot(faults: Faults)
    | Halt
    | Start(sid: Sid, newKey: Key, faults: Faults)
    | End(sid: Sid, faults: Faults)
    | Resolve(sid: Sid, faults: Faults)
    | Observe(sid: Sid, faults: Faults)

  // ---- the critical sections, as functions ------------------------------------------------

  predicate Usable(rows: map<Sid, Row>, sid: Sid) {
    sid in rows && rows[sid].version2 && rows[sid].available && !rows[sid].ended
  }

  /** This process's key for the session, or none when it is ended, unavailable or not held. */
  function UsableKey(v: View, sid: Sid): Option<Key> {
    if Usable(v.rows, sid) && sid in v.keys then Some(v.keys[sid]) else None
  }

  function Under(sid: Sid, key: Option<Key>): set<(Sid, Key)> {
    if key.Some? then {(sid, key.value)} else {}
  }

  function Marked(v: View, sid: Sid): View
    requires sid in v.rows
  {
    v.(rows := v.rows[sid := v.rows[sid].(available := false)])
  }

  function Discarded(v: View, sid: Sid): View {
    v.(engines := v.engines - {sid}, keys := v.keys - {sid})
  }

  /** An enforcement engine without a key, after the lost key's session is marked unavailable. */
  function Attached(v: View, sid: Sid, f: Faults): View
    requires sid in v.rows
  {
    var lost := v.rows[sid].available && sid !in v.keys;
    if lost && f.mark then v
    else
      var w := if lost then Marked(v, sid) else v;
      if f.start then w else w.(engines := w.engines[sid := None])
  }

  /** The one place a key is made: the row and the key's first use commit together, and only then is
      the key installed; a key that cannot be is discarded, and its session marked. */
  function Activated(v: View, sid: Sid, newKey: Key, f: Faults): View {
    var w := v.(minted := v.minted + {newKey});
    if f.activate then w
    else
      w.(rows := w.rows[sid := Row(true, !f.install || f.mark, false)], hashed := w.hashed + {(sid, newKey)},
         firstKey := w.firstKey[sid := newKey],
         engines := if f.install then w.engines - {sid} else w.engines[sid := Some(newKey)],
         keys := if f.install then w.keys - {sid} else w.keys[sid := newKey])
  }

  function Started(v: View, sid: Sid, newKey: Key, f: Faults): View {
    if (sid in v.rows && v.rows[sid].ended) || sid in v.engines then v
    else if sid !in v.rows then Activated(v, sid, newKey, f)
    else if v.rows[sid].version2 then Attached(v, sid, f)
    else if f.start then v
    else v.(engines := v.engines[sid := None])
  }

  /** The session's engine: a temporary one after its end, the registered one, or a new one. */
  function Resolved(v: View, sid: Sid, f: Faults): View {
    if (sid in v.rows && v.rows[sid].ended) || sid in v.engines then v
    else if sid in v.rows && v.rows[sid].version2 then Attached(v, sid, f)
    else if f.start then v
    else v.(rows := if sid in v.rows then v.rows else v.rows[sid := Row(false, true, false)],
            engines := v.engines[sid := None])
  }

  /** The accounting key the resolved engine may use for this observation. */
  function EngineKey(v: View, sid: Sid): Option<Key> {
    if Usable(v.rows, sid) && sid in v.engines then v.engines[sid] else None
  }

  function Observed(v: View, sid: Sid, f: Faults): View {
    var w := Resolved(v, sid, f);
    var resolved := sid in w.rows && (w.rows[sid].ended || sid in w.engines);
    if !resolved || f.record || !w.rows[sid].version2 then w
    else w.(hashed := w.hashed + Under(sid, UsableKey(w, sid)) + Under(sid, EngineKey(w, sid)))
  }

  function Ended(v: View, sid: Sid, f: Faults): View {
    if f.end || sid !in v.rows then Discarded(v, sid)
    else Discarded(v.(rows := v.rows[sid := v.rows[sid].(ended := true)],
                      hashed := v.hashed + Under(sid, UsableKey(v, sid))), sid)
  }

  /** A session that nobody here holds a key for is open and available no longer. */
  function WithoutKey(rows: map<Sid, Row>, keys: map<Sid, Key>, sid: Sid): Row
    requires sid in rows
  {
    if Usable(rows, sid) && sid !in keys then rows[sid].(available := false) else rows[sid]
  }

  /** A new process holds no key: every open version-2 session becomes unavailable, or it does not start. */
  function Booted(v: View, f: Faults): View {
    if f.mark then v
    else v.(running := true, rows := map sid | sid in v.rows :: WithoutKey(v.rows, v.keys, sid))
  }

  predicate Enabled(v: View, e: Event) {
    match e
    case Boot(_) => !v.running
    case Halt => v.running
    case Start(sid, newKey, _) => v.running && newKey !in v.minted
    case _ => v.running
  }

  function Next(v: View, e: Event): View {
    match e
    case Boot(f) => Booted(v, f)
    case Halt => v.(running := false, engines := map[], keys := map[])
    case Start(sid, newKey, f) => Started(v, sid, newKey, f)
    case End(sid, f) => Ended(v, sid, f)
    case Resolve(sid, f) => Resolved(v, sid, f)
    case Observe(sid, f) => Observed(v, sid, f)
  }

  // ---- the invariant -------------------------------------------------------------------------

  ghost predicate KeysFit(v: View) {
    && (forall sid :: sid in v.keys ==> Usable(v.rows, sid) && sid in v.engines && v.engines[sid] == Some(v.keys[sid]))
    && (forall sid :: sid in v.engines && v.engines[sid].Some? ==> sid in v.keys && v.keys[sid] == v.engines[sid].value)
    && (forall sid :: sid in v.keys ==> sid in v.firstKey && v.firstKey[sid] == v.keys[sid])
    && (!v.running ==> v.keys == map[] && v.engines == map[])
  }

  ghost predicate HistoryFits(v: View) {
    && (forall sid, k :: (sid, k) in v.hashed ==> sid in v.firstKey && v.firstKey[sid] == k)
    && (forall sid :: sid in v.firstKey ==> sid in v.rows && v.rows[sid].version2 && v.firstKey[sid] in v.minted)
    && (forall sid, sid' :: sid in v.firstKey && sid' in v.firstKey && sid != sid' ==>
              v.firstKey[sid] != v.firstKey[sid'])
  }

  ghost predicate Inv(v: View) {
    KeysFit(v) && HistoryFits(v)
  }

  lemma AttachKeeps(v: View, sid: Sid, f: Faults)
    requires Inv(v) && sid in v.rows && sid !in v.engines && v.running
    ensures Inv(Attached(v, sid, f))
  {
  }

  lemma ActivateKeepsKeys(v: View, sid: Sid, newKey: Key, f: Faults)
    requires Inv(v) && sid !in v.rows && sid !in v.engines && v.running && newKey !in v.minted
    ensures KeysFit(Activated(v, sid, newKey, f))
  {
    assert sid !in v.keys;
  }

  lemma HistoryGrows(v: View, w: View, sid: Sid, newKey: Key)
    requires HistoryFits(v) && sid !in v.rows && newKey !in v.minted
    requires w.hashed == v.hashed + {(sid, newKey)} && w.firstKey == v.firstKey[sid := newKey]
    requires newKey in w.minted && v.minted <= w.minted
    requires sid in w.rows && w.rows[sid].version2 && forall x :: x in v.rows ==> x in w.rows && w.rows[x] == v.rows[x]
    ensures HistoryFits(w)
  {
  }

  lemma ActivateKeepsHistory(v: View, sid: Sid, newKey: Key, f: Faults)
    requires HistoryFits(v) && sid !in v.rows && newKey !in v.minted
    ensures HistoryFits(Activated(v, sid, newKey, f))
  {
    if !f.activate {
      hide HistoryFits;
      HistoryGrows(v, Activated(v, sid, newKey, f), sid, newKey);
    }
  }

  lemma ActivateKeeps(v: View, sid: Sid, newKey: Key, f: Faults)
    requires Inv(v) && sid !in v.rows && sid !in v.engines && v.running && newKey !in v.minted
    ensures Inv(Activated(v, sid, newKey, f))
  {
    ActivateKeepsKeys(v, sid, newKey, f);
    ActivateKeepsHistory(v, sid, newKey, f);
    hide Activated, KeysFit, HistoryFits;
  }

  lemma ResolveKeeps(v: View, sid: Sid, f: Faults)
    requires Inv(v) && v.running
    ensures Inv(Resolved(v, sid, f))
  {
    if sid in v.rows && !v.rows[sid].ended && sid !in v.engines && v.rows[sid].version2 {
      AttachKeeps(v, sid, f);
    }
  }

  lemma StartKeeps(v: View, sid: Sid, newKey: Key, f: Faults)
    requires Inv(v) && v.running && newKey !in v.minted
    ensures Inv(Started(v, sid, newKey, f))
  {
    if sid !in v.engines && sid !in v.rows {
      ActivateKeeps(v, sid, newKey, f);
      hide Inv, Activated;
    } else if sid !in v.engines && v.rows[sid].version2 {
      AttachKeeps(v, sid, f);
      hide Inv, Attached;
    }
  }

  /** Hashes under a held key fit the history. */
  lemma HashingKeeps(v: View, sid: Sid)
    requires Inv(v)
    ensures Inv(v.(hashed := v.hashed + Under(sid, UsableKey(v, sid)) + Under(sid, EngineKey(v, sid))))
    ensures Inv(v.(hashed := v.hashed + Under(sid, UsableKey(v, sid))))
  {
  }

  lemma ObserveKeeps(v: View, sid: Sid, f: Faults)
    requires Inv(v) && v.running
    ensures Inv(Observed(v, sid, f))
  {
    ResolveKeeps(v, sid, f);
    HashingKeeps(Resolved(v, sid, f), sid);
    hide Inv, Resolved, UsableKey, EngineKey;
  }

  lemma DiscardKeeps(v: View, sid: Sid)
    requires Inv(v)
    ensures Inv(Discarded(v, sid))
  {
  }

  function RowEnded(v: View, sid: Sid): View
    requires sid in v.rows
  {
    v.(rows := v.rows[sid := v.rows[sid].(ended := true)])
  }

  lemma EndingKeepsKeys(v: View, sid: Sid)
    requires KeysFit(v) && sid in v.rows
    ensures KeysFit(Discarded(RowEnded(v, sid), sid))
  {
  }

  lemma EndingKeepsHistory(v: View, sid: Sid)
    requires HistoryFits(v) && sid in v.rows
    ensures HistoryFits(Discarded(RowEnded(v, sid), sid))
  {
  }

  lemma EndKeeps(v: View, sid: Sid, f: Faults)
    requires Inv(v) && v.running
    ensures Inv(Ended(v, sid, f))
  {
    DiscardKeeps(v, sid);
    HashingKeeps(v, sid);
    if sid in v.rows {
      EndingKeepsKeys(v.(hashed := v.hashed + Under(sid, UsableKey(v, sid))), sid);
      EndingKeepsHistory(v.(hashed := v.hashed + Under(sid, UsableKey(v, sid))), sid);
    }
    hide KeysFit, HistoryFits, UsableKey, Under;
  }

  lemma NextKeepsInv(v: View, e: Event)
    requires Inv(v) && Enabled(v, e)
    ensures Inv(Next(v, e))
  {
    match e
    case Start(sid, newKey, f) => StartKeeps(v, sid, newKey, f); hide Inv, Started;
    case Resolve(sid, f) => ResolveKeeps(v, sid, f); hide Inv, Resolved;
    case Observe(sid, f) => ObserveKeeps(v, sid, f); hide Inv, Observed;
    case End(sid, f) => EndKeeps(v, sid, f); hide Inv, Ended;
    case Boot(_) =>
    case Halt =>
  }

  // ---- runs ------------------------------------------------------------------------------------

  /** Before the first activation a ledger holds legacy sessions only. */
  predicate Initial(v: View) {
    && !v.running && v.engines == map[] && v.keys == map[] && v.hashed == {} && v.firstKey == map[]
    && forall sid :: sid in v.rows ==> !v.rows[sid].version2
  }

  ghost predicate Run(vs: seq<View>, es: seq<Event>) {
    && |vs| == |es| + 1 && Initial(vs[0])
    && forall i :: 0 <= i < |es| ==> Enabled(vs[i], es[i]) && vs[i + 1] == Next(vs[i], es[i])
  }

  lemma {:induction false} RunKeepsInv(vs: seq<View>, es: seq<Event>, i: nat)
    requires Run(vs, es) && i <= |es|
    ensures Inv(vs[i])
  {
    if i == 0 {
    } else {
      RunKeepsInv(vs, es, i - 1);
      NextKeepsInv(vs[i - 1], es[i - 1]);
    }
  }

  /** All identity hashes ever recorded for a session come from one key, and no two sessions share it. */
  lemma OneKeyPerSession(vs: seq<View>, es: seq<Event>, i: nat, sid: Sid, k: Key, sid': Sid, k': Key)
    requires Run(vs, es) && i <= |es| && (sid, k) in vs[i].hashed && (sid', k') in vs[i].hashed
    ensures sid == sid' <==> k == k'
  {
    RunKeepsInv(vs, es, i);
  }

  /** A held key means an open, available version-2 row, and it is the key the session's hashes use. */
  lemma HeldKeyMeansOpenRow(vs: seq<View>, es: seq<Event>, i: nat, sid: Sid)
    requires Run(vs, es) && i <= |es| && sid in vs[i].keys
    ensures Usable(vs[i].rows, sid) && vs[i].running
    ensures sid in vs[i].engines && vs[i].engines[sid] == Some(vs[i].keys[sid])
    ensures forall k :: (sid, k) in vs[i].hashed ==> k == vs[i].keys[sid]
  {
    RunKeepsInv(vs, es, i);
  }

  /** A row is never reopened, never becomes available again and never changes its version. */
  predicate RowOnlyDecays(r: Row, r': Row) {
    r'.version2 == r.version2 && (r.ended ==> r'.ended) && (!r.available ==> !r'.available)
  }

  lemma ResolveOnlyDecays(v: View, x: Sid, f: Faults, sid: Sid)
    requires sid in v.rows
    ensures sid in Resolved(v, x, f).rows && RowOnlyDecays(v.rows[sid], Resolved(v, x, f).rows[sid])
  {
  }

  lemma StartOnlyDecays(v: View, x: Sid, newKey: Key, f: Faults, sid: Sid)
    requires sid in v.rows
    ensures sid in Started(v, x, newKey, f).rows && RowOnlyDecays(v.rows[sid], Started(v, x, newKey, f).rows[sid])
    ensures sid !in v.keys ==> sid !in Started(v, x, newKey, f).keys
  {
  }

  lemma NextOnlyDecays(v: View, e: Event, sid: Sid)
    requires Enabled(v, e) && sid in v.rows
    ensures sid in Next(v, e).rows && RowOnlyDecays(v.rows[sid], Next(v, e).rows[sid])
  {
    match e
    case Start(x, newKey, f) => StartOnlyDecays(v, x, newKey, f, sid); hide Started;
    case Resolve(x, f) => ResolveOnlyDecays(v, x, f, sid); hide Resolved;
    case Observe(x, f) => ResolveOnlyDecays(v, x, f, sid); hide Resolved;
    case _ =>
  }

  lemma {:induction false} UnavailableIsAbsorbing(vs: seq<View>, es: seq<Event>, i: nat, j: nat, sid: Sid)
    requires Run(vs, es) && i <= j <= |es| && sid in vs[i].rows
    ensures sid in vs[j].rows && RowOnlyDecays(vs[i].rows[sid], vs[j].rows[sid])
  {
    if i == j {
    } else {
      UnavailableIsAbsorbing(vs, es, i, j - 1, sid);
      NextOnlyDecays(vs[j - 1], es[j - 1], sid);
    }
  }

  /** Where a new identity hash can come from: the activation that creates the row, or a delivery to a
      session that was open and available with its key held. */
  lemma NewHashesNeedAHeldKey(v: View, e: Event, sid: Sid, k: Key)
    requires Inv(v) && Enabled(v, e) && (sid, k) in Next(v, e).hashed && (sid, k) !in v.hashed
    ensures (sid !in v.rows && e.Start? && e.sid == sid && e.newKey == k)
      || (Usable(v.rows, sid) && sid in v.keys && v.keys[sid] == k)
  {
    match e
    case Start(x, newKey, f) => StartHashes(v, x, newKey, f); hide Started, Inv;
    case Observe(x, f) => ObserveHashes(v, x, f); hide Observed, Inv;
    case End(x, f) => hide Inv;
    case Resolve(x, f) => ResolveLeavesKeysAlone(v, x, f); hide Resolved, Inv;
    case _ =>
  }

  lemma StartHashes(v: View, sid: Sid, newKey: Key, f: Faults)
    ensures Started(v, sid, newKey, f).hashed <= v.hashed + {(sid, newKey)}
    ensures sid in v.rows ==> Started(v, sid, newKey, f).hashed == v.hashed
  {
  }

  lemma ObserveHashes(v: View, sid: Sid, f: Faults)
    requires Inv(v) && v.running
    ensures Observed(v, sid, f).hashed <= v.hashed + Under(sid, UsableKey(v, sid))
  {
    ResolveLeavesKeysAlone(v, sid, f);
    if sid in v.keys {
      HeldKeyIsEngines(v, sid);
    }
    hide Inv, Resolved, Usable;
  }

  lemma HeldKeyIsEngines(v: View, sid: Sid)
    requires Inv(v) && sid in v.keys
    ensures UsableKey(v, sid) == EngineKey(v, sid) == Some(v.keys[sid])
  {
  }

  lemma ResolveLeavesKeysAlone(v: View, sid: Sid, f: Faults)
    requires Inv(v) && v.running
    ensures Resolved(v, sid, f).keys == v.keys && Resolved(v, sid, f).hashed == v.hashed
    ensures sid !in v.keys ==> UsableKey(Resolved(v, sid, f), sid).None? && EngineKey(Resolved(v, sid, f), sid).None?
    ensures sid in v.keys ==> Resolved(v, sid, f) == v
  {
  }

  /** No identity is hashed for an ended or unavailable session. */
  lemma NoHashAfterEndOrLoss(vs: seq<View>, es: seq<Event>, i: nat, sid: Sid, k: Key)
    requires Run(vs, es) && i < |es| && sid in vs[i].rows && !Usable(vs[i].rows, sid)
    ensures (sid, k) in vs[i + 1].hashed ==> (sid, k) in vs[i].hashed
  {
    RunKeepsInv(vs, es, i);
    if (sid, k) in vs[i + 1].hashed && (sid, k) !in vs[i].hashed {
      NewHashesNeedAHeldKey(vs[i], es[i], sid, k);
    }
  }

  lemma KeysAreMadeOnlyAtActivation(v: View, e: Event, sid: Sid)
    requires Inv(v) && Enabled(v, e) && sid in v.rows && sid !in v.keys
    ensures sid !in Next(v, e).keys
  {
    match e
    case Start(x, newKey, f) => StartOnlyDecays(v, x, newKey, f, sid); hide Started;
    case Resolve(x, f) => ResolveLeavesKeysAlone(v, x, f); hide Resolved;
    case Observe(x, f) => ResolveLeavesKeysAlone(v, x, f); hide Resolved;
    case _ =>
  }

  /** A lost key is never replaced: once a known session's key is gone, by its end, a failed end, a
      failed installation or a restart, it is gone for good and nothing more is hashed for it. */
  lemma {:induction false} LostKeyIsLostForever(vs: seq<View>, es: seq<Event>, i: nat, j: nat, sid: Sid, k: Key)
    requires Run(vs, es) && i <= j <= |es| && sid in vs[i].rows && sid !in vs[i].keys
    ensures sid in vs[j].rows && sid !in vs[j].keys
    ensures (sid, k) in vs[j].hashed ==> (sid, k) in vs[i].hashed
  {
    hide Enabled, Next, Usable;
    if i == j {
    } else {
      LostKeyIsLostForever(vs, es, i, j - 1, sid, k);
      RunKeepsInv(vs, es, j - 1);
      NextOnlyDecays(vs[j - 1], es[j - 1], sid);
      KeysAreMadeOnlyAtActivation(vs[j - 1], es[j - 1], sid);
      if (sid, k) in vs[j].hashed && (sid, k) !in vs[j - 1].hashed {
        NewHashesNeedAHeldKey(vs[j - 1], es[j - 1], sid, k);
      }
    }
  }

  /** The state of a session that ended: its row says so and nothing here belongs to it. */
  predicate Over(v: View, sid: Sid) {
    sid in v.rows && v.rows[sid].ended && sid !in v.engines && sid !in v.keys
  }

  lemma NoEngineAfterEnd(v: View, x: Sid, newKey: Key, f: Faults, sid: Sid)
    requires sid in v.rows && v.rows[sid].ended && sid !in v.engines
    ensures sid !in Started(v, x, newKey, f).engines && sid !in Resolved(v, x, f).engines
  {
  }

  lemma StaysOver(v: View, e: Event, sid: Sid)
    requires Inv(v) && Enabled(v, e) && Over(v, sid)
    ensures Over(Next(v, e), sid)
  {
    NextOnlyDecays(v, e, sid);
    KeysAreMadeOnlyAtActivation(v, e, sid);
    match e
    case Start(x, newKey, f) => NoEngineAfterEnd(v, x, newKey, f, sid); hide Inv, Started;
    case Resolve(x, f) => NoEngineAfterEnd(v, x, 0, f, sid); hide Inv, Resolved;
    case Observe(x, f) => NoEngineAfterEnd(v, x, 0, f, sid); hide Inv, Resolved;
    case _ => hide Inv;
  }

  /** An end that commits is final: the row is ended from then on, its key and its engine are gone, and no
      later start, hook, delivery or restart registers an engine for it again. */
  lemma {:induction false} CommittedEndIsFinal(vs: seq<View>, es: seq<Event>, i: nat, j: nat, sid: Sid)
    requires Run(vs, es) && i < j <= |es| && es[i].End? && es[i].sid == sid && !es[i].faults.end && sid in vs[i].rows
    ensures sid in vs[j].rows && vs[j].rows[sid].ended && sid !in vs[j].engines && sid !in vs[j].keys
  {
    hide Inv;
    if j == i + 1 {
    } else {
      hide Next, Enabled;
      CommittedEndIsFinal(vs, es, i, j - 1, sid);
      RunKeepsInv(vs, es, j - 1);
      StaysOver(vs[j - 1], es[j - 1], sid);
    }
  }

  /** What a delivery or an end that is recorded adds to the history: the identity under the held key of an
      open session, and nothing when no key is held. */
  lemma RecordedUnderTheHeldKey(v: View, sid: Sid, f: Faults)
    requires Inv(v) && v.running
    ensures sid in v.keys && !f.record ==> Observed(v, sid, f).hashed == v.hashed + {(sid, v.keys[sid])}
    ensures sid in v.keys && !f.end ==> Ended(v, sid, f).hashed == v.hashed + {(sid, v.keys[sid])}
    ensures sid !in v.keys || f.record ==> Observed(v, sid, f).hashed == v.hashed
    ensures sid !in v.keys || f.end ==> Ended(v, sid, f).hashed == v.hashed
  {
    ResolveLeavesKeysAlone(v, sid, f);
    if sid in v.keys {
      HeldKeyIsEngines(v, sid);
    }
    hide Resolved;
  }

  // ---- the daemon ---------------------------------------------------------------------------------

  class Daemon {
    var running: bool
    var rows: map<Sid, Row>
    var engines: map<Sid, Option<Key>>
    var keys: map<Sid, Key>
    ghost var hashed: set<(Sid, Key)>
    ghost var firstKey: map<Sid, Key>
    ghost var minted: set<Key>

    ghost function Now(): View
      reads this
    {
      View(running, rows, engines, keys, hashed, firstKey, minted)
    }

    constructor (rows: map<Sid, Row>)
      requires forall sid :: sid in rows ==> !rows[sid].version2
      ensures Initial(Now()) && this.rows == rows
    {
      running, this.rows, engines, keys := false, rows, map[], map[];
      hashed, firstKey, minted := {}, map[], {};
    }

    method DiscardIdentity(sid: Sid)
      modifies this
      ensures Now() == Discarded(old(Now()), sid)
    {
      engines := engines - {sid};
      keys := keys - {sid};
    }

    /** Permanent; fails without changing anything. */
    method MarkUnavailable(sid: Sid, fails: bool) returns (raised: bool)
      requires sid in rows
      modifies this`rows
      ensures raised == fails
      ensures Now() == if fails then old(Now()) else Marked(old(Now()), sid)
    {
      if !fails {
        rows := rows[sid := rows[sid].(available := false)];
      }
      raised := fails;
    }

    method AttachKeyless(sid: Sid, f: Faults) returns (raised: bool)
      requires sid in rows
      modifies this
      ensures Now() == Attached(old(Now()), sid, f)
      ensures !raised ==> engines == old(engines)[sid := None] && keys == old(keys) && hashed == old(hashed)
      ensures !raised ==>
                rows == old(rows)[sid := old(rows)[sid].(available := old(rows)[sid].available && sid in keys)]
      ensures raised ==> engines == old(engines)
    {
      if rows[sid].available && sid !in keys {
        raised := MarkUnavailable(sid, f.mark);
        if raised {
          return;
        }
      }
      if f.start {
        return true;
      }
      engines := engines[sid := None];
      raised := false;
    }

    /** A key that cannot be installed is discarded, and its session marked. */
    method InstallKey(sid: Sid, newKey: Key, f: Faults) returns (raised: bool)
      requires sid in rows && rows[sid] == Row(true, true, false)
      modifies this`rows, this`engines, this`keys
      ensures raised == f.install
      ensures rows == old(rows)[sid := Row(true, !f.install || f.mark, false)]
      ensures engines == if f.install then old(engines) - {sid} else old(engines)[sid := Some(newKey)]
      ensures keys == if f.install then old(keys) - {sid} else old(keys)[sid := newKey]
    {
      if f.install {
        engines, keys := engines - {sid}, keys - {sid};
        var _ := MarkUnavailable(sid, f.mark);
      } else {
        engines, keys := engines[sid := Some(newKey)], keys[sid := newKey];
      }
      raised := f.install;
    }

    method ActivateSession(sid: Sid, newKey: Key, f: Faults) returns (raised: bool)
      requires sid !in rows
      modifies this
      ensures Now() == Activated(old(Now()), sid, newKey, f)
      ensures raised <==> f.activate || f.install
      ensures f.activate ==>
                rows == old(rows) && engines == old(engines) && keys == old(keys) && hashed == old(hashed)
      ensures !f.activate ==>
                && rows == old(rows)[sid := Row(true, !f.install || f.mark, false)]
                && hashed == old(hashed) + {(sid, newKey)}
                && (f.install ==> sid !in engines && sid !in keys)
    {
      minted := minted + {newKey};
      if f.activate {
        return true;
      }
      rows := rows[sid := Row(true, true, false)];
      hashed, firstKey := hashed + {(sid, newKey)}, firstKey[sid := newKey];
      raised := InstallKey(sid, newKey, f);
      assert rows == old(rows)[sid := Row(true, !f.install || f.mark, false)];
    }

    method HandleSessionStart(sid: Sid, newKey: Key, f: Faults) returns (raised: bool)
      requires Inv(Now()) && running && newKey !in minted
      modifies this
      ensures Now() == Started(old(Now()), sid, newKey, f) && Inv(Now())
      ensures sid !in old(rows) && sid !in old(engines) && !f.activate && !f.install ==>
                && !raised && rows == old(rows)[sid := Row(true, true, false)]
                && engines == old(engines)[sid := Some(newKey)] && keys == old(keys)[sid := newKey]
                && hashed == old(hashed) + {(sid, newKey)}
      ensures (sid in old(rows) && old(rows)[sid].ended) || sid in old(engines) ==> Now() == old(Now())
    {
      NextKeepsInv(Now(), Event.Start(sid, newKey, f));
      raised := false;
      if (sid in rows && rows[sid].ended) || sid in engines {
        return;
      }
      if sid !in rows {
        raised := ActivateSession(sid, newKey, f);
      } else if rows[sid].version2 {
        raised := AttachKeyless(sid, f);
      } else if f.start {
        raised := true;
      } else {
        engines := engines[sid := None];
      }
    }

    /** The key of the session's engine, which is temporary once the session has ended. */
    method GetOrStartEngine(sid: Sid, f: Faults) returns (raised: bool, key: Option<Key>)
      modifies this
      ensures Now() == Resolved(old(Now()), sid, f)
      ensures !raised ==> if sid in rows && rows[sid].ended then key.None? else sid in engines && key == engines[sid]
      ensures raised ==> !(sid in rows && rows[sid].ended) && sid !in engines
      ensures (sid in old(rows) && old(rows)[sid].ended) || sid in old(engines) ==> Now() == old(Now())
      ensures !raised && sid in old(rows) && old(rows)[sid].version2 && !old(rows)[sid].ended
              && sid !in old(engines) && sid !in old(keys) ==>
                engines == old(engines)[sid := None] && rows == old(rows)[sid := Row(true, false, false)]
      ensures !raised && sid !in old(rows) && sid !in old(engines) ==>
                engines == old(engines)[sid := None] && rows == old(rows)[sid := Row(false, true, false)]
    {
      raised, key := false, None;
      if sid in rows && rows[sid].ended {
        return;
      }
      if sid in engines {
        return false, engines[sid];
      }
      if sid in rows && rows[sid].version2 {
        raised := AttachKeyless(sid, f);
        return;
      }
      if f.start {
        return true, None;
      }
      if sid !in rows {
        rows := rows[sid := Row(false, true, false)];
      }
      engines := engines[sid := None];
    }

    /** Normalizes a delivery with the key usable now, and records it with the engine's key while the session
        is open and available. */
    method Record(sid: Sid, key: Option<Key>)
      requires sid in rows && if rows[sid].ended then key.None? else sid in engines && key == engines[sid]
      modifies this`hashed
      ensures hashed == old(hashed) + Under(sid, UsableKey(old(Now()), sid)) + Under(sid, EngineKey(old(Now()), sid))
    {
      var open := rows[sid].available && !rows[sid].ended;
      var usable := if open && sid in keys && rows[sid].version2 then Some(keys[sid]) else None;
      hashed := hashed + Under(sid, usable) + Under(sid, if open && rows[sid].version2 then key else None);
    }

    /** After the unlocked scan: resolve the engine again, normalize the delivery with the key usable
        now, and record with the engine's key, if the session is still open and available. */
    method ObserveDelivery(sid: Sid, f: Faults) returns (raised: bool)
      requires Inv(Now()) && running
      modifies this
      ensures Now() == Observed(old(Now()), sid, f) && Inv(Now())
      ensures sid in old(keys) && !f.record ==> hashed == old(hashed) + {(sid, old(keys)[sid])}
      ensures sid !in old(keys) || f.record ==> hashed == old(hashed)
      ensures f.record ==> raised
    {
      ObserveKeeps(Now(), sid, f);
      RecordedUnderTheHeldKey(Now(), sid, f);
      hide Inv, Resolved, UsableKey, EngineKey, Under;
      var key;
      raised, key := GetOrStartEngine(sid, f);
      raised := raised || f.record;
      if !raised && sid in rows && rows[sid].version2 {
        Record(sid, key);
      }
    }

    /** The end either commits with its last observation or not at all; the session's identity is
        destroyed either way. */
    method HandleSessionEnd(sid: Sid, f: Faults) returns (raised: bool)
      requires Inv(Now()) && running
      modifies this
      ensures Now() == Ended(old(Now()), sid, f) && Inv(Now()) && sid !in keys && sid !in engines
      ensures raised <==> f.end || sid !in old(rows)
      ensures !raised ==> rows == old(rows)[sid := old(rows)[sid].(ended := true)]
      ensures raised ==> rows == old(rows) && hashed == old(hashed)
      ensures !raised && sid in old(keys) ==> hashed == old(hashed) + {(sid, old(keys)[sid])}
      ensures sid !in old(keys) ==> hashed == old(hashed)
    {
      NextKeepsInv(Now(), Event.End(sid, f));
      raised := f.end || sid !in rows;
      if !raised {
        hashed := hashed + Under(sid, UsableKey(Now(), sid));
        rows := rows[sid := rows[sid].(ended := true)];
      }
      DiscardIdentity(sid);
    }

    method Halt()
      requires Inv(Now()) && running
      modifies this
      ensures Now() == Next(old(Now()), Event.Halt) && Inv(Now())
    {
      NextKeepsInv(Now(), Event.Halt);
      running, engines, keys := false, map[], map[];
    }

    /** One transaction over every open version-2 session. */
    method InvalidateMissingKeys()
      modifies this`rows
      ensures rows == map sid | sid in old(rows) :: WithoutKey(old(rows), keys, sid)
    {
      var todo := set sid | sid in rows && rows[sid].version2 && !rows[sid].ended;
      while todo != {}
        invariant todo <= rows.Keys == old(rows).Keys
        invariant forall sid :: sid in todo ==> rows[sid] == old(rows)[sid]
        invariant forall sid :: sid in rows && sid !in todo ==> rows[sid] == WithoutKey(old(rows), keys, sid)
      {
        var sid :| sid in todo;
        if sid !in keys {
          var _ := MarkUnavailable(sid, false);
        }
        todo := todo - {sid};
      }
    }

    /** Startup fails, and no daemon runs, when the invalidation does not commit. */
    method Boot(f: Faults) returns (raised: bool)
      requires Inv(Now()) && !running
      modifies this
      ensures Now() == Booted(old(Now()), f) && Inv(Now()) && running == !f.mark
      ensures !raised ==> rows.Keys == old(rows).Keys
      ensures !raised ==> forall sid :: sid in rows ==>
                rows[sid] == if old(rows)[sid].version2 && !old(rows)[sid].ended then Row(true, false, false)
                             else old(rows)[sid]
      ensures raised ==> rows == old(rows)
    {
      NextKeepsInv(Now(), Event.Boot(f));
      if f.mark {
        return true;
      }
      InvalidateMissingKeys();
      running, raised := true, false;
    }
  }
}
