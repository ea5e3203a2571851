/** Grouping detector findings by exact value: once under a session key, once without one. Both loops
    must agree with one specification. */
module ValueGrouping {
  import opened Common
  import opened SpanRewriting

  type Span = (int, int)

  /** What one value contributes to the ledger; the subject is unresolved without a key. */
  datatype ValueFinding = ValueFinding(
    subject: Option<nat>, dataType: string, occurrences: nat, example: Option<string>)

  /** The scoring profile's severities. */
  type Severity = map<string, real>

  /** The exemplar that may be shown for a value of a type. */
  type Exemplar = (string, string) -> Option<string>

  // ---- the order of types -----------------------------------------------------------------

  /** Lexicographic order of names. */
  predicate Precedes(a: string, b: string) {
    b != "" && (a == "" || a[0] < b[0] || (a[0] == b[0] && Precedes(a[1..], b[1..])))
  }

  lemma {:induction false} PrecedesIsTotal(a: string, b: string)
    ensures a == b || Precedes(a, b) || Precedes(b, a)
  {
    if a == "" || b == "" || a[0] != b[0] {
    } else {
      PrecedesIsTotal(a[1..], b[1..]);
      assert a == [a[0]] + a[1..] && b == [b[0]] + b[1..];
    }
  }

  lemma {:induction false} PrecedesIsAsymmetric(a: string, b: string)
    requires Precedes(a, b)
    ensures !Precedes(b, a) && a != b
  {
    if a == "" || a[0] != b[0] {
    } else {
      PrecedesIsAsymmetric(a[1..], b[1..]);
    }
  }

  lemma {:induction false} PrecedesIsTransitive(a: string, b: string, c: string)
    requires Precedes(a, b) && Precedes(b, c)
    ensures Precedes(a, c)
  {
    if a == "" || a[0] != b[0] || b[0] != c[0] {
    } else {
      PrecedesIsTransitive(a[1..], b[1..], c[1..]);
    }
  }

  /** One name precedes another exactly when it is a proper prefix of it or has the smaller character where they
      first differ. */
  lemma {:induction false} PrecedesExactly(a: string, b: string)
    ensures Precedes(a, b) <==> exists k :: 0 <= k <= |a| && k < |b| && FirstDiffer(a, b, k)
  {
    if b == "" {
    } else if a == "" || a[0] < b[0] {
      assert FirstDiffer(a, b, 0);
    } else if a[0] == b[0] {
      PrecedesExactly(a[1..], b[1..]);
      if Precedes(a, b) {
        var k :| 0 <= k <= |a[1..]| && k < |b[1..]| && FirstDiffer(a[1..], b[1..], k);
        assert a[..k + 1] == [a[0]] + a[1..][..k] && b[..k + 1] == [b[0]] + b[1..][..k];
        assert FirstDiffer(a, b, k + 1);
      } else if k :| 0 <= k <= |a| && k < |b| && FirstDiffer(a, b, k) {
        assert k > 0 && a[1..][..k - 1] == a[..k][1..] && b[1..][..k - 1] == b[..k][1..];
        assert FirstDiffer(a[1..], b[1..], k - 1);
      }
    } else {
      forall k | 0 <= k <= |a| && k < |b| ensures !FirstDiffer(a, b, k) {
        if k > 0 {
          assert a[..k][0] == a[0] && b[..k][0] == b[0];
        }
      }
    }
  }

  predicate FirstDiffer(a: string, b: string, k: nat)
    requires k <= |a| && k < |b|
  {
    a[..k] == b[..k] && (k == |a| || a[k] < b[k])
  }

  /** More severe, or as severe with an earlier name. */
  predicate Outranks(severity: Severity, t: string, u: string)
    requires t in severity && u in severity
  {
    severity[t] > severity[u] || (severity[t] == severity[u] && Precedes(t, u))
  }

  ghost predicate IsTop(severity: Severity, types: set<string>, t: string)
    requires types <= severity.Keys
  {
    t in types && forall u :: u in types && u != t ==> Outranks(severity, t, u)
  }

  lemma TopIsUnique(severity: Severity, types: set<string>, t: string, u: string)
    requires types <= severity.Keys && IsTop(severity, types, t) && IsTop(severity, types, u)
    ensures t == u
  {
    if t != u {
      assert Outranks(severity, t, u) && Outranks(severity, u, t);
      if severity[t] == severity[u] {
        PrecedesIsAsymmetric(t, u);
      }
    }
  }

  /** The top type of a non-empty set, whatever order its elements are tried in. */
  method TopType(severity: Severity, types: set<string>) returns (t: string)
    requires types != {} && types <= severity.Keys
    ensures IsTop(severity, types, t)
  {
    t :| t in types;
    var rest := types - {t};
    while rest != {}
      invariant t in types && rest <= types
      invariant forall u :: u in types - rest && u != t ==> Outranks(severity, t, u)
    {
      var u :| u in rest;
      if Outranks(severity, u, t) {
        forall w | w in types - rest && w != t ensures Outranks(severity, u, w) {
          if severity[u] == severity[w] {
            PrecedesIsTransitive(u, t, w);
          }
        }
        t := u;
      } else {
        PrecedesIsTotal(t, u);
      }
      rest := rest - {u};
    }
  }

  // ---- specification ---------------------------------------------------------------------------

  /** The distinct values, in the order of their first finding. */
  function Values(fs: seq<Finding>): seq<string> {
    if fs == [] then []
    else
      var before := Values(fs[..|fs| - 1]);
      var v := fs[|fs| - 1].value;
      if v in before then before else before + [v]
  }

  function TypesOf(fs: seq<Finding>, v: string): set<string> {
    set f | f in fs && f.value == v :: f.dataType
  }

  function SpansOf(fs: seq<Finding>, v: string): set<Span> {
    set f | f in fs && f.value == v :: (f.start, f.end)
  }

  predicate Known(severity: Severity, f: Finding) {
    f.dataType in severity
  }

  /** What the keyed loop accepts. */
  predicate Sound(severity: Severity, f: Finding) {
    Known(severity, f) && 0 <= f.start < f.end && f.end - f.start == |f.value|
  }

  /** One value's entry: its top type, its number of distinct spans and its exemplar. */
  ghost predicate Describes(severity: Severity, exemplar: Exemplar, fs: seq<Finding>, v: string, out: ValueFinding) {
    && TypesOf(fs, v) <= severity.Keys && IsTop(severity, TypesOf(fs, v), out.dataType)
    && out.occurrences == |SpansOf(fs, v)|
    && out.example == exemplar(out.dataType, v)
  }

  /** One entry per value, in first-occurrence order. */
  ghost predicate Summary(severity: Severity, exemplar: Exemplar, fs: seq<Finding>, out: seq<ValueFinding>) {
    && |out| == |Values(fs)|
    && forall i :: 0 <= i < |out| ==> Describes(severity, exemplar, fs, Values(fs)[i], out[i])
  }

  /** An entry's type is one of the value's types, no other type of the value is more severe, and none that is
      as severe has an earlier name; its count is that of the value's distinct spans. */
  lemma EntryIsTop(severity: Severity, exemplar: Exemplar, fs: seq<Finding>, out: seq<ValueFinding>, i: nat, f: Finding)
    requires Summary(severity, exemplar, fs, out) && i < |out| && f in fs && f.value == Values(fs)[i]
    ensures f.dataType in severity && out[i].dataType in severity
    ensures severity[f.dataType] <= severity[out[i].dataType]
    ensures severity[f.dataType] == severity[out[i].dataType] && f.dataType != out[i].dataType ==>
              Precedes(out[i].dataType, f.dataType)
    ensures exists g :: g in fs && g.value == f.value && g.dataType == out[i].dataType
    ensures out[i].occurrences == |set g | g in fs && g.value == f.value :: (g.start, g.end)|
    ensures out[i].example == exemplar(out[i].dataType, f.value)
  {
    assert Describes(severity, exemplar, fs, f.value, out[i]);
    assert f.dataType in TypesOf(fs, f.value);
    hide Values;
  }

  lemma {:induction false} ValuesExactly(fs: seq<Finding>)
    ensures forall v :: v in Values(fs) <==> exists f :: f in fs && f.value == v
    ensures forall i, j :: 0 <= i < j < |Values(fs)| ==> Values(fs)[i] != Values(fs)[j]
  {
    if fs == [] {
    } else {
      var last := fs[|fs| - 1];
      ValuesExactly(fs[..|fs| - 1]);
      assert fs == fs[..|fs| - 1] + [last];
      assert forall f :: f in fs <==> f in fs[..|fs| - 1] || f == last;
      assert last in fs;
    }
  }

  /** A value that comes earlier was found earlier. */
  lemma {:induction false} ValuesInOrder(fs: seq<Finding>, i: nat, j: nat) returns (k: nat)
    requires i < j < |Values(fs)|
    ensures k < |fs| && fs[k].value == Values(fs)[i] && forall m :: 0 <= m <= k ==> fs[m].value != Values(fs)[j]
  {
    var rest, last := fs[..|fs| - 1], fs[|fs| - 1].value;
    if j < |Values(rest)| {
      k := ValuesInOrder(rest, i, j);
    } else {
      ValuesExactly(rest);
      assert Values(rest)[i] in Values(rest);
      var f :| f in rest && f.value == Values(rest)[i];
      k :| 0 <= k < |rest| && rest[k] == f;
      forall m | 0 <= m <= k ensures fs[m].value != last {
        assert rest[m] in rest && rest[m].value in Values(rest);
      }
    }
  }

  lemma NoValues()
    ensures Values([]) == []
  {
  }

  lemma ValuesGrow(fs: seq<Finding>, f: Finding)
    ensures Values(fs + [f]) == if f.value in Values(fs) then Values(fs) else Values(fs) + [f.value]
  {
  }

  lemma SetsGrow(fs: seq<Finding>, f: Finding, v: string)
    ensures TypesOf(fs + [f], v) == if v == f.value then TypesOf(fs, v) + {f.dataType} else TypesOf(fs, v)
    ensures SpansOf(fs + [f], v) == if v == f.value then SpansOf(fs, v) + {(f.start, f.end)} else SpansOf(fs, v)
  {
  }

  lemma UnseenHasNothing(fs: seq<Finding>, v: string)
    requires v !in Values(fs)
    ensures TypesOf(fs, v) == {} && SpansOf(fs, v) == {}
  {
  }

  /** A value that was seen has a type, and every type is known. */
  lemma SeenHasTypes(severity: Severity, fs: seq<Finding>, v: string)
    requires v in Values(fs) && forall f :: f in fs ==> Known(severity, f)
    ensures TypesOf(fs, v) != {} && TypesOf(fs, v) <= severity.Keys
  {
    ValuesExactly(fs);
    var f :| f in fs && f.value == v;
    assert f.dataType in TypesOf(fs, v);
  }

  // ---- grouping under a key --------------------------------------------------------------------

  datatype KeyedGroup = KeyedGroup(value: string, types: set<string>, spans: set<Span>)

  /** The session's identity of a value, taken to be different for different values. */
  ghost predicate Injective(identity: string -> nat) {
    forall v, w :: identity(v) == identity(w) ==> v == w
  }

  ghost function GroupOf(fs: seq<Finding>, v: string): KeyedGroup {
    KeyedGroup(v, TypesOf(fs, v), SpansOf(fs, v))
  }

  /** The dictionary after the findings `fs`: its keys in insertion order and its entries. */
  ghost predicate KeyedSoFar(identity: string -> nat, fs: seq<Finding>, order: seq<nat>, groups: map<nat, KeyedGroup>) {
    && |order| == |Values(fs)|
    && (forall i :: 0 <= i < |order| ==> order[i] == identity(Values(fs)[i]))
    && (forall k :: k in groups <==> k in order)
    && (forall i :: 0 <= i < |order| ==> groups[order[i]] == GroupOf(fs, Values(fs)[i]))
  }

  ghost function GroupAt(groups: map<nat, KeyedGroup>, k: nat, v: string): KeyedGroup {
    if k in groups then groups[k] else KeyedGroup(v, {}, {})
  }

  /** The entry the loop finds, or makes, for a value. */
  lemma KeyedFinds(identity: string -> nat, fs: seq<Finding>, v: string, order: seq<nat>, groups: map<nat, KeyedGroup>)
    requires Injective(identity) && KeyedSoFar(identity, fs, order, groups)
    ensures identity(v) in groups <==> v in Values(fs)
    ensures GroupAt(groups, identity(v), v) == GroupOf(fs, v)
  {
    var k, vs := identity(v), Values(fs);
    if v in vs {
      var i :| 0 <= i < |vs| && vs[i] == v;
      assert order[i] == k;
    } else {
      UnseenHasNothing(fs, v);
      assert forall i :: 0 <= i < |order| && order[i] == k ==> vs[i] == v;
    }
  }

  lemma OthersStay(identity: string -> nat, fs: seq<Finding>, f: Finding, order: seq<nat>, groups: map<nat, KeyedGroup>)
    requires Injective(identity) && KeyedSoFar(identity, fs, order, groups)
    ensures forall i :: 0 <= i < |order| && Values(fs)[i] != f.value ==>
              order[i] != identity(f.value) && groups[order[i]] == GroupOf(fs + [f], Values(fs)[i])
  {
  }

  lemma KeyedSeen(identity: string -> nat, fs: seq<Finding>, f: Finding, order: seq<nat>, groups: map<nat, KeyedGroup>)
    requires Injective(identity) && KeyedSoFar(identity, fs, order, groups) && f.value in Values(fs)
    ensures KeyedSoFar(identity, fs + [f], order, groups[identity(f.value) := GroupOf(fs + [f], f.value)])
  {
    ValuesGrow(fs, f);
    OthersStay(identity, fs, f, order, groups);
    hide Values, GroupOf, Injective;
  }

  lemma KeyedNew(identity: string -> nat, fs: seq<Finding>, f: Finding, order: seq<nat>, groups: map<nat, KeyedGroup>)
    requires Injective(identity) && KeyedSoFar(identity, fs, order, groups) && f.value !in Values(fs)
    ensures KeyedSoFar(identity, fs + [f], order + [identity(f.value)],
            groups[identity(f.value) := GroupOf(fs + [f], f.value)])
  {
    ValuesGrow(fs, f);
    OthersStay(identity, fs, f, order, groups);
    hide Values, GroupOf, Injective;
  }

  lemma KeyedStep(identity: string -> nat, fs: seq<Finding>, f: Finding, order: seq<nat>, groups: map<nat, KeyedGroup>)
    requires Injective(identity) && KeyedSoFar(identity, fs, order, groups)
    ensures var k := identity(f.value);
            var g := GroupAt(groups, k, f.value);
            KeyedSoFar(identity, fs + [f], if k in groups then order else order + [k],
                       groups[k := g.(types := g.types + {f.dataType}, spans := g.spans + {(f.start, f.end)})])
  {
    var g := GroupAt(groups, identity(f.value), f.value);
    KeyedFinds(identity, fs, f.value, order, groups);
    SetsGrow(fs, f, f.value);
    assert g.(types := g.types + {f.dataType}, spans := g.spans + {(f.start, f.end)}) == GroupOf(fs + [f], f.value);
    hide *;
    if f.value in Values(fs) {
      KeyedSeen(identity, fs, f, order, groups);
    } else {
      KeyedNew(identity, fs, f, order, groups);
    }
  }

  /** The value's entry, made when it is the first, takes the finding's type and span. */
  method AddKeyed(identity: string -> nat, order: seq<nat>, groups: map<nat, KeyedGroup>, f: Finding,
                  ghost fs: seq<Finding>)
    returns (longer: seq<nat>, grown: map<nat, KeyedGroup>)
    requires Injective(identity) && KeyedSoFar(identity, fs, order, groups)
    ensures KeyedSoFar(identity, fs + [f], longer, grown)
  {
    KeyedStep(identity, fs, f, order, groups);
    hide KeyedSoFar, Injective, Values, GroupOf;
    var k := identity(f.value);
    longer := if k in groups then order else order + [k];
    var g := if k in groups then groups[k] else KeyedGroup(f.value, {}, {});
    grown := groups[k := g.(types := g.types + {f.dataType}, spans := g.spans + {(f.start, f.end)})];
  }

  /** The first loop: one entry per value, or a refusal of the first unsound finding. */
  method GatherKeyed(severity: Severity, identity: string -> nat, findings: seq<Finding>)
    returns (r: Result<(seq<nat>, map<nat, KeyedGroup>), ()>)
    requires Injective(identity)
    ensures r.Ok? <==> forall f :: f in findings ==> Sound(severity, f)
    ensures r.Ok? ==> KeyedSoFar(identity, findings, r.value.0, r.value.1)
  {
    hide Values, TypesOf, SpansOf, Injective;
    var order: seq<nat>, groups: map<nat, KeyedGroup> := [], map[];
    NoValues();
    assert findings[..0] == [] && KeyedSoFar(identity, [], order, groups);
    hide *;
    for n := 0 to |findings|
      invariant forall k :: 0 <= k < n ==> Sound(severity, findings[k])
      invariant KeyedSoFar(identity, findings[..n], order, groups)
    {
      var f := findings[n];
      if !Sound(severity, f) {
        return Err(());
      }
      assert findings[..n + 1] == findings[..n] + [f];
      order, groups := AddKeyed(identity, order, groups, f, findings[..n]);
    }
    assert findings[..|findings|] == findings;
    r := Ok((order, groups));
  }

  method CoalesceValueFindings(severity: Severity, exemplar: Exemplar, identity: string -> nat, findings: seq<Finding>)
    returns (r: Result<seq<ValueFinding>, ()>)
    requires Injective(identity)
    ensures r.Ok? <==> forall f :: f in findings ==>
              f.dataType in severity && 0 <= f.start < f.end && f.end - f.start == |f.value|
    ensures r.Ok? ==> Summary(severity, exemplar, findings, r.value)
    ensures r.Ok? ==> forall i, f :: 0 <= i < |r.value| && f in findings && f.value == Values(findings)[i] ==>
              f.dataType in severity && r.value[i].dataType in severity
              && severity[f.dataType] <= severity[r.value[i].dataType]
    ensures r.Ok? ==> forall i :: 0 <= i < |r.value| ==> r.value[i].subject == Some(identity(Values(findings)[i]))
  {
    hide Values, TypesOf, SpansOf, IsTop, Injective;
    var gathered := GatherKeyed(severity, identity, findings);
    if gathered.Err? {
      return Err(());
    }
    var (order, groups) := gathered.value;
    var out := [];
    for n := 0 to |order|
      invariant |out| == n
      invariant forall i :: 0 <= i < n ==> Describes(severity, exemplar, findings, Values(findings)[i], out[i])
      invariant forall i :: 0 <= i < n ==> out[i].subject == Some(order[i])
    {
      var g := groups[order[n]];
      SeenHasTypes(severity, findings, Values(findings)[n]);
      var t := TopType(severity, g.types);
      out := out + [ValueFinding(Some(order[n]), t, |g.spans|, exemplar(t, g.value))];
    }
    forall i, f | 0 <= i < |out| && f in findings && f.value == Values(findings)[i]
      ensures f.dataType in severity && out[i].dataType in severity
              && severity[f.dataType] <= severity[out[i].dataType]
    {
      EntryIsTop(severity, exemplar, findings, out, i, f);
    }
    r := Ok(out);
  }

  // ---- grouping without a key --------------------------------------------------------------------

  type ValueGroup = (set<string>, set<Span>)

  ghost predicate KeylessSoFar(fs: seq<Finding>, order: seq<string>, groups: map<string, ValueGroup>) {
    && order == Values(fs)
    && (forall v :: v in groups <==> v in order)
    && (forall v :: v in order ==> groups[v] == (TypesOf(fs, v), SpansOf(fs, v)))
  }

  lemma KeylessStep(fs: seq<Finding>, f: Finding, order: seq<string>, groups: map<string, ValueGroup>)
    requires KeylessSoFar(fs, order, groups)
    ensures var v := f.value;
            var g := if v in groups then groups[v] else ({}, {});
            KeylessSoFar(fs + [f], if v in groups then order else order + [v],
                         groups[v := (g.0 + {f.dataType}, g.1 + {(f.start, f.end)})])
  {
    ValuesGrow(fs, f);
    if f.value !in Values(fs) {
      UnseenHasNothing(fs, f.value);
    }
    hide Values, TypesOf, SpansOf;
    SetsGrow(fs, f, f.value);
    forall v | v != f.value ensures TypesOf(fs + [f], v) == TypesOf(fs, v) && SpansOf(fs + [f], v) == SpansOf(fs, v) {
      SetsGrow(fs, f, v);
    }
  }

  method AddKeyless(order: seq<string>, groups: map<string, ValueGroup>, f: Finding, ghost fs: seq<Finding>)
    returns (longer: seq<string>, grown: map<string, ValueGroup>)
    requires KeylessSoFar(fs, order, groups)
    ensures KeylessSoFar(fs + [f], longer, grown)
  {
    KeylessStep(fs, f, order, groups);
    hide KeylessSoFar;
    var v := f.value;
    longer := if v in groups then order else order + [v];
    var g := if v in groups then groups[v] else ({}, {});
    grown := groups[v := (g.0 + {f.dataType}, g.1 + {(f.start, f.end)})];
  }

  /** The first loop without a key; only an unknown type is refused. */
  method GatherKeyless(severity: Severity, findings: seq<Finding>)
    returns (r: Result<(seq<string>, map<string, ValueGroup>), ()>)
    ensures r.Ok? <==> forall f :: f in findings ==> Known(severity, f)
    ensures r.Ok? ==> KeylessSoFar(findings, r.value.0, r.value.1)
  {
    hide Values, TypesOf, SpansOf;
    var order: seq<string>, groups: map<string, ValueGroup> := [], map[];
    NoValues();
    assert findings[..0] == [] && KeylessSoFar([], order, groups);
    hide KeylessSoFar, Known;
    for n := 0 to |findings|
      invariant forall k :: 0 <= k < n ==> Known(severity, findings[k])
      invariant KeylessSoFar(findings[..n], order, groups)
    {
      var f := findings[n];
      if !Known(severity, f) {
        return Err(());
      }
      assert findings[..n + 1] == findings[..n] + [f];
      order, groups := AddKeyless(order, groups, f, findings[..n]);
    }
    assert findings[..|findings|] == findings;
    r := Ok((order, groups));
  }

  method UnresolvedValueFindings(severity: Severity, exemplar: Exemplar, findings: seq<Finding>)
    returns (r: Result<seq<ValueFinding>, ()>)
    ensures r.Ok? <==> forall f :: f in findings ==> f.dataType in severity
    ensures r.Ok? ==> Summary(severity, exemplar, findings, r.value)
    ensures r.Ok? ==> forall i, f :: 0 <= i < |r.value| && f in findings && f.value == Values(findings)[i] ==>
              f.dataType in severity && r.value[i].dataType in severity
              && severity[f.dataType] <= severity[r.value[i].dataType]
    ensures r.Ok? ==> forall i :: 0 <= i < |r.value| ==> r.value[i].subject == None
  {
    hide Values, TypesOf, SpansOf, IsTop;
    var gathered := GatherKeyless(severity, findings);
    if gathered.Err? {
      return Err(());
    }
    var (order, groups) := gathered.value;
    var out := [];
    for n := 0 to |order|
      invariant |out| == n
      invariant forall i :: 0 <= i < n ==> Describes(severity, exemplar, findings, Values(findings)[i], out[i])
      invariant forall i :: 0 <= i < n ==> out[i].subject == None
    {
      var v := order[n];
      var g := groups[v];
      SeenHasTypes(severity, findings, v);
      var t := TopType(severity, g.0);
      out := out + [ValueFinding(None, t, |g.1|, exemplar(t, v))];
    }
    forall i, f | 0 <= i < |out| && f in findings && f.value == Values(findings)[i]
      ensures f.dataType in severity && out[i].dataType in severity
              && severity[f.dataType] <= severity[out[i].dataType]
    {
      EntryIsTop(severity, exemplar, findings, out, i, f);
    }
    r := Ok(out);
  }

  // ---- laws -------------------------------------------------------------------------------------

  /** Two summaries of the same findings agree on everything but the subject: the keyed and the keyless
      loop report the same types, counts and exemplars in the same order. */
  lemma SummariesAgree(severity: Severity, exemplar: Exemplar, fs: seq<Finding>, a: seq<ValueFinding>,
                       b: seq<ValueFinding>)
    requires Summary(severity, exemplar, fs, a) && Summary(severity, exemplar, fs, b)
    ensures |a| == |b|
    ensures forall i :: 0 <= i < |a| ==> a[i].(subject := None) == b[i].(subject := None)
  {
    hide IsTop, TypesOf, SpansOf, Values;
    forall i | 0 <= i < |a| ensures a[i].(subject := None) == b[i].(subject := None) {
      var v := Values(fs)[i];
      assert Describes(severity, exemplar, fs, v, a[i]) && Describes(severity, exemplar, fs, v, b[i]);
      TopIsUnique(severity, TypesOf(fs, v), a[i].dataType, b[i].dataType);
    }
  }

  lemma SameEvidence(fs: seq<Finding>, gs: seq<Finding>, v: string)
    requires Elems(fs) == Elems(gs)
    ensures v in Values(fs) <==> v in Values(gs)
    ensures TypesOf(fs, v) == TypesOf(gs, v) && SpansOf(fs, v) == SpansOf(gs, v)
  {
    assert forall f :: f in fs <==> f in Elems(fs);
    assert forall f :: f in gs <==> f in Elems(gs);
    ValuesExactly(fs);
    ValuesExactly(gs);
  }

  /** What is reported for a value depends on the set of findings only: neither the order of the
      detectors nor a repeated finding changes it. */
  lemma DetectorOrderIsIrrelevant(severity: Severity, exemplar: Exemplar, fs: seq<Finding>, gs: seq<Finding>,
                                  a: seq<ValueFinding>, b: seq<ValueFinding>, i: nat)
    requires Elems(fs) == Elems(gs)
    requires Summary(severity, exemplar, fs, a) && Summary(severity, exemplar, gs, b) && i < |a|
    ensures exists k ::
              0 <= k < |b| && Values(gs)[k] == Values(fs)[i] && b[k].(subject := None) == a[i].(subject := None)
  {
    var v := Values(fs)[i];
    assert v in Values(fs);
    SameEvidence(fs, gs, v);
    hide IsTop, TypesOf, SpansOf, Values;
    var k :| 0 <= k < |b| && Values(gs)[k] == v;
    assert Describes(severity, exemplar, fs, v, a[i]) && Describes(severity, exemplar, gs, v, b[k]);
    TopIsUnique(severity, TypesOf(fs, v), a[i].dataType, b[k].dataType);
  }

  function Occurrences(out: seq<ValueFinding>): nat {
    if out == [] then 0 else Occurrences(out[..|out| - 1]) + out[|out| - 1].occurrences
  }

  /** The distinct places at which the findings report a value. */
  function Places(fs: seq<Finding>): set<(string, Span)> {
    set f | f in fs :: (f.value, (f.start, f.end))
  }

  function PlacesOf(fs: seq<Finding>, vs: seq<string>): set<(string, Span)> {
    set p | p in Places(fs) && p.0 in vs
  }

  lemma {:induction false} TaggedSize(v: string, spans: set<Span>)
    ensures |set s | s in spans :: (v, s)| == |spans|
  {
    if spans == {} {
    } else {
      var s :| s in spans;
      TaggedSize(v, spans - {s});
      assert (set x | x in spans :: (v, x)) == (set x | x in spans - {s} :: (v, x)) + {(v, s)};
    }
  }

  lemma PlacesGrow(fs: seq<Finding>, vs: seq<string>, v: string)
    requires v !in vs
    ensures |PlacesOf(fs, vs + [v])| == |PlacesOf(fs, vs)| + |SpansOf(fs, v)|
  {
    var tagged := set s | s in SpansOf(fs, v) :: (v, s);
    TaggedSize(v, SpansOf(fs, v));
    forall p ensures p in PlacesOf(fs, vs + [v]) <==> p in PlacesOf(fs, vs) + tagged {
      if p in PlacesOf(fs, vs + [v]) && p.0 == v {
        assert p.1 in SpansOf(fs, v);
      }
    }
    assert PlacesOf(fs, vs + [v]) == PlacesOf(fs, vs) + tagged;
    assert PlacesOf(fs, vs) !! tagged;
  }

  lemma {:induction false} OccurrencesOfPrefix(severity: Severity, exemplar: Exemplar, fs: seq<Finding>,
                                               out: seq<ValueFinding>, n: nat)
    requires Summary(severity, exemplar, fs, out) && n <= |out|
    ensures Occurrences(out[..n]) == |PlacesOf(fs, Values(fs)[..n])|
  {
    if n == 0 {
      assert PlacesOf(fs, Values(fs)[..0]) == {};
    } else {
      OccurrencesOfPrefix(severity, exemplar, fs, out, n - 1);
      ValuesExactly(fs);
      hide Values, IsTop, TypesOf, SpansOf, PlacesOf;
      assert out[..n][..n - 1] == out[..n - 1];
      assert Values(fs)[..n] == Values(fs)[..n - 1] + [Values(fs)[n - 1]];
      assert Describes(severity, exemplar, fs, Values(fs)[n - 1], out[n - 1]);
      PlacesGrow(fs, Values(fs)[..n - 1], Values(fs)[n - 1]);
    }
  }

  /** Nothing is lost or counted twice: the occurrences add up to the number of distinct places. */
  lemma OccurrencesAddUp(severity: Severity, exemplar: Exemplar, fs: seq<Finding>, out: seq<ValueFinding>)
    requires Summary(severity, exemplar, fs, out)
    ensures Occurrences(out) == |Places(fs)|
  {
    ValuesExactly(fs);
    OccurrencesOfPrefix(severity, exemplar, fs, out, |out|);
    assert out[..|out|] == out && Values(fs)[..|out|] == Values(fs);
    assert PlacesOf(fs, Values(fs)) == Places(fs);
  }
}
