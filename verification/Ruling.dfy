/** The allow/rewrite/deny ruling: network-file denials, the read guard, source rules over a
    first-write-wins origin map, mask rules, and the built-in default for hard-blocked types. */
module Ruling {
  import opened Common

  datatype OriginKind = PathOrigin | CommandOrigin

  datatype Origin = Origin(value: string, kind: OriginKind)

  /** `digest` stands for the keyed hash of the finding's value. */
  datatype Finding = Finding(dataType: string, digest: string)

  datatype Direction = Egress | Ingress | Local | Propagate

  datatype Observation = Observation(preTool: bool, direction: Direction, origin: Option<Origin>, sensitivePath: bool)

  datatype Scan = Scan(destination: string, findings: seq<Finding>, networkBlock: bool)

  datatype Rules = Rules(mask: set<string>, paths: set<string>, commands: set<string>)

  datatype Default = Block | Mask

  datatype TokenMode = AllowOnce | Minimize | Unrecognized

  datatype Action = Allow | Rewrite | Deny

  /** A destination without a default raises; the daemon answers an outbound call whose ruling raised
      with a denial. */
  datatype Outcome =
    | Ruled(action: Action, blockedOrigin: Option<Origin>, readBlocked: bool, notice: bool, tokenSpent: bool)
    | Unmapped

  const HARD_BLOCKED: set<string> := {"credential"}

  predicate Blocks(rules: Rules, o: Origin) {
    match o.kind
    case PathOrigin => o.value in rules.paths
    case CommandOrigin => o.value in rules.commands
  }

  predicate FromBlocked(origins: map<string, Origin>, rules: Rules, f: Finding) {
    f.digest in origins && Blocks(rules, origins[f.digest])
  }

  predicate HardBlocked(findings: seq<Finding>) {
    exists f :: f in findings && f.dataType in HARD_BLOCKED
  }

  predicate Masked(rules: Rules, findings: seq<Finding>) {
    exists f :: f in findings && f.dataType in rules.mask
  }

  ghost predicate Tainted(origins: map<string, Origin>, rules: Rules, findings: seq<Finding>) {
    exists f :: f in findings && FromBlocked(origins, rules, f)
  }

  /** The origin of the first finding whose source is blocked. */
  ghost predicate IsFirstBlocked(origins: map<string, Origin>, rules: Rules, findings: seq<Finding>, o: Origin) {
    exists i | 0 <= i < |findings| ::
      && FromBlocked(origins, rules, findings[i]) && o == origins[findings[i].digest]
      && forall k :: 0 <= k < i ==> !FromBlocked(origins, rules, findings[k])
  }

  /** A local read of a sensitive path that has not happened yet. */
  predicate GuardedRead(obs: Observation) {
    obs.preTool && obs.direction.Local? && obs.sensitivePath
  }

  /** Only the built-in block of a hard-blocked type can be lifted by a consent token. */
  ghost predicate AsksForToken(origins: map<string, Origin>, rules: Rules, scan: Scan, defaults: map<string, Default>) {
    && !scan.networkBlock && !Tainted(origins, rules, scan.findings) && HardBlocked(scan.findings)
    && scan.destination in defaults && defaults[scan.destination].Block?
  }

  function Digests(findings: seq<Finding>): set<string> {
    set f | f in findings :: f.digest
  }

  /** What one observation adds to the origin map: a call that has run gives each of its values an
      origin, unless the value already has one. */
  ghost function Remembered(origins: map<string, Origin>, obs: Observation, findings: seq<Finding>)
    : map<string, Origin>
  {
    if obs.origin.None? || obs.preTool then origins
    else (map d | d in Digests(findings) :: obs.origin.value) + origins
  }

  /** How the hook answers an outbound call whose map and rules are these. */
  ghost function EgressAnswer(origins: map<string, Origin>, rules: Rules, scan: Scan,
                              defaults: map<string, Default>, token: Option<TokenMode>): Option<Action> {
    if scan.networkBlock || Tainted(origins, rules, scan.findings) then Some(Deny)
    else if !HardBlocked(scan.findings) then Some(if Masked(rules, scan.findings) then Rewrite else Allow)
    else if scan.destination !in defaults then None
    else if defaults[scan.destination].Mask? || token == Some(Minimize) then Some(Rewrite)
    else Some(if token == Some(AllowOnce) then Allow else Deny)
  }

  // ---- the answer to an outbound call, case by case --------------------------------------------

  /** No value of the call was first seen in a source that the user's rules block. */
  predicate SourcesAllowed(origins: map<string, Origin>, rules: Rules, findings: seq<Finding>) {
    forall f :: f in findings && f.digest in origins ==>
      && (origins[f.digest].kind == PathOrigin ==> origins[f.digest].value !in rules.paths)
      && (origins[f.digest].kind == CommandOrigin ==> origins[f.digest].value !in rules.commands)
  }

  predicate HasType(findings: seq<Finding>, dataType: string) {
    exists f :: f in findings && f.dataType == dataType
  }

  /** A network rule or a blocked source denies an outbound call, whatever else holds. */
  lemma BlockedCallsAreDenied(origins: map<string, Origin>, rules: Rules, scan: Scan, defaults: map<string, Default>,
                              token: Option<TokenMode>)
    ensures scan.networkBlock || !SourcesAllowed(origins, rules, scan.findings) ==>
              EgressAnswer(origins, rules, scan, defaults, token) == Some(Deny)
  {
  }

  /** An outbound call without a credential is rewritten exactly when some rule masks a type it carries, and
      goes out unchanged otherwise; a token makes no difference. */
  lemma MaskRulesDecide(origins: map<string, Origin>, rules: Rules, scan: Scan, defaults: map<string, Default>,
                        token: Option<TokenMode>)
    requires !scan.networkBlock && SourcesAllowed(origins, rules, scan.findings)
    requires !HasType(scan.findings, "credential")
    ensures EgressAnswer(origins, rules, scan, defaults, token)
         == Some(if exists t :: t in rules.mask && HasType(scan.findings, t) then Rewrite else Allow)
  {
    if exists f :: f in scan.findings && f.dataType in rules.mask {
      var f :| f in scan.findings && f.dataType in rules.mask;
      assert HasType(scan.findings, f.dataType);
    }
  }

  /** A credential goes out unchanged only on a token that allows it once, and rewritten only on a minimize
      token or a default that masks; without a default the ruling raises. */
  lemma TokensDecide(origins: map<string, Origin>, rules: Rules, scan: Scan, defaults: map<string, Default>,
                     token: Option<TokenMode>)
    requires !scan.networkBlock && SourcesAllowed(origins, rules, scan.findings) && HasType(scan.findings, "credential")
    ensures var answer := EgressAnswer(origins, rules, scan, defaults, token);
            && (scan.destination !in defaults ==> answer == None)
            && (scan.destination in defaults && defaults[scan.destination] == Mask ==> answer == Some(Rewrite))
            && (scan.destination in defaults && defaults[scan.destination] == Block ==>
                  && (token == Some(AllowOnce) ==> answer == Some(Allow))
                  && (token == Some(Minimize) ==> answer == Some(Rewrite))
                  && (token == Some(Unrecognized) || token == None ==> answer == Some(Deny)))
  {
  }

  class Engine {
    var origins: map<string, Origin>
    var readNoticeShown: bool

    constructor ()
      ensures origins == map[] && !readNoticeShown
    {
      origins, readNoticeShown := map[], false;
    }

    method RememberOrigins(obs: Observation, findings: seq<Finding>)
      modifies this`origins
      ensures origins == Remembered(old(origins), obs, findings)
      ensures obs.preTool || obs.origin == None ==> origins == old(origins)
      ensures !obs.preTool && obs.origin.Some? ==>
                && (forall f :: f in findings ==> f.digest in origins)
                && (forall d :: d in origins && d !in old(origins) ==>
                      origins[d] == obs.origin.value && exists f :: f in findings && f.digest == d)
                && (forall d :: d in old(origins) ==> d in origins && origins[d] == old(origins)[d])
    {
      if obs.origin.None? || obs.preTool {
        return;
      }
      for i := 0 to |findings|
        invariant origins.Keys == Digests(findings[..i]) + old(origins).Keys
        invariant forall d :: d in origins ==>
                  origins[d] == if d in old(origins) then old(origins)[d] else obs.origin.value
      {
        assert Digests(findings[..i + 1]) == Digests(findings[..i]) + {findings[i].digest};
        if findings[i].digest !in origins {
          origins := origins[findings[i].digest := obs.origin.value];
        }
      }
      assert findings[..|findings|] == findings;
    }

    /** The origin of the first finding whose source the user has blocked. */
    method BlockedOrigin(rules: Rules, findings: seq<Finding>) returns (blocked: Option<Origin>)
      ensures blocked.Some? <==> Tainted(origins, rules, findings)
      ensures blocked.Some? ==> IsFirstBlocked(origins, rules, findings, blocked.value)
    {
      for i := 0 to |findings|
        invariant forall k :: 0 <= k < i ==> !FromBlocked(origins, rules, findings[k])
      {
        if FromBlocked(origins, rules, findings[i]) {
          assert findings[i] in findings;
          return Some(origins[findings[i].digest]);
        }
      }
      blocked := None;
    }

    method Observe(obs: Observation, scan: Scan, rules: Rules, defaults: map<string, Default>,
                   denyRead: bool, token: Option<TokenMode>) returns (outcome: Outcome)
      modifies this
      ensures origins == Remembered(old(origins), obs, scan.findings)
      ensures obs.direction.Egress? ==>
        match EgressAnswer(origins, rules, scan, defaults, token)
        case None => outcome.Unmapped?
        case Some(answer) => outcome.Ruled? && outcome.action == answer
      ensures obs.direction.Egress? && (scan.networkBlock || !SourcesAllowed(origins, rules, scan.findings)) ==>
                outcome.Ruled? && outcome.action == Deny
      ensures obs.direction.Egress? && HasType(scan.findings, "credential") && outcome.Ruled? ==>
                (outcome.action == Allow ==> token == Some(AllowOnce) && outcome.tokenSpent)
      ensures obs.direction.Egress? && !scan.networkBlock && SourcesAllowed(origins, rules, scan.findings)
              && !HasType(scan.findings, "credential") ==>
                outcome.Ruled?
                && outcome.action == if exists t :: t in rules.mask && HasType(scan.findings, t) then Rewrite else Allow
      ensures obs.direction.Egress? && !scan.networkBlock && SourcesAllowed(origins, rules, scan.findings)
              && HasType(scan.findings, "credential") && scan.destination in defaults
              && defaults[scan.destination] == Block ==>
                outcome == Ruled(if token == Some(AllowOnce) then Allow else if token == Some(Minimize) then Rewrite
                                 else Deny, None, false, false, token.Some?)
      ensures obs.direction.Egress? && !scan.networkBlock && SourcesAllowed(origins, rules, scan.findings)
              && HasType(scan.findings, "credential") ==>
                && (outcome.Unmapped? <==> scan.destination !in defaults)
                && (scan.destination in defaults && defaults[scan.destination] == Mask ==> outcome.action == Rewrite)
      ensures obs.direction != Egress ==>
                outcome.Ruled? && outcome.action == if scan.networkBlock || outcome.readBlocked then Deny else Allow
      ensures outcome.Ruled? ==>
                (outcome.blockedOrigin.Some? <==>
                   obs.direction.Egress? && !scan.networkBlock && Tainted(origins, rules, scan.findings))
      ensures outcome.Ruled? && outcome.blockedOrigin.Some? ==>
                IsFirstBlocked(origins, rules, scan.findings, outcome.blockedOrigin.value)
      ensures outcome.Ruled? ==>
                (outcome.tokenSpent <==>
                   token.Some? && obs.direction.Egress? && AsksForToken(origins, rules, scan, defaults))
      ensures var asked := obs.preTool && obs.direction == Local && obs.sensitivePath;
              && (outcome.Ruled? ==> (outcome.readBlocked <==> asked && denyRead))
              && (outcome.Ruled? ==> (outcome.notice <==> asked && !denyRead && !old(readNoticeShown)))
              && readNoticeShown == (old(readNoticeShown) || (asked && !denyRead))
    {
      var action := if scan.networkBlock then Deny else Allow;
      var readBlocked, notice, spent := false, false, false;
      var blocked: Option<Origin> := None;
      if GuardedRead(obs) {
        if denyRead {
          action, readBlocked := Deny, true;
        } else if !readNoticeShown {
          readNoticeShown, notice := true, true;
        }
      }
      RememberOrigins(obs, scan.findings);
      var hard := HardBlocked(scan.findings);
      if obs.direction.Egress? && !scan.networkBlock {
        blocked := BlockedOrigin(rules, scan.findings);
        if blocked.Some? {
          action := Deny;
        } else if scan.findings != [] && !hard {
          if Masked(rules, scan.findings) {
            action := Rewrite;
          }
        }
      }
      if action.Allow? && obs.direction.Egress? && hard {
        if scan.destination !in defaults {
          return Unmapped;
        }
        match defaults[scan.destination]
        case Mask => action := Rewrite;
        case Block =>
          spent := token.Some?;
          action := if token == Some(AllowOnce) then Allow else if token == Some(Minimize) then Rewrite else Deny;
      }
      outcome := Ruled(action, blocked, readBlocked, notice, spent);
    }
  }

  // ---- policy only tightens -----------------------------------------------------------------

  /** Allow is weaker than a rewrite, a rewrite weaker than a denial; a ruling that raises denies. */
  function Strength(answer: Option<Action>): nat {
    match answer
    case None => 2
    case Some(Allow) => 0
    case Some(Rewrite) => 1
    case Some(Deny) => 2
  }

  predicate Extends(rules: Rules, rules': Rules) {
    rules.mask <= rules'.mask && rules.paths <= rules'.paths && rules.commands <= rules'.commands
  }

  predicate Keeps(origins: map<string, Origin>, origins': map<string, Origin>) {
    forall d :: d in origins ==> d in origins' && origins'[d] == origins[d]
  }

  /** Adding rules, and learning more origins, never weakens the answer to an outbound call, whether
      or not a consent token is waiting. */
  lemma MoreRulesNeverWeaken(origins: map<string, Origin>, origins': map<string, Origin>, rules: Rules, rules': Rules,
                             scan: Scan, defaults: map<string, Default>, token: Option<TokenMode>)
    requires Keeps(origins, origins') && Extends(rules, rules')
    ensures Strength(EgressAnswer(origins, rules, scan, defaults, token))
      <= Strength(EgressAnswer(origins', rules', scan, defaults, token))
  {
  }

  /** What happens to one engine: observations, and rules saved for its session. */
  datatype Event = Observed(obs: Observation, scan: Scan) | Saved(added: Rules)

  datatype Memory = Memory(origins: map<string, Origin>, rules: Rules)

  function Union(a: Rules, b: Rules): Rules {
    Rules(a.mask + b.mask, a.paths + b.paths, a.commands + b.commands)
  }

  ghost function After(start: Memory, events: seq<Event>): Memory {
    if events == [] then start
    else
      var m := After(start, events[..|events| - 1]);
      match events[|events| - 1]
      case Observed(obs, scan) => m.(origins := Remembered(m.origins, obs, scan.findings))
      case Saved(added) => m.(rules := Union(m.rules, added))
  }

  lemma {:induction false} MemoryGrows(start: Memory, events: seq<Event>, i: nat, k: nat)
    requires i <= k <= |events|
    ensures Keeps(After(start, events[..i]).origins, After(start, events[..k]).origins)
    ensures Extends(After(start, events[..i]).rules, After(start, events[..k]).rules)
  {
    if i == k {
    } else {
      MemoryGrows(start, events, i, k - 1);
      assert events[..k][..k - 1] == events[..k - 1];
    }
  }

  /** The answer at one point of an engine's life, after the observation's own values are remembered. */
  ghost function AnswerAt(start: Memory, events: seq<Event>, i: nat, defaults: map<string, Default>): Option<Action>
    requires i < |events| && events[i].Observed?
  {
    var m := After(start, events[..i + 1]);
    EgressAnswer(m.origins, m.rules, events[i].scan, defaults, None)
  }

  /** Within one engine's life, without consent tokens, the same outbound call with the same scan
      never gets a weaker answer later. */
  lemma LaterIsNeverWeaker(start: Memory, events: seq<Event>, i: nat, k: nat, defaults: map<string, Default>)
    requires i <= k < |events| && events[i].Observed? && events[k] == events[i]
    ensures Strength(AnswerAt(start, events, i, defaults)) <= Strength(AnswerAt(start, events, k, defaults))
  {
    MemoryGrows(start, events, i + 1, k + 1);
    var m, m' := After(start, events[..i + 1]), After(start, events[..k + 1]);
    MoreRulesNeverWeaken(m.origins, m'.origins, m.rules, m'.rules, events[i].scan, defaults, None);
  }

  /** A value's first recorded origin is its origin for the rest of the engine's life. */
  lemma FirstOriginWins(start: Memory, events: seq<Event>, i: nat, k: nat, f: Finding)
    requires i < k <= |events| && events[i].Observed? && !events[i].obs.preTool && events[i].obs.origin.Some?
    requires f in events[i].scan.findings && f.digest !in After(start, events[..i]).origins
    ensures f.digest in After(start, events[..k]).origins
    ensures After(start, events[..k]).origins[f.digest] == events[i].obs.origin.value
  {
    assert events[..i + 1][..i] == events[..i];
    MemoryGrows(start, events, i + 1, k);
    assert f.digest in After(start, events[..i + 1]).origins;
  }
}
