/** Replacing sensitive spans of outbound text by pseudonyms, right to left in place, and the simple
    left-to-right splice it must equal. */
module SpanRewriting {
  import opened Common

  datatype Finding = Finding(dataType: string, value: string, start: int, end: int)

  /** The first eight hex digits of the session's hash of a value. */
  type Token = string -> string

  /** Stable per session: the same value of the same type always gives the same pseudonym. */
  function Pseudonym(token: Token, dataType: string, value: string): string {
    if dataType == "email" then "user_" + token(value) + "@example.invalid"
    else dataType + "_" + token(value)
  }

  function Replacement(token: Token, f: Finding): string {
    Pseudonym(token, f.dataType, f.value)
  }

  /** Where a slice index lands in a text of this length: a negative one counts from the end, and both
      ends are clamped. */
  function At(n: nat, i: int): (p: nat)
    ensures p <= n
  {
    if i > n then n else if i >= 0 then i else if n + i >= 0 then n + i else 0
  }

  function UpTo(s: string, b: int): string {
    s[..At(|s|, b)]
  }

  function From(s: string, a: int): string {
    s[At(|s|, a)..]
  }

  function Slice(s: string, a: int, b: int): string {
    if At(|s|, a) <= At(|s|, b) then s[At(|s|, a)..At(|s|, b)] else ""
  }

  function Apply(token: Token, s: string, f: Finding): string {
    UpTo(s, f.start) + Replacement(token, f) + From(s, f.end)
  }

  // ---- the order of application ------------------------------------------------------

  /** Stable insertion sort by descending start. */
  function Insert(f: Finding, sorted: seq<Finding>): seq<Finding> {
    if sorted == [] || sorted[0].start <= f.start then [f] + sorted
    else [sorted[0]] + Insert(f, sorted[1..])
  }

  function SortDescending(fs: seq<Finding>): seq<Finding> {
    if fs == [] then [] else Insert(fs[0], SortDescending(fs[1..]))
  }

  predicate Descending(fs: seq<Finding>) {
    forall i, j :: 0 <= i < j < |fs| ==> fs[j].start <= fs[i].start
  }

  lemma {:induction false} InsertAdds(f: Finding, sorted: seq<Finding>)
    ensures multiset(Insert(f, sorted)) == multiset([f] + sorted)
  {
    if sorted == [] || sorted[0].start <= f.start {
    } else {
      InsertAdds(f, sorted[1..]);
      assert sorted == [sorted[0]] + sorted[1..];
    }
  }

  lemma {:induction false} InsertKeepsOrder(f: Finding, sorted: seq<Finding>)
    requires Descending(sorted)
    ensures Descending(Insert(f, sorted))
    ensures Insert(f, sorted)[0] == f || (sorted != [] && Insert(f, sorted)[0] == sorted[0])
  {
    if sorted == [] || sorted[0].start <= f.start {
    } else {
      InsertKeepsOrder(f, sorted[1..]);
    }
  }

  lemma {:induction false} SortSorts(fs: seq<Finding>)
    ensures Descending(SortDescending(fs)) && multiset(SortDescending(fs)) == multiset(fs)
  {
    if fs == [] {
    } else {
      SortSorts(fs[1..]);
      InsertKeepsOrder(fs[0], SortDescending(fs[1..]));
      InsertAdds(fs[0], SortDescending(fs[1..]));
      assert fs == [fs[0]] + fs[1..];
    }
  }

  // ---- rewriting ------------------------------------------------------------------------

  /** Applying the findings in this order; a span that no longer holds its value is refused. */
  ghost function Rewrite(token: Token, s: string, fs: seq<Finding>): Result<string, ()>
    decreases |fs|
  {
    if fs == [] then Ok(s)
    else if Slice(s, fs[0].start, fs[0].end) != fs[0].value then Err(())
    else Rewrite(token, Apply(token, s, fs[0]), fs[1..])
  }

  // ---- the simple splice -------------------------------------------------------------------

  /** The finding's span lies in the text, is not empty and holds its value. */
  predicate Fits(text: string, f: Finding) {
    0 <= f.start < f.end <= |text| && text[f.start..f.end] == f.value
  }

  predicate Apart(f: Finding, g: Finding) {
    f.end <= g.start || g.end <= f.start
  }

  predicate Rewritable(text: string, fs: seq<Finding>) {
    && (forall i :: 0 <= i < |fs| ==> Fits(text, fs[i]))
    && (forall i, j :: 0 <= i < j < |fs| ==> Apart(fs[i], fs[j]))
  }

  ghost predicate StartsAt(fs: set<Finding>, p: nat) {
    exists f :: f in fs && f.start == p
  }

  ghost function FindingAt(fs: set<Finding>, p: nat): Finding
    requires StartsAt(fs, p)
  {
    var f :| f in fs && f.start == p; f
  }

  /** Read left to right from a position: a finding that starts here gives its pseudonym and is
      skipped, anything else is copied. It depends on the set of findings only. */
  ghost function Splice(token: Token, text: string, fs: set<Finding>, p: nat): string
    decreases |text| - p
  {
    if p >= |text| then ""
    else if StartsAt(fs, p) && FindingAt(fs, p).end > p then
      Replacement(token, FindingAt(fs, p)) + Splice(token, text, fs, FindingAt(fs, p).end)
    else [text[p]] + Splice(token, text, fs, p + 1)
  }

  lemma CopiesOne(token: Token, text: string, fs: set<Finding>, a: nat)
    requires a < |text| && !StartsAt(fs, a)
    ensures Splice(token, text, fs, a) == [text[a]] + Splice(token, text, fs, a + 1)
  {
  }

  lemma {:induction false} CopiesGap(token: Token, text: string, fs: set<Finding>, a: nat, b: nat)
    requires a <= b <= |text| && forall p :: a <= p < b ==> !StartsAt(fs, p)
    ensures Splice(token, text, fs, a) == text[a..b] + Splice(token, text, fs, b)
    decreases b - a
  {
    hide Splice, StartsAt;
    if a < b {
      CopiesOne(token, text, fs, a);
      CopiesGap(token, text, fs, a + 1, b);
      assert text[a..b] == [text[a]] + text[a + 1..b];
    } else {
      assert text[a..b] == "";
    }
  }

  ghost predicate OneAtMost(fs: set<Finding>) {
    forall f, g :: f in fs && g in fs && f.start == g.start ==> f == g
  }

  lemma {:induction false} ForgetsPassed(token: Token, text: string, fs: set<Finding>, f: Finding, b: nat)
    requires f.start < b && OneAtMost(fs + {f})
    ensures Splice(token, text, fs + {f}, b) == Splice(token, text, fs, b)
    decreases |text| - b
  {
    if b >= |text| {
    } else {
      assert StartsAt(fs + {f}, b) == StartsAt(fs, b);
      if StartsAt(fs, b) {
        assert FindingAt(fs + {f}, b) == FindingAt(fs, b);
      }
      if StartsAt(fs, b) && FindingAt(fs, b).end > b {
        ForgetsPassed(token, text, fs, f, FindingAt(fs, b).end);
      } else {
        ForgetsPassed(token, text, fs, f, b + 1);
      }
    }
  }

  function Elems(fs: seq<Finding>): set<Finding> {
    set f | f in fs
  }

  /** Left of `b` nothing is rewritten yet; from `b` on everything is. */
  ghost predicate Halfway(token: Token, text: string, done: set<Finding>, b: nat, s: string) {
    b <= |text| && s == text[..b] + Splice(token, text, done, b)
  }

  lemma OneStep(token: Token, text: string, done: set<Finding>, b: nat, s: string, f: Finding)
    requires Halfway(token, text, done, b, s) && Fits(text, f) && f.end <= b
    requires OneAtMost(done + {f}) && forall g :: g in done ==> g.start >= b
    ensures Slice(s, f.start, f.end) == f.value
    ensures Halfway(token, text, done + {f}, f.start, Apply(token, s, f))
  {
    var all := done + {f};
    assert s[..f.start] == text[..f.start] && s[f.start..f.end] == text[f.start..f.end];
    assert UpTo(s, f.end)[f.start..] == s[f.start..f.end];
    assert s[f.end..] == text[f.end..b] + Splice(token, text, done, b);
    assert f in all && StartsAt(all, f.start) && FindingAt(all, f.start) == f;
    CopiesGap(token, text, all, f.end, b);
    ForgetsPassed(token, text, done, f, b);
    var tail := text[f.end..b] + Splice(token, text, done, b);
    assert Apply(token, s, f) == text[..f.start] + (Replacement(token, f) + tail);
  }

  /** With descending starts, everything after the first finding ends before it. */
  lemma RestIsLeft(text: string, rest: seq<Finding>)
    requires Descending(rest) && Rewritable(text, rest) && rest != []
    ensures Fits(text, rest[0]) && Descending(rest[1..]) && Rewritable(text, rest[1..])
    ensures forall g :: g in rest[1..] ==> g.end <= rest[0].start
  {
  }

  lemma {:induction false} RewriteIsSplice(token: Token, text: string, done: set<Finding>, b: nat, s: string,
                                           rest: seq<Finding>)
    requires Halfway(token, text, done, b, s)
    requires Descending(rest) && Rewritable(text, rest) && OneAtMost(done + Elems(rest))
    requires forall g :: g in done ==> g.start >= b
    requires forall f :: f in rest ==> f.end <= b
    ensures Rewrite(token, s, rest) == Ok(Splice(token, text, done + Elems(rest), 0))
    decreases |rest|
  {
    if rest == [] {
      assert done + Elems(rest) == done;
      CopiesGap(token, text, done, 0, b);
      assert text[0..b] == text[..b];
    } else {
      var f := rest[0];
      RestIsLeft(text, rest);
      hide Descending, Rewritable, Halfway, Splice;
      assert done + {f} + Elems(rest[1..]) == done + Elems(rest);
      assert f in done + Elems(rest);
      OneStep(token, text, done, b, s, f);
      RewriteIsSplice(token, text, done + {f}, f.start, Apply(token, s, f), rest[1..]);
    }
  }

  lemma PermutationKeepsElems(fs: seq<Finding>, ds: seq<Finding>)
    requires multiset(fs) == multiset(ds)
    ensures Elems(fs) == Elems(ds)
  {
    forall x ensures x in fs <==> x in ds {
      assert x in multiset(fs) <==> x in multiset(ds);
    }
  }

  lemma PermutationKeepsRewritable(text: string, fs: seq<Finding>, ds: seq<Finding>)
    requires Rewritable(text, fs) && multiset(fs) == multiset(ds)
    ensures Rewritable(text, ds)
  {
    PermutationKeepsElems(fs, ds);
    forall i | 0 <= i < |ds| ensures Fits(text, ds[i]) {
      assert ds[i] in Elems(ds);
      var k :| 0 <= k < |fs| && fs[k] == ds[i];
    }
    forall i, j | 0 <= i < j < |ds| ensures Apart(ds[i], ds[j]) {
      PairSurvives(fs, ds, i, j);
    }
  }

  lemma RewritableFits(text: string, fs: seq<Finding>)
    requires Rewritable(text, fs)
    ensures forall f :: f in fs ==> f.end <= |text|
  {
    forall f | f in fs ensures f.end <= |text| {
      var i :| 0 <= i < |fs| && fs[i] == f;
      assert Fits(text, fs[i]);
    }
  }

  lemma NothingRewritten(token: Token, text: string)
    ensures Halfway(token, text, {}, |text|, text)
  {
    assert text == text[..|text|] + "";
  }

  lemma RewritableHasOneAtMost(text: string, fs: seq<Finding>)
    requires Rewritable(text, fs)
    ensures OneAtMost(Elems(fs))
  {
  }

  lemma RepeatsAreCounted(ds: seq<Finding>, i: nat, j: nat)
    requires i < j < |ds| && ds[i] == ds[j]
    ensures multiset(ds)[ds[i]] >= 2
  {
    assert ds == ds[..j] + [ds[j]] + ds[j + 1..];
    assert ds[i] in ds[..j];
  }

  lemma CountedRepeats(fs: seq<Finding>, x: Finding) returns (a: nat, b: nat)
    requires multiset(fs)[x] >= 2
    ensures a < b < |fs| && fs[a] == x && fs[b] == x
  {
    a :| a < |fs| && fs[a] == x;
    assert fs == fs[..a] + [x] + fs[a + 1..];
    if x in fs[..a] {
      b := a;
      a :| a < |fs[..b]| && fs[..b][a] == x;
    } else {
      assert x in fs[a + 1..];
      var k :| 0 <= k < |fs[a + 1..]| && fs[a + 1..][k] == x;
      b := a + 1 + k;
    }
  }

  /** Two places of a permutation come from two places of the original. */
  lemma PairSurvives(fs: seq<Finding>, ds: seq<Finding>, i: nat, j: nat)
    requires multiset(ds) == multiset(fs) && i < j < |ds|
    requires forall a, b :: 0 <= a < b < |fs| ==> Apart(fs[a], fs[b])
    ensures Apart(ds[i], ds[j])
  {
    var x, y := ds[i], ds[j];
    if x == y {
      RepeatsAreCounted(ds, i, j);
      var a, b := CountedRepeats(fs, x);
      assert Apart(fs[a], fs[b]);
    } else {
      assert x in multiset(ds) && y in multiset(ds);
      var a :| 0 <= a < |fs| && fs[a] == x;
      var b :| 0 <= b < |fs| && fs[b] == y;
      assert a < b ==> Apart(fs[a], fs[b]);
      assert b < a ==> Apart(fs[b], fs[a]);
    }
  }

  /** For findings whose spans are disjoint, not empty and hold their values, rewriting right to left
      never fails and is the simple splice, so it does not depend on the order of the findings. */
  lemma MinimizeIsSplice(token: Token, text: string, findings: seq<Finding>)
    requires Rewritable(text, findings)
    ensures Rewrite(token, text, SortDescending(findings)) == Ok(Splice(token, text, Elems(findings), 0))
  {
    var ds := SortDescending(findings);
    SortSorts(findings);
    PermutationKeepsRewritable(text, findings, ds);
    PermutationKeepsElems(findings, ds);
    RewritableHasOneAtMost(text, findings);
    RewritableFits(text, ds);
    NothingRewritten(token, text);
    hide *;
    assert {} + Elems(ds) == Elems(findings);
    RewriteIsSplice(token, text, {}, |text|, text, ds);
  }

  /** Two orders of the same findings are rewritten to the same text. */
  lemma FindingOrderIsIrrelevant(token: Token, text: string, findings: seq<Finding>, reordered: seq<Finding>)
    requires Rewritable(text, findings) && multiset(findings) == multiset(reordered)
    ensures Rewrite(token, text, SortDescending(findings)) == Rewrite(token, text, SortDescending(reordered))
  {
    PermutationKeepsRewritable(text, findings, reordered);
    PermutationKeepsElems(findings, reordered);
    MinimizeIsSplice(token, text, findings);
    MinimizeIsSplice(token, text, reordered);
  }

  // ---- what stands in the place of a span ------------------------------------------------------

  /** Read from the left, the splice comes to every finding of the set. */
  lemma {:induction false} SpliceReaches(token: Token, text: string, fs: set<Finding>, p: nat, f: Finding)
    returns (left: string)
    requires f in fs && p <= f.start < f.end <= |text| && OneAtMost(fs)
    requires forall g :: g in fs && g.start < f.start ==> g.end <= f.start
    ensures Splice(token, text, fs, p) == left + Replacement(token, f) + Splice(token, text, fs, f.end)
    decreases f.start - p
  {
    if p == f.start {
      assert StartsAt(fs, p) && FindingAt(fs, p) == f;
      left := "";
    } else if StartsAt(fs, p) && FindingAt(fs, p).end > p {
      var g := FindingAt(fs, p);
      var more := SpliceReaches(token, text, fs, g.end, f);
      left := Replacement(token, g) + more;
      hide Splice, Replacement, OneAtMost;
    } else {
      left := SpliceReaches(token, text, fs, p + 1, f);
      left := [text[p]] + left;
    }
  }

  ghost predicate Contains(s: string, part: string) {
    exists left, right :: s == left + part + right
  }

  /** Every span is replaced by the pseudonym of its type and value: an address for an e-mail, and otherwise
      the type's name with the value's token. Equal values of a type get equal pseudonyms. */
  lemma SpansBecomePseudonyms(token: Token, text: string, findings: seq<Finding>, f: Finding)
    requires Rewritable(text, findings) && f in findings
    ensures var r := Rewrite(token, text, SortDescending(findings));
            && r.Ok?
            && (f.dataType == "email" ==> Contains(r.value, "user_" + token(f.value) + "@example.invalid"))
            && (f.dataType != "email" ==> Contains(r.value, f.dataType + "_" + token(f.value)))
  {
    MinimizeIsSplice(token, text, findings);
    RewritableHasOneAtMost(text, findings);
    var i :| 0 <= i < |findings| && findings[i] == f;
    assert Fits(text, findings[i]);
    forall g | g in Elems(findings) && g.start < f.start ensures g.end <= f.start {
      var k :| 0 <= k < |findings| && findings[k] == g;
      assert k < i ==> Apart(findings[k], findings[i]);
      assert i < k ==> Apart(findings[i], findings[k]);
      assert Fits(text, findings[k]);
    }
    var left := SpliceReaches(token, text, Elems(findings), 0, f);
    var part := Replacement(token, f);
    var whole := Splice(token, text, Elems(findings), 0);
    hide Splice, Rewritable, OneAtMost, SortDescending, Rewrite;
    assert whole == left + part + Splice(token, text, Elems(findings), f.end);
    assert Contains(whole, part);
  }

  /** A single finding: the text around the span is untouched. */
  lemma OneSpanIsReplaced(token: Token, text: string, f: Finding)
    requires 0 <= f.start < f.end <= |text| && text[f.start..f.end] == f.value
    ensures f.dataType == "email" ==>
              Rewrite(token, text, SortDescending([f]))
              == Ok(text[..f.start] + ("user_" + token(f.value) + "@example.invalid") + text[f.end..])
    ensures f.dataType != "email" ==>
              Rewrite(token, text, SortDescending([f]))
              == Ok(text[..f.start] + (f.dataType + "_" + token(f.value)) + text[f.end..])
  {
    assert [f][1..] == [] && SortDescending([]) == [] && SortDescending([f]) == [f];
    assert Slice(text, f.start, f.end) == f.value;
    var once := Apply(token, text, f);
    assert Rewrite(token, once, []) == Ok(once);
  }

  /** Indices are Python's: a negative one counts from the end of the text. */
  lemma NegativeIndicesCountFromTheEnd(s: string, a: int, b: int)
    requires 0 < b <= a <= |s|
    ensures Slice(s, -a, -b) == s[|s| - a..|s| - b] && Slice(s, -a, |s|) == s[|s| - a..]
  {
  }

  method MinimizeText(token: Token, text: string, findings: seq<Finding>) returns (r: Result<string, ()>)
    ensures r == Rewrite(token, text, SortDescending(findings))
    ensures Rewritable(text, findings) ==>
              r.Ok? && forall f :: f in findings ==>
                Contains(r.value, if f.dataType == "email" then "user_" + token(f.value) + "@example.invalid"
                                  else f.dataType + "_" + token(f.value))
  {
    if Rewritable(text, findings) {
      forall f | f in findings {
        SpansBecomePseudonyms(token, text, findings, f);
      }
    }
    hide Rewritable, Contains, SortDescending;
    var order := SortDescending(findings);
    var out := text;
    for i := 0 to |order|
      invariant Rewrite(token, text, order) == Rewrite(token, out, order[i..])
    {
      var f := order[i];
      assert order[i..][1..] == order[i + 1..];
      if Slice(out, f.start, f.end) != f.value {
        return Err(());
      }
      out := Apply(token, out, f);
    }
    r := Ok(out);
  }

  // ---- the lenient filter ---------------------------------------------------------------------

  predicate Matches(text: string, f: Finding) {
    0 <= f.start <= f.end <= |text| && text[f.start..f.end] == f.value
  }

  /** The findings whose span holds their value in this text. */
  function Matching(text: string, fs: seq<Finding>): seq<Finding> {
    if fs == [] then []
    else if Matches(text, fs[0]) then [fs[0]] + Matching(text, fs[1..])
    else Matching(text, fs[1..])
  }

  lemma {:induction false} MatchingExactly(text: string, fs: seq<Finding>, f: Finding)
    ensures f in Matching(text, fs) <==> f in fs && Matches(text, f)
  {
    if fs == [] {
    } else {
      MatchingExactly(text, fs[1..], f);
      assert f in fs <==> f == fs[0] || f in fs[1..];
    }
  }

  /** Findings with disjoint non-empty spans are never refused after the filter, whatever they claim
      to hold. */
  lemma {:induction false} MatchingIsRewritable(text: string, fs: seq<Finding>)
    requires forall i :: 0 <= i < |fs| ==> fs[i].start < fs[i].end
    requires forall i, j :: 0 <= i < j < |fs| ==> Apart(fs[i], fs[j])
    ensures Rewritable(text, Matching(text, fs))
  {
    if fs == [] {
    } else {
      var rest := Matching(text, fs[1..]);
      MatchingIsRewritable(text, fs[1..]);
      forall k | 0 <= k < |rest| ensures Apart(fs[0], rest[k]) {
        MatchingExactly(text, fs[1..], rest[k]);
        var j :| 0 <= j < |fs[1..]| && fs[1..][j] == rest[k];
        assert fs[1..][j] == fs[j + 1];
      }
    }
  }

  // ---- lengths -------------------------------------------------------------------------------

  function Growth(token: Token, fs: seq<Finding>): int {
    if fs == [] then 0 else |Replacement(token, fs[0])| - |fs[0].value| + Growth(token, fs[1..])
  }

  lemma {:induction false} GrowthOfInsert(token: Token, f: Finding, sorted: seq<Finding>)
    ensures Growth(token, Insert(f, sorted)) == |Replacement(token, f)| - |f.value| + Growth(token, sorted)
  {
    if !(sorted == [] || sorted[0].start <= f.start) {
      GrowthOfInsert(token, f, sorted[1..]);
      assert Insert(f, sorted)[1..] == Insert(f, sorted[1..]);
    } else {
      assert Insert(f, sorted)[1..] == sorted;
    }
  }

  lemma {:induction false} GrowthOfSort(token: Token, fs: seq<Finding>)
    ensures Growth(token, SortDescending(fs)) == Growth(token, fs)
  {
    if fs == [] {
    } else {
      GrowthOfSort(token, fs[1..]);
      GrowthOfInsert(token, fs[0], SortDescending(fs[1..]));
    }
  }

  lemma {:induction false} RewriteGrows(token: Token, s: string, fs: seq<Finding>)
    requires Rewrite(token, s, fs).Ok? && forall f :: f in fs ==> f.start < f.end && |f.value| == f.end - f.start
    ensures |Rewrite(token, s, fs).value| == |s| + Growth(token, fs)
    decreases |fs|
  {
    if fs == [] {
    } else {
      assert fs[0] in fs && forall f :: f in fs[1..] ==> f in fs;
      RewriteGrows(token, Apply(token, s, fs[0]), fs[1..]);
    }
  }

  /** The result is as long as the text plus what each replacement adds. */
  lemma MinimizedLength(token: Token, text: string, findings: seq<Finding>)
    requires Rewritable(text, findings)
    ensures |Splice(token, text, Elems(findings), 0)| == |text| + Growth(token, findings)
  {
    MinimizeIsSplice(token, text, findings);
    GrowthOfSort(token, findings);
    var ds := SortDescending(findings);
    SortSorts(findings);
    PermutationKeepsRewritable(text, findings, ds);
    forall f | f in ds ensures f.start < f.end && |f.value| == f.end - f.start {
      var i :| 0 <= i < |ds| && ds[i] == f;
      assert Fits(text, ds[i]);
    }
    RewriteGrows(token, text, ds);
  }

  /** Disjointness is needed: a span reported twice is refused as soon as its pseudonym does not begin
      like its value. */
  lemma RepeatedSpanIsRefused(token: Token, text: string, f: Finding, g: Finding)
    requires Fits(text, f) && Fits(text, g) && f.start == g.start && f.end == g.end
    requires Replacement(token, f) != "" && Replacement(token, f)[0] != f.value[0]
    ensures Rewrite(token, text, SortDescending([f, g])).Err?
  {
    assert [f, g][1..] == [g] && [g][1..] == [];
    assert SortDescending([g]) == [g];
    assert SortDescending([f, g]) == [f, g];
    var once := Apply(token, text, f);
    assert Slice(text, f.start, f.end) == text[f.start..f.end];
    assert once[f.start] == Replacement(token, f)[0];
    assert Slice(once, g.start, g.end) != "" ==> Slice(once, g.start, g.end)[0] == once[g.start];
  }
}
