/** Rewriting the serialized arguments of an MCP call: spans that lie inside string values change those
    strings and nothing else about the document. */
module JsonRewriting {
  import opened Common
  import opened JsonText
  import opened SpanRewriting

  // ---- spans inside string values ----------------------------------------------------------

  /** The number of characters of `t` rendered in the first `p` characters, if no escape is cut there. */
  function CutAt(t: string, p: int): Option<nat> {
    if p == 0 then Some(0)
    else if t == "" || p < |EscapeChar(t[0])| then None
    else
      match CutAt(t[1..], p - |EscapeChar(t[0])|)
      case None => None
      case Some(i) => Some(i + 1)
  }

  /** [a, b) of the rendered document lies in the contents of one string value and cuts no escape. */
  predicate Inside(j: Json, a: int, b: int) {
    match j
    case Atom(_) => false
    case Str(t) => a <= b && CutAt(t, a - 1).Some? && CutAt(t, b - 1).Some?
    case Arr(items) => InsideItems(items, a - 1, b - 1)
    case Obj(members) => InsideMembers(members, a - 1, b - 1)
  }

  predicate InsideItems(items: Items, a: int, b: int) {
    match items
    case NoItems => false
    case Item(head, tail) =>
      var w := |Dumps(head)|;
      if b <= w then Inside(head, a, b) else InsideItems(tail, a - w - 2, b - w - 2)
  }

  predicate InsideMembers(members: Members, a: int, b: int) {
    match members
    case NoMembers => false
    case Member(key, value, rest) =>
      var k := |DumpKey(key)|;
      var w := |Dumps(value)|;
      if b <= k + w then Inside(value, a - k, b - k) else InsideMembers(rest, a - k - w - 2, b - k - w - 2)
  }

  /** The document with the characters of [a, b) replaced by `r` in the string that holds them. */
  function Edit(j: Json, a: int, b: int, r: string): Json
    requires Inside(j, a, b)
  {
    match j
    case Str(t) => Str(Replaced(t, a - 1, b - 1, r))
    case Arr(items) => Arr(EditItems(items, a - 1, b - 1, r))
    case Obj(members) => Obj(EditMembers(members, a - 1, b - 1, r))
  }

  function Replaced(t: string, p: int, q: int, r: string): string
    requires p <= q && CutAt(t, p).Some? && CutAt(t, q).Some?
  {
    CutSplits(t, p);
    CutSplits(t, q);
    t[..CutAt(t, p).value] + r + t[CutAt(t, q).value..]
  }

  function EditItems(items: Items, a: int, b: int, r: string): Items
    requires InsideItems(items, a, b)
  {
    var w := |Dumps(items.head)|;
    if b <= w then Item(Edit(items.head, a, b, r), items.tail)
    else Item(items.head, EditItems(items.tail, a - w - 2, b - w - 2, r))
  }

  function EditMembers(members: Members, a: int, b: int, r: string): Members
    requires InsideMembers(members, a, b)
  {
    var k := |DumpKey(members.key)|;
    var w := |Dumps(members.value)|;
    if b <= k + w then Member(members.key, Edit(members.value, a - k, b - k, r), members.rest)
    else Member(members.key, members.value, EditMembers(members.rest, a - k - w - 2, b - k - w - 2, r))
  }

  // ---- escaped text ----------------------------------------------------------------------------

  lemma EscapedUnfolds(t: string)
    requires t != ""
    ensures Escaped(t) == EscapeChar(t[0]) + Escaped(t[1..])
  {
  }

  lemma {:induction false} CutSplits(t: string, p: int)
    requires CutAt(t, p).Some?
    ensures CutAt(t, p).value <= |t| && 0 <= p <= |Escaped(t)|
    ensures Escaped(t)[..p] == Escaped(t[..CutAt(t, p).value])
    ensures Escaped(t)[p..] == Escaped(t[CutAt(t, p).value..])
  {
    hide EscapeChar;
    if p == 0 {
      assert t[..0] == "" && t[0..] == t;
    } else {
      var e, rest := EscapeChar(t[0]), t[1..];
      CutSplits(rest, p - |e|);
      var i := CutAt(t, p).value;
      assert CutAt(rest, p - |e|) == Some(i - 1);
      hide CutAt, Escaped;
      EscapedUnfolds(t);
      EscapedUnfolds(t[..i]);
      assert t[..i][1..] == rest[..i - 1] && t[i..] == rest[i - 1..];
      assert Escaped(t)[..p] == e + Escaped(rest)[..p - |e|] && Escaped(t)[p..] == Escaped(rest)[p - |e|..];
    }
  }

  lemma Regroup(a: string, b: string, c: string)
    ensures a + (b + c) == a + b + c
  {
  }

  lemma {:induction false} EscapedJoins(s: string, t: string)
    ensures Escaped(s + t) == Escaped(s) + Escaped(t)
  {
    hide EscapeChar;
    if s == "" {
      assert s + t == t;
    } else {
      EscapedJoins(s[1..], t);
      assert (s + t)[1..] == s[1..] + t;
      EscapedUnfolds(s);
      EscapedUnfolds(s + t);
      hide *;
      Regroup(EscapeChar(s[0]), Escaped(s[1..]), Escaped(t));
    }
  }

  lemma {:induction false} CutOrder(t: string, p: int, q: int)
    requires CutAt(t, p).Some? && CutAt(t, q).Some? && p <= q
    ensures CutAt(t, p).value <= CutAt(t, q).value
  {
    hide EscapeChar;
    if p == 0 {
    } else {
      CutOrder(t[1..], p - |EscapeChar(t[0])|, q - |EscapeChar(t[0])|);
    }
  }

  lemma {:induction false} CutDependsOnPrefix(t: string, u: string, p: int, n: nat)
    requires CutAt(t, p).Some? && CutAt(t, p).value <= n <= |t| && n <= |u| && t[..n] == u[..n]
    ensures CutAt(u, p) == CutAt(t, p)
  {
    hide EscapeChar;
    if p == 0 {
    } else {
      assert t[0] == t[..n][0] == u[..n][0] == u[0];
      assert t[1..][..n - 1] == t[..n][1..] && u[1..][..n - 1] == u[..n][1..];
      CutDependsOnPrefix(t[1..], u[1..], p - |EscapeChar(t[0])|, n - 1);
    }
  }

  /** `result` is `text` with [a, b) replaced by `r`. */
  predicate Spliced(text: string, a: int, b: int, r: string, result: string) {
    0 <= a <= b <= |text| && result == text[..a] + r + text[b..]
  }

  /** Splicing the middle of a text splices the whole. */
  lemma Around(pre: string, mid: string, post: string, a: int, b: int, r: string, edited: string)
    requires Spliced(mid, a, b, r, edited)
    ensures Spliced(pre + mid + post, |pre| + a, |pre| + b, r, pre + edited + post)
  {
  }

  lemma ReplacedSplices(t: string, p: int, q: int, r: string)
    requires p <= q && CutAt(t, p).Some? && CutAt(t, q).Some?
    ensures Spliced(Escaped(t), p, q, Escaped(r), Escaped(Replaced(t, p, q, r)))
  {
    CutSplits(t, p);
    CutSplits(t, q);
    var x, y := t[..CutAt(t, p).value], t[CutAt(t, q).value..];
    EscapedJoins(x + r, y);
    EscapedJoins(x, r);
  }

  // ---- one edit ------------------------------------------------------------------------------------

  /** Editing the tree is splicing the text. */
  lemma {:induction false} EditSplices(j: Json, a: int, b: int, r: string)
    requires Inside(j, a, b)
    ensures Spliced(Dumps(j), a, b, Escaped(r), Dumps(Edit(j, a, b, r)))
  {
    hide Spliced, Escaped, Replaced, CutAt;
    match j
    case Str(t) =>
      ReplacedSplices(t, a - 1, b - 1, r);
      Around("\"", Escaped(t), "\"", a - 1, b - 1, Escaped(r), Escaped(Replaced(t, a - 1, b - 1, r)));
    case Arr(items) =>
      EditItemsSplices(items, a - 1, b - 1, r);
      Around("[", DumpItems(items), "]", a - 1, b - 1, Escaped(r), DumpItems(EditItems(items, a - 1, b - 1, r)));
    case Obj(members) =>
      EditMembersSplices(members, a - 1, b - 1, r);
      Around("{", DumpMembers(members), "}", a - 1, b - 1, Escaped(r),
             DumpMembers(EditMembers(members, a - 1, b - 1, r)));
  }

  function ItemsAfter(tail: Items): string {
    if tail.NoItems? then "" else ", " + DumpItems(tail)
  }

  lemma ItemText(items: Items)
    requires items.Item?
    ensures DumpItems(items) == "" + Dumps(items.head) + ItemsAfter(items.tail)
    ensures items.tail.Item? ==> DumpItems(items) == (Dumps(items.head) + ", ") + DumpItems(items.tail) + ""
  {
    hide Dumps;
    var v := Dumps(items.head);
    assert "" + v == v;
  }

  lemma {:induction false} EditItemsSplices(items: Items, a: int, b: int, r: string)
    requires InsideItems(items, a, b)
    ensures Spliced(DumpItems(items), a, b, Escaped(r), DumpItems(EditItems(items, a, b, r)))
  {
    hide Spliced, Escaped, Edit, Dumps, DumpItems, Inside, ItemsAfter;
    var v, tail := Dumps(items.head), items.tail;
    var w := |v|;
    var after := EditItems(items, a, b, r);
    ItemText(items);
    ItemText(after);
    if b <= w {
      EditSplices(items.head, a, b, r);
      Around("", v, ItemsAfter(tail), a, b, Escaped(r), Dumps(after.head));
    } else {
      EditItemsSplices(tail, a - w - 2, b - w - 2, r);
      Around(v + ", ", DumpItems(tail), "", a - w - 2, b - w - 2, Escaped(r), DumpItems(after.tail));
    }
  }

  function MembersAfter(rest: Members): string {
    if rest.NoMembers? then "" else ", " + DumpMembers(rest)
  }

  lemma MemberText(m: Members)
    requires m.Member?
    ensures DumpMembers(m) == DumpKey(m.key) + Dumps(m.value) + MembersAfter(m.rest)
    ensures m.rest.Member? ==> DumpMembers(m) == (DumpKey(m.key) + Dumps(m.value) + ", ") + DumpMembers(m.rest) + ""
  {
    hide Dumps, DumpKey;
    var k, v, after := DumpKey(m.key), Dumps(m.value), MembersAfter(m.rest);
    assert DumpMembers(m) == k + (v + after);
    Regroup(k, v, after);
    if m.rest.Member? {
      assert after == ", " + DumpMembers(m.rest);
      hide *;
      Regroup(k + v, ", ", DumpMembers(m.rest));
    }
  }

  lemma {:induction false} EditMembersSplices(members: Members, a: int, b: int, r: string)
    requires InsideMembers(members, a, b)
    ensures Spliced(DumpMembers(members), a, b, Escaped(r), DumpMembers(EditMembers(members, a, b, r)))
  {
    hide Spliced, Escaped, Edit, Dumps, DumpMembers, DumpKey, Inside, MembersAfter;
    var k, v, rest := DumpKey(members.key), Dumps(members.value), members.rest;
    var w := |k| + |v|;
    var after := EditMembers(members, a, b, r);
    MemberText(members);
    MemberText(after);
    if b <= w {
      EditSplices(members.value, a - |k|, b - |k|, r);
      Around(k, v, MembersAfter(rest), a - |k|, b - |k|, Escaped(r), Dumps(after.value));
    } else {
      EditMembersSplices(rest, a - w - 2, b - w - 2, r);
      Around(k + v + ", ", DumpMembers(rest), "", a - w - 2, b - w - 2, Escaped(r), DumpMembers(after.rest));
    }
  }

  // ---- what an edit keeps ------------------------------------------------------------------------

  /** The document with every string value emptied: its structure, keys and atoms. */
  function Skeleton(j: Json): Json {
    match j
    case Atom(_) => j
    case Str(_) => Str("")
    case Arr(items) => Arr(SkeletonItems(items))
    case Obj(members) => Obj(SkeletonMembers(members))
  }

  function SkeletonItems(items: Items): Items {
    match items
    case NoItems => NoItems
    case Item(head, tail) => Item(Skeleton(head), SkeletonItems(tail))
  }

  function SkeletonMembers(members: Members): Members {
    match members
    case NoMembers => NoMembers
    case Member(key, value, rest) => Member(key, Skeleton(value), SkeletonMembers(rest))
  }

  /** The string values, in document order. */
  function Strings(j: Json): seq<string> {
    match j
    case Atom(_) => []
    case Str(t) => [t]
    case Arr(items) => StringsOfItems(items)
    case Obj(members) => StringsOfMembers(members)
  }

  function StringsOfItems(items: Items): seq<string> {
    match items
    case NoItems => []
    case Item(head, tail) => Strings(head) + StringsOfItems(tail)
  }

  function StringsOfMembers(members: Members): seq<string> {
    match members
    case NoMembers => []
    case Member(_, value, rest) => Strings(value) + StringsOfMembers(rest)
  }

  /** Which string value [a, b) lies in. */
  function Hit(j: Json, a: int, b: int): nat
    requires Inside(j, a, b)
  {
    match j
    case Str(_) => 0
    case Arr(items) => HitItems(items, a - 1, b - 1)
    case Obj(members) => HitMembers(members, a - 1, b - 1)
  }

  function HitItems(items: Items, a: int, b: int): nat
    requires InsideItems(items, a, b)
  {
    var w := |Dumps(items.head)|;
    if b <= w then Hit(items.head, a, b)
    else |Strings(items.head)| + HitItems(items.tail, a - w - 2, b - w - 2)
  }

  function HitMembers(members: Members, a: int, b: int): nat
    requires InsideMembers(members, a, b)
  {
    var k := |DumpKey(members.key)|;
    var w := |Dumps(members.value)|;
    if b <= k + w then Hit(members.value, a - k, b - k)
    else |Strings(members.value)| + HitMembers(members.rest, a - k - w - 2, b - k - w - 2)
  }

  /** `now` is `was` except at `k`. */
  predicate ChangedOnlyAt(was: seq<string>, now: seq<string>, k: nat) {
    k < |was| && |now| == |was| && forall i :: 0 <= i < |was| && i != k ==> now[i] == was[i]
  }

  lemma ChangeOnLeft(was: seq<string>, now: seq<string>, k: nat, rest: seq<string>)
    requires ChangedOnlyAt(was, now, k)
    ensures ChangedOnlyAt(was + rest, now + rest, k)
  {
  }

  lemma ChangeOnRight(left: seq<string>, was: seq<string>, now: seq<string>, k: nat)
    requires ChangedOnlyAt(was, now, k)
    ensures ChangedOnlyAt(left + was, left + now, |left| + k)
  {
  }

  /** An edit changes one string value: structure, keys, atoms and every other string stay. */
  lemma {:induction false} EditIsLocal(j: Json, a: int, b: int, r: string)
    requires Inside(j, a, b)
    ensures Skeleton(Edit(j, a, b, r)) == Skeleton(j) && (Valid(j) ==> Valid(Edit(j, a, b, r)))
    ensures ChangedOnlyAt(Strings(j), Strings(Edit(j, a, b, r)), Hit(j, a, b))
  {
    hide Replaced, CutAt;
    match j
    case Str(_) =>
    case Arr(items) => EditItemsIsLocal(items, a - 1, b - 1, r);
    case Obj(members) => EditMembersIsLocal(members, a - 1, b - 1, r);
  }

  lemma {:induction false} EditItemsIsLocal(items: Items, a: int, b: int, r: string)
    requires InsideItems(items, a, b)
    ensures SkeletonItems(EditItems(items, a, b, r)) == SkeletonItems(items)
    ensures ValidItems(items) ==> ValidItems(EditItems(items, a, b, r))
    ensures ChangedOnlyAt(StringsOfItems(items), StringsOfItems(EditItems(items, a, b, r)), HitItems(items, a, b))
  {
    hide ChangedOnlyAt, Inside, Edit, Dumps, Hit;
    var w := |Dumps(items.head)|;
    var after := EditItems(items, a, b, r);
    if b <= w {
      EditIsLocal(items.head, a, b, r);
      ChangeOnLeft(Strings(items.head), Strings(after.head), Hit(items.head, a, b), StringsOfItems(items.tail));
    } else {
      EditItemsIsLocal(items.tail, a - w - 2, b - w - 2, r);
      ChangeOnRight(Strings(items.head), StringsOfItems(items.tail), StringsOfItems(after.tail),
                    HitItems(items.tail, a - w - 2, b - w - 2));
    }
  }

  lemma {:induction false} EditMembersIsLocal(members: Members, a: int, b: int, r: string)
    requires InsideMembers(members, a, b)
    ensures SkeletonMembers(EditMembers(members, a, b, r)) == SkeletonMembers(members)
    ensures ValidMembers(members) ==> ValidMembers(EditMembers(members, a, b, r))
    ensures ChangedOnlyAt(StringsOfMembers(members), StringsOfMembers(EditMembers(members, a, b, r)),
                          HitMembers(members, a, b))
  {
    hide ChangedOnlyAt, Inside, Edit, Dumps, DumpKey, Hit;
    var k := |DumpKey(members.key)|;
    var w := k + |Dumps(members.value)|;
    var after := EditMembers(members, a, b, r);
    if b <= w {
      EditIsLocal(members.value, a - k, b - k, r);
      ChangeOnLeft(Strings(members.value), Strings(after.value), Hit(members.value, a - k, b - k),
                   StringsOfMembers(members.rest));
    } else {
      EditMembersIsLocal(members.rest, a - w - 2, b - w - 2, r);
      ChangeOnRight(Strings(members.value), StringsOfMembers(members.rest), StringsOfMembers(after.rest),
                    HitMembers(members.rest, a - w - 2, b - w - 2));
    }
  }

  // ---- edits from right to left ------------------------------------------------------------------

  /** [a, b) is still inside the same string value after an edit of [c, d) to its right. */
  ghost predicate Survives(j: Json, edited: Json, a: int, b: int)
    requires Inside(j, a, b)
  {
    Inside(edited, a, b) && Hit(edited, a, b) == Hit(j, a, b)
  }

  lemma {:induction false} LeftSurvives(j: Json, a: int, b: int, c: int, d: int, r: string)
    requires Inside(j, a, b) && Inside(j, c, d) && b <= c
    ensures Survives(j, Edit(j, c, d, r), a, b)
  {
    hide CutAt, Replaced, InsideItems, InsideMembers, EditItems, EditMembers, HitItems, HitMembers, Dumps;
    match j
    case Str(t) => StringLeftSurvives(t, a - 1, b - 1, c - 1, d - 1, r);
    case Arr(items) => ItemsLeftSurvives(items, a - 1, b - 1, c - 1, d - 1, r);
    case Obj(members) => MembersLeftSurvives(members, a - 1, b - 1, c - 1, d - 1, r);
  }

  lemma StringLeftSurvives(t: string, p: int, q: int, x: int, y: int, r: string)
    requires p <= q <= x <= y && CutAt(t, p).Some? && CutAt(t, q).Some? && CutAt(t, x).Some? && CutAt(t, y).Some?
    ensures CutAt(Replaced(t, x, y, r), p).Some? && CutAt(Replaced(t, x, y, r), q).Some?
  {
    hide CutAt;
    var u := Replaced(t, x, y, r);
    var n := CutAt(t, x).value;
    CutSplits(t, x);
    CutSplits(t, y);
    assert u[..n] == t[..n];
    CutOrder(t, p, x);
    CutOrder(t, q, x);
    CutDependsOnPrefix(t, u, p, n);
    CutDependsOnPrefix(t, u, q, n);
  }

  lemma InItemsOrder(items: Items, a: int, b: int)
    requires InsideItems(items, a, b)
    ensures 0 <= a <= b
  {
    EditItemsSplices(items, a, b, "");
    hide InsideItems, EditItems, DumpItems, Escaped;
  }

  lemma {:induction false} FirstItemSurvives(items: Items, a: int, b: int, c: int, d: int, r: string)
    requires InsideItems(items, a, b) && InsideItems(items, c, d) && b <= c <= d <= |Dumps(items.head)|
    ensures InsideItems(EditItems(items, c, d, r), a, b)
    ensures HitItems(EditItems(items, c, d, r), a, b) == HitItems(items, a, b)
    decreases items, 0
  {
    hide Inside, Edit, Dumps, Hit, Spliced, Strings, Escaped;
    EditSplices(items.head, c, d, r);
    LeftSurvives(items.head, a, b, c, d, r);
    SplicedKeepsLeft(Dumps(items.head), c, d, Escaped(r), Dumps(Edit(items.head, c, d, r)));
  }

  lemma {:induction false} ItemsLeftSurvives(items: Items, a: int, b: int, c: int, d: int, r: string)
    requires InsideItems(items, a, b) && InsideItems(items, c, d) && b <= c
    ensures InsideItems(EditItems(items, c, d, r), a, b)
    ensures HitItems(EditItems(items, c, d, r), a, b) == HitItems(items, a, b)
    decreases items, 1
  {
    var w := |Dumps(items.head)|;
    hide Inside, Edit, Dumps, Hit;
    InItemsOrder(items, c, d);
    if d <= w {
      FirstItemSurvives(items, a, b, c, d, r);
    } else if b > w {
      ItemsLeftSurvives(items.tail, a - w - 2, b - w - 2, c - w - 2, d - w - 2, r);
    }
  }

  lemma SplicedKeepsLeft(text: string, a: int, b: int, r: string, result: string)
    requires Spliced(text, a, b, r, result)
    ensures 0 <= a <= b && a <= |result|
  {
  }

  lemma {:induction false} FirstMemberSurvives(members: Members, a: int, b: int, c: int, d: int, r: string)
    requires InsideMembers(members, a, b) && InsideMembers(members, c, d) && b <= c <= d
    requires d <= |DumpKey(members.key)| + |Dumps(members.value)|
    ensures InsideMembers(EditMembers(members, c, d, r), a, b)
    ensures HitMembers(EditMembers(members, c, d, r), a, b) == HitMembers(members, a, b)
    decreases members, 0
  {
    hide Inside, Edit, Dumps, DumpKey, Hit, Spliced, Strings, Escaped;
    var k := |DumpKey(members.key)|;
    var value := members.value;
    LeftSurvives(value, a - k, b - k, c - k, d - k, r);
    EditSplices(value, c - k, d - k, r);
    SplicedKeepsLeft(Dumps(value), c - k, d - k, Escaped(r), Dumps(Edit(value, c - k, d - k, r)));
  }

  lemma {:induction false} MembersLeftSurvives(members: Members, a: int, b: int, c: int, d: int, r: string)
    requires InsideMembers(members, a, b) && InsideMembers(members, c, d) && b <= c
    ensures InsideMembers(EditMembers(members, c, d, r), a, b)
    ensures HitMembers(EditMembers(members, c, d, r), a, b) == HitMembers(members, a, b)
    decreases members, 1
  {
    hide Inside, Edit, Dumps, DumpKey, DumpMembers, Hit, Spliced, Strings, Escaped;
    EditMembersSplices(members, c, d, r);
    SplicedKeepsLeft(DumpMembers(members), c, d, Escaped(r), DumpMembers(EditMembers(members, c, d, r)));
    var w := |DumpKey(members.key)| + |Dumps(members.value)|;
    if d <= w {
      FirstMemberSurvives(members, a, b, c, d, r);
    } else if b > w {
      MembersLeftSurvives(members.rest, a - w - 2, b - w - 2, c - w - 2, d - w - 2, r);
    }
  }

  // ---- all findings --------------------------------------------------------------------------------

  /** Characters rendered as themselves. */
  predicate Plain(t: string) {
    forall i :: 0 <= i < |t| ==> ' ' <= t[i] <= '~' && t[i] != '\"' && t[i] != '\\'
  }

  /** The pseudonym of every value of this finding's type is plain. */
  ghost predicate PlainTokens(token: Token) {
    forall value :: Plain(token(value))
  }

  lemma PlainCharIsUnescaped(c: char)
    requires ' ' <= c <= '~' && c != '\"' && c != '\\'
    ensures EscapeChar(c) == [c]
  {
  }

  lemma {:induction false} PlainIsUnescaped(t: string)
    requires Plain(t)
    ensures Escaped(t) == t
  {
    hide EscapeChar;
    if t == "" {
    } else {
      PlainIsUnescaped(t[1..]);
      PlainCharIsUnescaped(t[0]);
      assert t == [t[0]] + t[1..];
    }
  }

  lemma ReplacementIsPlain(token: Token, f: Finding)
    requires PlainTokens(token) && Plain(f.dataType)
    ensures Escaped(Replacement(token, f)) == Replacement(token, f)
  {
    assert Plain(token(f.value));
    PlainIsUnescaped(Replacement(token, f));
  }

  /** Every finding lies inside a string value of the document. */
  ghost predicate AllInside(j: Json, fs: seq<Finding>) {
    forall f :: f in fs ==> Inside(j, f.start, f.end) && Plain(f.dataType)
  }

  /** No finding lies in the k-th string value. */
  ghost predicate Untouched(j: Json, fs: seq<Finding>, k: nat)
    requires AllInside(j, fs)
  {
    forall f :: f in fs ==> Hit(j, f.start, f.end) != k
  }

  /** Same structure, keys and atoms, and the same text in every string value no finding lies in. */
  ghost predicate SameBut(was: Json, now: Json, fs: seq<Finding>)
    requires AllInside(was, fs)
  {
    && Skeleton(now) == Skeleton(was)
    && |Strings(now)| == |Strings(was)|
    && forall k :: 0 <= k < |Strings(was)| && Untouched(was, fs, k) ==> Strings(now)[k] == Strings(was)[k]
  }

  lemma EditAppliesFinding(token: Token, j: Json, f: Finding)
    requires PlainTokens(token) && Inside(j, f.start, f.end) && Plain(f.dataType)
    ensures Apply(token, Dumps(j), f) == Dumps(Edit(j, f.start, f.end, Replacement(token, f)))
  {
    EditSplices(j, f.start, f.end, Replacement(token, f));
    ReplacementIsPlain(token, f);
  }

  /** The findings left of an edit stay inside, in the same strings. */
  lemma RestSurvives(j: Json, f: Finding, rest: seq<Finding>, r: string)
    requires Inside(j, f.start, f.end) && AllInside(j, rest) && forall g :: g in rest ==> g.end <= f.start
    ensures AllInside(Edit(j, f.start, f.end, r), rest)
    ensures forall k :: Untouched(j, rest, k) ==> Untouched(Edit(j, f.start, f.end, r), rest, k)
  {
    hide Inside, Edit, Hit;
    forall g | g in rest ensures Survives(j, Edit(j, f.start, f.end, r), g.start, g.end) {
      LeftSurvives(j, g.start, g.end, f.start, f.end, r);
    }
  }

  /** Applying findings from right to left yields the text of a document that differs only where they
      lie. */
  lemma {:induction false} RewriteStaysInDocument(token: Token, j: Json, fs: seq<Finding>) returns (after: Json)
    requires PlainTokens(token) && Valid(j) && AllInside(j, fs)
    requires Rewrite(token, Dumps(j), fs).Ok?
    requires forall a, b :: 0 <= a < b < |fs| ==> fs[b].end <= fs[a].start
    ensures Rewrite(token, Dumps(j), fs) == Ok(Dumps(after)) && Valid(after) && SameBut(j, after, fs)
    decreases |fs|
  {
    if fs == [] {
      after := j;
    } else {
      var f, rest := fs[0], fs[1..];
      var r := Replacement(token, f);
      var next := Edit(j, f.start, f.end, r);
      EditAppliesFinding(token, j, f);
      EditIsLocal(j, f.start, f.end, r);
      RestSurvives(j, f, rest, r);
      after := RewriteStaysInDocument(token, next, rest);
      Combine(j, next, after, fs);
    }
  }

  lemma Combine(j: Json, next: Json, after: Json, fs: seq<Finding>)
    requires fs != [] && AllInside(j, fs) && AllInside(next, fs[1..])
    requires Skeleton(next) == Skeleton(j) && ChangedOnlyAt(Strings(j), Strings(next), Hit(j, fs[0].start, fs[0].end))
    requires forall k :: Untouched(j, fs[1..], k) ==> Untouched(next, fs[1..], k)
    requires SameBut(next, after, fs[1..])
    ensures SameBut(j, after, fs)
  {
  }

  lemma SortedRunLeftwards(text: string, fs: seq<Finding>)
    requires Descending(fs) && Rewritable(text, fs)
    ensures forall a, b :: 0 <= a < b < |fs| ==> fs[b].end <= fs[a].start
  {
  }

  lemma SameFindings(j: Json, fs: seq<Finding>, ds: seq<Finding>)
    requires AllInside(j, fs) && Elems(ds) == Elems(fs)
    ensures AllInside(j, ds) && forall k :: Untouched(j, fs, k) ==> Untouched(j, ds, k)
  {
    hide Inside, Hit;
    forall f | f in ds ensures f in fs {
      assert f in Elems(ds);
    }
  }

  /** The findings a caller may rely on: disjoint spans inside string values, each holding its value. */
  ghost predicate Wellplaced(token: Token, j: Json, findings: seq<Finding>) {
    PlainTokens(token) && Valid(j) && AllInside(j, findings) && Rewritable(Dumps(j), findings)
  }

  /** Minimizing the serialized arguments as one text and reading the result back gives a document that
      differs from the original only in the strings the findings lie in, and whose text is the simple
      splice. */
  lemma McpKeepsDocument(token: Token, j: Json, findings: seq<Finding>) returns (after: Json)
    requires Wellplaced(token, j, findings)
    ensures Minimized(token, Dumps(j), findings) == Ok(Dumps(after)) && Loads(Dumps(after)) == Ok(after)
    ensures Dumps(after) == Splice(token, Dumps(j), Elems(findings), 0)
    ensures SameBut(j, after, findings)
  {
    var ds := SortDescending(findings);
    MinimizeIsSplice(token, Dumps(j), findings);
    SortSorts(findings);
    PermutationKeepsRewritable(Dumps(j), findings, ds);
    PermutationKeepsElems(findings, ds);
    SortedRunLeftwards(Dumps(j), ds);
    SameFindings(j, findings, ds);
    hide Rewrite, Splice, Rewritable, Descending, AllInside, Untouched, Skeleton, Strings,
         SortDescending, Elems, Loads, Dumps, Valid, PlainTokens;
    after := RewriteStaysInDocument(token, j, ds);
    LoadsDumps(after);
  }

  // ---- the tool call -----------------------------------------------------------------------------

  /** The text the rewriting gives, or the refusal. */
  ghost function Minimized(token: Token, text: string, findings: seq<Finding>): Result<string, ()> {
    Rewrite(token, text, SortDescending(findings))
  }

  datatype ToolInput = Bare(text: string) | Fields(document: Json)

  /** A string for the command tools, a document for every other tool. */
  datatype Output = Command(text: string) | Arguments(document: Json)

  /** The string under a key of an object; its keys are distinct. */
  function Lookup(members: Members, key: string): Option<string> {
    match members
    case NoMembers => None
    case Member(k, value, rest) =>
      if k != key then Lookup(rest, key) else if value.Str? then Some(value.text) else None
  }

  function Pairs(members: Members): seq<(string, Json)> {
    match members
    case NoMembers => []
    case Member(key, value, rest) => [(key, value)] + Pairs(rest)
  }

  /** Place i is the first with this key, and holds this string. */
  predicate FirstAt(pairs: seq<(string, Json)>, key: string, text: string, i: nat) {
    i < |pairs| && pairs[i] == (key, Str(text)) && forall k :: 0 <= k < i ==> pairs[k].0 != key
  }

  ghost predicate HoldsString(pairs: seq<(string, Json)>, key: string, text: string) {
    exists i: nat :: FirstAt(pairs, key, text, i)
  }

  lemma FirstMoves(p: (string, Json), rest: seq<(string, Json)>, key: string, text: string, i: nat)
    ensures FirstAt([p] + rest, key, text, i + 1) <==> p.0 != key && FirstAt(rest, key, text, i)
  {
    var all := [p] + rest;
    assert forall k :: 0 <= k < |rest| ==> all[k + 1] == rest[k];
    if FirstAt(all, key, text, i + 1) {
      assert all[0].0 != key;
      forall k | 0 <= k < i ensures rest[k].0 != key {
        assert rest[k] == all[k + 1];
      }
    }
  }

  lemma HoldsFirstOrLater(p: (string, Json), rest: seq<(string, Json)>, key: string, text: string)
    ensures HoldsString([p] + rest, key, text)
       <==> p == (key, Str(text)) || (p.0 != key && HoldsString(rest, key, text))
  {
    var all := [p] + rest;
    assert FirstAt(all, key, text, 0) <==> p == (key, Str(text));
    hide FirstAt;
    if i: nat :| FirstAt(all, key, text, i) && i > 0 {
      FirstMoves(p, rest, key, text, i - 1);
    }
    if i: nat :| FirstAt(rest, key, text, i) {
      FirstMoves(p, rest, key, text, i);
    }
  }

  lemma {:induction false} LookupExactly(members: Members, key: string, text: string)
    ensures Lookup(members, key) == Some(text) <==> HoldsString(Pairs(members), key, text)
  {
    match members
    case NoMembers =>
    case Member(k, value, rest) =>
      hide HoldsString;
      LookupExactly(rest, key, text);
      HoldsFirstOrLater((k, value), Pairs(rest), key, text);
  }

  function CommandOf(j: Json): Option<string> {
    if j.Obj? then Lookup(j.members, "command") else None
  }

  function AsOutput(stringTool: bool, r: Result<string, ()>): Result<Output, ()> {
    match r
    case Err(_) => Err(())
    case Ok(t) => Ok(if stringTool then Command(t) else Arguments(Obj(Member("text", Str(t), NoMembers))))
  }

  function ReadBack(r: Result<string, ()>): Result<Output, ()> {
    if r.Err? || Loads(r.value).Err? then Err(()) else Ok(Arguments(Loads(r.value).value))
  }

  /** Rewriting a call's arguments. `scanned` is the text the findings were found in, when the caller
      has it; `canonical` is the key-sorted rendering of the document. */
  method MinimizeToolInput(token: Token, stringTool: bool, input: ToolInput, findings: seq<Finding>,
                           scanned: Option<string>, canonical: string)
    returns (r: Result<Output, ()>)
    ensures r.Ok? ==> (r.value.Command? <==> stringTool)
    ensures input.Bare? ==> r == AsOutput(stringTool, Minimized(token, input.text, Matching(input.text, findings)))
    ensures input.Fields? && stringTool ==>
              r == match CommandOf(input.document)
                   case Some(command) => AsOutput(true, Minimized(token, command, findings))
                   case None => AsOutput(true, Minimized(token, canonical, Matching(canonical, findings)))
    ensures input.Bare? && r.Ok? ==>
              var text := Minimized(token, input.text, Matching(input.text, findings)).value;
              r.value == if stringTool then Command(text) else Arguments(Obj(Member("text", Str(text), NoMembers)))
    ensures forall command ::
              input.Fields? && stringTool && input.document.Obj?
              && HoldsString(Pairs(input.document.members), "command", command) ==>
                match Minimized(token, command, findings)
                case Ok(text) => r == Ok(Command(text))
                case Err(_) => r.Err?
    ensures input.Fields? && !stringTool ==>
              r == ReadBack(Minimized(token, if scanned.Some? then scanned.value else Dumps(input.document), findings))
    ensures input.Fields? && !stringTool && scanned in {None, Some(Dumps(input.document))}
            && Wellplaced(token, input.document, findings) ==>
              && r.Ok? && SameBut(input.document, r.value.document, findings)
              && Dumps(r.value.document) == Splice(token, Dumps(input.document), Elems(findings), 0)
  {
    hide Wellplaced, SameBut, Loads, Dumps, Rewrite, Splice, Matching, SortDescending, HoldsString;
    if input.Bare? {
      var rewritten := MinimizeText(token, input.text, Matching(input.text, findings));
      return AsOutput(stringTool, rewritten);
    }
    if stringTool {
      if input.document.Obj? {
        forall command { LookupExactly(input.document.members, "command", command); }
      }
      var text, kept := canonical, Matching(canonical, findings);
      if CommandOf(input.document).Some? {
        text, kept := CommandOf(input.document).value, findings;
      }
      var rewritten := MinimizeText(token, text, kept);
      return AsOutput(true, rewritten);
    }
    var blob := if scanned.Some? then scanned.value else Dumps(input.document);
    var rewritten := MinimizeText(token, blob, findings);
    if Wellplaced(token, input.document, findings) {
      ghost var after := McpKeepsDocument(token, input.document, findings);
    }
    r := ReadBack(rewritten);
  }
}
