/** JSON text as the daemon renders it (ASCII only, ", " and ": " separators) and reads it back. */
module JsonText {
  import opened Common

  /** An atom is a number, true, false or null, kept as its token. */
  datatype Json = Atom(token: string) | Str(text: string) | Arr(items: Items) | Obj(members: Members)

  datatype Items = NoItems | Item(head: Json, tail: Items)

  datatype Members = NoMembers | Member(key: string, value: Json, rest: Members)

  // ---- rendering -----------------------------------------------------------------------

  function HexDigit(d: nat): char
    requires d < 16
  {
    "0123456789abcdef"[d]
  }

  function Hex4(n: nat): (h: string)
    requires n < 0x10000
    ensures |h| == 4
  {
    [HexDigit(n / 4096), HexDigit(n / 256 % 16), HexDigit(n / 16 % 16), HexDigit(n % 16)]
  }

  const BACKSPACE := 8 as char
  const FORMFEED := 12 as char

  /** The letter of a two-character escape. */
  function ShortEscape(c: char): Option<char> {
    match c
    case '\"' => Some('\"')
    case '\\' => Some('\\')
    case '\n' => Some('n')
    case '\r' => Some('r')
    case '\t' => Some('t')
    case _ => if c == BACKSPACE then Some('b') else if c == FORMFEED then Some('f') else None
  }

  /** Everything outside printable ASCII is escaped, by a surrogate pair beyond the basic plane. */
  function EscapeChar(c: char): (e: string)
    ensures |e| > 0
  {
    var n := c as int;
    if ShortEscape(c).Some? then ['\\', ShortEscape(c).value]
    else if 0x20 <= n <= 0x7e then [c]
    else if n < 0x10000 then "\\u" + Hex4(n)
    else "\\u" + Hex4(0xd800 + (n - 0x10000) / 0x400) + ("\\u" + Hex4(0xdc00 + (n - 0x10000) % 0x400))
  }

  function Escaped(t: string): string {
    if t == "" then "" else EscapeChar(t[0]) + Escaped(t[1..])
  }

  function Dumps(j: Json): string {
    match j
    case Atom(token) => token
    case Str(t) => "\"" + Escaped(t) + "\""
    case Arr(items) => "[" + DumpItems(items) + "]"
    case Obj(members) => "{" + DumpMembers(members) + "}"
  }

  function DumpItems(items: Items): string {
    match items
    case NoItems => ""
    case Item(head, tail) => Dumps(head) + (if tail.NoItems? then "" else ", " + DumpItems(tail))
  }

  function DumpKey(key: string): string {
    "\"" + Escaped(key) + "\": "
  }

  function DumpMembers(members: Members): string {
    match members
    case NoMembers => ""
    case Member(key, value, rest) =>
      DumpKey(key) + (Dumps(value) + (if rest.NoMembers? then "" else ", " + DumpMembers(rest)))
  }

  // ---- reading ---------------------------------------------------------------------------

  datatype Scan<+T> = Got(value: T, rest: string) | Bad

  function HexValue(c: char): Option<nat> {
    if '0' <= c <= '9' then Some(c as int - '0' as int)
    else if 'a' <= c <= 'f' then Some(c as int - 'a' as int + 10)
    else if 'A' <= c <= 'F' then Some(c as int - 'A' as int + 10)
    else None
  }

  function ScanHex4(s: string): (r: Scan<nat>)
    ensures r.Got? ==> |r.rest| < |s| && r.value < 0x10000
  {
    if |s| < 4 then Bad else
      match (HexValue(s[0]), HexValue(s[1]), HexValue(s[2]), HexValue(s[3]))
      case (Some(a), Some(b), Some(c), Some(d)) =>
        if a < 16 && b < 16 && c < 16 && d < 16 then Got(4096 * a + 256 * b + 16 * c + d, s[4..]) else Bad
      case _ => Bad
  }

  /** After `\u`: one unit of the basic plane, or the two halves of a pair. */
  function ScanUnicode(s: string): (r: Scan<char>)
    ensures r.Got? ==> |r.rest| < |s|
  {
    match ScanHex4(s)
    case Bad => Bad
    case Got(high, rest) =>
      if high < 0xd800 || high >= 0xe000 then Got(high as char, rest)
      else if high < 0xdc00 && |rest| >= 2 && rest[0] == '\\' && rest[1] == 'u' then
        match ScanHex4(rest[2..])
        case Bad => Bad
        case Got(low, after) =>
          if 0xdc00 <= low < 0xe000 then
            Got((0x10000 + (high - 0xd800) * 0x400 + (low - 0xdc00)) as char, after)
          else Bad
      else Bad
  }

  function LongForm(c: char): Option<char> {
    match c
    case '\"' => Some('\"')
    case '\\' => Some('\\')
    case '/' => Some('/')
    case 'n' => Some('\n')
    case 'r' => Some('\r')
    case 't' => Some('\t')
    case 'b' => Some(BACKSPACE)
    case 'f' => Some(FORMFEED)
    case _ => None
  }

  function ScanChar(s: string): (r: Scan<char>)
    ensures r.Got? ==> |r.rest| < |s|
  {
    if s == "" || s[0] == '\"' || s[0] < ' ' then Bad
    else if s[0] != '\\' then Got(s[0], s[1..])
    else if |s| == 1 then Bad
    else if s[1] == 'u' then ScanUnicode(s[2..])
    else if LongForm(s[1]).Some? then Got(LongForm(s[1]).value, s[2..])
    else Bad
  }

  /** The contents of a string, after its opening quote. */
  function ScanString(s: string): (r: Scan<string>)
    ensures r.Got? ==> |r.rest| < |s|
    decreases |s|
  {
    if s != "" && s[0] == '\"' then Got("", s[1..])
    else
      match ScanChar(s)
      case Bad => Bad
      case Got(c, rest) =>
        match ScanString(rest)
        case Bad => Bad
        case Got(t, after) => Got([c] + t, after)
  }

  predicate IsSpace(c: char) {
    c == ' ' || c == '\n' || c == '\r' || c == '\t'
  }

  function SkipSpace(s: string): (r: string)
    ensures |r| <= |s|
  {
    if s != "" && IsSpace(s[0]) then SkipSpace(s[1..]) else s
  }

  predicate IsAtomChar(c: char) {
    'a' <= c <= 'z' || 'A' <= c <= 'Z' || '0' <= c <= '9' || c == '-' || c == '+' || c == '.'
  }

  function AtomLength(s: string): (n: nat)
    ensures n <= |s|
  {
    if s != "" && IsAtomChar(s[0]) then 1 + AtomLength(s[1..]) else 0
  }

  function ScanValue(s: string): (r: Scan<Json>)
    ensures r.Got? ==> |r.rest| < |s|
    decreases |s|, 0
  {
    if s == "" then Bad
    else if s[0] == '\"' then
      match ScanString(s[1..])
      case Bad => Bad
      case Got(t, rest) => Got(Str(t), rest)
    else if s[0] == '[' then
      var inner := SkipSpace(s[1..]);
      if inner != "" && inner[0] == ']' then Got(Arr(NoItems), inner[1..])
      else
        match ScanItems(inner)
        case Bad => Bad
        case Got(items, rest) => Got(Arr(items), rest)
    else if s[0] == '{' then
      var inner := SkipSpace(s[1..]);
      if inner != "" && inner[0] == '}' then Got(Obj(NoMembers), inner[1..])
      else
        match ScanMembers(inner)
        case Bad => Bad
        case Got(members, rest) => Got(Obj(members), rest)
    else if AtomLength(s) == 0 then Bad
    else Got(Atom(s[..AtomLength(s)]), s[AtomLength(s)..])
  }

  function ScanItems(s: string): (r: Scan<Items>)
    ensures r.Got? ==> |r.rest| < |s|
    decreases |s|, 1
  {
    match ScanValue(s)
    case Bad => Bad
    case Got(head, rest) =>
      var next := SkipSpace(rest);
      if next == "" then Bad
      else if next[0] == ']' then Got(Item(head, NoItems), next[1..])
      else if next[0] != ',' then Bad
      else
        match ScanItems(SkipSpace(next[1..]))
        case Bad => Bad
        case Got(tail, after) => Got(Item(head, tail), after)
  }

  /** A key and the colon after it. */
  function ScanKey(s: string): (r: Scan<string>)
    ensures r.Got? ==> |r.rest| < |s|
  {
    if s == "" || s[0] != '\"' then Bad else
      match ScanString(s[1..])
      case Bad => Bad
      case Got(key, rest) =>
        var colon := SkipSpace(rest);
        if colon == "" || colon[0] != ':' then Bad else Got(key, SkipSpace(colon[1..]))
  }

  function ScanMembers(s: string): (r: Scan<Members>)
    ensures r.Got? ==> |r.rest| < |s|
    decreases |s|, 1
  {
    match ScanKey(s)
    case Bad => Bad
    case Got(key, afterKey) =>
      match ScanValue(afterKey)
      case Bad => Bad
      case Got(value, rest) =>
        var next := SkipSpace(rest);
        if next == "" then Bad
        else if next[0] == '}' then Got(Member(key, value, NoMembers), next[1..])
        else if next[0] != ',' then Bad
        else
          match ScanMembers(SkipSpace(next[1..]))
          case Bad => Bad
          case Got(more, after) => Got(Member(key, value, more), after)
  }

  function Loads(s: string): Result<Json, ()> {
    match ScanValue(SkipSpace(s))
    case Bad => Err(())
    case Got(j, rest) => if SkipSpace(rest) == "" then Ok(j) else Err(())
  }

  // ---- round trip ----------------------------------------------------------------------------

  predicate IsAtom(token: string) {
    token != "" && forall i :: 0 <= i < |token| ==> IsAtomChar(token[i])
  }

  predicate Valid(j: Json) {
    match j
    case Atom(token) => IsAtom(token)
    case Str(_) => true
    case Arr(items) => ValidItems(items)
    case Obj(members) => ValidMembers(members)
  }

  predicate ValidItems(items: Items) {
    items.Item? ==> Valid(items.head) && ValidItems(items.tail)
  }

  predicate ValidMembers(members: Members) {
    members.Member? ==> Valid(members.value) && ValidMembers(members.rest)
  }

  lemma Hex4Value(n: nat)
    requires n < 0x10000
    ensures n / 4096 < 16 && n == 4096 * (n / 4096) + 256 * (n / 256 % 16) + 16 * (n / 16 % 16) + n % 16
  {
  }

  lemma Hex4Back(n: nat, rest: string)
    requires n < 0x10000
    ensures ScanHex4(Hex4(n) + rest) == Got(n, rest)
  {
    var s := Hex4(n) + rest;
    assert s[4..] == rest;
    Hex4Value(n);
    var a, b, c, d := n / 4096, n / 256 % 16, n / 16 % 16, n % 16;
    assert s[0] == HexDigit(a) && s[1] == HexDigit(b) && s[2] == HexDigit(c) && s[3] == HexDigit(d);
    HexDigitBack(a);
    HexDigitBack(b);
    HexDigitBack(c);
    HexDigitBack(d);
    hide HexDigit, HexValue;
  }

  lemma HexDigitBack(d: nat)
    requires d < 16
    ensures HexValue(HexDigit(d)) == Some(d)
  {
  }

  lemma PairScan(high: nat, low: nat, c: char, rest: string)
    requires 0xd800 <= high < 0xdc00 <= low < 0xe000
    requires c as int == 0x10000 + (high - 0xd800) * 0x400 + (low - 0xdc00)
    ensures ScanUnicode(Hex4(high) + ("\\u" + Hex4(low)) + rest) == Got(c, rest)
  {
    hide ScanHex4, Hex4;
    var tail := "\\u" + (Hex4(low) + rest);
    assert Hex4(high) + ("\\u" + Hex4(low)) + rest == Hex4(high) + tail;
    Hex4Back(high, tail);
    assert tail[2..] == Hex4(low) + rest;
    Hex4Back(low, rest);
  }

  lemma Halves(m: nat)
    requires m < 0x100000
    ensures m / 0x400 < 0x400 && m == 0x400 * (m / 0x400) + m % 0x400
  {
  }

  lemma EscapeIsPair(c: char)
    requires c as int >= 0x10000
    ensures var m := c as int - 0x10000;
            EscapeChar(c) == "\\u" + Hex4(0xd800 + m / 0x400) + ("\\u" + Hex4(0xdc00 + m % 0x400))
  {
  }

  lemma UnicodeBack(c: char, rest: string)
    ensures c as int < 0x10000 ==> ScanUnicode(Hex4(c as int) + rest) == Got(c, rest)
    ensures c as int >= 0x10000 ==> ScanUnicode(EscapeChar(c)[2..] + rest) == Got(c, rest)
  {
    hide ScanHex4, Hex4, EscapeChar;
    var n := c as int;
    if n < 0x10000 {
      Hex4Back(n, rest);
    } else {
      hide ScanUnicode;
      var m := n - 0x10000;
      Halves(m);
      EscapeIsPair(c);
      var high, low := Hex4(0xd800 + m / 0x400), "\\u" + Hex4(0xdc00 + m % 0x400);
      PairScan(0xd800 + m / 0x400, 0xdc00 + m % 0x400, c, rest);
      assert ("\\u" + high + low)[2..] == high + low;
    }
  }

  /** The two-character escapes of JSON, section 7 of RFC 8259. */
  lemma EscapesAreStandard(c: char)
    ensures EscapeChar('\"') == "\\\"" && EscapeChar('\\') == "\\\\"
    ensures EscapeChar('\n') == "\\n" && EscapeChar('\r') == "\\r" && EscapeChar('\t') == "\\t"
    ensures EscapeChar(8 as char) == "\\b" && EscapeChar(12 as char) == "\\f" && EscapeChar(0 as char) == "\\u0000"
    ensures ' ' <= c <= '~' && c != '\"' && c != '\\' ==> EscapeChar(c) == [c]
  {
    assert Hex4(0) == "0000";
  }

  /** Rendered text is printable ASCII, whatever the string holds. */
  lemma {:induction false} RenderingIsAscii(t: string)
    ensures forall i :: 0 <= i < |Escaped(t)| ==> ' ' <= Escaped(t)[i] <= '~'
  {
    if t == "" {
    } else {
      RenderingIsAscii(t[1..]);
      EscapeIsAscii(t[0]);
      hide EscapeChar;
    }
  }

  lemma EscapeIsAscii(c: char)
    ensures forall i :: 0 <= i < |EscapeChar(c)| ==> ' ' <= EscapeChar(c)[i] <= '~'
  {
    forall n: nat | n < 0x10000 ensures forall i :: 0 <= i < 4 ==> ' ' <= Hex4(n)[i] <= '~' {
      HexIsAscii(n);
    }
    hide Hex4;
  }

  lemma HexIsAscii(n: nat)
    requires n < 0x10000
    ensures forall i :: 0 <= i < 4 ==> ' ' <= Hex4(n)[i] <= '~'
  {
  }

  /** Lists are rendered with the separator ", ". */
  lemma ListsAreSeparated(a: string, b: string)
    ensures Dumps(Arr(Item(Atom(a), Item(Atom(b), NoItems)))) == "[" + a + ", " + b + "]"
  {
    var second := Item(Atom(b), NoItems);
    assert DumpItems(second) == b;
    assert DumpItems(Item(Atom(a), second)) == a + (", " + DumpItems(second));
  }

  /** Objects are rendered with the separators ", " and ": ". */
  lemma MembersAreSeparated(a: string, b: string, key: string, key': string)
    ensures Dumps(Obj(Member(key, Atom(a), Member(key', Atom(b), NoMembers))))
         == "{\"" + Escaped(key) + "\": " + a + ", \"" + Escaped(key') + "\": " + b + "}"
  {
    hide Escaped;
    var last := Member(key', Atom(b), NoMembers);
    assert DumpMembers(last) == "\"" + Escaped(key') + "\": " + b;
    assert DumpMembers(Member(key, Atom(a), last)) == DumpKey(key) + (a + (", " + DumpMembers(last)));
  }

  lemma ShortEscapeBack(c: char)
    requires ShortEscape(c).Some?
    ensures ShortEscape(c).value != 'u' && LongForm(ShortEscape(c).value) == Some(c)
  {
  }

  lemma ShortCharBack(c: char, rest: string)
    requires ShortEscape(c).Some?
    ensures ScanChar(EscapeChar(c) + rest) == Got(c, rest)
  {
    ShortEscapeBack(c);
    hide ShortEscape, LongForm, ScanUnicode;
    assert (EscapeChar(c) + rest)[2..] == rest;
  }

  lemma LongCharBack(c: char, rest: string)
    requires ShortEscape(c).None? && !(' ' <= c <= '~')
    ensures ScanChar(EscapeChar(c) + rest) == Got(c, rest)
  {
    hide LongForm, ShortEscape, Hex4, ScanUnicode;
    UnicodeBack(c, rest);
    assert EscapeChar(c)[0] == '\\' && EscapeChar(c)[1] == 'u';
    assert c as int < 0x10000 ==> EscapeChar(c)[2..] == Hex4(c as int);
    hide EscapeChar;
    assert (EscapeChar(c) + rest)[2..] == EscapeChar(c)[2..] + rest;
  }

  lemma CharBack(c: char, rest: string)
    ensures ScanChar(EscapeChar(c) + rest) == Got(c, rest)
    ensures EscapeChar(c)[0] != '\"'
  {
    hide Hex4, ScanUnicode;
    if ShortEscape(c).Some? {
      ShortCharBack(c, rest);
    } else if ' ' <= c <= '~' {
      assert (EscapeChar(c) + rest)[1..] == rest;
    } else {
      LongCharBack(c, rest);
    }
  }

  lemma {:induction false} StringBack(t: string, rest: string)
    ensures ScanString(Escaped(t) + "\"" + rest) == Got(t, rest)
  {
    var s := Escaped(t) + "\"" + rest;
    hide ScanChar, EscapeChar;
    if t == "" {
      assert s[1..] == rest;
    } else {
      var more := Escaped(t[1..]) + "\"" + rest;
      assert s == EscapeChar(t[0]) + more;
      CharBack(t[0], more);
      StringBack(t[1..], rest);
      assert [t[0]] + t[1..] == t;
    }
  }

  /** What may follow a value: nothing that would lengthen an atom. */
  predicate Stops(rest: string) {
    rest == "" || !IsAtomChar(rest[0])
  }

  lemma {:induction false} AtomBack(token: string, rest: string)
    requires forall i :: 0 <= i < |token| ==> IsAtomChar(token[i])
    requires Stops(rest)
    ensures AtomLength(token + rest) == |token|
  {
    if token == "" {
      assert token + rest == rest;
    } else {
      AtomBack(token[1..], rest);
      assert (token + rest)[1..] == token[1..] + rest;
    }
  }

  /** A rendered value starts with its own kind of character, never with space or a closing bracket. */
  lemma FirstChar(j: Json)
    requires Valid(j)
    ensures Dumps(j) != "" && Dumps(j)[0] != ']' && !IsSpace(Dumps(j)[0])
  {
  }

  lemma AtomScan(token: string, rest: string)
    requires IsAtom(token) && Stops(rest)
    ensures ScanValue(token + rest) == Got(Atom(token), rest)
  {
    var s := token + rest;
    AtomBack(token, rest);
    assert s[..|token|] == token && s[|token|..] == rest;
    assert s[0] == token[0] && IsAtomChar(token[0]);
    hide ScanString, ScanItems, ScanMembers, AtomLength;
  }

  lemma StringScan(t: string, rest: string)
    ensures ScanValue("\"" + Escaped(t) + "\"" + rest) == Got(Str(t), rest)
  {
    var s := "\"" + Escaped(t) + "\"" + rest;
    StringBack(t, rest);
    hide Escaped, ScanString, ScanItems, ScanMembers;
    assert s[1..] == Escaped(t) + "\"" + rest;
  }

  lemma ArrScan(inner: string, items: Items, rest: string)
    requires if items.NoItems? then inner == "]" + rest
             else inner != "" && !IsSpace(inner[0]) && inner[0] != ']' && ScanItems(inner) == Got(items, rest)
    ensures ScanValue("[" + inner) == Got(Arr(items), rest)
  {
  }

  lemma ObjScan(inner: string, members: Members, rest: string)
    requires if members.NoMembers? then inner == "}" + rest
             else inner != "" && inner[0] == '\"' && ScanMembers(inner) == Got(members, rest)
    ensures ScanValue("{" + inner) == Got(Obj(members), rest)
  {
    hide ScanItems, ScanMembers, ScanString;
    var s := "{" + inner;
    assert s[1..] == inner && SkipSpace(inner) == inner;
    if members.NoMembers? {
      assert inner[1..] == rest;
    }
  }

  lemma {:induction false} ValueBack(j: Json, rest: string)
    requires Valid(j) && Stops(rest)
    ensures ScanValue(Dumps(j) + rest) == Got(j, rest)
    decreases j, 1
  {
    match j
    case Atom(token) => AtomScan(token, rest);
    case Str(t) => StringScan(t, rest);
    case Arr(items) => ArrBack(items, rest);
    case Obj(members) => ObjBack(members, rest);
  }

  lemma {:induction false} ArrBack(items: Items, rest: string)
    requires ValidItems(items)
    ensures ScanValue(Dumps(Arr(items)) + rest) == Got(Arr(items), rest)
    decreases items, 2
  {
    var inner := DumpItems(items) + "]" + rest;
    assert Dumps(Arr(items)) + rest == "[" + inner;
    if items.Item? {
      ItemsBack(items, rest);
      FirstChar(items.head);
      assert inner[0] == Dumps(items.head)[0];
    } else {
      assert inner == "]" + rest;
    }
    hide *;
    ArrScan(inner, items, rest);
  }

  lemma {:induction false} ObjBack(members: Members, rest: string)
    requires ValidMembers(members)
    ensures ScanValue(Dumps(Obj(members)) + rest) == Got(Obj(members), rest)
    decreases members, 2
  {
    var inner := DumpMembers(members) + "}" + rest;
    assert Dumps(Obj(members)) + rest == "{" + inner;
    if members.Member? {
      MembersBack(members, rest);
      assert inner[0] == '\"';
    } else {
      assert inner == "}" + rest;
    }
    hide *;
    ObjScan(inner, members, rest);
  }

  lemma LastItem(s: string, head: Json, rest: string)
    requires ScanValue(s) == Got(head, "]" + rest)
    ensures ScanItems(s) == Got(Item(head, NoItems), rest)
  {
  }

  lemma OneMoreItem(s: string, head: Json, after: string, tail: Items, rest: string)
    requires ScanValue(s) == Got(head, ", " + after)
    requires after != "" && !IsSpace(after[0]) && ScanItems(after) == Got(tail, rest)
    ensures ScanItems(s) == Got(Item(head, tail), rest)
  {
    hide ScanValue;
    var next := ", " + after;
    assert next[1..] == " " + after && (" " + after)[1..] == after;
    assert SkipSpace(next) == next && SkipSpace(" " + after) == after;
  }

  /** What follows the first item of a rendered array. */
  function AfterItem(rest: Items, tail: string): string {
    if rest.NoItems? then "]" + tail else ", " + (DumpItems(rest) + "]" + tail)
  }

  lemma ItemsSplit(items: Items, tail: string)
    requires items.Item?
    ensures DumpItems(items) + "]" + tail == Dumps(items.head) + AfterItem(items.tail, tail)
    ensures Stops(AfterItem(items.tail, tail))
  {
    var v := Dumps(items.head);
    if items.tail.NoItems? {
      assert DumpItems(items) == v;
      hide *;
      assert v + "]" + tail == v + ("]" + tail);
    } else {
      var m := DumpItems(items.tail);
      assert DumpItems(items) == v + (", " + m);
      assert AfterItem(items.tail, tail) == ", " + (m + "]" + tail);
      hide *;
      Regroup("", v, ", ", m, "]", tail);
      assert "" + (v + (", " + m)) == v + (", " + m);
    }
  }

  lemma {:induction false} ItemsBack(items: Items, rest: string)
    requires items.Item? && ValidItems(items)
    ensures ScanItems(DumpItems(items) + "]" + rest) == Got(items, rest)
    decreases items, 1
  {
    var s := DumpItems(items) + "]" + rest;
    var after := DumpItems(items.tail) + "]" + rest;
    ItemsSplit(items, rest);
    if items.tail.Item? {
      FirstChar(items.tail.head);
      assert DumpItems(items.tail)[0] == Dumps(items.tail.head)[0];
      assert after[0] == DumpItems(items.tail)[0];
      ItemsBack(items.tail, rest);
    }
    hide ScanItems, Dumps, DumpItems, ScanValue, IsAtom;
    ValueBack(items.head, AfterItem(items.tail, rest));
    if items.tail.NoItems? {
      LastItem(s, items.head, rest);
    } else {
      OneMoreItem(s, items.head, after, items.tail, rest);
    }
  }

  lemma KeyBack(key: string, rest: string)
    requires rest != "" && !IsSpace(rest[0])
    ensures ScanKey(DumpKey(key) + rest) == Got(key, rest)
  {
    var s := DumpKey(key) + rest;
    StringBack(key, ": " + rest);
    hide ScanString, Escaped;
    assert s[1..] == Escaped(key) + "\"" + (": " + rest);
    assert (": " + rest)[1..] == " " + rest && (" " + rest)[1..] == rest;
    assert SkipSpace(": " + rest) == ": " + rest && SkipSpace(" " + rest) == rest;
  }

  /** What follows the first member of a rendered object. */
  function AfterMember(rest: Members, tail: string): string {
    if rest.NoMembers? then "}" + tail else ", " + (DumpMembers(rest) + "}" + tail)
  }

  lemma MembersSplit(members: Members, tail: string)
    requires members.Member?
    ensures DumpMembers(members) + "}" + tail
         == DumpKey(members.key) + (Dumps(members.value) + AfterMember(members.rest, tail))
    ensures Stops(AfterMember(members.rest, tail))
  {
    var k, v := DumpKey(members.key), Dumps(members.value);
    if members.rest.NoMembers? {
      assert DumpMembers(members) == k + v by {
        assert v + "" == v;
      }
      hide *;
      assert (k + v) + "}" + tail == k + (v + ("}" + tail));
    } else {
      var m := DumpMembers(members.rest);
      assert DumpMembers(members) == k + (v + (", " + m));
      assert AfterMember(members.rest, tail) == ", " + (m + "}" + tail);
      hide *;
      Regroup(k, v, ", ", m, "}", tail);
    }
  }

  lemma Regroup(a: string, b: string, c: string, d: string, e: string, f: string)
    ensures (a + (b + (c + d))) + e + f == a + (b + (c + (d + e + f)))
  {
  }

  lemma LastMember(s: string, key: string, body: string, value: Json, tail: string)
    requires ScanKey(s) == Got(key, body) && ScanValue(body) == Got(value, "}" + tail)
    ensures ScanMembers(s) == Got(Member(key, value, NoMembers), tail)
  {
  }

  lemma OneMoreMember(s: string, key: string, body: string, value: Json, after: string, more: Members, tail: string)
    requires ScanKey(s) == Got(key, body) && ScanValue(body) == Got(value, ", " + after)
    requires after != "" && !IsSpace(after[0]) && ScanMembers(after) == Got(more, tail)
    ensures ScanMembers(s) == Got(Member(key, value, more), tail)
  {
    hide ScanKey, ScanValue;
    var next := ", " + after;
    assert next[1..] == " " + after && (" " + after)[1..] == after;
    assert SkipSpace(next) == next && SkipSpace(" " + after) == after;
  }

  lemma {:induction false} MembersBack(members: Members, tail: string)
    requires members.Member? && ValidMembers(members)
    ensures ScanMembers(DumpMembers(members) + "}" + tail) == Got(members, tail)
    decreases members, 1
  {
    var s := DumpMembers(members) + "}" + tail;
    var more := AfterMember(members.rest, tail);
    var body := Dumps(members.value) + more;
    var after := DumpMembers(members.rest) + "}" + tail;
    MembersSplit(members, tail);
    FirstChar(members.value);
    if members.rest.Member? {
      assert after[0] == '\"';
      MembersBack(members.rest, tail);
    }
    hide ScanMembers, Dumps, DumpMembers, DumpKey, ScanKey, ScanValue, IsAtom;
    KeyBack(members.key, body);
    ValueBack(members.value, more);
    if members.rest.NoMembers? {
      LastMember(s, members.key, body, members.value, tail);
    } else {
      OneMoreMember(s, members.key, body, members.value, after, members.rest, tail);
    }
  }

  /** Reading back what was rendered gives the same value. */
  lemma LoadsDumps(j: Json)
    requires Valid(j)
    ensures Loads(Dumps(j)) == Ok(j)
  {
    assert Dumps(j) + "" == Dumps(j);
    ValueBack(j, "");
    FirstChar(j);
  }
}
