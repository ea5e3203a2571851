/** Session-keyed identities: every field is framed by its eight-byte big-endian length, so the message
    under the MAC determines the domain and the fields. */
module IdentityFraming {
  import opened Common

  newtype Byte = x: int | 0 <= x < 256

  type Bytes = seq<Byte>

  /** How text is encoded; different texts are encoded differently. */
  type Encoding = string -> Bytes

  /** The keyed MAC, taken to be injective in key and message. */
  type Mac = (Bytes, Bytes) -> nat

  /** The first half of a digest. */
  type Cut = nat -> nat

  ghost predicate Faithful(utf8: Encoding) {
    forall s, t :: utf8(s) == utf8(t) ==> s == t
  }

  ghost predicate CollisionFree(mac: Mac) {
    forall k, m, k', m' :: mac(k, m) == mac(k', m') ==> k == k' && m == m'
  }

  /** No two digests share their first half. */
  ghost predicate Separates(cut: Cut) {
    forall x, y :: cut(x) == cut(y) ==> x == y
  }

  // ---- framing ----------------------------------------------------------------------------

  function Power(k: nat): (p: nat)
    ensures p > 0
  {
    if k == 0 then 1 else 256 * Power(k - 1)
  }

  /** The k big-endian digits of n. */
  function Digits(n: nat, k: nat): (d: Bytes)
    ensures |d| == k
  {
    if k == 0 then [] else Digits(n / 256, k - 1) + [(n % 256) as Byte]
  }

  function Number(d: Bytes): nat {
    if d == [] then 0 else 256 * Number(d[..|d| - 1]) + d[|d| - 1] as nat
  }

  lemma {:induction false} DigitsBack(n: nat, k: nat)
    requires n < Power(k)
    ensures Number(Digits(n, k)) == n
  {
    if k == 0 {
    } else {
      DigitsBack(n / 256, k - 1);
      assert Digits(n, k)[..k - 1] == Digits(n / 256, k - 1);
    }
  }

  const PREFIX := 8

  /** One framed field; empty text is refused, and so is a length the prefix cannot hold. */
  function Frame(utf8: Encoding, text: string): Result<Bytes, ()> {
    if text == "" || |utf8(text)| >= Power(PREFIX) then Err(())
    else Ok(Digits(|utf8(text)|, PREFIX) + utf8(text))
  }

  /** The frames of the fields, one after the other. */
  function Frames(utf8: Encoding, fields: seq<string>): Result<Bytes, ()> {
    if fields == [] then Ok([])
    else
      match (Frame(utf8, fields[0]), Frames(utf8, fields[1..]))
      case (Ok(first), Ok(rest)) => Ok(first + rest)
      case _ => Err(())
  }

  /** Reading a message back: the encoded fields, when the bytes are exactly a sequence of frames. */
  function Unframe(message: Bytes): Option<seq<Bytes>>
    decreases |message|
  {
    if message == [] then Some([])
    else if |message| < PREFIX || |message| < PREFIX + Number(message[..PREFIX]) then None
    else
      var end := PREFIX + Number(message[..PREFIX]);
      match Unframe(message[end..])
      case None => None
      case Some(rest) => Some([message[PREFIX..end]] + rest)
  }

  function Encoded(utf8: Encoding, fields: seq<string>): seq<Bytes> {
    if fields == [] then [] else [utf8(fields[0])] + Encoded(utf8, fields[1..])
  }

  lemma {:induction false} UnframeBack(utf8: Encoding, fields: seq<string>)
    requires Frames(utf8, fields).Ok?
    ensures Unframe(Frames(utf8, fields).value) == Some(Encoded(utf8, fields))
  {
    if fields == [] {
    } else {
      var raw, rest := utf8(fields[0]), Frames(utf8, fields[1..]).value;
      var prefix := Digits(|raw|, PREFIX);
      var message := Frames(utf8, fields).value;
      UnframeBack(utf8, fields[1..]);
      DigitsBack(|raw|, PREFIX);
      hide Number, Digits, Power, Frames;
      assert message == prefix + raw + rest;
      assert message[..PREFIX] == prefix && message[PREFIX..PREFIX + |raw|] == raw && message[PREFIX + |raw|..] == rest;
    }
  }

  lemma {:induction false} EncodedDetermines(utf8: Encoding, a: seq<string>, b: seq<string>)
    requires Faithful(utf8) && Encoded(utf8, a) == Encoded(utf8, b)
    ensures a == b
  {
    if a == [] || b == [] {
    } else {
      assert Encoded(utf8, a)[0] == utf8(a[0]) && Encoded(utf8, b)[0] == utf8(b[0]);
      assert Encoded(utf8, a)[1..] == Encoded(utf8, a[1..]) && Encoded(utf8, b)[1..] == Encoded(utf8, b[1..]);
      EncodedDetermines(utf8, a[1..], b[1..]);
      assert a == [a[0]] + a[1..] && b == [b[0]] + b[1..];
    }
  }

  /** Two field sequences of any lengths with the same message are the same sequence. */
  lemma FramesDetermine(utf8: Encoding, a: seq<string>, b: seq<string>)
    requires Faithful(utf8) && Frames(utf8, a).Ok? && Frames(utf8, a) == Frames(utf8, b)
    ensures a == b
  {
    UnframeBack(utf8, a);
    UnframeBack(utf8, b);
    EncodedDetermines(utf8, a, b);
  }

  // ---- identities ----------------------------------------------------------------------------

  const VALUE_DOMAIN := "privacy-hud/54/value/v1"
  const FILE_DOMAIN := "privacy-hud/54/file/v1"
  const RECIPIENT_DOMAIN := "privacy-hud/54/recipient/v1"
  const ACTION_DOMAIN := "privacy-hud/54/action/v1"
  const TURN_DOMAIN := "privacy-hud/54/turn/v1"
  const KEY_LENGTH := 32

  /** What an identity is of. */
  datatype Named = Value(text: string) | File(path: string) | Recipient(kind: string, concrete: string)
    | HostAction(id: string) | HostTurn(id: string)

  /** The domain and the fields under the MAC. */
  function Fields(n: Named): seq<string> {
    match n
    case Value(text) => [VALUE_DOMAIN, text]
    case File(path) => [FILE_DOMAIN, path]
    case Recipient(kind, concrete) => [RECIPIENT_DOMAIN, kind, concrete]
    case HostAction(id) => [ACTION_DOMAIN, id]
    case HostTurn(id) => [TURN_DOMAIN, id]
  }

  /** Values, files and recipients keep the whole digest; actions and turns keep its first half. */
  datatype Digest = Whole(digest: nat) | Half(digest: nat)

  predicate IsCut(n: Named) {
    n.HostAction? || n.HostTurn?
  }

  function Identity(mac: Mac, cut: Cut, utf8: Encoding, key: Bytes, n: Named): Result<Digest, ()> {
    if |key| != KEY_LENGTH then Err(())
    else
      match Frames(utf8, Fields(n))
      case Err(_) => Err(())
      case Ok(message) => Ok(if IsCut(n) then Half(cut(mac(key, message))) else Whole(mac(key, message)))
  }

  /** An identity exists exactly for a key of 32 bytes and a thing whose every text is non-empty and shorter, when
      encoded, than two to the power of 64; so are the names of the five domains. */
  lemma IdentityExists(mac: Mac, cut: Cut, utf8: Encoding, key: Bytes, n: Named)
    ensures Identity(mac, cut, utf8, key, n).Ok? <==>
              |key| == 32 && forall i :: 0 <= i < |Fields(n)| ==>
                Fields(n)[i] != "" && |utf8(Fields(n)[i])| < 0x1_0000_0000_0000_0000
  {
    FramesExist(utf8, Fields(n));
    PrefixHolds64Bits();
    hide Power, Frames, Fields;
  }

  lemma PrefixHolds64Bits()
    ensures Power(8) == 0x1_0000_0000_0000_0000
  {
    assert Power(4) == 0x1_0000_0000;
    assert Power(8) == 256 * (256 * (256 * (256 * Power(4))));
  }

  /** The domain of each kind of thing. */
  lemma DomainsAre(n: Named)
    ensures Fields(n)[0] == match n
                            case Value(_) => "privacy-hud/54/value/v1"
                            case File(_) => "privacy-hud/54/file/v1"
                            case Recipient(_, _) => "privacy-hud/54/recipient/v1"
                            case HostAction(_) => "privacy-hud/54/action/v1"
                            case HostTurn(_) => "privacy-hud/54/turn/v1"
  {
  }

  /** The message under the MAC of a thing with one text: its domain and the text, each after its length in
      eight bytes. */
  lemma MessageOfOne(utf8: Encoding, n: Named)
    requires Frames(utf8, Fields(n)).Ok? && !n.Recipient?
    ensures var domain, raw := utf8(Fields(n)[0]), utf8(Fields(n)[1]);
            Frames(utf8, Fields(n)).value == Digits(|domain|, 8) + domain + (Digits(|raw|, 8) + raw)
  {
    var fields := Fields(n);
    assert fields[1..] == [fields[1]] && fields[1..][1..] == [];
    hide Fields;
    assert Frames(utf8, fields[1..][1..]) == Ok([]);
    assert Frames(utf8, fields[1..]).value == Digits(|utf8(fields[1])|, 8) + utf8(fields[1]) + [];
  }

  /** The first byte of a number counts for the most. */
  lemma {:induction false} HighestFirst(b: Byte, d: Bytes)
    ensures Number([b] + d) == b as nat * Power(|d|) + Number(d)
  {
    if d == [] {
      assert [b] + d == [b] && [b][..0] == [];
    } else {
      var n := |d| - 1;
      HighestFirst(b, d[..n]);
      assert ([b] + d)[..n + 1] == [b] + d[..n];
      assert 256 * (b as nat * Power(n)) == b as nat * Power(n + 1);
    }
  }

  lemma FieldsDetermine(a: Named, b: Named)
    requires Fields(a) == Fields(b)
    ensures a == b
  {
  }

  /** An identity names one thing under one key: a value, a file, a recipient, an action and a turn with
      the same text are all different. Actions and turns need digests to differ in their first half. */
  lemma IdentityDetermines(mac: Mac, cut: Cut, utf8: Encoding, k: Bytes, a: Named, k': Bytes, b: Named)
    requires CollisionFree(mac) && Faithful(utf8) && (IsCut(a) ==> Separates(cut))
    requires Identity(mac, cut, utf8, k, a).Ok? && Identity(mac, cut, utf8, k, a) == Identity(mac, cut, utf8, k', b)
    ensures k == k' && a == b
  {
    hide Fields;
    FramesDetermine(utf8, Fields(a), Fields(b));
    FieldsDetermine(a, b);
  }

  /** An identity exists exactly for a whole key and non-empty fields of a length the prefix can hold. */
  lemma {:induction false} FramesExist(utf8: Encoding, fields: seq<string>)
    ensures Frames(utf8, fields).Ok?
       <==> forall i :: 0 <= i < |fields| ==> fields[i] != "" && |utf8(fields[i])| < Power(PREFIX)
  {
    if fields == [] {
    } else {
      FramesExist(utf8, fields[1..]);
      assert forall i :: 1 <= i < |fields| ==> fields[i] == fields[1..][i - 1];
      assert forall i :: 0 <= i < |fields[1..]| ==> fields[1..][i] == fields[i + 1];
    }
  }
}
