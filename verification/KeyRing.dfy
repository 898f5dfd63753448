/**
 The encrypter: tokens `v1:<key id>:<encoded ciphertext>` over a ring of keys
 that only grows.  The cipher and the base64 encoding are given from outside.
 */
module KeyRing {
  import opened Wrappers
  import Text

  type Bytes = seq<int>

  /** A cipher with its nonce as an input, and a text encoding of bytes. */
  datatype Codec = Codec(
    keySize: nat,
    seal: (Bytes, Bytes, nat) -> Bytes,
    open: (Bytes, Bytes) -> Option<Bytes>,
    encode: Bytes -> string,
    decode: string -> Option<Bytes>)

  /** Opening undoes sealing under the same key, decoding undoes encoding, and
      no encoded text contains a colon (base64url has none, section 5 of RFC 4648). */
  ghost predicate Sound(c: Codec) {
    && (forall key, plain, nonce :: |key| == c.keySize ==> c.open(key, c.seal(key, plain, nonce)) == Some(plain))
    && (forall b :: c.decode(c.encode(b)) == Some(b))
    && (forall s :: ':' in s ==> c.decode(s) == None)
  }

  // ----- tokens ------------------------------------------------------------------------------

  /** Position of the first colon, or the length. */
  function FirstColon(s: string): (r: nat)
    ensures r <= |s| && ':' !in s[..r]
    ensures r < |s| ==> s[r] == ':'
  {
    if s == "" || s[0] == ':' then 0 else 1 + FirstColon(s[1..])
  }

  function Token(id: string, text: string): string {
    "v1" + ":" + id + ":" + text
  }

  /** The two colons of a token, and what lies between and behind them. */
  function DecodeToken(c: Codec, token: string): Option<(string, Bytes)> {
    var i := FirstColon(token);
    if i == |token| then None
    else
      var rest := token[i + 1..];
      var j := FirstColon(rest);
      if j == |rest| || token[..i] != "v1" || j == 0 then None
      else
        match c.decode(rest[j + 1..])
        case None => None
        case Some(sealed) => Some((rest[..j], sealed))
  }

  function KeyIdOf(c: Codec, token: string): Option<string> {
    match DecodeToken(c, token)
    case None => None
    case Some((id, _)) => Some(id)
  }

  lemma {:induction false} FirstColonIs(s: string, i: nat)
    requires i < |s| && s[i] == ':' && ':' !in s[..i]
    ensures FirstColon(s) == i
  {
  }

  lemma HeadOf(token: string, id: string)
    requires |token| > |id| + 3 && token[..|id| + 4] == "v1:" + id + ":"
    ensures token[..2] == "v1" && token[2] == ':' && token[3..][..|id|] == id && token[3..][|id|] == ':'
  {
    var head := "v1:" + id + ":";
    assert forall k :: 0 <= k < |head| ==> token[k] == token[..|id| + 4][k] == head[k];
    assert head[2] == ':' && head[|id| + 3] == ':';
    assert forall k :: 0 <= k < |id| ==> head[k + 3] == id[k];
  }

  /** Exactly the texts `v1:<id>:<encoded bytes>` are tokens, with a non-empty id
      that has no colon. */
  lemma TokensAre(c: Codec, token: string, id: string, sealed: Bytes)
    ensures DecodeToken(c, token) == Some((id, sealed)) <==>
            && id != "" && ':' !in id && |token| > |id| + 3
            && token[..|id| + 4] == "v1:" + id + ":" && c.decode(token[|id| + 4..]) == Some(sealed)
  {
    var i := FirstColon(token);
    if |token| > |id| + 3 && token[..|id| + 4] == "v1:" + id + ":" && id != "" && ':' !in id {
      var rest := token[3..];
      HeadOf(token, id);
      FirstColonIs(token, 2);
      FirstColonIs(rest, |id|);
      assert rest[|id| + 1..] == token[|id| + 4..];
    }
    if DecodeToken(c, token) == Some((id, sealed)) {
      var rest := token[i + 1..];
      var j := FirstColon(rest);
      assert i == 2 && rest[..j] == id;
      assert token[..|id| + 4] == token[..2] + [token[2]] + rest[..j] + [rest[j]];
      assert rest[j + 1..] == token[|id| + 4..];
    }
  }

  /** A token is taken apart again exactly when its key id has no colon. */
  lemma TokenRoundTrip(c: Codec, id: string, sealed: Bytes)
    requires Sound(c) && id != ""
    ensures DecodeToken(c, Token(id, c.encode(sealed))) == if ':' in id then None else Some((id, sealed))
  {
    var text := c.encode(sealed);
    var token := Token(id, text);
    assert token[..2] == "v1";
    FirstColonIs(token, 2);
    var rest := token[3..];
    assert rest == id + ":" + text;
    if ':' in id {
      var j := FirstColon(id);
      assert j < |id| by { assert id[..|id|] == id; }
      assert rest[..j] == id[..j];
      FirstColonIs(rest, j);
      assert rest[j + 1..][|id| - j - 1] == ':';
    } else {
      assert rest[..|id|] == id;
      FirstColonIs(rest, |id|);
      assert rest[|id| + 1..] == text;
    }
  }

  // ----- the ring ----------------------------------------------------------------------------

  datatype Ring = Ring(keys: map<string, Bytes>, primary: string)

  datatype Action = AddKey(id: string, key: Bytes) | SetPrimary(id: string)

  predicate Accepted(c: Codec, ring: Ring, a: Action) {
    match a
    case AddKey(id, key) => Text.Trim(id) != "" && |key| == c.keySize && id !in ring.keys
    case SetPrimary(id) => id in ring.keys
  }

  /** A refused action leaves the ring as it is. */
  function Next(c: Codec, ring: Ring, a: Action): Ring {
    if !Accepted(c, ring, a) then ring
    else
      match a
      case AddKey(id, key) => Ring(ring.keys[id := key], if ring.primary == "" then id else ring.primary)
      case SetPrimary(id) => ring.(primary := id)
  }

  function Encrypt(c: Codec, ring: Ring, plain: Bytes, nonce: nat): Option<string> {
    if ring.primary !in ring.keys || ring.primary == "" then None
    else Some(Token(ring.primary, c.encode(c.seal(ring.keys[ring.primary], plain, nonce))))
  }

  function Decrypt(c: Codec, ring: Ring, token: string): Option<Bytes> {
    match DecodeToken(c, token)
    case None => None
    case Some((id, sealed)) => if id in ring.keys then c.open(ring.keys[id], sealed) else None
  }

  /** The encrypter object. */
  class Encrypter {
    const codec: Codec
    var keys: map<string, Bytes>
    var primary: string

    ghost function View(): Ring
      reads this
    {
      Ring(keys, primary)
    }

    constructor (codec: Codec)
      ensures this.codec == codec && View() == Ring(map[], "")
    {
      this.codec := codec;
      keys, primary := map[], "";
    }

    method AddKey(id: string, key: Bytes) returns (ok: bool)
      modifies this
      ensures ok == Accepted(codec, old(View()), Action.AddKey(id, key))
      ensures ok <==> Text.Trim(id) != "" && |key| == codec.keySize && id !in old(keys)
      ensures keys == if ok then old(keys)[id := key] else old(keys)
      ensures primary == if ok && old(primary) == "" then id else old(primary)
      ensures View() == Next(codec, old(View()), Action.AddKey(id, key))
    {
      if Text.Trim(id) == "" {
        return false;
      }
      if |key| != codec.keySize {
        return false;
      }
      if id in keys {
        return false;
      }
      keys := keys[id := key];
      if primary == "" {
        primary := id;
      }
      return true;
    }

    method SetPrimary(id: string) returns (ok: bool)
      modifies this
      ensures ok == Accepted(codec, old(View()), Action.SetPrimary(id))
      ensures ok <==> id in old(keys)
      ensures keys == old(keys) && primary == if ok then id else old(primary)
      ensures View() == Next(codec, old(View()), Action.SetPrimary(id))
    {
      if id !in keys {
        return false;
      }
      primary := id;
      return true;
    }
  }

  ghost predicate IsHistory(c: Codec, rings: seq<Ring>, acts: seq<Action>) {
    && |rings| == |acts| + 1 && rings[0] == Ring(map[], "")
    && forall i :: 0 <= i < |acts| ==> rings[i + 1] == Next(c, rings[i], acts[i])
  }

  lemma {:induction false} KeysFit(c: Codec, rings: seq<Ring>, acts: seq<Action>, i: nat, id: string)
    requires IsHistory(c, rings, acts) && i <= |acts| && id in rings[i].keys
    ensures |rings[i].keys[id]| == c.keySize
  {
    if i > 0 {
      assert rings[i - 1 + 1] == Next(c, rings[i - 1], acts[i - 1]);
      if id in rings[i - 1].keys {
        KeysFit(c, rings, acts, i - 1, id);
      }
    }
  }

  /** Keys are neither replaced nor removed. */
  lemma {:induction false} KeysStay(c: Codec, rings: seq<Ring>, acts: seq<Action>, i: nat, j: nat, id: string)
    requires IsHistory(c, rings, acts) && i <= j <= |acts| && id in rings[i].keys
    ensures id in rings[j].keys && rings[j].keys[id] == rings[i].keys[id]
  {
    if i < j {
      KeysStay(c, rings, acts, i, j - 1, id);
    }
  }

  /** What each action of a history does: a key is added exactly if its id is not
      blank and new and it fits, and becomes primary exactly if it is the first; a
      registered id becomes primary; anything else changes nothing. */
  lemma HistoryStep(c: Codec, rings: seq<Ring>, acts: seq<Action>, i: nat)
    requires IsHistory(c, rings, acts) && i < |acts|
    ensures var r, r' := rings[i], rings[i + 1];
            match acts[i]
            case SetPrimary(id) =>
              r'.keys == r.keys && r'.primary == if id in r.keys then id else r.primary
            case AddKey(id, key) =>
              if Text.Trim(id) != "" && |key| == c.keySize && id !in r.keys
              then r'.keys == r.keys[id := key] && r'.primary == if r.keys == map[] then id else r.primary
              else r' == r
  {
    PrimaryIsAKey(c, rings, acts, i);
  }

  /** After a rotation the next token carries the new id. */
  lemma NextTokenCarriesTheNewId(
    c: Codec, rings: seq<Ring>, acts: seq<Action>, i: nat, id: string, plain: Bytes, nonce: nat)
    requires Sound(c) && IsHistory(c, rings, acts) && i < |acts| && acts[i] == SetPrimary(id)
    requires id in rings[i].keys && ':' !in id
    ensures Encrypt(c, rings[i + 1], plain, nonce).Some?
    ensures KeyIdOf(c, Encrypt(c, rings[i + 1], plain, nonce).value) == Some(id)
  {
    HistoryStep(c, rings, acts, i);
    EncryptsOnceAKeyIsThere(c, rings, acts, i + 1, plain, nonce);
    RotationKeepsTokens(c, rings, acts, i + 1, i + 1, plain, nonce);
    hide Encrypt, KeyIdOf, IsHistory, Sound;
  }

  /** Rotation never loses data: a token encrypted at any moment of any history
      decrypts at every later moment, whatever was added or made primary since,
      and names the primary key of its moment, exactly when that key's id has
      no colon, which AddKey does not check. */
  lemma RotationKeepsTokens(c: Codec, rings: seq<Ring>, acts: seq<Action>, i: nat, j: nat, plain: Bytes, nonce: nat)
    requires Sound(c) && IsHistory(c, rings, acts) && i <= j <= |acts|
    requires Encrypt(c, rings[i], plain, nonce).Some?
    ensures var token := Encrypt(c, rings[i], plain, nonce).value;
            var id := rings[i].primary;
            && Decrypt(c, rings[j], token) == (if ':' in id then None else Some(plain))
            && KeyIdOf(c, token) == (if ':' in id then None else Some(id))
  {
    var id := rings[i].primary;
    KeysFit(c, rings, acts, i, id);
    KeysStay(c, rings, acts, i, j, id);
    TokenRoundTrip(c, id, c.seal(rings[i].keys[id], plain, nonce));
    hide DecodeToken, Token;
  }

  /** Nothing decrypts without the key its token names, or if it is no token. */
  lemma DecryptNeedsItsKey(c: Codec, ring: Ring, token: string)
    ensures Decrypt(c, ring, token).Some? ==>
              KeyIdOf(c, token).Some? && KeyIdOf(c, token).value in ring.keys
  {
  }

  /** Encryption works from the first accepted key on. */
  lemma EncryptsOnceAKeyIsThere(
    c: Codec, rings: seq<Ring>, acts: seq<Action>, i: nat, plain: Bytes, nonce: nat)
    requires IsHistory(c, rings, acts) && i <= |acts|
    ensures Encrypt(c, rings[i], plain, nonce).Some? <==> rings[i].keys != map[]
  {
    PrimaryIsAKey(c, rings, acts, i);
  }

  lemma {:induction false} PrimaryIsAKey(c: Codec, rings: seq<Ring>, acts: seq<Action>, i: nat)
    requires IsHistory(c, rings, acts) && i <= |acts|
    ensures "" !in rings[i].keys
    ensures if rings[i].primary == "" then rings[i].keys == map[] else rings[i].primary in rings[i].keys
  {
    if i > 0 {
      PrimaryIsAKey(c, rings, acts, i - 1);
      assert Text.Trim("") == "";
    }
  }

  // ----- hexadecimal keys ----------------------------------------------------------------------

  function Unhex(c: char): Option<int> {
    if '0' <= c <= '9' then Some((c - '0') as int)
    else if 'a' <= c <= 'f' then Some((c - 'a') as int + 10)
    else if 'A' <= c <= 'F' then Some((c - 'A') as int + 10)
    else None
  }

  predicate IsHex(c: char) {
    Unhex(c).Some?
  }

  predicate IsByte(b: int) {
    0 <= b < 256
  }

  function ByteOf(hi: char, lo: char): int
    requires IsHex(hi) && IsHex(lo)
  {
    16 * Unhex(hi).value + Unhex(lo).value
  }

  /** What decoding hexadecimal text yields: nothing exactly on odd length or a
      character that is no digit, otherwise the bytes of the digit pairs. */
  ghost predicate IsDecoding(s: string, r: Option<Bytes>) {
    && (r.Some? <==> |s| % 2 == 0 && forall i :: 0 <= i < |s| ==> IsHex(s[i]))
    && (r.Some? ==>
          && |r.value| == |s| / 2
          && forall i :: 0 <= i < |s| / 2 ==>
               r.value[i] == ByteOf(s[2 * i], s[2 * i + 1]))
  }

  /** decodeHex. */
  method DecodeHex(s: string) returns (r: Option<Bytes>)
    ensures IsDecoding(s, r)
  {
    if |s| % 2 != 0 {
      return None;
    }
    var out := new int[|s| / 2];
    for i := 0 to out.Length
      invariant forall j :: 0 <= j < 2 * i ==> IsHex(s[j])
      invariant forall j :: 0 <= j < i ==> out[j] == ByteOf(s[2 * j], s[2 * j + 1])
    {
      var hi, lo := Unhex(s[2 * i]), Unhex(s[2 * i + 1]);
      if hi.None? || lo.None? {
        return None;
      }
      out[i] := 16 * hi.value + lo.value;
    }
    return Some(out[..]);
  }

  function HexDigit(d: int, upper: bool): (c: char)
    requires 0 <= d < 16
    ensures Unhex(c) == Some(d)
  {
    if d < 10 then '0' + d as char else if upper then 'A' + (d - 10) as char else 'a' + (d - 10) as char
  }

  /** Hexadecimal text of bytes, with the case of every digit chosen freely. */
  function HexOf(b: Bytes, upper: nat -> bool): (s: string)
    requires forall i :: 0 <= i < |b| ==> IsByte(b[i])
    ensures |s| == 2 * |b|
  {
    if b == [] then ""
    else
      var n := |b| - 1;
      assert IsByte(b[n]);
      HexOf(b[..n], upper) + [HexDigit(b[n] / 16, upper(2 * n)), HexDigit(b[n] % 16, upper(2 * n + 1))]
  }

  lemma {:induction false} HexDigitsOf(b: Bytes, upper: nat -> bool, i: nat)
    requires (forall i :: 0 <= i < |b| ==> IsByte(b[i])) && i < |b|
    ensures Unhex(HexOf(b, upper)[2 * i]) == Some(b[i] / 16)
    ensures Unhex(HexOf(b, upper)[2 * i + 1]) == Some(b[i] % 16)
  {
    if i < |b| - 1 {
      HexDigitsOf(b[..|b| - 1], upper, i);
    }
  }

  lemma PrintedIsHex(b: Bytes, upper: nat -> bool, k: nat)
    requires (forall i :: 0 <= i < |b| ==> IsByte(b[i])) && k < 2 * |b|
    ensures IsHex(HexOf(b, upper)[k])
  {
    HexDigitsOf(b, upper, k / 2);
    assert k == 2 * (k / 2) || k == 2 * (k / 2) + 1;
  }

  lemma PrintedByte(b: Bytes, upper: nat -> bool, i: nat)
    requires (forall i :: 0 <= i < |b| ==> IsByte(b[i])) && i < |b|
    requires IsHex(HexOf(b, upper)[2 * i]) && IsHex(HexOf(b, upper)[2 * i + 1])
    ensures ByteOf(HexOf(b, upper)[2 * i], HexOf(b, upper)[2 * i + 1]) == b[i]
  {
    HexDigitsOf(b, upper, i);
  }

  /** Decoding undoes printing, whichever case each digit has. */
  lemma DecodingUndoesPrinting(b: Bytes, upper: nat -> bool, r: Option<Bytes>)
    requires forall i :: 0 <= i < |b| ==> IsByte(b[i])
    ensures IsDecoding(HexOf(b, upper), r) <==> r == Some(b)
  {
    var s := HexOf(b, upper);
    forall k | 0 <= k < |s|
      ensures IsHex(s[k])
    {
      PrintedIsHex(b, upper, k);
    }
    forall i | 0 <= i < |b|
      ensures b[i] == ByteOf(s[2 * i], s[2 * i + 1])
    {
      PrintedByte(b, upper, i);
    }
    OnlyDecoding(s, b, r);
  }

  lemma OnlyDecoding(s: string, b: Bytes, r: Option<Bytes>)
    requires |s| == 2 * |b| && forall k :: 0 <= k < |s| ==> IsHex(s[k])
    requires forall i :: 0 <= i < |b| ==> b[i] == ByteOf(s[2 * i], s[2 * i + 1])
    ensures IsDecoding(s, r) <==> r == Some(b)
  {
    hide ByteOf, IsHex;
    if IsDecoding(s, r) {
      assert r.value == b;
    }
  }
}
