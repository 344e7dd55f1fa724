/**
 Opaque cursors and credential secrets: base64url without padding (sections 3.5 and 5 of
 RFC 4648) in front of a wire codec, with every accepted string canonical.
 */
module Cursor {
  import opened Values
  import Text

  type Byte = n: nat | n < 256

  // ---------------------------------------------------------------- the alphabet

  function Symbol(n: nat): char
    requires n < 64
  {
    if n < 26 then 'A' + n as char
    else if n < 52 then 'a' + (n - 26) as char
    else if n < 62 then '0' + (n - 52) as char
    else if n == 62 then '-' else '_'
  }

  /** The value of a symbol; 64 for a character outside the alphabet. */
  function Index(c: char): nat {
    if 'A' <= c <= 'Z' then c as nat - 'A' as nat
    else if 'a' <= c <= 'z' then c as nat - 'a' as nat + 26
    else if '0' <= c <= '9' then c as nat - '0' as nat + 52
    else if c == '-' then 62 else if c == '_' then 63 else 64
  }

  lemma SymbolIndex(n: nat)
    requires n < 64
    ensures Index(Symbol(n)) == n && Symbol(n) != '=' && Symbol(n) != '+' && Symbol(n) != '/' && Symbol(n) != '.'
  {
  }

  lemma IndexSymbol(c: char)
    requires Index(c) < 64
    ensures Symbol(Index(c)) == c
  {
  }

  // ---------------------------------------------------------------- encoding

  type Sextet = n: nat | n < 64

  datatype Quad = Quad(i: Sextet, j: Sextet, k: Sextet, l: Sextet)
  datatype Triple = Triple(a: Byte, b: Byte, c: Byte)

  /** Three bytes are four sextets, */
  function ToQuad(t: Triple): Quad {
    Quad(t.a / 4, t.a % 4 * 16 + t.b / 16, t.b % 16 * 4 + t.c / 64, t.c % 64)
  }

  /** and back. */
  function ToTriple(q: Quad): Triple {
    Triple(q.i * 4 + q.j / 16, q.j % 16 * 16 + q.k / 4, q.k % 4 * 64 + q.l)
  }

  lemma Radix(h: nat, r: nat)
    ensures r < 4 ==> (h * 4 + r) / 4 == h && (h * 4 + r) % 4 == r
    ensures r < 16 ==> (h * 16 + r) / 16 == h && (h * 16 + r) % 16 == r
    ensures r < 64 ==> (h * 64 + r) / 64 == h && (h * 64 + r) % 64 == r
  {
  }

  lemma TripleQuad(t: Triple)
    ensures ToTriple(ToQuad(t)) == t
    ensures t.c == 0 ==> ToQuad(t).l == 0
    ensures t.b == t.c == 0 ==> ToQuad(t).k == ToQuad(t).l == 0
  {
    Radix(t.a % 4, t.b / 16);
    Radix(t.b % 16, t.c / 64);
  }

  lemma QuadTriple(q: Quad)
    ensures ToQuad(ToTriple(q)) == q
  {
    Radix(q.i, q.j / 16);
    Radix(q.j % 16, q.k / 4);
    Radix(q.k % 4, q.l);
  }

  /** Both are the same number, most significant digit first, in base 256 and in base 64. */
  lemma SameNumber(t: Triple)
    ensures var q := ToQuad(t);
      65536 * t.a + 256 * t.b + t.c == 262144 * q.i + 4096 * q.j + 64 * q.k + q.l
  {
    assert t.a == t.a / 4 * 4 + t.a % 4 && t.b == t.b / 16 * 16 + t.b % 16 && t.c == t.c / 64 * 64 + t.c % 64;
  }

  /** A short tail is encoded as if zero bytes followed, without the symbols that only they fill. */
  function Encode(bytes: seq<Byte>): string {
    if |bytes| == 0 then ""
    else if |bytes| == 1 then Symbols(ToQuad(Triple(bytes[0], 0, 0)))[..2]
    else if |bytes| == 2 then Symbols(ToQuad(Triple(bytes[0], bytes[1], 0)))[..3]
    else Symbols(ToQuad(Triple(bytes[0], bytes[1], bytes[2]))) + Encode(bytes[3..])
  }

  function Symbols(q: Quad): (s: string)
    ensures |s| == 4
  {
    [Symbol(q.i), Symbol(q.j), Symbol(q.k), Symbol(q.l)]
  }

  predicate InAlphabet(s: string) {
    forall i :: 0 <= i < |s| ==> Index(s[i]) < 64
  }

  /** No padding, no character outside the alphabet, no stray bits at the end. */
  function Decode(s: string): Option<seq<Byte>> {
    if |s| == 0 then Some([])
    else if |s| == 1 || !InAlphabet(s[..if |s| < 4 then |s| else 4]) then None
    else if |s| == 2 then
      var t := ToTriple(Quad(Index(s[0]), Index(s[1]), 0, 0));
      if t.b == 0 then Some([t.a]) else None
    else if |s| == 3 then
      var t := ToTriple(Quad(Index(s[0]), Index(s[1]), Index(s[2]), 0));
      if t.c == 0 then Some([t.a, t.b]) else None
    else
      var t := ToTriple(Quad(Index(s[0]), Index(s[1]), Index(s[2]), Index(s[3])));
      var rest := Decode(s[4..]);
      if rest.Some? then Some([t.a, t.b, t.c] + rest.value) else None
  }

  lemma {:induction false} EncodeLength(bytes: seq<Byte>)
    ensures |Encode(bytes)| == (4 * |bytes| + 2) / 3
  {
    if |bytes| >= 3 {
      EncodeLength(bytes[3..]);
    }
  }

  lemma SymbolsIndex(q: Quad)
    ensures
      var s := Symbols(q);
      InAlphabet(s) && Index(s[0]) == q.i && Index(s[1]) == q.j && Index(s[2]) == q.k && Index(s[3]) == q.l
  {
    SymbolIndex(q.i);
    SymbolIndex(q.j);
    SymbolIndex(q.k);
    SymbolIndex(q.l);
  }

  lemma DecodeShort(bytes: seq<Byte>)
    requires |bytes| == 1 || |bytes| == 2
    ensures Decode(Encode(bytes)) == Some(bytes)
  {
    var t := Triple(bytes[0], if |bytes| == 2 then bytes[1] else 0, 0);
    TripleQuad(t);
    var q := ToQuad(t);
    SymbolsIndex(q);
    var s := Encode(bytes);
    assert s[0] == Symbols(q)[0] && s[1] == Symbols(q)[1];
    if |bytes| == 2 {
      assert s[2] == Symbols(q)[2] && q == Quad(q.i, q.j, q.k, 0);
      assert InAlphabet(s[..3]);
      assert bytes == [t.a, t.b];
    } else {
      assert q == Quad(q.i, q.j, 0, 0);
      assert InAlphabet(s[..2]);
      assert bytes == [t.a];
    }
  }

  /** Decoding undoes encoding, */
  lemma {:induction false} DecodeEncode(bytes: seq<Byte>)
    ensures Decode(Encode(bytes)) == Some(bytes)
  {
    if 0 < |bytes| < 3 {
      DecodeShort(bytes);
    } else if |bytes| >= 3 {
      var t := Triple(bytes[0], bytes[1], bytes[2]);
      TripleQuad(t);
      SymbolsIndex(ToQuad(t));
      DecodeEncode(bytes[3..]);
      var s := Encode(bytes);
      assert s[..4] == Symbols(ToQuad(t)) && s[4..] == Encode(bytes[3..]);
      assert s[0] == s[..4][0] && s[1] == s[..4][1] && s[2] == s[..4][2] && s[3] == s[..4][3];
      assert bytes == [t.a, t.b, t.c] + bytes[3..];
    }
  }

  lemma EncodeShort(s: string)
    requires Decode(s).Some? && |s| < 4
    ensures Encode(Decode(s).value) == s && |Decode(s).value| <= |s|
  {
    if |s| >= 2 {
      assert s[..|s|] == s;
      var q := Quad(Index(s[0]), Index(s[1]), if |s| == 3 then Index(s[2]) else 0, 0);
      QuadTriple(q);
      IndexSymbol(s[0]);
      IndexSymbol(s[1]);
      if |s| == 3 {
        IndexSymbol(s[2]);
      }
      var t := ToTriple(q);
      assert |s| == 2 ==> t == Triple(t.a, 0, 0);
      assert |s| == 3 ==> t == Triple(t.a, t.b, 0);
      assert s == Symbols(q)[..|s|];
    }
  }

  /** and what decodes was the one encoding of its bytes. */
  lemma {:induction false} EncodeDecode(s: string)
    requires Decode(s).Some?
    ensures Encode(Decode(s).value) == s && |Decode(s).value| <= |s|
  {
    if |s| < 4 {
      EncodeShort(s);
    } else {
      assert forall i :: 0 <= i < 4 ==> s[..4][i] == s[i];
      var q := Quad(Index(s[0]), Index(s[1]), Index(s[2]), Index(s[3]));
      QuadTriple(q);
      IndexSymbol(s[0]);
      IndexSymbol(s[1]);
      IndexSymbol(s[2]);
      IndexSymbol(s[3]);
      EncodeDecode(s[4..]);
      var t, bytes := ToTriple(q), Decode(s).value;
      assert Triple(bytes[0], bytes[1], bytes[2]) == t;
      assert bytes[3..] == Decode(s[4..]).value;
      assert s == Symbols(q) + s[4..];
    }
  }

  // ---------------------------------------------------------------- cursors

  function EncodeCursor<T>(value: T, serialize: T -> seq<Byte>): string {
    Encode(serialize(value))
  }

  function DecodeCanonical<T(==)>(
    encoded: string, maximum: nat, serialize: T -> seq<Byte>, deserialize: seq<Byte> -> Option<T>): Option<T>
  {
    if encoded == "" || |encoded| > maximum then None
    else
      match Decode(encoded)
      case None => None
      case Some(decoded) =>
        if |decoded| > maximum || Encode(decoded) != encoded then None
        else
          match deserialize(decoded)
          case None => None
          case Some(value) => if EncodeCursor(value, serialize) != encoded then None else Some(value)
  }

  /** The wire codec gives back what it wrote, and never writes nothing. */
  ghost predicate LeftInverse<T(!new)>(serialize: T -> seq<Byte>, deserialize: seq<Byte> -> Option<T>) {
    forall v :: deserialize(serialize(v)) == Some(v) && serialize(v) != []
  }

  /** A cursor decodes to a value exactly when it is that value's encoding and within the limit. */
  lemma CursorsAreCanonical<T(!new)>(
    encoded: string, maximum: nat, serialize: T -> seq<Byte>, deserialize: seq<Byte> -> Option<T>, value: T)
    requires LeftInverse(serialize, deserialize)
    ensures DecodeCanonical(encoded, maximum, serialize, deserialize) == Some(value) <==>
            encoded == EncodeCursor(value, serialize) && |encoded| <= maximum
  {
    if encoded == EncodeCursor(value, serialize) {
      DecodeEncode(serialize(value));
      EncodeDecode(encoded);
      EncodeLength(serialize(value));
    }
  }

  /** So no value has two accepted cursors. */
  lemma CursorsAreUnique<T(!new)>(
    a: string, b: string, maximum: nat, serialize: T -> seq<Byte>, deserialize: seq<Byte> -> Option<T>)
    requires DecodeCanonical(a, maximum, serialize, deserialize).Some?
    requires DecodeCanonical(a, maximum, serialize, deserialize) == DecodeCanonical(b, maximum, serialize, deserialize)
    ensures a == b
  {
  }

  // ---------------------------------------------------------------- credential secrets

  /** Python's decoder maps `-_` onto `+/` first, so it takes both spellings, */
  function LenientIndex(c: char): nat {
    if c == '+' then 62 else if c == '/' then 63 else Index(c)
  }

  predicate Lenient(s: string) {
    forall i :: 0 <= i < |s| ==> LenientIndex(s[i]) < 64
  }

  /** wants padding to a multiple of four, and ignores stray bits. */
  function LenientDecode(s: string): Option<seq<Byte>> {
    if |s| == 0 then Some([])
    else if |s| < 4 || !Lenient(s[..2]) then None
    else if |s| == 4 && s[2] == '=' && s[3] == '=' then
          Some([ToTriple(Quad(LenientIndex(s[0]), LenientIndex(s[1]), 0, 0)).a])
    else if LenientIndex(s[2]) >= 64 then None
    else if |s| == 4 && s[3] == '=' then
      var t := ToTriple(Quad(LenientIndex(s[0]), LenientIndex(s[1]), LenientIndex(s[2]), 0));
      Some([t.a, t.b])
    else if LenientIndex(s[3]) >= 64 then None
    else
      var t := ToTriple(Quad(LenientIndex(s[0]), LenientIndex(s[1]), LenientIndex(s[2]), LenientIndex(s[3])));
      var rest := LenientDecode(s[4..]);
      if rest.Some? then Some([t.a, t.b, t.c] + rest.value) else None
  }

  predicate SecretAccepted(s: string) {
    var secret := LenientDecode(s + "=");
    secret.Some? && |secret.value| == 32 && Encode(secret.value) == s
  }

  lemma LenientSymbols(q: Quad)
    ensures
      var s := Symbols(q);
      Lenient(s) && LenientIndex(s[0]) == q.i && LenientIndex(s[1]) == q.j
      && LenientIndex(s[2]) == q.k && LenientIndex(s[3]) == q.l && s[2] != '=' && s[3] != '='
  {
    SymbolIndex(q.i);
    SymbolIndex(q.j);
    SymbolIndex(q.k);
    SymbolIndex(q.l);
  }

  lemma LenientDecodesPair(bytes: seq<Byte>)
    requires |bytes| == 2
    ensures LenientDecode(Encode(bytes) + "=") == Some(bytes)
  {
    var t := Triple(bytes[0], bytes[1], 0);
    var q := ToQuad(t);
    TripleQuad(t);
    LenientSymbols(q);
    var s := Encode(bytes) + "=";
    assert s[..3] == Symbols(q)[..3];
    assert s[0] == s[..3][0] && s[1] == s[..3][1] && s[2] == s[..3][2];
    assert q == Quad(q.i, q.j, q.k, 0);
    assert bytes == [t.a, t.b];
  }

  lemma LenientQuad(q: Quad, rest: string)
    requires LenientDecode(rest).Some?
    ensures
      var t := ToTriple(q);
      LenientDecode(Symbols(q) + rest) == Some([t.a, t.b, t.c] + LenientDecode(rest).value)
  {
    LenientSymbols(q);
    var s := Symbols(q) + rest;
    assert s[4..] == rest && s[0] == Symbols(q)[0] && s[1] == Symbols(q)[1] && s[2] == Symbols(q)[2]
          && s[3] == Symbols(q)[3];
  }

  lemma LenientTriple(bytes: seq<Byte>, rest: string)
    requires |bytes| == 3 && LenientDecode(rest).Some?
    ensures LenientDecode(Encode(bytes) + rest) == Some(bytes + LenientDecode(rest).value)
  {
    var t := Triple(bytes[0], bytes[1], bytes[2]);
    TripleQuad(t);
    LenientQuad(ToQuad(t), rest);
    assert bytes[3..] == [] && Encode(bytes) == Symbols(ToQuad(t)) + "";
    assert Symbols(ToQuad(t)) + "" == Symbols(ToQuad(t));
    assert bytes == [t.a, t.b, t.c];
  }

  lemma EncodeFront(bytes: seq<Byte>)
    requires |bytes| >= 3
    ensures Encode(bytes) == Encode(bytes[..3]) + Encode(bytes[3..])
  {
    var front := bytes[..3];
    assert front[3..] == [] && front[0] == bytes[0] && front[1] == bytes[1] && front[2] == bytes[2];
    var first := Symbols(ToQuad(Triple(bytes[0], bytes[1], bytes[2])));
    assert Encode(front) == first + Encode([]);
    assert Encode([]) == "" && first + "" == first;
    assert Encode(bytes) == first + Encode(bytes[3..]);
  }

  lemma {:induction false} LenientDecodesPadded(bytes: seq<Byte>)
    requires |bytes| % 3 == 2
    ensures LenientDecode(Encode(bytes) + "=") == Some(bytes)
  {
    if |bytes| == 2 {
      LenientDecodesPair(bytes);
    } else {
      var front, back := bytes[..3], bytes[3..];
      LenientDecodesPadded(back);
      EncodeFront(bytes);
      PaddingLast(Encode(front), Encode(back));
      LenientTriple(front, Encode(back) + "=");
      assert bytes == front + back;
    }
  }

  lemma PaddingLast(a: string, b: string)
    ensures a + b + "=" == a + (b + "=")
  {
  }

  /** The accepted secrets are exactly the encodings of 32-byte strings: the comparison with the
      re-encoding makes up for everything the decoder lets through. */
  lemma SecretsAreEncodings(s: string)
    ensures SecretAccepted(s) <==> exists bytes: seq<Byte> :: |bytes| == 32 && Encode(bytes) == s
  {
    if SecretAccepted(s) {
      var bytes := LenientDecode(s + "=").value;
      assert |bytes| == 32 && Encode(bytes) == s;
    }
    forall bytes: seq<Byte> | |bytes| == 32 && Encode(bytes) == s ensures SecretAccepted(s) {
      LenientDecodesPadded(bytes);
    }
  }

  // ---------------------------------------------------------------- credential tokens

  predicate IsSpace(c: char) {
    '\t' <= c <= '\r' || 28 as char <= c <= ' '
  }

  predicate NoSpace(s: string) {
    forall c :: c in s ==> !IsSpace(c)
  }

  predicate Identity(s: string) {
    s != "" && |s| <= 256 && NoSpace(s) && forall c :: c in s ==> c >= ' '
  }

  predicate Kind(s: string) {
    s == "enrollment" || s == "registration"
  }

  function WithoutNewline(value: string): string {
    if value != "" && value[|value| - 1] == '\n' then value[..|value| - 1] else value
  }

  /** The kind and the token that an ASCII credential file holds. */
  function CredentialToken(value: string): Option<(string, string)> {
    var token := WithoutNewline(value);
    if token == "" || !NoSpace(token) then None
    else
      var parts := Text.Split(token, '.');
      if |parts| != 3 || !Kind(parts[0]) then None
      else if parts[1] == "" || |parts[1]| > 256 || exists c :: c in parts[1] && c < ' ' then None
      else if !SecretAccepted(parts[2]) then None
      else Some((parts[0], token))
  }

  function TokenText(kind: string, identity: string, secret: seq<Byte>): string {
    Text.Join([kind, identity, Encode(secret)], '.')
  }

  lemma {:induction false} EncodeInAlphabet(bytes: seq<Byte>)
    ensures InAlphabet(Encode(bytes))
  {
    if 0 < |bytes| < 3 {
      var t := Triple(bytes[0], if |bytes| == 2 then bytes[1] else 0, 0);
      SymbolsIndex(ToQuad(t));
    } else if |bytes| >= 3 {
      SymbolsIndex(ToQuad(Triple(bytes[0], bytes[1], bytes[2])));
      EncodeInAlphabet(bytes[3..]);
    }
  }

  lemma PartIsClean(token: string, i: nat)
    requires NoSpace(token) && i < |Text.Split(token, '.')|
    ensures NoSpace(Text.Split(token, '.')[i])
  {
    forall c | c in Text.Split(token, '.')[i] ensures !IsSpace(c) {
      Text.SplitChars(token, '.', i, c);
    }
  }

  lemma AcceptedTokenHasForm(value: string)
    requires CredentialToken(value).Some?
    ensures exists kind, identity, secret: seq<Byte> ::
      Kind(kind) && Identity(identity) && Text.Free(identity, '.') && |secret| == 32
      && CredentialToken(value) == Some((kind, TokenText(kind, identity, secret)))
  {
    var token := WithoutNewline(value);
    var parts := Text.Split(token, '.');
    PartIsClean(token, 1);
    Text.SplitFree(token, '.');
    Text.JoinSplit(token, '.');
    SecretsAreEncodings(parts[2]);
    var secret: seq<Byte> :| |secret| == 32 && Encode(secret) == parts[2];
    assert parts == [parts[0], parts[1], Encode(secret)];
    assert Identity(parts[1]) && Text.Free(parts[1], '.');
    assert CredentialToken(value) == Some((parts[0], TokenText(parts[0], parts[1], secret)));
  }

  /** Every token of that form is accepted, with or without a final newline. */
  lemma FormedTokenIsAccepted(kind: string, identity: string, secret: seq<Byte>)
    requires Kind(kind) && Identity(identity) && Text.Free(identity, '.') && |secret| == 32
    ensures var token := TokenText(kind, identity, secret);
      CredentialToken(token) == Some((kind, token)) && CredentialToken(token + "\n") == Some((kind, token))
  {
    var parts := [kind, identity, Encode(secret)];
    var token := TokenText(kind, identity, secret);
    EncodeInAlphabet(secret);
    assert Text.Free(kind, '.') && Text.Free(Encode(secret), '.');
    Text.SplitJoin(parts, '.');
    SecretsAreEncodings(parts[2]);
    TokenIsClean(parts);
    assert token[|token| - 1] in token;
    assert (token + "\n")[..|token|] == token;
    TokenOfParts(token, token, kind, identity, Encode(secret));
    TokenOfParts(token + "\n", token, kind, identity, Encode(secret));
  }

  lemma TokenOfParts(value: string, token: string, kind: string, identity: string, secret: string)
    requires WithoutNewline(value) == token && token != "" && NoSpace(token)
    requires Text.Split(token, '.') == [kind, identity, secret]
    requires Kind(kind) && Identity(identity) && SecretAccepted(secret)
    ensures CredentialToken(value) == Some((kind, token))
  {
  }

  lemma TokenIsClean(parts: seq<string>)
    requires |parts| == 3 && Kind(parts[0]) && NoSpace(parts[1]) && InAlphabet(parts[2])
    ensures NoSpace(Text.Join(parts, '.')) && Text.Join(parts, '.') != ""
  {
    forall c | c in Text.Join(parts, '.') ensures !IsSpace(c) {
      Text.JoinChars(parts, '.', c);
    }
  }
}
