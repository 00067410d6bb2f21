/**
 The signed cookies of internal/auth/oidc.go.  The MAC is a parameter: a function of the
 secret and the body.  The encoding is unpadded base64url, section 5 of RFC 4648, read as
 Go's decoder reads it: line breaks are skipped, and unused bits of the last character ignored.
 */
module Cookie {
  import opened Wrappers
  import opened Text

  type byte = b: int | 0 <= b < 256
  type sextet = v: int | 0 <= v < 64

  type Mac = (seq<byte>, seq<byte>) -> seq<byte>

  // ---------- base64url ----------

  function Letter(v: sextet): char {
    if v < 26 then (v + 'A' as int) as char
    else if v < 52 then (v - 26 + 'a' as int) as char
    else if v < 62 then (v - 52 + '0' as int) as char
    else if v == 62 then '-'
    else '_'
  }

  function Value(c: char): Option<sextet> {
    if 'A' <= c <= 'Z' then Some(c as int - 'A' as int)
    else if 'a' <= c <= 'z' then Some(c as int - 'a' as int + 26)
    else if '0' <= c <= '9' then Some(c as int - '0' as int + 52)
    else if c == '-' then Some(62)
    else if c == '_' then Some(63)
    else None
  }

  lemma ValueOfLetter(v: sextet)
    ensures Value(Letter(v)) == Some(v)
    ensures Letter(v) != '.' && !IsLineBreak(Letter(v))
  {
  }

  // The four values of three bytes; missing bytes count as zero.
  function First(a: byte): sextet { a / 4 }

  function Second(a: byte, b: byte): sextet { a % 4 * 16 + b / 16 }

  function Third(b: byte, c: byte): sextet { b % 16 * 4 + c / 64 }

  function Fourth(c: byte): sextet { c % 64 }

  function EncodeBase64(bytes: seq<byte>): string {
    if |bytes| == 0 then ""
    else if |bytes| == 1 then
      [Letter(First(bytes[0])), Letter(Second(bytes[0], 0))]
    else if |bytes| == 2 then
      [Letter(First(bytes[0])), Letter(Second(bytes[0], bytes[1])), Letter(Third(bytes[1], 0))]
    else
      [Letter(First(bytes[0])), Letter(Second(bytes[0], bytes[1])),
       Letter(Third(bytes[1], bytes[2])), Letter(Fourth(bytes[2]))] + EncodeBase64(bytes[3..])
  }

  predicate IsLineBreak(c: char) {
    c == '\n' || c == '\r'
  }

  function WithoutLineBreaks(s: string): string {
    if s == "" then ""
    else (if IsLineBreak(s[0]) then "" else [s[0]]) + WithoutLineBreaks(s[1..])
  }

  /** The values of the characters; None when one is not in the alphabet. */
  function Values(s: string): Option<seq<sextet>> {
    if s == "" then Some([])
    else
      match (Value(s[0]), Values(s[1..]))
      case (Some(v), Some(rest)) => Some([v] + rest)
      case _ => None
  }

  function HighByte(v: sextet, w: sextet): byte { v * 4 + w / 16 }

  function MiddleByte(v: sextet, w: sextet): byte { v % 16 * 16 + w / 4 }

  function LowByte(v: sextet, w: sextet): byte { v % 4 * 64 + w }

  /** Four values give three bytes; a last group of three or two gives two or one, of one is an error. */
  function Bytes(vs: seq<sextet>): Option<seq<byte>> {
    if |vs| == 0 then Some([])
    else if |vs| == 1 then None
    else if |vs| == 2 then Some([HighByte(vs[0], vs[1])])
    else if |vs| == 3 then Some([HighByte(vs[0], vs[1]), MiddleByte(vs[1], vs[2])])
    else
      match Bytes(vs[4..])
      case None => None
      case Some(rest) =>
        Some([HighByte(vs[0], vs[1]), MiddleByte(vs[1], vs[2]), LowByte(vs[2], vs[3])] + rest)
  }

  function DecodeBase64(s: string): Result<seq<byte>> {
    match Values(WithoutLineBreaks(s))
    case None => Err("illegal base64 data")
    case Some(vs) =>
      match Bytes(vs)
      case None => Err("illegal base64 data")
      case Some(bytes) => Ok(bytes)
  }

  /** Every character of an encoding is in the alphabet; none is the separator or a line break. */
  lemma {:induction false} EncodedIsPlain(bytes: seq<byte>)
    ensures forall c | c in EncodeBase64(bytes) :: c != '.' && !IsLineBreak(c) && Value(c).Some?
  {
    EncodeSpells(bytes);
    forall c | c in EncodeBase64(bytes) ensures c != '.' && !IsLineBreak(c) && Value(c).Some? {
      var i :| 0 <= i < |Sextets(bytes)| && c == Letters(Sextets(bytes))[i];
      ValueOfLetter(Sextets(bytes)[i]);
    }
  }

  lemma {:induction false} NothingToStrip(s: string)
    requires forall c | c in s :: !IsLineBreak(c)
    ensures WithoutLineBreaks(s) == s
  {
    if s != "" {
      assert s[0] in s;
      NothingToStrip(s[1..]);
      assert s == [s[0]] + s[1..];
    }
  }

  /** The values that the encoder writes out. */
  function Sextets(bytes: seq<byte>): seq<sextet> {
    if |bytes| == 0 then []
    else if |bytes| == 1 then [First(bytes[0]), Second(bytes[0], 0)]
    else if |bytes| == 2 then [First(bytes[0]), Second(bytes[0], bytes[1]), Third(bytes[1], 0)]
    else
      [First(bytes[0]), Second(bytes[0], bytes[1]), Third(bytes[1], bytes[2]), Fourth(bytes[2])]
      + Sextets(bytes[3..])
  }

  function Letters(vs: seq<sextet>): string {
    seq(|vs|, i requires 0 <= i < |vs| => Letter(vs[i]))
  }

  lemma {:induction false} EncodeSpells(bytes: seq<byte>)
    ensures EncodeBase64(bytes) == Letters(Sextets(bytes))
  {
    if |bytes| > 2 {
      EncodeSpells(bytes[3..]);
    }
  }

  lemma {:induction false} ValuesOfLetters(vs: seq<sextet>)
    ensures Values(Letters(vs)) == Some(vs)
  {
    if vs != [] {
      ValuesOfLetters(vs[1..]);
      ValueOfLetter(vs[0]);
      assert Letters(vs)[1..] == Letters(vs[1..]);
      assert vs == [vs[0]] + vs[1..];
    }
  }

  lemma ThreeBytes(a: byte, b: byte, c: byte)
    ensures HighByte(First(a), Second(a, b)) == a
    ensures MiddleByte(Second(a, b), Third(b, c)) == b
    ensures LowByte(Third(b, c), Fourth(c)) == c
  {
  }

  lemma BytesOfFour(v: sextet, w: sextet, x: sextet, y: sextet, rest: seq<sextet>)
    ensures Bytes([v, w, x, y] + rest) ==
            match Bytes(rest)
            case None => None
            case Some(more) => Some([HighByte(v, w), MiddleByte(w, x), LowByte(x, y)] + more)
  {
    assert ([v, w, x, y] + rest)[4..] == rest;
  }

  lemma OneByte(a: byte)
    ensures HighByte(First(a), Second(a, 0)) == a
  {
  }

  lemma BytesOfOne(a: byte)
    ensures Bytes(Sextets([a])) == Some([a])
  {
    OneByte(a);
    assert Sextets([a]) == [First(a), Second(a, 0)];
  }

  lemma BytesOfTwo(a: byte, b: byte)
    ensures Bytes(Sextets([a, b])) == Some([a, b])
  {
    ThreeBytes(a, b, 0);
    assert Sextets([a, b]) == [First(a), Second(a, b), Third(b, 0)];
  }

  lemma BytesOfThree(a: byte, b: byte, c: byte, rest: seq<byte>)
    requires Bytes(Sextets(rest)) == Some(rest)
    ensures Bytes(Sextets([a, b, c] + rest)) == Some([a, b, c] + rest)
  {
    ThreeBytes(a, b, c);
    BytesOfFour(First(a), Second(a, b), Third(b, c), Fourth(c), Sextets(rest));
    assert ([a, b, c] + rest)[3..] == rest;
  }

  lemma {:induction false} BytesOfSextets(bytes: seq<byte>)
    ensures Bytes(Sextets(bytes)) == Some(bytes)
  {
    if |bytes| == 1 {
      BytesOfOne(bytes[0]);
      assert bytes == [bytes[0]];
    } else if |bytes| == 2 {
      BytesOfTwo(bytes[0], bytes[1]);
      assert bytes == [bytes[0], bytes[1]];
    } else if |bytes| > 2 {
      BytesOfSextets(bytes[3..]);
      BytesOfThree(bytes[0], bytes[1], bytes[2], bytes[3..]);
      assert bytes == [bytes[0], bytes[1], bytes[2]] + bytes[3..];
    }
  }

  /** Decoding undoes encoding. */
  lemma DecodeEncode(bytes: seq<byte>)
    ensures DecodeBase64(EncodeBase64(bytes)) == Ok(bytes)
  {
    EncodedIsPlain(bytes);
    NothingToStrip(EncodeBase64(bytes));
    EncodeSpells(bytes);
    ValuesOfLetters(Sextets(bytes));
    BytesOfSextets(bytes);
  }

  /** Different byte strings have different encodings. */
  lemma EncodeInjective(a: seq<byte>, b: seq<byte>)
    ensures EncodeBase64(a) == EncodeBase64(b) <==> a == b
  {
    DecodeEncode(a);
    DecodeEncode(b);
  }

  /** The alphabet of table 2 of RFC 4648, in order. */
  const ALPHABET: string := "ABCDEFGHIJKLMNOPQRSTUVWXYZabcdefghijklmnopqrstuvwxyz0123456789-_"

  lemma LettersAreTheAlphabet()
    ensures [Letter(0), Letter(1), Letter(2), Letter(3), Letter(4), Letter(5), Letter(6), Letter(7),
             Letter(8), Letter(9), Letter(10), Letter(11), Letter(12), Letter(13), Letter(14), Letter(15),
             Letter(16), Letter(17), Letter(18), Letter(19), Letter(20), Letter(21), Letter(22), Letter(23),
             Letter(24), Letter(25), Letter(26), Letter(27), Letter(28), Letter(29), Letter(30), Letter(31),
             Letter(32), Letter(33), Letter(34), Letter(35), Letter(36), Letter(37), Letter(38), Letter(39),
             Letter(40), Letter(41), Letter(42), Letter(43), Letter(44), Letter(45), Letter(46), Letter(47),
             Letter(48), Letter(49), Letter(50), Letter(51), Letter(52), Letter(53), Letter(54), Letter(55),
             Letter(56), Letter(57), Letter(58), Letter(59), Letter(60), Letter(61), Letter(62), Letter(63)]
            == ALPHABET
  {
  }

  /** The base-64 digits of a number of 24 bits. */
  lemma FourDigits(v: sextet, w: sextet, x: sextet, y: sextet)
    ensures var n := v * 262144 + w * 4096 + x * 64 + y;
            n / 262144 == v && n / 4096 % 64 == w && n / 64 % 64 == x && n % 64 == y
  {
    var n := v * 262144 + w * 4096 + x * 64 + y;
    assert n / 64 == v * 4096 + w * 64 + x;
    assert n / 4096 == v * 64 + w;
  }

  lemma GroupBits(a: byte, b: byte, c: byte)
    ensures First(a) * 262144 + Second(a, b) * 4096 + Third(b, c) * 64 + Fourth(c) == a * 65536 + b * 256 + c
  {
  }

  /** The 24 bits of three bytes, most significant first, are those of four letters. */
  lemma GroupOfThree(a: byte, b: byte, c: byte, rest: seq<byte>)
    ensures var n := a * 65536 + b * 256 + c;
            EncodeBase64([a, b, c] + rest) ==
            [Letter(n / 262144), Letter(n / 4096 % 64), Letter(n / 64 % 64), Letter(n % 64)] + EncodeBase64(rest)
  {
    assert ([a, b, c] + rest)[3..] == rest;
    GroupBits(a, b, c);
    FourDigits(First(a), Second(a, b), Third(b, c), Fourth(c));
  }

  /** Two bytes are the first three letters of a group filled up with zero bits. */
  lemma GroupOfTwo(a: byte, b: byte)
    ensures var n := a * 65536 + b * 256;
            EncodeBase64([a, b]) == [Letter(n / 262144), Letter(n / 4096 % 64), Letter(n / 64 % 64)]
  {
    GroupBits(a, b, 0);
    FourDigits(First(a), Second(a, b), Third(b, 0), Fourth(0));
  }

  /** One byte is the first two; there is no padding. */
  lemma GroupOfOne(a: byte)
    ensures var n := a * 65536;
            EncodeBase64([a]) == [Letter(n / 262144), Letter(n / 4096 % 64)]
  {
    GroupBits(a, 0, 0);
    FourDigits(First(a), Second(a, 0), Third(0, 0), Fourth(0));
  }

  lemma {:induction false} ValuesDefined(s: string)
    ensures Values(s).Some? <==> forall c | c in s :: Value(c).Some?
    ensures Values(s).Some? ==> |Values(s).value| == |s|
  {
    if s != "" {
      ValuesDefined(s[1..]);
      assert forall c | c in s :: c == s[0] || c in s[1..];
    }
  }

  lemma ThreeQuarters(n: nat)
    ensures (n + 4) * 3 / 4 == n * 3 / 4 + 3 && (n + 4) % 4 == n % 4
  {
  }

  lemma {:induction false} BytesDefined(vs: seq<sextet>)
    ensures Bytes(vs).Some? <==> |vs| % 4 != 1
    ensures Bytes(vs).Some? ==> |Bytes(vs).value| == |vs| * 3 / 4
  {
    if |vs| > 3 {
      var rest := vs[4..];
      BytesDefined(rest);
      BytesOfFour(vs[0], vs[1], vs[2], vs[3], rest);
      assert vs == [vs[0], vs[1], vs[2], vs[3]] + rest;
      ThreeQuarters(|rest|);
    }
  }

  /** Which strings the decoder takes, and how many bytes it gets from them. */
  lemma DecodeAccepts(s: string)
    ensures var t := WithoutLineBreaks(s);
            && (DecodeBase64(s).Ok? <==> (forall c | c in t :: Value(c).Some?) && |t| % 4 != 1)
            && (DecodeBase64(s).Ok? ==> |DecodeBase64(s).value| == |t| * 3 / 4)
  {
    var t := WithoutLineBreaks(s);
    ValuesDefined(t);
    if Values(t).Some? {
      BytesDefined(Values(t).value);
    }
  }

  /** Line feeds and carriage returns are skipped wherever they stand. */
  lemma SkipsLineBreaks(s: string, t: string)
    ensures DecodeBase64(s + "\n" + t) == DecodeBase64(s + t)
    ensures DecodeBase64(s + "\r" + t) == DecodeBase64(s + t)
  {
    StripConcat(s + "\n", t);
    StripConcat(s, "\n");
    StripConcat(s + "\r", t);
    StripConcat(s, "\r");
    StripConcat(s, t);
    assert "\n"[1..] == "" && "\r"[1..] == "";
    var left, right := WithoutLineBreaks(s), WithoutLineBreaks(t);
    assert left + "" + right == left + right;
  }

  /** Any other character outside the alphabet, the padding character included, is refused. */
  lemma RefusesOthers(s: string, c: char)
    requires c in s && c != '\n' && c != '\r'
    requires !('A' <= c <= 'Z') && !('a' <= c <= 'z') && !('0' <= c <= '9') && c != '-' && c != '_'
    ensures DecodeBase64(s).Err?
  {
    StripSubset(s);
    DecodeAccepts(s);
  }

  // ---------- signing and verifying ----------

  /** signCookieValue. */
  function Sign(mac: Mac, secret: seq<byte>, body: seq<byte>): string {
    EncodeBase64(body) + "." + EncodeBase64(mac(secret, body))
  }

  /** verifyCookieValue. */
  function Verify(mac: Mac, secret: seq<byte>, signed: string): Result<seq<byte>> {
    match Index(signed, ".")
    case None => Err("malformed cookie")
    case Some(i) =>
      IndexFinds(signed, ".");
      match DecodeBase64(signed[..i])
      case Err(e) => Err(e)
      case Ok(body) =>
        match DecodeBase64(signed[i + 1..])
        case Err(e) => Err(e)
        case Ok(sig) => if sig == mac(secret, body) then Ok(body) else Err("cookie signature mismatch")
  }

  lemma SplitAtDot(left: string, right: string)
    requires '.' !in left
    ensures Index(left + "." + right, ".") == Some(|left|)
  {
    var s := left + "." + right;
    IndexFinds(s, ".");
    assert OccursAt(s, ".", |left|);
    var i := Index(s, ".").value;
    assert s[i..][0] == '.';
    assert forall k | 0 <= k < |left| :: s[k] == left[k] && left[k] in left;
  }

  /**
   What is accepted: a string is accepted with a body exactly when its first dot separates
   an encoding of the body from an encoding of the body's MAC under the secret.
   */
  lemma AcceptedExactly(mac: Mac, secret: seq<byte>, signed: string, body: seq<byte>)
    ensures Verify(mac, secret, signed) == Ok(body) <==>
            exists left: string, right: string ::
              && signed == left + "." + right && '.' !in left
              && DecodeBase64(left) == Ok(body) && DecodeBase64(right) == Ok(mac(secret, body))
  {
    if Verify(mac, secret, signed) == Ok(body) {
      DotIsPresent(signed);
      var left, right := CutAtDot(signed);
      VerifyParts(mac, secret, left, right);
    }
    if left: string, right: string :|
      && signed == left + "." + right && '.' !in left
      && DecodeBase64(left) == Ok(body) && DecodeBase64(right) == Ok(mac(secret, body))
    {
      VerifyParts(mac, secret, left, right);
    }
  }

  /** The check on the two decoded parts. */
  function Check(mac: Mac, secret: seq<byte>, body: Result<seq<byte>>, sig: Result<seq<byte>>): Result<seq<byte>> {
    if body.Err? then body
    else if sig.Err? then sig
    else if sig.value == mac(secret, body.value) then body
    else Err("cookie signature mismatch")
  }

  lemma VerifyParts(mac: Mac, secret: seq<byte>, left: string, right: string)
    requires '.' !in left
    ensures Verify(mac, secret, left + "." + right) == Check(mac, secret, DecodeBase64(left), DecodeBase64(right))
  {
    SplitAtDot(left, right);
    var signed := left + "." + right;
    assert signed[..|left|] == left && signed[|left| + 1..] == right;
  }

  /** Verifying a value that carries some signature: the body comes back exactly when that signature is its MAC. */
  lemma VerifyAssembled(mac: Mac, secret: seq<byte>, body: seq<byte>, sig: seq<byte>)
    ensures Verify(mac, secret, EncodeBase64(body) + "." + EncodeBase64(sig)) ==
            if sig == mac(secret, body) then Ok(body) else Err("cookie signature mismatch")
  {
    EncodedIsPlain(body);
    DecodeEncode(body);
    DecodeEncode(sig);
    VerifyParts(mac, secret, EncodeBase64(body), EncodeBase64(sig));
  }

  lemma NoDotIsMalformed(mac: Mac, secret: seq<byte>, signed: string)
    requires '.' !in signed
    ensures Verify(mac, secret, signed) == Err("malformed cookie")
  {
    AbsentChar(signed, '.');
    assert ['.'] == ".";
  }

  /** A signed body verifies, and the body comes back. */
  lemma VerifyUndoesSign(mac: Mac, secret: seq<byte>, body: seq<byte>)
    ensures Verify(mac, secret, Sign(mac, secret, body)) == Ok(body)
  {
    VerifyAssembled(mac, secret, body, mac(secret, body));
  }

  /** Under another secret it verifies exactly when the two MACs of the body agree. */
  lemma OtherSecret(mac: Mac, secret: seq<byte>, other: seq<byte>, body: seq<byte>)
    ensures Verify(mac, other, Sign(mac, secret, body)).Ok? <==> mac(secret, body) == mac(other, body)
  {
    VerifyAssembled(mac, other, body, mac(secret, body));
  }

  /** Signing distinguishes bodies, whatever the MAC. */
  lemma SignInjective(mac: Mac, secret: seq<byte>, a: seq<byte>, b: seq<byte>)
    ensures Sign(mac, secret, a) == Sign(mac, secret, b) <==> a == b
  {
    VerifyUndoesSign(mac, secret, a);
    VerifyUndoesSign(mac, secret, b);
  }

  // ---------- line breaks ----------

  lemma {:induction false} StripConcat(s: string, t: string)
    ensures WithoutLineBreaks(s + t) == WithoutLineBreaks(s) + WithoutLineBreaks(t)
  {
    if s == "" {
      assert s + t == t;
    } else {
      assert (s + t)[1..] == s[1..] + t;
      StripConcat(s[1..], t);
    }
  }

  lemma {:induction false} StripSubset(s: string)
    ensures forall c | c in WithoutLineBreaks(s) :: c in s && !IsLineBreak(c)
    ensures forall c | c in s && !IsLineBreak(c) :: c in WithoutLineBreaks(s)
  {
    if s != "" {
      StripSubset(s[1..]);
      assert forall c | c in s :: c == s[0] || c in s[1..];
    }
  }

  lemma DecodeIgnoresLineBreaks(s: string)
    ensures DecodeBase64(WithoutLineBreaks(s)) == DecodeBase64(s)
  {
    StripSubset(s);
    NothingToStrip(WithoutLineBreaks(s));
  }

  lemma DotIsPresent(s: string)
    ensures Index(s, ".").Some? <==> '.' in s
  {
    IndexFinds(s, ".");
    if Index(s, ".").Some? {
      assert s[Index(s, ".").value..][0] == '.';
    }
    if '.' in s {
      var i: nat :| i < |s| && s[i] == '.';
      assert OccursAt(s, ".", i);
    }
  }

  lemma CutAtDot(s: string) returns (left: string, right: string)
    requires '.' in s
    ensures s == left + "." + right && '.' !in left
  {
    DotIsPresent(s);
    FirstPartFree(s, ".");
    var i := Index(s, ".").value;
    left, right := s[..i], s[i + 1..];
    assert s[i..][0] == '.';
    DotIsPresent(left);
  }

  /** Line breaks anywhere in a cookie change nothing, so more than one string carries the same signed body. */
  lemma VerifyIgnoresLineBreaks(mac: Mac, secret: seq<byte>, signed: string)
    ensures Verify(mac, secret, WithoutLineBreaks(signed)) == Verify(mac, secret, signed)
  {
    StripSubset(signed);
    DotIsPresent(signed);
    DotIsPresent(WithoutLineBreaks(signed));
    if '.' in signed {
      var left, right := CutAtDot(signed);
      StripConcat(left + ".", right);
      StripConcat(left, ".");
      NothingToStrip(".");
      StripSubset(left);
      VerifyParts(mac, secret, left, right);
      VerifyParts(mac, secret, WithoutLineBreaks(left), WithoutLineBreaks(right));
      DecodeIgnoresLineBreaks(left);
      DecodeIgnoresLineBreaks(right);
    }
  }
}
