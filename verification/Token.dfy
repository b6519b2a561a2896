/** Tokens: base64 of a fixed header, of the claims and of a signature over both, joined by dots. */
module Token {
  import opened Text
  import opened Base64

  datatype Payload = Payload(userId: nat, username: string, exp: int)

  /** What verification makes of a token. A claim that should be a number and is not, or fits no machine word, is an
      exception. */
  datatype Verdict = Refused | Raised | Verified(payload: Payload)

  const HEADER := "{\"typ\":\"JWT\",\"alg\":\"HS256\"}"

  /** A keyed hash, secret first; all that is known of it is that it gives some bytes. */
  ghost predicate Keyed(hmac: (string, string) -> string) {
    forall k, m :: Bytes(hmac(k, m)) && hmac(k, m) != ""
  }

  function Claims(p: Payload): string { ShowInt(p.userId) + "|" + p.username + "|" + ShowInt(p.exp) }

  function SignedPart(p: Payload): string
    requires Bytes(p.username)
  {
    ClaimsBytes(p);
    HeaderBytes();
    Encode(HEADER) + "." + Encode(Claims(p))
  }

  lemma HeaderBytes()
    ensures Bytes(HEADER)
  {
  }

  lemma ClaimsBytes(p: Payload)
    requires Bytes(p.username)
    ensures Bytes(Claims(p))
  {
  }

  function Generate(hmac: (string, string) -> string, p: Payload, secret: string): string
    requires Bytes(p.username) && Bytes(hmac(secret, SignedPart(p)))
  {
    SignedPart(p) + "." + Encode(hmac(secret, SignedPart(p)))
  }

  /** Lines up to `c`; nothing after the last one. */
  function Split(s: string, c: char): seq<string>
    decreases |s|
  {
    if s == "" then []
    else
      var n := Find(s, c);
      if n < |s| then [s[..n]] + Split(s[n + 1..], c) else [s]
  }

  /** One line off a stream; reading at its end fails. */
  datatype Line = NoLine | Line(field: string, rest: string)

  function GetLine(s: string, c: char): Line {
    if s == "" then NoLine
    else
      var n := Find(s, c);
      if n < |s| then Line(s[..n], s[n + 1..]) else Line(s, "")
  }

  /** Numbers that fit no machine word raise an exception; a negative id wraps. */
  function Checked(id: Option<int>, username: string, exp: Option<int>): Verdict
    requires id.Some? ==> id.value >= 0
  {
    match (id, exp)
    case (Some(i), Some(e)) => Verified(Payload(i, username, e))
    case _ => Raised
  }

  function ParseClaims(s: string): Verdict {
    var l1 := GetLine(s, '|');
    if l1.NoLine? then Refused
    else
      var l2 := GetLine(l1.rest, '|');
      if l2.NoLine? then Refused
      else
        var l3 := GetLine(l2.rest, '|');
        if l3.NoLine? then Refused
        else
          match (ParseInt(l1.field), ParseInt(l3.field))
          case (Some(id), Some(exp)) => Checked(Fitted(Wide, id), l2.field, Fitted(Signed, exp))
          case _ => Raised
  }

  predicate Expired(p: Payload, now: int) { p.exp < now }

  function Verify(hmac: (string, string) -> string, token: string, secret: string, now: int): Verdict
    requires forall m :: Bytes(hmac(secret, m))
  {
    var parts := Split(token, '.');
    if |parts| != 3 then Refused
    else if parts[2] != Encode(hmac(secret, parts[0] + "." + parts[1])) then Refused
    else
      var v := ParseClaims(Decode(parts[1]));
      if v.Verified? && Expired(v.payload, now) then Refused else v
  }

  // ---- Splitting --------------------------------------------------------------------------

  lemma SplitOne(s: string, c: char)
    requires s != "" && forall i :: 0 <= i < |s| ==> s[i] != c
    ensures Split(s, c) == [s]
  {
    FindAt(s, c, |s|);
  }

  lemma SplitMore(t: string, rest: string, c: char)
    requires forall i :: 0 <= i < |t| ==> t[i] != c
    ensures Split(t + [c] + rest, c) == [t] + Split(rest, c)
  {
    var s := t + [c] + rest;
    FindAt(s, c, |t|);
    assert s[..|t|] == t && s[|t| + 1..] == rest;
  }

  lemma LineMore(t: string, rest: string, c: char)
    requires forall i :: 0 <= i < |t| ==> t[i] != c
    ensures GetLine(t + [c] + rest, c) == Line(t, rest)
  {
    var s := t + [c] + rest;
    FindAt(s, c, |t|);
    assert s[..|t|] == t && s[|t| + 1..] == rest;
  }

  lemma LineLast(t: string, c: char)
    requires t != "" && forall i :: 0 <= i < |t| ==> t[i] != c
    ensures GetLine(t, c) == Line(t, "")
  {
    FindAt(t, c, |t|);
  }

  /** A token splits into the three parts it was made of. */
  lemma TokenSplits(h: string, c: string, s: string)
    requires Bytes(h) && Bytes(c) && Bytes(s) && s != ""
    ensures Split(Encode(h) + "." + Encode(c) + "." + Encode(s), '.') == [Encode(h), Encode(c), Encode(s)]
  {
    EncodedAlphabet(h);
    EncodedAlphabet(c);
    EncodedAlphabet(s);
    EncodedLength(s);
    SplitOne(Encode(s), '.');
    SplitMore(Encode(c), Encode(s), '.');
    assert Encode(h) + "." + (Encode(c) + "." + Encode(s)) == Encode(h) + "." + Encode(c) + "." + Encode(s);
    SplitMore(Encode(h), Encode(c) + "." + Encode(s), '.');
  }

  // ---- Claims -----------------------------------------------------------------------------

  predicate NoBar(s: string) { forall i :: 0 <= i < |s| ==> s[i] != '|' }

  lemma FirstLine(p: Payload)
    ensures GetLine(Claims(p), '|') == Line(ShowInt(p.userId), p.username + "|" + ShowInt(p.exp))
    ensures ParseInt(ShowInt(p.userId)) == Some(p.userId)
  {
    ShownHasNo(p.userId, '|');
    ParseShow(p.userId);
    var rest := p.username + "|" + ShowInt(p.exp);
    assert Claims(p) == ShowInt(p.userId) + "|" + rest;
    LineMore(ShowInt(p.userId), rest, '|');
  }

  /** The numbers are of the types of their fields. */
  predicate InWords(p: Payload) { Fits(Wide, p.userId) && Fits(Signed, p.exp) }

  /** Claims are read back exactly when the name holds no bar and the numbers are machine words. */
  lemma ClaimsBack(p: Payload)
    ensures ParseClaims(Claims(p)) == Verified(p) <==> NoBar(p.username) && InWords(p)
  {
    FirstLine(p);
    var rest := p.username + "|" + ShowInt(p.exp);
    if NoBar(p.username) {
      LineMore(p.username, ShowInt(p.exp), '|');
      ShownHasNo(p.exp, '|');
      ParseShow(p.exp);
      LineLast(ShowInt(p.exp), '|');
    } else {
      BarCutsName(p.username, ShowInt(p.exp));
    }
  }

  /** A bar in the name ends the name's field early. */
  lemma BarCutsName(name: string, exp: string)
    requires !NoBar(name)
    ensures GetLine(name + "|" + exp, '|').Line? && GetLine(name + "|" + exp, '|').field != name
  {
    var s := name + "|" + exp;
    var i :| 0 <= i < |name| && name[i] == '|';
    assert s[i] == '|';
    assert Find(s, '|') <= i;
  }

  /** A generated token is verified, and gives back what it was made of, exactly when the name holds no
      bar, the numbers are machine words and it has not expired. */
  lemma TokenRoundTrip(hmac: (string, string) -> string, p: Payload, secret: string, now: int)
    requires Keyed(hmac) && Bytes(p.username)
    ensures Verify(hmac, Generate(hmac, p, secret), secret, now) == Verified(p)
       <==> NoBar(p.username) && InWords(p) && p.exp >= now
  {
    var signature := hmac(secret, SignedPart(p));
    HeaderBytes();
    ClaimsBytes(p);
    TokenSplits(HEADER, Claims(p), signature);
    DecodeEncode(Claims(p));
    ClaimsBack(p);
  }

  /** A token with any other signature is refused. */
  lemma OtherSignatureRefused(hmac: (string, string) -> string, p: Payload, secret: string, now: int, other: string)
    requires Keyed(hmac) && Bytes(p.username) && Bytes(other) && other != "" && other != hmac(secret, SignedPart(p))
    ensures Verify(hmac, SignedPart(p) + "." + Encode(other), secret, now) == Refused
  {
    HeaderBytes();
    ClaimsBytes(p);
    TokenSplits(HEADER, Claims(p), other);
    DecodeEncode(other);
    DecodeEncode(hmac(secret, SignedPart(p)));
  }

  /** A generated token, spelt out: header, claims with bars between, signature over both. */
  lemma TokenText(hmac: (string, string) -> string, p: Payload, secret: string)
    requires Keyed(hmac) && Bytes(p.username)
    ensures var header, claims :=
      "{\"typ\":\"JWT\",\"alg\":\"HS256\"}", ShowInt(p.userId) + "|" + p.username + "|" + ShowInt(p.exp);
      && Bytes(header) && Bytes(claims)
      && var signed := Encode(header) + "." + Encode(claims);
         Generate(hmac, p, secret) == signed + "." + Encode(hmac(secret, signed))
  {
    HeaderBytes();
    ClaimsBytes(p);
  }

  /** A token is verified exactly when it has three parts, the third of them the signature over the first two, and
      the second holds claims that can be read and have not expired. */
  lemma VerifiedTells(hmac: (string, string) -> string, token: string, secret: string, now: int)
    requires Keyed(hmac)
    ensures var v, parts := Verify(hmac, token, secret, now), Split(token, '.');
      v.Verified? <==>
        && |parts| == 3 && parts[2] == Encode(hmac(secret, parts[0] + "." + parts[1]))
        && ParseClaims(Decode(parts[1])).Verified? && ParseClaims(Decode(parts[1])).payload.exp >= now
    ensures var v, parts := Verify(hmac, token, secret, now), Split(token, '.');
      v.Verified? ==> |parts| == 3 && v == ParseClaims(Decode(parts[1]))
  {
  }

  // ---- Verification as the program runs it ---------------------------------------------------

  lemma PartsMore(parts: seq<string>, part: string, rest: seq<string>)
    ensures parts + ([part] + rest) == parts + [part] + rest
  {
  }

  /** What reading one part adds. */
  lemma {:induction false} SplitStep(parts: seq<string>, s: string, c: char, n: nat)
    requires s != "" && n == Find(s, c)
    ensures n < |s| ==> parts + [s[..n]] + Split(s[n + 1..], c) == parts + Split(s, c)
    ensures n == |s| ==> parts + [s] == parts + Split(s, c)
  {
    if n < |s| { PartsMore(parts, s[..n], Split(s[n + 1..], c)); }
  }

  method SplitParts(token: string) returns (parts: seq<string>)
    ensures parts == Split(token, '.')
  {
    parts := [];
    var rest := token;
    while rest != ""
      invariant parts + Split(rest, '.') == Split(token, '.')
      decreases |rest|
    {
      var n := Find(rest, '.');
      SplitStep(parts, rest, '.', n);
      if n < |rest| {
        parts, rest := parts + [rest[..n]], rest[n + 1..];
      } else {
        parts, rest := parts + [rest], "";
        assert parts + [] == parts;
      }
    }
  }

  /** `ok` with the payload filled in, or why not. */
  method VerifyToken(hmac: (string, string) -> string, token: string, secret: string, now: int)
      returns (verdict: Verdict)
    requires Keyed(hmac)
    ensures verdict == Verify(hmac, token, secret, now)
  {
    var parts := SplitParts(token);
    if |parts| != 3 {
      return Refused;
    }
    var expected := Base64Encode(hmac(secret, parts[0] + "." + parts[1]));
    if parts[2] != expected {
      return Refused;
    }
    var claims := Base64Decode(parts[1]);
    verdict := ParseClaims(claims);
    if verdict.Verified? && Expired(verdict.payload, now) {
      verdict := Refused;
    }
  }
}
