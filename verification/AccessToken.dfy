/**
  The access token: printed by the identity service, read by the gateway.

  The compact form is that of section 3.1 of RFC 7515, and `exp` is a
  NumericDate, section 4.1.4 of RFC 7519: whole seconds. The MAC is any
  function of the signing input; `mac` stands for HMAC-SHA256 under one secret.
 */
module AccessToken {
  import opened Prelude
  import opened Decimal
  import Base64Url
  import Text
  import Json

  type Mac = string -> seq<Base64Url.Byte>

  datatype Claims = Claims(userId: IdText, sessionId: IdText, issuedAt: int, expiresAt: int)

  datatype Verified = Verified(userId: string, sessionId: string, expiresAt: int)

  /** The verifier gives no reasons: all refusals are this one value. */
  datatype InvalidAccessToken = InvalidAccessToken

  // ----- The issuer -----------------------------------------------------------------------------------

  predicate IsAscii(s: string) {
    forall i :: 0 <= i < |s| ==> s[i] as int < 128
  }

  /** UTF-8 of ASCII text. */
  function AsciiBytes(s: string): seq<Base64Url.Byte>
    requires IsAscii(s)
  {
    seq(|s|, i requires 0 <= i < |s| && s[i] as int < 128 => s[i] as int)
  }

  function HeaderFields(algorithm: string, tokenType: string): seq<Json.Field> {
    [Json.Field("alg", Json.Text(algorithm)), Json.Field("typ", Json.Text(tokenType))]
  }

  /** Milliseconds to a NumericDate, rounding down. */
  function ToNumericDate(ms: int): int {
    ms / 1000
  }

  function PayloadFields(claims: Claims): seq<Json.Field> {
    [Json.Field("sub", Json.Text(claims.userId)),
     Json.Field("sid", Json.Text(claims.sessionId)),
     Json.Field("iat", Json.Number(ToNumericDate(claims.issuedAt))),
     Json.Field("exp", Json.Number(ToNumericDate(claims.expiresAt)))]
  }

  /** Fit to be a segment of the compact form and a part of the header. */
  predicate IsSegment(s: string) {
    '.' !in s && ' ' !in s
  }

  type Segment = s: string | IsSegment(s) witness ""

  function EncodeObject(fields: seq<Json.Field>): Segment
    requires fields != [] && forall i :: 0 <= i < |fields| ==> Json.IsPlainField(fields[i])
  {
    PrintedIsAscii(fields);
    Base64Url.Encode(AsciiBytes(Json.PrintObject(fields)))
  }

  function Sign(mac: Mac, signingInput: string): Segment {
    Base64Url.Encode(mac(signingInput))
  }

  lemma HeaderIsPlain(algorithm: string, tokenType: string)
    requires Json.IsPlainText(algorithm) && Json.IsPlainText(tokenType)
    ensures forall f :: f in HeaderFields(algorithm, tokenType) ==> Json.IsPlainField(f)
  {
  }

  function EncodeHeader(algorithm: string, tokenType: string): Segment
    requires Json.IsPlainText(algorithm) && Json.IsPlainText(tokenType)
  {
    HeaderIsPlain(algorithm, tokenType);
    EncodeObject(HeaderFields(algorithm, tokenType))
  }

  /** Fixed: the issuer signs HS256 and nothing else. */
  function HeaderSegment(): Segment {
    EncodeHeader("HS256", "JWT")
  }

  function PayloadSegment(claims: Claims): Segment {
    PayloadIsPlain(claims);
    EncodeObject(PayloadFields(claims))
  }

  function Compact(mac: Mac, header: string, payload: string): string {
    header + "." + payload + "." + Sign(mac, header + "." + payload)
  }

  function Issue(mac: Mac, claims: Claims): string {
    Compact(mac, HeaderSegment(), PayloadSegment(claims))
  }

  lemma PrintedIsAscii(fields: seq<Json.Field>)
    requires fields != [] && forall i :: 0 <= i < |fields| ==> Json.IsPlainField(fields[i])
    ensures IsAscii(Json.PrintObject(fields))
  {
    Json.FieldsArePrintable(fields);
    var s := Json.PrintObject(fields);
    forall i | 0 <= i < |s|
      ensures s[i] as int < 128
    {
      assert i > 0 ==> s[i] in Json.PrintFields(fields);
    }
  }

  lemma PayloadIsPlain(claims: Claims)
    ensures forall f :: f in PayloadFields(claims) ==> Json.IsPlainField(f)
  {
  }

  // ----- The verifier ---------------------------------------------------------------------------------

  /** Bytes that are not ASCII are refused; the gateway decodes them as UTF-8. */
  function AsciiText(bytes: seq<Base64Url.Byte>): Option<string> {
    if forall i :: 0 <= i < |bytes| ==> bytes[i] < 128 then
      Some(seq(|bytes|, i requires 0 <= i < |bytes| && bytes[i] < 128 => bytes[i] as char))
    else
      None
  }

  function DecodeObject(segment: string): Option<map<string, Json.Value>> {
    match Base64Url.Decode(segment)
    case None => None
    case Some(bytes) =>
      match AsciiText(bytes)
      case None => None
      case Some(text) => Json.ParseObject(text)
  }

  predicate HeaderAccepted(header: map<string, Json.Value>) {
    && "alg" in header && header["alg"] == Json.Text("HS256")
    && "typ" in header && header["typ"] == Json.Text("JWT")
  }

  function ReadClaims(payload: map<string, Json.Value>, now: int): Result<Verified, InvalidAccessToken> {
    if "sub" !in payload || "sid" !in payload || "exp" !in payload
       || !payload["sub"].Text? || !payload["sid"].Text? || !payload["exp"].Number? then
      Err(InvalidAccessToken)
    else
      var expiresAt := payload["exp"].number * 1000;
      if now >= expiresAt then Err(InvalidAccessToken)
      else Ok(Verified(payload["sub"].text, payload["sid"].text, expiresAt))
  }

  function Verify(mac: Mac, token: string, now: int): Result<Verified, InvalidAccessToken> {
    var segments := Text.Split(token, ".");
    if |segments| != 3 || segments[2] != Sign(mac, segments[0] + "." + segments[1]) then Err(InvalidAccessToken)
    else
      match DecodeObject(segments[0])
      case None => Err(InvalidAccessToken)
      case Some(header) =>
        if !HeaderAccepted(header) then Err(InvalidAccessToken)
        else
          match DecodeObject(segments[1])
          case None => Err(InvalidAccessToken)
          case Some(payload) => ReadClaims(payload, now)
  }

  // ----- The bearer header ----------------------------------------------------------------------------

  function ToLower(s: string): string {
    seq(|s|, i requires 0 <= i < |s| => if 'A' <= s[i] <= 'Z' then (s[i] as int + 32) as char else s[i])
  }

  /** Exactly two space-separated parts, the first of them `Bearer` in any case. */
  function ReadBearerToken(header: Option<string>): Option<string> {
    if header.None? then None
    else
      var parts := Text.Split(header.value, " ");
      if |parts| != 2 || ToLower(parts[0]) != "bearer" || parts[1] == "" then None else Some(parts[1])
  }

  function Authenticate(mac: Mac, header: Option<string>, now: int): Result<Verified, InvalidAccessToken> {
    match ReadBearerToken(header)
    case None => Err(InvalidAccessToken)
    case Some(token) => Verify(mac, token, now)
  }

  // ----- What is printed is what is read --------------------------------------------------------------

  lemma AsciiRoundTrip(s: string)
    requires IsAscii(s)
    ensures AsciiText(AsciiBytes(s)) == Some(s)
  {
    var bytes := AsciiBytes(s);
    assert AsciiText(bytes).value == s;
  }

  lemma ObjectSurvivesEncoding(fields: seq<Json.Field>)
    requires fields != [] && forall i :: 0 <= i < |fields| ==> Json.IsPlainField(fields[i])
    ensures DecodeObject(EncodeObject(fields)) == Some(Json.ToMap(fields, map[]))
  {
    PrintedIsAscii(fields);
    Base64Url.RoundTrip(AsciiBytes(Json.PrintObject(fields)));
    AsciiRoundTrip(Json.PrintObject(fields));
    Json.ObjectRoundTrip(fields);
  }

  /** The last moment, exclusive, at which a token with these claims is live: its expiry in whole seconds. */
  function LiveUntil(claims: Claims): (t: int)
    ensures claims.expiresAt - 999 <= t <= claims.expiresAt && t % 1000 == 0
  {
    1000 * (claims.expiresAt / 1000)
  }

  function Expected(claims: Claims, now: int): Result<Verified, InvalidAccessToken> {
    if now < LiveUntil(claims) then Ok(Verified(claims.userId, claims.sessionId, LiveUntil(claims))) else Err(InvalidAccessToken)
  }

  lemma EncodedHeaderSurvives(algorithm: string, tokenType: string)
    requires Json.IsPlainText(algorithm) && Json.IsPlainText(tokenType)
    ensures DecodeObject(EncodeHeader(algorithm, tokenType)) ==
            Some(map["alg" := Json.Text(algorithm), "typ" := Json.Text(tokenType)])
  {
    var fields := HeaderFields(algorithm, tokenType);
    var header := map["alg" := Json.Text(algorithm)]["typ" := Json.Text(tokenType)];
    HeaderIsPlain(algorithm, tokenType);
    ObjectSurvivesEncoding(fields);
    assert Json.ToMap(fields, map[]) == Json.ToMap(fields[1..][1..], header) == header;
  }

  lemma OurHeaderSurvives(algorithm: string, tokenType: string)
    requires Json.IsPlainText(algorithm) && Json.IsPlainText(tokenType) && algorithm == "HS256" && tokenType == "JWT"
    ensures var header := DecodeObject(EncodeHeader(algorithm, tokenType)); header.Some? && HeaderAccepted(header.value)
  {
    EncodedHeaderSurvives(algorithm, tokenType);
  }

  lemma HeaderSurvives()
    ensures DecodeObject(HeaderSegment()).Some? && HeaderAccepted(DecodeObject(HeaderSegment()).value)
  {
    OurHeaderSurvives("HS256", "JWT");
  }

  function PayloadMap(claims: Claims): map<string, Json.Value> {
    map["sub" := Json.Text(claims.userId),
        "sid" := Json.Text(claims.sessionId),
        "iat" := Json.Number(ToNumericDate(claims.issuedAt)),
        "exp" := Json.Number(ToNumericDate(claims.expiresAt))]
  }

  lemma PayloadFieldsMap(claims: Claims)
    ensures Json.ToMap(PayloadFields(claims), map[]) == PayloadMap(claims)
  {
    var fields := PayloadFields(claims);
    var m2 := map["sub" := Json.Text(claims.userId)]["sid" := Json.Text(claims.sessionId)];
    assert Json.ToMap(fields, map[]) == Json.ToMap(fields[1..][1..], m2);
    assert Json.ToMap(fields[1..][1..][1..][1..], PayloadMap(claims)) == PayloadMap(claims);
  }

  lemma PayloadSurvives(claims: Claims)
    ensures DecodeObject(PayloadSegment(claims)) == Some(PayloadMap(claims))
  {
    PayloadIsPlain(claims);
    ObjectSurvivesEncoding(PayloadFields(claims));
    PayloadFieldsMap(claims);
  }

  lemma ClaimsAreRead(claims: Claims, now: int)
    ensures ReadClaims(PayloadMap(claims), now) == Expected(claims, now)
  {
  }

  /** The compact form splits back into the three segments it was joined from. */
  lemma CompactFormSplits(mac: Mac, h: string, p: string)
    requires IsSegment(h) && IsSegment(p)
    ensures Text.Split(Compact(mac, h, p), ".") == [h, p, Sign(mac, h + "." + p)]
    ensures ' ' !in Compact(mac, h, p) && Compact(mac, h, p) != ""
  {
    var sig := Sign(mac, h + "." + p);
    var rest := p + "." + sig;
    assert Compact(mac, h, p) == h + ['.'] + rest && rest == p + ['.'] + sig;
    Text.SplitFirst(h, '.', rest);
    Text.SplitFirst(p, '.', sig);
    Text.SplitNothing(sig, '.');
  }

  lemma VerifyInParts(mac: Mac, h: string, p: string, now: int)
    requires IsSegment(h) && IsSegment(p)
    ensures Verify(mac, Compact(mac, h, p), now)
         == if DecodeObject(h).Some? && HeaderAccepted(DecodeObject(h).value) && DecodeObject(p).Some?
            then ReadClaims(DecodeObject(p).value, now) else Err(InvalidAccessToken)
  {
    CompactFormSplits(mac, h, p);
  }

  /** The object has this field with this value. */
  predicate Says(fields: map<string, Json.Value>, name: string, value: Json.Value) {
    name in fields && fields[name] == value
  }

  predicate NamesOurAlgorithm(header: map<string, Json.Value>) {
    Says(header, "alg", Json.Text("HS256")) && Says(header, "typ", Json.Text("JWT"))
  }

  /** Its `sub` and `sid` are the two ids, its `exp` is the expiry in seconds. */
  predicate Claim(payload: map<string, Json.Value>, v: Verified) {
    && Says(payload, "sub", Json.Text(v.userId)) && Says(payload, "sid", Json.Text(v.sessionId))
    && v.expiresAt % 1000 == 0 && Says(payload, "exp", Json.Number(v.expiresAt / 1000))
  }

  lemma HeaderIsOurs(header: map<string, Json.Value>)
    ensures HeaderAccepted(header) == NamesOurAlgorithm(header)
  {
  }

  lemma ClaimsAreLive(payload: map<string, Json.Value>, now: int, v: Verified)
    ensures (ReadClaims(payload, now) == Ok(v)) == (Claim(payload, v) && now < v.expiresAt)
  {
  }

  /** A signed token is accepted exactly when its header names HS256 and JWT and its payload makes live claims. */
  lemma SignedTokenVerifies(mac: Mac, h: string, p: string, now: int, v: Verified)
    requires IsSegment(h) && IsSegment(p)
    ensures Verify(mac, Compact(mac, h, p), now) == Ok(v)
       <==> && DecodeObject(h).Some? && NamesOurAlgorithm(DecodeObject(h).value)
            && DecodeObject(p).Some? && Claim(DecodeObject(p).value, v) && now < v.expiresAt
  {
    VerifyInParts(mac, h, p, now);
    if DecodeObject(h).Some? {
      HeaderIsOurs(DecodeObject(h).value);
    }
    if DecodeObject(p).Some? {
      ClaimsAreLive(DecodeObject(p).value, now, v);
    }
  }

  /**
    A token is accepted under the secret that signed it exactly until the
    whole second its expiry falls in begins, and says what was claimed.
   */
  lemma IssuedTokenVerifies(mac: Mac, claims: Claims, now: int)
    ensures Verify(mac, Issue(mac, claims), now) == Expected(claims, now)
  {
    HeaderSurvives();
    PayloadSurvives(claims);
    ClaimsAreRead(claims, now);
    VerifyInParts(mac, HeaderSegment(), PayloadSegment(claims), now);
  }

  /** The word `bearer`, each letter small or capital. */
  predicate SpellsBearer(scheme: string) {
    |scheme| == 6 && forall i :: 0 <= i < 6 ==> scheme[i] == "bearer"[i] || scheme[i] == "BEARER"[i]
  }

  lemma LowersToBearer(scheme: string)
    ensures ToLower(scheme) == "bearer" <==> SpellsBearer(scheme)
  {
    if |scheme| == 6 {
      forall i | 0 <= i < 6
        ensures ToLower(scheme)[i] == "bearer"[i] <==> scheme[i] == "bearer"[i] || scheme[i] == "BEARER"[i]
      {
        assert i == 0 || i == 1 || i == 2 || i == 3 || i == 4 || i == 5;
      }
      assert ToLower(scheme) == "bearer" <==> forall i :: 0 <= i < 6 ==> ToLower(scheme)[i] == "bearer"[i];
    }
  }

  /** At `t` the token of these claims speaks for exactly these ids, or is over. */
  predicate IsGoodAt(mac: Mac, claims: Claims, userId: string, sessionId: string, end: int, t: int) {
    Verify(mac, Issue(mac, claims), t) == if t < end then Ok(Verified(userId, sessionId, end)) else Err(InvalidAccessToken)
  }

  /** Whatever the secret, it does so exactly until the whole second of `expiresAt`. */
  ghost predicate IsGoodFor(claims: Claims, userId: string, sessionId: string, expiresAt: int) {
    forall mac, t :: IsGoodAt(mac, claims, userId, sessionId, 1000 * (expiresAt / 1000), t)
  }

  lemma IssuedIsGoodAt(mac: Mac, claims: Claims, t: int)
    ensures IsGoodAt(mac, claims, claims.userId, claims.sessionId, 1000 * (claims.expiresAt / 1000), t)
  {
    IssuedTokenVerifies(mac, claims, t);
  }

  lemma IssuedIsGood(claims: Claims)
    ensures IsGoodFor(claims, claims.userId, claims.sessionId, claims.expiresAt)
  {
    forall mac, t
      ensures IsGoodAt(mac, claims, claims.userId, claims.sessionId, 1000 * (claims.expiresAt / 1000), t)
    {
      IssuedIsGoodAt(mac, claims, t);
    }
  }

  lemma BearerInParts(scheme: string, token: string)
    requires SpellsBearer(scheme) && ' ' !in token && token != ""
    ensures ReadBearerToken(Some(scheme + " " + token)) == Some(token)
  {
    LowersToBearer(scheme);
    forall i | 0 <= i < |scheme|
      ensures scheme[i] != ' '
    {
      assert i == 0 || i == 1 || i == 2 || i == 3 || i == 4 || i == 5;
    }
    assert scheme + " " + token == scheme + [' '] + token;
    Text.SplitFirst(scheme, ' ', token);
    Text.SplitNothing(token, ' ');
  }

  /** As every client sends it. */
  lemma BearerIsRead(token: string)
    requires token != "" && ' ' !in token
    ensures ReadBearerToken(Some("Bearer " + token)) == Some(token)
  {
    assert "Bearer " + token == "Bearer" + " " + token;
    BearerInParts("Bearer", token);
  }

  /** The header is read exactly when it is the scheme, one space and a token without spaces. */
  lemma BearerIsReadExactlyWhen(header: string, token: string)
    ensures ReadBearerToken(Some(header)) == Some(token)
       <==> token != "" && ' ' !in token
            && exists scheme :: SpellsBearer(scheme) && header == scheme + " " + token
  {
    if ReadBearerToken(Some(header)) == Some(token) {
      var parts := Text.Split(header, " ");
      Text.JoinSplit(header, " ");
      Text.PartsHaveNoSeparator(header, ' ');
      LowersToBearer(parts[0]);
      assert parts[1] in parts && parts[1..] == [parts[1]];
      assert header == parts[0] + " " + token;
    }
    forall scheme | SpellsBearer(scheme) && header == scheme + " " + token && token != "" && ' ' !in token
      ensures ReadBearerToken(Some(header)) == Some(token)
    {
      BearerInParts(scheme, token);
    }
  }

  /** Issuer, header and verifier agree, however the scheme is capitalised. */
  lemma BearerRoundTrip(mac: Mac, claims: Claims, scheme: string, now: int)
    requires SpellsBearer(scheme)
    ensures Authenticate(mac, Some(scheme + " " + Issue(mac, claims)), now) == Expected(claims, now)
  {
    CompactFormSplits(mac, HeaderSegment(), PayloadSegment(claims));
    BearerInParts(scheme, Issue(mac, claims));
    IssuedTokenVerifies(mac, claims, now);
  }

  lemma JoinThree(a: string, b: string, c: string)
    ensures Text.Join([a, b, c], ".") == a + "." + b + "." + c
  {
    assert [a, b, c][1..] == [b, c] && [b, c][1..] == [c];
    assert Text.Join([b, c], ".") == b + "." + c;
    assert a + "." + (b + "." + c) == a + "." + b + "." + c;
  }

  /** Only text signed under the verifier's own secret is ever accepted, and never at or past its expiry. */
  lemma OnlySignedTokensVerify(mac: Mac, token: string, now: int)
    ensures Verify(mac, token, now).Ok? ==>
              && now < Verify(mac, token, now).value.expiresAt
              && exists header, payload :: token == Compact(mac, header, payload)
  {
    if Verify(mac, token, now).Ok? {
      var segments := Text.Split(token, ".");
      Text.JoinSplit(token, ".");
      assert segments == [segments[0], segments[1], segments[2]];
      JoinThree(segments[0], segments[1], segments[2]);
      assert token == Compact(mac, segments[0], segments[1]);
    }
  }

  /** A verifier whose secret gives another MAC refuses the token. */
  lemma OtherSecretRefuses(mac: Mac, other: Mac, header: Segment, payload: Segment, now: int)
    requires mac(header + "." + payload) != other(header + "." + payload)
    ensures Verify(other, Compact(mac, header, payload), now) == Err(InvalidAccessToken)
  {
    CompactFormSplits(mac, header, payload);
    Base64Url.RoundTrip(mac(header + "." + payload));
    Base64Url.RoundTrip(other(header + "." + payload));
  }
}
