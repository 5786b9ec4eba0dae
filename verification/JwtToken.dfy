/**
 The HS256 tokens of server/auth-jwt.js: `createHs256Jwt` and `verifyJwtAuthToken`.

 JSON, UTF-8, HMAC-SHA256 and SHA-256 are uninterpreted (`Codec`); the base64url text, the splitting and the claim
 checks are the code's.
 */
module JwtToken {
  import opened Common
  import opened JsText
  import opened Base64Url

  datatype Json =
    | Null | Bool(flag: bool) | Num(number: real) | Str(text: string) | Arr(items: seq<Json>)
    | Obj(fields: map<string, Json>)

  /** A JavaScript value: None is undefined. */
  type Value = Option<Json>

  datatype Number = NotANumber | MinusInfinity | Finite(value: real) | PlusInfinity

  /**
   `show` is String(x) for what is neither text, null nor undefined; `toNumber` is Number(x). `parse` and `decodeText`
   take any text and any bytes.
   */
  datatype Codec = Codec(
    stringify: Json -> string, parse: string -> Option<Json>,
    encodeText: string -> Bytes, decodeText: Bytes -> string,
    hmac: (string, string) -> Bytes, sha256Hex: string -> string,
    show: Json -> string, toNumber: Json -> Number)

  /** JSON writes this value and reads it back, and its text survives UTF-8. */
  ghost predicate Travels(c: Codec, j: Json) {
    var text := c.stringify(j);
    c.parse(text) == Some(j) && c.encodeText(text) != [] && c.decodeText(c.encodeText(text)) == text
  }

  /** HMAC-SHA256 gives 32 bytes, whatever it signs. */
  ghost predicate MacsHaveLength(c: Codec) {
    forall input, secret :: |c.hmac(input, secret)| == 32
  }

  /** `normalizeTrimmedText`. */
  function Text(c: Codec, v: Value): string {
    match v
    case None => ""
    case Some(Null) => ""
    case Some(Str(t)) => Trim(t)
    case Some(j) => Trim(c.show(j))
  }

  datatype Config = Config(
    secret: string, issuer: string, audience: string, now: real,
    userClaim: string, workspaceClaim: string, workspacesClaim: string, rolesClaim: string, permissionsClaim: string,
    revokedHashes: Value, revokedIds: Value)

  datatype Claims = Claims(
    userId: string, workspaceId: string, issuer: string, jwtId: string, subject: string, tokenHash: string,
    workspaces: Value, roles: Value, permissions: Value)

  datatype Reason =
    | NoSecret | Format | Header | Payload | Algorithm | Signature
    | Issuer | Audience | Expired | NotActive | HashRevoked | IdRevoked | NoUser

  /** `NotAnObject`: reading a field of null raises a TypeError. */
  datatype Verdict = Accepted(claims: Claims) | Refused(reason: Reason) | NotAnObject

  // ---- reading claims

  /** `payload.name`; a value without fields has none. Prototype members are not part of this model. */
  function Get(j: Json, name: string): Value {
    if j.Obj? && name in j.fields then Some(j.fields[name]) else None
  }

  function Walk(v: Value, keys: seq<string>): Value
    decreases |keys|
  {
    if keys == [] then v
    else Walk(if v.None? then None else Get(v.value, keys[0]), keys[1..])
  }

  /** `getClaimByPath`, for objects along the path. */
  function Claim(payload: Json, path: string): Value {
    if Trim(path) == "" then None else Walk(Some(payload), Split(Trim(path), '.'))
  }

  function StrItems(ts: seq<string>): seq<Json> {
    if ts == [] then [] else [Str(ts[0])] + StrItems(ts[1..])
  }

  /** `toList`. */
  function ToList(v: Value): seq<Json> {
    match v
    case None => []
    case Some(Null) => []
    case Some(Arr(items)) => items
    case Some(Str(t)) => if Trim(t) != "" then StrItems(Split(t, ',')) else [Str(t)]
    case Some(j) => [j]
  }

  function Texts(c: Codec, items: seq<Json>): seq<string> {
    if items == [] then [] else [Text(c, Some(items[0]))] + Texts(c, items[1..])
  }

  /** Membership in `toSet(list)`. */
  predicate InSet(c: Codec, v: Value, t: string) {
    t != "" && t in Texts(c, ToList(v))
  }

  predicate HasAudience(c: Codec, aud: Value, expected: string) {
    Trim(expected) == "" || Trim(expected) in Texts(c, ToList(aud))
  }

  predicate Truthy(v: Value) {
    v.Some? && !v.value.Null? && v.value != Bool(false) && v.value != Num(0.0) && v.value != Str("")
  }

  /** `n <= now`; what is no number never compares. */
  predicate AtMost(n: Number, now: real) {
    n.MinusInfinity? || (n.Finite? && n.value <= now)
  }

  /** `n > now`. */
  predicate Above(n: Number, now: real) {
    n.PlusInfinity? || (n.Finite? && n.value > now)
  }

  predicate IsExpired(c: Codec, payload: Json, now: real) {
    var exp := Get(payload, "exp");
    exp.Some? && AtMost(c.toNumber(exp.value), now)
  }

  predicate IsNotYetActive(c: Codec, payload: Json, now: real) {
    var nbf := Get(payload, "nbf");
    nbf.Some? && Above(c.toNumber(nbf.value), now)
  }

  // ---- the token

  function Sign(c: Codec, input: string, secret: string): string {
    Encode(c.hmac(input, secret))
  }

  function Part(c: Codec, j: Json): string {
    Encode(c.encodeText(c.stringify(j)))
  }

  /** The caller's header fields override the defaults. */
  function FullHeader(header: map<string, Json>): Json {
    Obj(map["alg" := Str("HS256"), "typ" := Str("JWT")] + header)
  }

  function SigningInput(c: Codec, header: map<string, Json>, payload: Json): string {
    Part(c, FullHeader(header)) + "." + Part(c, payload)
  }

  /** `createHs256Jwt`. */
  function Create(c: Codec, header: map<string, Json>, payload: Json, secret: string): string {
    SigningInput(c, header, payload) + "." + Sign(c, SigningInput(c, header, payload), secret)
  }

  /** `base64UrlDecode` and JSON.parse. */
  function ParsePart(c: Codec, t: string): Option<Json> {
    c.parse(c.decodeText(Decode(Trim(t))))
  }

  function CheckClaims(c: Codec, payload: Json, tokenHash: string, cfg: Config): Verdict {
    if payload.Null? then NotAnObject
    else if Trim(cfg.issuer) != "" && Text(c, Get(payload, "iss")) != Trim(cfg.issuer) then Refused(Issuer)
    else if !HasAudience(c, Get(payload, "aud"), cfg.audience) then Refused(Audience)
    else if IsExpired(c, payload, cfg.now) then Refused(Expired)
    else if IsNotYetActive(c, payload, cfg.now) then Refused(NotActive)
    else if InSet(c, cfg.revokedHashes, tokenHash) then Refused(HashRevoked)
    else if Truthy(Get(payload, "jti")) && InSet(c, cfg.revokedIds, Text(c, Get(payload, "jti"))) then Refused(IdRevoked)
    else
      var userId := Text(c, Claim(payload, cfg.userClaim));
      if userId == "" then Refused(NoUser)
      else Accepted(Claims(
        userId, Text(c, Claim(payload, cfg.workspaceClaim)), Text(c, Get(payload, "iss")), Text(c, Get(payload, "jti")),
        Text(c, Get(payload, "sub")), tokenHash, Claim(payload, cfg.workspacesClaim), Claim(payload, cfg.rolesClaim),
        Claim(payload, cfg.permissionsClaim)))
  }

  /** `verifyJwtAuthToken`; further parts after the third are not looked at. */
  function Verify(c: Codec, token: string, cfg: Config): Verdict {
    var t := Trim(token);
    var secret := Trim(cfg.secret);
    if secret == "" then Refused(NoSecret)
    else
      var parts := Split(t, '.');
      if |parts| < 3 || parts[0] == "" || parts[1] == "" || parts[2] == "" then Refused(Format)
      else
        var header, payload := ParsePart(c, parts[0]), ParsePart(c, parts[1]);
        if header.None? then Refused(Header)
        else if payload.None? then Refused(Payload)
        else if header.value.Null? then NotAnObject
        else if Get(header.value, "alg") != Some(Str("HS256")) then Refused(Algorithm)
        else if parts[2] != Sign(c, parts[0] + "." + parts[1], secret) then Refused(Signature)
        else CheckClaims(c, payload.value, c.sha256Hex(t), cfg)
  }

  // ---- reading back what was written

  lemma PartReadsBack(c: Codec, j: Json)
    requires Travels(c, j)
    ensures ParsePart(c, Part(c, j)) == Some(j) && Part(c, j) != "" && Trimmed(Part(c, j)) && '.' !in Part(c, j)
  {
    hide Encode, Decode, Trim;
    var bytes := c.encodeText(c.stringify(j));
    DecodeOfEncode(bytes);
    UrlText(bytes);
    TrimIsTrimmed(Part(c, j));
  }

  lemma UrlText(b: Bytes)
    ensures Trimmed(Encode(b)) && '.' !in Encode(b) && (b != [] ==> Encode(b) != "")
  {
    hide Encode;
    EncodeAlphabet(b);
  }

  lemma SplitOfThree(x: string, y: string, z: string)
    requires '.' !in x && '.' !in y && '.' !in z
    ensures Split(x + "." + y + "." + z, '.') == [x, y, z]
  {
    hide Split;
    assert x + "." + y + "." + z == x + ['.'] + (y + ['.'] + z);
    SplitOfFirst(x, '.', y + ['.'] + z);
    SplitOfFirst(y, '.', z);
    SplitOfOne(z, '.');
  }

  /** The two trees of a token survive writing and reading. */
  ghost predicate TokenTravels(c: Codec, header: map<string, Json>, payload: Json) {
    MacsHaveLength(c) && Travels(c, FullHeader(header)) && Travels(c, payload)
  }

  lemma CreatedParts(c: Codec, header: map<string, Json>, payload: Json, secret: string)
    requires TokenTravels(c, header, payload)
    ensures var t := Create(c, header, payload, secret);
      var parts := [Part(c, FullHeader(header)), Part(c, payload), Sign(c, SigningInput(c, header, payload), secret)];
      && Trim(t) == t && Split(t, '.') == parts
      && parts[0] != "" && parts[1] != "" && parts[2] != ""
  {
    hide Encode, Split, Trim, FullHeader, Part;
    var x, y := Part(c, FullHeader(header)), Part(c, payload);
    var mac := c.hmac(SigningInput(c, header, payload), secret);
    assert |mac| == 32;
    PartReadsBack(c, FullHeader(header));
    PartReadsBack(c, payload);
    UrlText(mac);
    SplitOfThree(x, y, Encode(mac));
    TrimIsTrimmed(Create(c, header, payload, secret));
  }

  ghost predicate KeepsAlg(header: map<string, Json>) {
    "alg" in header ==> header["alg"] == Str("HS256")
  }

  /**
   Verifying a created token: with the secret it was made with, written without white space around it, and the
   algorithm left alone, the outcome is that of the claim checks on the very payload. Else it is refused, unless the
   two signatures collide.
   */
  lemma VerifyCreated(c: Codec, header: map<string, Json>, payload: Json, secret: string, cfg: Config)
    requires TokenTravels(c, header, payload) && Trim(cfg.secret) != ""
    ensures var t, input := Create(c, header, payload, secret), SigningInput(c, header, payload);
      Verify(c, t, cfg) == (
        if !KeepsAlg(header) then Refused(Algorithm)
        else if c.hmac(input, secret) != c.hmac(input, Trim(cfg.secret)) then Refused(Signature)
        else CheckClaims(c, payload, c.sha256Hex(t), cfg))
    ensures secret == Trim(cfg.secret) && KeepsAlg(header) ==>
      Verify(c, Create(c, header, payload, secret), cfg) ==
        CheckClaims(c, payload, c.sha256Hex(Create(c, header, payload, secret)), cfg)
  {
    hide Create, Part, ParsePart, Split, Trim, CheckClaims, Encode;
    CreatedParts(c, header, payload, secret);
    PartReadsBack(c, FullHeader(header));
    PartReadsBack(c, payload);
    var input := SigningInput(c, header, payload);
    if Sign(c, input, secret) == Sign(c, input, Trim(cfg.secret)) {
      EncodeIsInjective(c.hmac(input, secret), c.hmac(input, Trim(cfg.secret)));
    }
  }

  /** What makes a payload acceptable. */
  ghost predicate Acceptable(c: Codec, payload: Json, tokenHash: string, cfg: Config) {
    && !payload.Null?
    && (Trim(cfg.issuer) == "" || Text(c, Get(payload, "iss")) == Trim(cfg.issuer))
    && HasAudience(c, Get(payload, "aud"), cfg.audience)
    && !IsExpired(c, payload, cfg.now) && !IsNotYetActive(c, payload, cfg.now)
    && !InSet(c, cfg.revokedHashes, tokenHash)
    && !(Truthy(Get(payload, "jti")) && InSet(c, cfg.revokedIds, Text(c, Get(payload, "jti"))))
    && Text(c, Claim(payload, cfg.userClaim)) != ""
  }

  /** A created token is accepted exactly if its payload is acceptable, and then stands for that user and workspace. */
  lemma CreatedTokenIsAcceptedIff(c: Codec, header: map<string, Json>, payload: Json, cfg: Config)
    requires TokenTravels(c, header, payload) && Trim(cfg.secret) != "" && KeepsAlg(header)
    ensures var t := Create(c, header, payload, Trim(cfg.secret));
      var v := Verify(c, t, cfg);
      && (v.Accepted? <==> Acceptable(c, payload, c.sha256Hex(t), cfg))
      && (v.Accepted? ==> StandsFor(c, v.claims, payload, c.sha256Hex(t), cfg))
  {
    hide Create, Verify, Trim, CheckClaims, Acceptable, StandsFor, TokenTravels, KeepsAlg;
    VerifyCreated(c, header, payload, Trim(cfg.secret), cfg);
    ClaimsAreAcceptedIff(c, payload, c.sha256Hex(Create(c, header, payload, Trim(cfg.secret))), cfg);
  }

  /** The verified claims are those of the payload. */
  ghost predicate StandsFor(c: Codec, claims: Claims, payload: Json, tokenHash: string, cfg: Config) {
    && claims.userId == Text(c, Claim(payload, cfg.userClaim)) != ""
    && claims.workspaceId == Text(c, Claim(payload, cfg.workspaceClaim))
    && claims.issuer == Text(c, Get(payload, "iss"))
    && claims.jwtId == Text(c, Get(payload, "jti"))
    && claims.subject == Text(c, Get(payload, "sub"))
    && claims.tokenHash == tokenHash
    && claims.workspaces == Claim(payload, cfg.workspacesClaim)
    && claims.roles == Claim(payload, cfg.rolesClaim)
    && claims.permissions == Claim(payload, cfg.permissionsClaim)
  }

  lemma ClaimsAreAcceptedIff(c: Codec, payload: Json, tokenHash: string, cfg: Config)
    ensures var v := CheckClaims(c, payload, tokenHash, cfg);
      && (v.Accepted? <==> Acceptable(c, payload, tokenHash, cfg))
      && (v.Accepted? ==> StandsFor(c, v.claims, payload, tokenHash, cfg))
  {
    hide Trim, Claim, Text, HasAudience, InSet, IsExpired, IsNotYetActive, Truthy, Get;
  }

  /** Some codec carries any two trees, so the law above asks nothing impossible. */
  lemma SomeCodecCarries(header: map<string, Json>, payload: Json) returns (c: Codec)
    ensures TokenTravels(c, header, payload)
  {
    var h := FullHeader(header);
    c := Codec(
      j => if j == h then "h" else "p", t => if t == "h" then Some(h) else if t == "p" then Some(payload) else None,
      t => if t == "h" then [0] else [1], b => if b == [0] then "h" else "p",
      (input, secret) => seq(32, i => 0), t => t, j => "", j => NotANumber);
    assert payload == h || c.stringify(payload) == "p";
    assert [0 as Byte] != [1];
  }

  // ---- the time claims

  /** `cfg` at another time. */
  function AtTime(cfg: Config, now: real): Config {
    cfg.(now := now)
  }

  /**
   When a token can expire: past its issuer and audience, there is a time at which it is refused as expired exactly
   if its `exp` claim is a number (or minus infinity). A claim that is no number never expires the token.
   */
  lemma ExpiresSometimeIff(c: Codec, payload: Json, tokenHash: string, cfg: Config)
    requires !payload.Null? && HasAudience(c, Get(payload, "aud"), cfg.audience)
    requires Trim(cfg.issuer) == "" || Text(c, Get(payload, "iss")) == Trim(cfg.issuer)
    ensures (exists now :: CheckClaims(c, payload, tokenHash, AtTime(cfg, now)) == Refused(Expired)) <==>
      var exp := Get(payload, "exp");
      exp.Some? && (c.toNumber(exp.value).Finite? || c.toNumber(exp.value).MinusInfinity?)
  {
    hide Trim, Claim, Text, HasAudience, InSet, Truthy, Get;
    var exp := Get(payload, "exp");
    forall now ensures CheckClaims(c, payload, tokenHash, AtTime(cfg, now)) == Refused(Expired) <==> IsExpired(c, payload, now) {
    }
    if exp.Some? {
      var n := c.toNumber(exp.value);
      var late := if n.Finite? then n.value else 0.0;
      assert n.Finite? || n.MinusInfinity? ==> IsExpired(c, payload, late);
    }
  }

  /** Acceptable in all but the time claims. */
  ghost predicate AcceptableButTime(c: Codec, payload: Json, tokenHash: string, cfg: Config) {
    && !payload.Null?
    && (Trim(cfg.issuer) == "" || Text(c, Get(payload, "iss")) == Trim(cfg.issuer))
    && HasAudience(c, Get(payload, "aud"), cfg.audience)
    && !InSet(c, cfg.revokedHashes, tokenHash)
    && !(Truthy(Get(payload, "jti")) && InSet(c, cfg.revokedIds, Text(c, Get(payload, "jti"))))
    && Text(c, Claim(payload, cfg.userClaim)) != ""
  }

  /** What a claim reads as, if it is there. */
  function Reading(c: Codec, payload: Json, name: string): Option<Number> {
    match Get(payload, name) case None => None case Some(v) => Some(c.toNumber(v))
  }

  /**
   A created token that is acceptable in all else is accepted from its `nbf` on and before its `exp`. A claim that is
   absent or no number does not matter; minus infinity as `exp` or plus infinity as `nbf` refuses it for ever.
   */
  lemma AcceptedBetween(c: Codec, header: map<string, Json>, payload: Json, cfg: Config)
    requires TokenTravels(c, header, payload) && Trim(cfg.secret) != "" && KeepsAlg(header)
    requires AcceptableButTime(c, payload, c.sha256Hex(Create(c, header, payload, Trim(cfg.secret))), cfg)
    ensures var accepted, now := Verify(c, Create(c, header, payload, Trim(cfg.secret)), cfg).Accepted?, cfg.now;
      var exp, nbf := Reading(c, payload, "exp"), Reading(c, payload, "nbf");
      && (forall e, n :: exp == Some(Finite(e)) && nbf == Some(Finite(n)) ==> (accepted <==> n <= now < e))
      && (forall e :: exp == Some(Finite(e)) && nbf in {None, Some(NotANumber), Some(MinusInfinity)} ==> (accepted <==> now < e))
      && (forall n :: nbf == Some(Finite(n)) && exp in {None, Some(NotANumber), Some(PlusInfinity)} ==> (accepted <==> n <= now))
      && (exp in {None, Some(NotANumber), Some(PlusInfinity)} && nbf in {None, Some(NotANumber), Some(MinusInfinity)} ==> accepted)
      && (exp == Some(MinusInfinity) || nbf == Some(PlusInfinity) ==> !accepted)
  {
    hide Create, Verify, Trim, Claim, Text, HasAudience, InSet, Truthy, Get, TokenTravels, KeepsAlg;
    CreatedTokenIsAcceptedIff(c, header, payload, cfg);
  }

  /** A token refused as expired is refused as expired at every later time. */
  lemma ExpiryIsForGood(c: Codec, token: string, cfg: Config, later: real)
    requires later >= cfg.now
    ensures Verify(c, token, cfg) == Refused(Expired) ==> Verify(c, token, AtTime(cfg, later)) == Refused(Expired)
  {
    hide Trim, Claim, Text, HasAudience, InSet, Truthy, Get, ParsePart, Split, Sign;
  }

  // ---- claims and revocation lists, read off their values

  /** Following the keys, object by object, leads to v. */
  ghost predicate LeadsTo(j: Json, keys: seq<string>, v: Json)
    decreases |keys|
  {
    if keys == [] then j == v else j.Obj? && keys[0] in j.fields && LeadsTo(j.fields[keys[0]], keys[1..], v)
  }

  lemma {:induction false} WalkLeads(j: Json, keys: seq<string>, v: Json)
    ensures Walk(Some(j), keys) == Some(v) <==> LeadsTo(j, keys, v)
    decreases |keys|
  {
    if keys != [] {
      if j.Obj? && keys[0] in j.fields { WalkLeads(j.fields[keys[0]], keys[1..], v); } else { WalkNowhere(keys[1..]); }
    }
  }

  lemma {:induction false} WalkNowhere(keys: seq<string>)
    ensures Walk(None, keys) == None
  {
    if keys != [] { WalkNowhere(keys[1..]); }
  }

  /** A claim path, written with dots and with white space around it or not, reads the value it leads to. */
  lemma ClaimFollowsPath(payload: Json, keys: seq<string>, v: Json)
    requires keys != [] && Trim(Join(keys, '.')) == Join(keys, '.') != "" && forall i :: 0 <= i < |keys| ==> '.' !in keys[i]
    ensures Claim(payload, Join(keys, '.')) == Some(v) <==> LeadsTo(payload, keys, v)
  {
    hide Trim;
    SplitOfJoin(keys, '.');
    WalkLeads(payload, keys, v);
  }

  /** A revocation list revokes exactly the non-empty texts its entries read as; no list revokes nothing. */
  lemma RevokedByList(c: Codec, items: seq<Json>, t: string)
    ensures InSet(c, Some(Arr(items)), t) <==> t != "" && exists i :: 0 <= i < |items| && Text(c, Some(items[i])) == t
    ensures !InSet(c, None, t) && !InSet(c, Some(Null), t)
  {
    hide Text;
    TextsOf(c, items);
  }

  /** Some part of the text reads so. */
  ghost predicate HasPart(parts: seq<string>, t: string) {
    exists i :: 0 <= i < |parts| && Trim(parts[i]) == t
  }

  /** A comma-separated text revokes exactly its non-empty, trimmed parts. */
  lemma RevokedByText(c: Codec, list: string, t: string)
    requires Trim(list) != ""
    ensures InSet(c, Some(Str(list)), t) <==> t != "" && HasPart(Split(list, ','), t)
  {
    hide Trim, Split, Texts, HasPart;
    assert ToList(Some(Str(list))) == StrItems(Split(list, ','));
    AmongParts(c, Split(list, ','), t);
  }

  lemma AmongParts(c: Codec, parts: seq<string>, t: string)
    ensures t in Texts(c, StrItems(parts)) <==> HasPart(parts, t)
  {
    hide Trim, Texts;
    StrTexts(c, parts);
    if t in Texts(c, StrItems(parts)) {
      var i :| 0 <= i < |parts| && Texts(c, StrItems(parts))[i] == t;
      assert Trim(parts[i]) == t;
    }
    forall i | 0 <= i < |parts| && Trim(parts[i]) == t ensures t in Texts(c, StrItems(parts)) {
      assert Texts(c, StrItems(parts))[i] == t;
    }
  }

  lemma {:induction false} StrTexts(c: Codec, ts: seq<string>)
    ensures |Texts(c, StrItems(ts))| == |ts| && forall i :: 0 <= i < |ts| ==> Texts(c, StrItems(ts))[i] == Trim(ts[i])
  {
    hide Trim;
    if ts != [] {
      StrTexts(c, ts[1..]);
      assert ([Str(ts[0])] + StrItems(ts[1..]))[1..] == StrItems(ts[1..]);
    }
  }

  /** A token whose id is a text on the revocation list is never accepted. */
  lemma RevokedIdIsRefused(c: Codec, payload: Json, tokenHash: string, cfg: Config, id: string, items: seq<Json>, i: nat)
    requires Get(payload, "jti") == Some(Str(id)) && Trim(id) != ""
    requires cfg.revokedIds == Some(Arr(items)) && i < |items| && Text(c, Some(items[i])) == Trim(id)
    ensures !CheckClaims(c, payload, tokenHash, cfg).Accepted?
  {
    hide Claim, HasAudience, InSet, Get;
    assert id != "" by { TrimIsTrimmed(""); }
    RevokedByList(c, items, Trim(id));
  }

  /** The reason a created token's claims are refused for: the first check that fails, in this order. */
  lemma RefusedFor(c: Codec, payload: Json, tokenHash: string, cfg: Config)
    ensures var v := CheckClaims(c, payload, tokenHash, cfg);
      var wrongIssuer := Trim(cfg.issuer) != "" && Text(c, Get(payload, "iss")) != Trim(cfg.issuer);
      var wrongAudience := !HasAudience(c, Get(payload, "aud"), cfg.audience);
      var early, late := IsNotYetActive(c, payload, cfg.now), IsExpired(c, payload, cfg.now);
      var hashRevoked := InSet(c, cfg.revokedHashes, tokenHash);
      var idRevoked := Truthy(Get(payload, "jti")) && InSet(c, cfg.revokedIds, Text(c, Get(payload, "jti")));
      !payload.Null? ==>
      && (v == Refused(Issuer) <==> wrongIssuer)
      && (v == Refused(Audience) <==> !wrongIssuer && wrongAudience)
      && (v == Refused(Expired) <==> !wrongIssuer && !wrongAudience && late)
      && (v == Refused(NotActive) <==> !wrongIssuer && !wrongAudience && !late && early)
      && (v == Refused(HashRevoked) <==> !wrongIssuer && !wrongAudience && !late && !early && hashRevoked)
      && (v == Refused(IdRevoked) <==> !wrongIssuer && !wrongAudience && !late && !early && !hashRevoked && idRevoked)
      && (v == Refused(NoUser) ==> Text(c, Claim(payload, cfg.userClaim)) == "")
  {
    hide Trim, Claim, Text, HasAudience, InSet, Truthy, Get, IsExpired, IsNotYetActive;
  }

  /**
   Only signed tokens are accepted, and their claims come from the signed text: the third part is the signature of the
   first two under the configured secret, and the payload is what the second part reads as.
   */
  lemma AcceptedIsSigned(c: Codec, token: string, cfg: Config)
    ensures Verify(c, token, cfg).Accepted? ==> SignedAndAcceptable(c, token, cfg, Verify(c, token, cfg).claims)
  {
    hide Trim, Claim, Text, HasAudience, InSet, IsExpired, IsNotYetActive, Truthy, Sign, Split, ParsePart;
  }

  ghost predicate SignedAndAcceptable(c: Codec, token: string, cfg: Config, claims: Claims) {
    var parts := Split(Trim(token), '.');
    && |parts| >= 3 && parts[2] == Sign(c, parts[0] + "." + parts[1], Trim(cfg.secret))
    && ParsePart(c, parts[1]).Some? && Acceptable(c, ParsePart(c, parts[1]).value, c.sha256Hex(Trim(token)), cfg)
    && claims.userId == Text(c, Claim(ParsePart(c, parts[1]).value, cfg.userClaim))
  }

  /** The expected audience may stand anywhere in a list, or in a comma-separated text. */
  lemma {:induction false} AudienceInList(c: Codec, items: seq<Json>, expected: string)
    requires Trim(expected) != ""
    ensures HasAudience(c, Some(Arr(items)), expected) <==> exists i :: 0 <= i < |items| && Text(c, Some(items[i])) == Trim(expected)
  {
    hide Trim;
    TextsOf(c, items);
  }

  lemma {:induction false} TextsOf(c: Codec, items: seq<Json>)
    ensures |Texts(c, items)| == |items| && forall i :: 0 <= i < |items| ==> Texts(c, items)[i] == Text(c, Some(items[i]))
  {
    hide Text;
    if items != [] { TextsOf(c, items[1..]); }
  }
}
