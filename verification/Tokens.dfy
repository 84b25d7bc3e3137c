/**
 The three signed tokens of the login flow: the session token (internal/auth.go) and the two TOTP
 step tokens (internal/auth_totp.go).  Each is a `|`-joined payload and its MAC, both in unpadded
 base64url and separated by a dot.
 */
module Tokens {
  import opened Wrappers
  import opened GoStrings
  import opened Base64Url

  // What the code takes from its platform: HMAC-SHA-256, the conversions between text and bytes,
  // and the linked-in build version.
  datatype Platform = Platform(
    hmac: (seq<Byte>, seq<Byte>) -> seq<Byte>,
    toBytes: string -> seq<Byte>,
    toText: seq<Byte> -> string,
    buildVersion: string)
  {
    // Converting a text to bytes and back gives the text.
    ghost predicate Lossless() {
      forall s :: toText(toBytes(s)) == s
    }
  }

  datatype Error =
    | InvalidToken | InvalidSignature | StaleFormat | InvalidExpiry | EmptyNonce
    | StaleBuild | Expired | EmptyUser | InvalidSecret

  datatype Session = Session(user: string, role: string, nonce: string)

  datatype VerifyStep = VerifyStep(user: string, role: string, nonce: string, exp: int)

  datatype SetupStep = SetupStep(user: string, role: string, secret: string, exp: int)

  const ADMIN := "admin"
  const VIEWER := "viewer"

  // sessionBuildVersionSegment
  function BuildSegment(p: Platform): string {
    var v := TrimSpace(p.buildVersion);
    if v == "" then "dev"
    else ReplaceChar(ReplaceChar(ReplaceChar(v, '|', "_"), '\n', "_"), '\r', "_")
  }

  // signTotpPayload, and the same steps of mintSessionToken
  function Sign(p: Platform, key: seq<Byte>, payload: string): string {
    var bytes := p.toBytes(payload);
    Encode(bytes) + "." + Encode(p.hmac(key, bytes))
  }

  // verifyTotpPayload, and the same steps of verifySessionToken
  function Open(p: Platform, key: seq<Byte>, token: string): Result<string, Error> {
    var parts := Split(token, '.');
    if |parts| != 2 then Err(InvalidToken)
    else
      match (Decode(parts[0]), Decode(parts[1]))
      case (Some(payload), Some(signature)) =>
        if signature != p.hmac(key, payload) then Err(InvalidSignature) else Ok(p.toText(payload))
      case _ => Err(InvalidToken)
  }

  // ---------- session token ----------

  function SessionFields(p: Platform, user: string, role: string, exp: int, nonce: string): seq<string> {
    [user, if Blank(role) then ADMIN else role, Itoa(exp), nonce, BuildSegment(p)]
  }

  function MintSession(p: Platform, user: string, role: string, exp: int, nonce: string, key: seq<Byte>): string {
    Sign(p, key, Join(SessionFields(p, user, role, exp, nonce), '|'))
  }

  function ParseSession(p: Platform, payload: string, now: int): Result<Session, Error> {
    var segs := Split(payload, '|');
    if |segs| != 5 then Err(StaleFormat)
    else
      match ParseInt64(segs[2])
      case None => Err(InvalidExpiry)
      case Some(exp) =>
        if Blank(segs[3]) then Err(EmptyNonce)
        else if segs[4] != BuildSegment(p) then Err(StaleBuild)
        else if now > exp then Err(Expired)
        else if Blank(segs[0]) then Err(EmptyUser)
        else Ok(Session(segs[0], if segs[1] != ADMIN && segs[1] != VIEWER then ADMIN else segs[1], segs[3]))
  }

  function VerifySession(p: Platform, token: string, key: seq<Byte>, now: int): Result<Session, Error> {
    match Open(p, key, token)
    case Err(e) => Err(e)
    case Ok(payload) => ParseSession(p, payload, now)
  }

  // ---------- TOTP step tokens ----------

  function VerifyStepFields(p: Platform, user: string, role: string, nonce: string, exp: int): seq<string> {
    ["totp", user, role, Itoa(exp), nonce, BuildSegment(p)]
  }

  function MintVerifyStep(p: Platform, key: seq<Byte>, user: string, role: string, nonce: string, exp: int): string {
    Sign(p, key, Join(VerifyStepFields(p, user, role, nonce, exp), '|'))
  }

  function ParseVerifyStep(p: Platform, payload: string, now: int): Result<VerifyStep, Error> {
    var segs := Split(payload, '|');
    if |segs| != 6 || segs[0] != "totp" then Err(InvalidToken)
    else
      match ParseInt64(segs[3])
      case None => Err(InvalidExpiry)
      case Some(exp) =>
        if segs[5] != BuildSegment(p) then Err(StaleBuild)
        else if now > exp then Err(Expired)
        else Ok(VerifyStep(segs[1], segs[2], segs[4], exp))
  }

  function VerifyVerifyStep(p: Platform, key: seq<Byte>, token: string, now: int): Result<VerifyStep, Error> {
    match Open(p, key, token)
    case Err(e) => Err(e)
    case Ok(payload) => ParseVerifyStep(p, payload, now)
  }

  function SetupStepFields(p: Platform, user: string, role: string, secret: string, exp: int): seq<string> {
    ["setup", user, role, Itoa(exp), Encode(p.toBytes(secret)), BuildSegment(p)]
  }

  function MintSetupStep(p: Platform, key: seq<Byte>, user: string, role: string, secret: string, exp: int): string {
    Sign(p, key, Join(SetupStepFields(p, user, role, secret, exp), '|'))
  }

  function ParseSetupStep(p: Platform, payload: string, now: int): Result<SetupStep, Error> {
    var segs := Split(payload, '|');
    if |segs| != 6 || segs[0] != "setup" then Err(InvalidToken)
    else
      match ParseInt64(segs[3])
      case None => Err(InvalidExpiry)
      case Some(exp) =>
        match Decode(segs[4])
        case None => Err(InvalidSecret)
        case Some(raw) =>
          if segs[5] != BuildSegment(p) then Err(StaleBuild)
          else if now > exp then Err(Expired)
          else Ok(SetupStep(segs[1], segs[2], p.toText(raw), exp))
  }

  function VerifySetupStep(p: Platform, key: seq<Byte>, token: string, now: int): Result<SetupStep, Error> {
    match Open(p, key, token)
    case Err(e) => Err(e)
    case Ok(payload) => ParseSetupStep(p, payload, now)
  }

  // ---------- opening undoes signing ----------

  lemma EncodedHasNone(bytes: seq<Byte>)
    ensures '.' !in Encode(bytes) && '|' !in Encode(bytes)
  {
    EncodedAlphabet(bytes);
  }

  lemma OpenOfSign(p: Platform, key: seq<Byte>, payload: string)
    requires p.Lossless()
    ensures Open(p, key, Sign(p, key, payload)) == Ok(payload)
  {
    hide Encode, Decode, Split;
    var bytes := p.toBytes(payload);
    var body, signature := Encode(bytes), Encode(p.hmac(key, bytes));
    EncodedHasNone(bytes);
    EncodedHasNone(p.hmac(key, bytes));
    SplitPrefix(body, '.', signature);
    SplitFree(signature, '.');
    DecodeOfEncode(bytes);
    DecodeOfEncode(p.hmac(key, bytes));
  }

  // What a token must be for its text to be read: the encoded form of some bytes and, after a dot,
  // the encoded form of the MAC of those bytes under the key.
  ghost predicate Signed(p: Platform, key: seq<Byte>, token: string, text: string) {
    exists a, b, m :: token == a + "." + b && Decode(a) == Some(m) && Decode(b) == Some(p.hmac(key, m)) && p.toText(m) == text
  }

  lemma OpensIffSigned(p: Platform, key: seq<Byte>, token: string, text: string)
    ensures Open(p, key, token) == Ok(text) <==> Signed(p, key, token, text)
  {
    hide Decode, Split, Join;
    var parts := Split(token, '.');
    JoinSplit(token, '.');
    if Open(p, key, token) == Ok(text) {
      TwoParts(parts[0], parts[1]);
      assert parts == [parts[0], parts[1]];
      assert token == parts[0] + "." + parts[1];
    }
    if Signed(p, key, token, text) {
      var a, b, m :| token == a + "." + b && Decode(a) == Some(m) && Decode(b) == Some(p.hmac(key, m)) && p.toText(m) == text;
      DecodedHasNoDot(a);
      DecodedHasNoDot(b);
      SplitPrefix(a, '.', b);
      SplitFree(b, '.');
      assert a + ['.'] + b == token;
    }
  }

  lemma TwoParts(a: string, b: string)
    ensures Join([a, b], '.') == a + "." + b
  {
    assert [a, b][1..] == [b];
  }

  // Under another key a signed text is read exactly when the two MACs happen to agree.
  lemma OtherKeyIsRefused(p: Platform, key: seq<Byte>, other: seq<Byte>, payload: string)
    ensures p.hmac(other, p.toBytes(payload)) != p.hmac(key, p.toBytes(payload)) ==>
              Open(p, other, Sign(p, key, payload)) == Err(InvalidSignature)
  {
    hide Encode, Decode, Split;
    var bytes := p.toBytes(payload);
    var body, signature := Encode(bytes), Encode(p.hmac(key, bytes));
    EncodedHasNone(bytes);
    EncodedHasNone(p.hmac(key, bytes));
    SplitPrefix(body, '.', signature);
    SplitFree(signature, '.');
    DecodeOfEncode(bytes);
    DecodeOfEncode(p.hmac(key, bytes));
  }

  // The build segment is the trimmed version with bars and line breaks replaced, or dev.
  lemma BuildSegmentIs(p: Platform)
    ensures var v, seg := TrimSpace(p.buildVersion), BuildSegment(p);
      (v == "" ==> seg == "dev") &&
      (v != "" ==> |seg| == |v|) &&
      (v != "" ==> forall i :: 0 <= i < |v| ==> seg[i] == if v[i] == '|' || v[i] == '\n' || v[i] == '\r' then '_' else v[i])
  {
    hide TrimSpace, ReplaceChar;
    var v := TrimSpace(p.buildVersion);
    ReplaceWithOne(v, '|', '_');
    var v1 := ReplaceChar(v, '|', "_");
    ReplaceWithOne(v1, '\n', '_');
    ReplaceWithOne(ReplaceChar(v1, '\n', "_"), '\r', '_');
  }

  lemma BuildSegmentHasNoBar(p: Platform)
    ensures '|' !in BuildSegment(p)
  {
    hide TrimSpace, ReplaceChar;
    var v := TrimSpace(p.buildVersion);
    ReplaceCharRemoves(v, '|', "_", '|');
    var v1 := ReplaceChar(v, '|', "_");
    ReplaceCharRemoves(v1, '\n', "_", '|');
    ReplaceCharRemoves(ReplaceChar(v1, '\n', "_"), '\r', "_", '|');
  }

  lemma ItoaHasNoBar(n: int)
    ensures '|' !in Itoa(n)
  {
  }

  // ---------- round trips, with no assumption on the fields ----------

  function NormalRole(role: string): string { if role == VIEWER then VIEWER else ADMIN }

  // Exactly when a fresh session token is accepted.
  predicate SessionAcceptable(user: string, role: string, exp: int, nonce: string, now: int) {
    '|' !in user && '|' !in role && '|' !in nonce && !Blank(user) && !Blank(nonce) && now <= exp
  }

  lemma BlankRoleHasNoBar(role: string)
    requires Blank(role)
    ensures forall c :: c in role ==> IsSpace(c)
  {
    TrimRightBlank(TrimLeft(role));
    TrimLeftBlank(role);
  }

  lemma {:induction false} TrimLeftBlank(s: string)
    requires TrimLeft(s) == ""
    ensures forall c :: c in s ==> IsSpace(c)
  {
    if s != "" {
      TrimLeftBlank(s[1..]);
      assert s == [s[0]] + s[1..];
    }
  }

  lemma {:induction false} TrimRightBlank(s: string)
    requires TrimRight(s) == ""
    requires s == "" || !IsSpace(s[0])
    ensures s == ""
  {
    if |s| > 1 {
      TrimRightBlank(s[..|s| - 1]);
    }
  }

  // Verifying a fresh session token fails, or returns the minted user and nonce and the
  // normalised role; it succeeds exactly when the fields are free of bars, user and nonce are not
  // blank and the token has not expired.
  lemma SessionRoundTrip(p: Platform, user: string, role: string, exp: int, nonce: string, key: seq<Byte>, now: int)
    requires p.Lossless() && INT64_MIN <= exp <= INT64_MAX
    ensures
      var r := VerifySession(p, MintSession(p, user, role, exp, nonce, key), key, now);
      (r.Ok? <==> SessionAcceptable(user, role, exp, nonce, now)) &&
      (r.Ok? ==> r.value == Session(user, NormalRole(role), nonce))
  {
    hide Open, Sign, Split, Itoa, ParseInt64, BuildSegment, Blank;
    var fields := SessionFields(p, user, role, exp, nonce);
    OpenOfSign(p, key, Join(fields, '|'));
    SplitJoinCount(fields, '|');
    BuildSegmentHasNoBar(p);
    ItoaHasNoBar(exp);
    if Blank(role) {
      BlankRoleHasNoBar(role);
      BlankIsNoName(role);
    }
    assert fields[0] in fields && fields[1] in fields && fields[3] in fields;
    if '|' !in user && '|' !in role && '|' !in nonce {
      SplitJoin(fields, '|');
      ParseIntOfItoa(exp);
    }
  }

  lemma BlankIsNoName(s: string)
    requires Blank(s)
    ensures s != VIEWER && s != ADMIN
  {
    assert Trimmed(VIEWER) && Trimmed(ADMIN);
  }

  lemma VerifyStepRoundTrip(p: Platform, key: seq<Byte>, user: string, role: string, nonce: string, exp: int, now: int)
    requires p.Lossless() && INT64_MIN <= exp <= INT64_MAX
    ensures
      var r := VerifyVerifyStep(p, key, MintVerifyStep(p, key, user, role, nonce, exp), now);
      (r.Ok? <==> '|' !in user && '|' !in role && '|' !in nonce && now <= exp) &&
      (r.Ok? ==> r.value == VerifyStep(user, role, nonce, exp))
  {
    hide Open, Sign, Split, Itoa, ParseInt64, BuildSegment;
    var fields := VerifyStepFields(p, user, role, nonce, exp);
    OpenOfSign(p, key, Join(fields, '|'));
    SplitJoinCount(fields, '|');
    BuildSegmentHasNoBar(p);
    ItoaHasNoBar(exp);
    assert '|' !in "totp";
    assert fields[1] in fields && fields[2] in fields && fields[4] in fields;
    if '|' !in user && '|' !in role && '|' !in nonce {
      SplitJoin(fields, '|');
      ParseIntOfItoa(exp);
    }
  }

  // The secret survives whatever it contains; only user and role must be free of bars.
  lemma SetupStepRoundTrip(p: Platform, key: seq<Byte>, user: string, role: string, secret: string, exp: int, now: int)
    requires p.Lossless() && INT64_MIN <= exp <= INT64_MAX
    ensures
      var r := VerifySetupStep(p, key, MintSetupStep(p, key, user, role, secret, exp), now);
      (r.Ok? <==> '|' !in user && '|' !in role && now <= exp) &&
      (r.Ok? ==> r.value == SetupStep(user, role, secret, exp))
  {
    hide Open, Sign, Split, Itoa, ParseInt64, BuildSegment, Encode, Decode;
    var fields := SetupStepFields(p, user, role, secret, exp);
    OpenOfSign(p, key, Join(fields, '|'));
    SplitJoinCount(fields, '|');
    BuildSegmentHasNoBar(p);
    ItoaHasNoBar(exp);
    EncodedHasNone(p.toBytes(secret));
    DecodeOfEncode(p.toBytes(secret));
    assert '|' !in "setup";
    assert fields[1] in fields && fields[2] in fields;
    if '|' !in user && '|' !in role {
      SplitJoin(fields, '|');
      ParseIntOfItoa(exp);
    }
  }

  // ---------- no token serves two purposes ----------

  // Whatever the token, the key and the two clock readings are, at most one verifier accepts it.
  lemma VerifiersAreDisjoint(p: Platform, key: seq<Byte>, token: string, t1: int, t2: int, t3: int)
    ensures
      var session := VerifySession(p, token, key, t1).Ok?;
      var verify := VerifyVerifyStep(p, key, token, t2).Ok?;
      var setup := VerifySetupStep(p, key, token, t3).Ok?;
      !(session && verify) && !(session && setup) && !(verify && setup)
  {
    hide Open, Split, ParseInt64, BuildSegment, Decode;
    assert "totp" != "setup" by { assert |"totp"| != |"setup"|; }
  }

  // ---------- exactly what the verifiers accept ----------

  ghost predicate GoodSession(p: Platform, key: seq<Byte>, token: string, now: int, s: Session, role: string, expiry: string) {
    Signed(p, key, token, Join([s.user, role, expiry, s.nonce, BuildSegment(p)], '|')) &&
    '|' !in s.user && '|' !in role && '|' !in expiry && '|' !in s.nonce && !Blank(s.user) && !Blank(s.nonce) &&
    ParseInt64(expiry).Some? && now <= ParseInt64(expiry).value &&
    s.role == if role == "viewer" then "viewer" else "admin"
  }

  // A session is read from a token exactly when the token is signed under the key and its five
  // fields are as they should be: a user and a nonce that are not blank, an expiry not yet past and
  // this build. An unknown role counts as admin.
  lemma SessionAcceptedIff(p: Platform, key: seq<Byte>, token: string, now: int, s: Session)
    ensures VerifySession(p, token, key, now) == Ok(s) <==>
      exists role, expiry :: GoodSession(p, key, token, now, s, role, expiry)
  {
    hide Open, Split, Join, ParseInt64, BuildSegment, Blank, Signed;
    BuildSegmentHasNoBar(p);
    if VerifySession(p, token, key, now) == Ok(s) {
      var text := Open(p, key, token).value;
      var segs := Split(text, '|');
      OpensIffSigned(p, key, token, text);
      JoinSplit(text, '|');
      assert segs == [s.user, segs[1], segs[2], s.nonce, BuildSegment(p)];
      assert segs[0] in segs && segs[1] in segs && segs[2] in segs && segs[3] in segs;
      assert GoodSession(p, key, token, now, s, segs[1], segs[2]);
    }
    if role, expiry :| GoodSession(p, key, token, now, s, role, expiry) {
      var segs := [s.user, role, expiry, s.nonce, BuildSegment(p)];
      OpensIffSigned(p, key, token, Join(segs, '|'));
      SplitJoin(segs, '|');
    }
  }

  ghost predicate GoodVerifyStep(p: Platform, key: seq<Byte>, token: string, now: int, s: VerifyStep, expiry: string) {
    Signed(p, key, token, Join(["totp", s.user, s.role, expiry, s.nonce, BuildSegment(p)], '|')) &&
    '|' !in s.user && '|' !in s.role && '|' !in expiry && '|' !in s.nonce &&
    ParseInt64(expiry) == Some(s.exp) && now <= s.exp
  }

  lemma VerifyStepAcceptedIff(p: Platform, key: seq<Byte>, token: string, now: int, s: VerifyStep)
    ensures VerifyVerifyStep(p, key, token, now) == Ok(s) <==>
      exists expiry :: GoodVerifyStep(p, key, token, now, s, expiry)
  {
    hide Open, Split, Join, ParseInt64, BuildSegment, Signed;
    BuildSegmentHasNoBar(p);
    assert '|' !in "totp";
    if VerifyVerifyStep(p, key, token, now) == Ok(s) {
      var text := Open(p, key, token).value;
      var segs := Split(text, '|');
      OpensIffSigned(p, key, token, text);
      JoinSplit(text, '|');
      assert segs == ["totp", s.user, s.role, segs[3], s.nonce, BuildSegment(p)];
      assert segs[1] in segs && segs[2] in segs && segs[3] in segs && segs[4] in segs;
      assert GoodVerifyStep(p, key, token, now, s, segs[3]);
    }
    if expiry :| GoodVerifyStep(p, key, token, now, s, expiry) {
      var segs := ["totp", s.user, s.role, expiry, s.nonce, BuildSegment(p)];
      OpensIffSigned(p, key, token, Join(segs, '|'));
      SplitJoin(segs, '|');
    }
  }

  ghost predicate GoodSetupStep(p: Platform, key: seq<Byte>, token: string, now: int, s: SetupStep, expiry: string, secret: string) {
    Signed(p, key, token, Join(["setup", s.user, s.role, expiry, secret, BuildSegment(p)], '|')) &&
    '|' !in s.user && '|' !in s.role && '|' !in expiry && '|' !in secret &&
    ParseInt64(expiry) == Some(s.exp) && now <= s.exp && Decode(secret).Some? && p.toText(Decode(secret).value) == s.secret
  }

  lemma SetupStepAcceptedIff(p: Platform, key: seq<Byte>, token: string, now: int, s: SetupStep)
    ensures VerifySetupStep(p, key, token, now) == Ok(s) <==>
      exists expiry, secret :: GoodSetupStep(p, key, token, now, s, expiry, secret)
  {
    hide Open, Split, Join, ParseInt64, BuildSegment, Signed, Decode;
    BuildSegmentHasNoBar(p);
    assert '|' !in "setup";
    if VerifySetupStep(p, key, token, now) == Ok(s) {
      var text := Open(p, key, token).value;
      var segs := Split(text, '|');
      OpensIffSigned(p, key, token, text);
      JoinSplit(text, '|');
      assert segs == ["setup", s.user, s.role, segs[3], segs[4], BuildSegment(p)];
      assert segs[1] in segs && segs[2] in segs && segs[3] in segs && segs[4] in segs;
      assert GoodSetupStep(p, key, token, now, s, segs[3], segs[4]);
    }
    if expiry, secret :| GoodSetupStep(p, key, token, now, s, expiry, secret) {
      var segs := ["setup", s.user, s.role, expiry, secret, BuildSegment(p)];
      OpensIffSigned(p, key, token, Join(segs, '|'));
      SplitJoin(segs, '|');
    }
  }

  // What is minted: the fields in their order, the expiry in decimal and a blank role as admin, signed.
  lemma MintedTexts(p: Platform, key: seq<Byte>, user: string, role: string, exp: int, nonce: string, secret: string)
    requires p.Lossless()
    ensures Signed(p, key, MintSession(p, user, role, exp, nonce, key),
      Join([user, if TrimSpace(role) == "" then "admin" else role, Itoa(exp), nonce, BuildSegment(p)], '|'))
    ensures Signed(p, key, MintVerifyStep(p, key, user, role, nonce, exp),
      Join(["totp", user, role, Itoa(exp), nonce, BuildSegment(p)], '|'))
    ensures Signed(p, key, MintSetupStep(p, key, user, role, secret, exp),
      Join(["setup", user, role, Itoa(exp), Encode(p.toBytes(secret)), BuildSegment(p)], '|'))
  {
    hide Open, Sign, Join, Itoa, BuildSegment, Signed, TrimSpace, Encode;
    var session := Join(SessionFields(p, user, role, exp, nonce), '|');
    var verify := Join(VerifyStepFields(p, user, role, nonce, exp), '|');
    var setup := Join(SetupStepFields(p, user, role, secret, exp), '|');
    OpenOfSign(p, key, session);
    OpensIffSigned(p, key, Sign(p, key, session), session);
    OpenOfSign(p, key, verify);
    OpensIffSigned(p, key, Sign(p, key, verify), verify);
    OpenOfSign(p, key, setup);
    OpensIffSigned(p, key, Sign(p, key, setup), setup);
  }

  // A token of another key is refused by all three verifiers, unless its MAC happens to be the same.
  lemma ForeignTokensAreRefused(p: Platform, key: seq<Byte>, other: seq<Byte>, payload: string, now: int)
    requires p.hmac(other, p.toBytes(payload)) != p.hmac(key, p.toBytes(payload))
    ensures var token := Sign(p, key, payload);
      VerifySession(p, token, other, now) == Err(InvalidSignature) &&
      VerifyVerifyStep(p, other, token, now) == Err(InvalidSignature) &&
      VerifySetupStep(p, other, token, now) == Err(InvalidSignature)
  {
    hide Open, Sign, ParseSession, ParseVerifyStep, ParseSetupStep;
    OtherKeyIsRefused(p, key, other, payload);
  }

  // After a release nobody keeps a token: those of another build segment are refused.
  lemma OldBuildsAreRefused(p: Platform, build: string, key: seq<Byte>, user: string, role: string, exp: int, extra: string, now: int)
    requires p.Lossless() && BuildSegment(p.(buildVersion := build)) != BuildSegment(p)
    ensures var former := p.(buildVersion := build);
      VerifySession(p, MintSession(former, user, role, exp, extra, key), key, now).Err? &&
      VerifyVerifyStep(p, key, MintVerifyStep(former, key, user, role, extra, exp), now).Err? &&
      VerifySetupStep(p, key, MintSetupStep(former, key, user, role, extra, exp), now).Err?
  {
    hide Open, Sign, Split, Join, ParseInt64, BuildSegment, Blank, Itoa, Encode, Decode;
    var former := p.(buildVersion := build);
    SameFields(p, former, key, SessionFields(former, user, role, exp, extra));
    SameFields(p, former, key, VerifyStepFields(former, user, role, extra, exp));
    SameFields(p, former, key, SetupStepFields(former, user, role, extra, exp));
  }

  // If the payload splits into as many parts as it had fields, they are the fields.
  lemma SameFields(p: Platform, former: Platform, key: seq<Byte>, fields: seq<string>)
    requires p.Lossless() && former == p.(buildVersion := former.buildVersion) && fields != []
    ensures var r := Open(p, key, Sign(former, key, Join(fields, '|')));
      r.Ok? && (|Split(r.value, '|')| == |fields| ==> Split(r.value, '|') == fields)
  {
    hide Open, Sign, Split, Join;
    OpenOfSign(p, key, Join(fields, '|'));
    assert Sign(former, key, Join(fields, '|')) == Sign(p, key, Join(fields, '|')) by { SameSignature(p, former, key, Join(fields, '|')); }
    SplitJoinCount(fields, '|');
    if |Split(Join(fields, '|'), '|')| == |fields| {
      SplitJoin(fields, '|');
    }
  }

  lemma SameSignature(p: Platform, former: Platform, key: seq<Byte>, payload: string)
    requires former == p.(buildVersion := former.buildVersion)
    ensures Sign(former, key, payload) == Sign(p, key, payload)
  {
  }
}
