/**
 * The `/v1/auth` handlers: session and claim tokens, the mock OTP, guest
 * sessions, registration (with the upgrade of a guest account), login and
 * the identifier probe. `generateUUID` is a stream of random 32-digit hex
 * strings handed in as `draws`; bcrypt is a hash result and a comparison
 * function; the table is a `UserTable`.
 */
module Auth {
  import opened Wrappers
  import opened GoStrings
  import opened Users

  predicate IsLowerHexDigit(c: char) {
    '0' <= c <= '9' || 'a' <= c <= 'f'
  }

  /** The output of `generateUUID`: 16 random bytes as 32 lower-case hex digits. */
  type Hex32 = s: string | |s| == 32 && forall k :: 0 <= k < |s| ==> IsLowerHexDigit(s[k])
    witness "00000000000000000000000000000000"

  const TokenPrefix: string := "mock_token_"
  const ClaimPrefix: string := "claim_"

  /** `generateToken`: "mock_token_" + the user's uuid + "_" + a fresh random hex string. */
  function GenerateToken(uuid: string, random: Hex32): (token: string)
    ensures TokenPrefix <= token
    ensures token[|TokenPrefix|..] == uuid + "_" + random
  {
    TokenPrefix + uuid + "_" + random
  }

  /** The token `authOtpVerify` issues: the contact type, chosen by the presence of '@', then the identifier. */
  function ClaimToken(identifier: string): (token: string)
    ensures ClaimPrefix <= token && |token| == |ClaimPrefix| + 6 + |identifier|
    ensures token[|ClaimPrefix| + 6..] == identifier
    ensures ClaimPrefix + "email:" <= token <==> '@' in identifier
  {
    var tag := if '@' in identifier then "email:" else "phone:";
    assert (ClaimPrefix + tag + identifier)[|ClaimPrefix| + 1] == tag[1];
    ClaimPrefix + tag + identifier
  }

  datatype ContactKind = EmailContact | PhoneContact

  datatype Claim = Claim(kind: ContactKind, identifier: string)

  datatype ClaimParse = Claimed(claim: Claim) | ClaimRejected(error: string)

  /** The claim-token parse in `authRegister`: the prefix, then a type tag up to the first ':', then the identifier. */
  function ParseClaim(token: string): (r: ClaimParse)
    ensures r.Claimed? <==> ClaimPrefix <= token && ':' in token[|ClaimPrefix|..]
    ensures r.ClaimRejected? ==> r.error == "invalid_claim_token" || r.error == "invalid_claim_token_format"
    ensures r.Claimed? ==> |r.claim.identifier| < |token| && token[|token| - |r.claim.identifier|..] == r.claim.identifier
  {
    if !(ClaimPrefix <= token) then ClaimRejected("invalid_claim_token")
    else
      var payload := TrimPrefix(token, ClaimPrefix);
      assert payload == token[|ClaimPrefix|..];
      var parts := SplitFirst(payload, ':');
      if |parts| != 2 then ClaimRejected("invalid_claim_token_format")
      else
        assert token[|token| - |parts[1]|..] == parts[1] by {
          assert token == ClaimPrefix + payload;
          assert payload == parts[0] + [':'] + parts[1];
        }
        Claimed(Claim(if parts[0] == "email" then EmailContact else PhoneContact, parts[1]))
  }

  /** The contact kind a verified identifier gets: email exactly when it contains '@'. */
  function KindOf(identifier: string): ContactKind {
    if '@' in identifier then EmailContact else PhoneContact
  }

  /** Parsing an issued claim token recovers the identifier, even one holding ':', and its kind. */
  lemma ClaimRoundTrip(identifier: string)
    ensures ParseClaim(ClaimToken(identifier)) == Claimed(Claim(KindOf(identifier), identifier))
  {
    var tag := if '@' in identifier then "email" else "phone";
    assert ClaimToken(identifier) == ClaimPrefix + (tag + [':'] + identifier);
    TaggedClaimParses(tag, identifier);
  }

  /** The prefix, a ':'-free tag, ':' and an identifier parse as that identifier; the tag "email" makes it an email. */
  lemma TaggedClaimParses(tag: string, identifier: string)
    requires ':' !in tag
    ensures ParseClaim(ClaimPrefix + (tag + [':'] + identifier)) ==
      Claimed(Claim(if tag == "email" then EmailContact else PhoneContact, identifier))
  {
    var token := ClaimPrefix + (tag + [':'] + identifier);
    assert TrimPrefix(token, ClaimPrefix) == tag + [':'] + identifier;
    SplitFirstCons(tag, identifier, ':');
  }

  /** A token without the prefix, or without a ':' after it, is refused; any tag but "email" means phone. */
  lemma ClaimRejections(token: string)
    ensures !(ClaimPrefix <= token) ==> ParseClaim(token) == ClaimRejected("invalid_claim_token")
    ensures ClaimPrefix <= token && ':' !in token[|ClaimPrefix|..] ==>
      ParseClaim(token) == ClaimRejected("invalid_claim_token_format")
    ensures ParseClaim(token).Claimed? && ParseClaim(token).claim.kind == EmailContact ==>
      ClaimPrefix + "email:" <= token
  {
    if ClaimPrefix <= token && ParseClaim(token).Claimed? {
      var payload := token[|ClaimPrefix|..];
      var parts := SplitFirst(payload, ':');
      if parts[0] == "email" {
        assert token == ClaimPrefix + payload;
        assert payload == "email" + [':'] + parts[1];
      }
    }
  }

  datatype Reply =
    | ErrorReply(error: string)
    | BindErrorReply                     // the binder's own message, whose text is not modelled
    | OtpSent(mockOtp: string)
    | ClaimIssued(claimToken: string)
    | NotRegistered                      // {"exists": false}
    | Registered(isGuest: bool)          // {"exists": true, "is_guest": ...}
    | Session(token: string, user: UserView)

  datatype Answer = Answer(status: int, reply: Reply)

  /** An answer and the table it leaves behind. */
  datatype Outcome = Outcome(answer: Answer, store: Store)

  /** `Some(&input.DeviceID)` when a device id was sent. */
  function DeviceOf(deviceId: string): (r: Option<string>)
    ensures r.None? <==> deviceId == ""
  {
    if deviceId == "" then None else Some(deviceId)
  }

  // ---------------------------------------------------------------- OTP

  /** `authOtpSend`: the mock always sends "1234". */
  function OtpSendAnswer(): Answer {
    Answer(200, OtpSent("1234"))
  }

  /** The `authOtpVerify` body; `None` when it is not a JSON object of that shape. */
  datatype OtpRequest = OtpRequest(identifier: string, otp: string)

  /** `authOtpVerify`: both fields required; the mock accepts "123456" and "1234"; the answer is the claim token. */
  function OtpVerifyAnswer(input: Option<OtpRequest>): (a: Answer)
    ensures a.status == 200 || a.status == 400 || a.status == 401
    ensures a.status == 200 <==> a.reply.ClaimIssued?
    ensures a.reply.ClaimIssued? ==> input.Some? && a.reply.claimToken == ClaimToken(input.value.identifier)
  {
    if input.None? || input.value.identifier == "" || input.value.otp == "" then Answer(400, BindErrorReply)
    else if input.value.otp != "123456" && input.value.otp != "1234" then Answer(401, ErrorReply("invalid_otp"))
    else Answer(200, ClaimIssued(ClaimToken(input.value.identifier)))
  }

  /** Verification succeeds exactly for the two mock codes; otherwise 401, or 400 for a missing field. */
  lemma OtpVerifyIff(input: Option<OtpRequest>)
    ensures OtpVerifyAnswer(input).status == 200 <==>
      input.Some? && input.value.identifier != "" && (input.value.otp == "123456" || input.value.otp == "1234")
    ensures (input.Some? && input.value.identifier != "" && input.value.otp != "" &&
             input.value.otp != "123456" && input.value.otp != "1234") ==> OtpVerifyAnswer(input).status == 401
    ensures OtpVerifyAnswer(input).status == 200 ==>
      ParseClaim(OtpVerifyAnswer(input).reply.claimToken) ==
        Claimed(Claim(KindOf(input.value.identifier), input.value.identifier))
  {
    if OtpVerifyAnswer(input).status == 200 {
      ClaimRoundTrip(input.value.identifier);
    }
  }

  /** The code `authOtpSend` hands out is accepted by `authOtpVerify`. */
  lemma SentOtpVerifies(identifier: string)
    requires identifier != ""
    ensures OtpVerifyAnswer(Some(OtpRequest(identifier, OtpSendAnswer().reply.mockOtp))) ==
      Answer(200, ClaimIssued(ClaimToken(identifier)))
  {
  }

  // ---------------------------------------------------------------- guest

  /** `authGuest`: an empty body counts as no device id; `None` is a body that does not decode. */
  function GuestOutcome(s: Store, input: Option<string>, draws: seq<Hex32>): Outcome
    requires |draws| >= 3
  {
    if input.None? then Outcome(Answer(400, ErrorReply("invalid_request")), s)
    else
      var deviceId := input.value;
      var existing := if deviceId == "" then None else First(s.rows, GuestWithDevice(deviceId));
      if existing.Some? then
        Outcome(Answer(200, Session(GenerateToken(existing.value.uuid, draws[0]), AuthView(existing.value))), s)
      else
        var guest := User(0, draws[1], None, None, DeviceOf(deviceId), "", false, true,
                          "Guest_" + draws[0][..8], "");
        var (s', created) := Insert(s, guest);
        if created.None? then Outcome(Answer(500, ErrorReply("failed_create_guest")), s)
        else Outcome(Answer(200, Session(GenerateToken(created.value.uuid, draws[2]), AuthView(created.value))), s')
  }

  method Guest(table: UserTable, input: Option<string>, draws: seq<Hex32>) returns (answer: Answer)
    requires |draws| >= 3 && table.Valid()
    modifies table
    ensures table.Valid()
    ensures Outcome(answer, table.State()) == GuestOutcome(old(table.State()), input, draws)
  {
    if input.None? {
      return Answer(400, ErrorReply("invalid_request"));
    }
    var deviceId := input.value;
    if deviceId != "" {
      var existing := First(table.rows, GuestWithDevice(deviceId));
      if existing.Some? {
        var user := existing.value;
        return Answer(200, Session(GenerateToken(user.uuid, draws[0]), AuthView(user)));
      }
    }
    var username := "Guest_" + draws[0][..8];
    var user := User(0, draws[1], None, None, DeviceOf(deviceId), "", false, true, username, "");
    var created := table.Create(user);
    if created.None? {
      return Answer(500, ErrorReply("failed_create_guest"));
    }
    user := created.value;
    return Answer(200, Session(GenerateToken(user.uuid, draws[2]), AuthView(user)));
  }

  /** A device that already has a guest account gets that account back, and the table is untouched. */
  lemma GuestSessionReused(s: Store, deviceId: string, draws: seq<Hex32>, k: nat)
    requires |draws| >= 3 && ValidStore(s) && deviceId != ""
    requires k < |s.rows| && s.rows[k].deviceId == Some(deviceId) && s.rows[k].isGuest
    ensures GuestOutcome(s, Some(deviceId), draws) ==
      Outcome(Answer(200, Session(GenerateToken(s.rows[k].uuid, draws[0]), AuthView(s.rows[k]))), s)
  {
    forall i | 0 <= i < |s.rows| && i != k
      ensures !Matches(GuestWithDevice(deviceId), s.rows[i])
    {
      if i < k {
        assert !Clash(s.rows[i], s.rows[k]);
      } else {
        assert !Clash(s.rows[k], s.rows[i]);
      }
    }
    FirstFindsOnly(s.rows, GuestWithDevice(deviceId), k);
  }

  /** A new guest has no contact, no pin and the guest flag; its token carries its own uuid. */
  lemma NewGuestIsAnonymous(s: Store, input: Option<string>, draws: seq<Hex32>)
    requires |draws| >= 3
    ensures var o := GuestOutcome(s, input, draws);
      o.store != s ==>
        && o.answer.status == 200
        && o.answer.reply.Session?
        && o.answer.reply.user.isGuest
        && !o.answer.reply.user.hasPin
        && o.answer.reply.user.email.None? && o.answer.reply.user.phone.None?
        && o.answer.reply.user.uuid == draws[1]
        && o.answer.reply.token == GenerateToken(draws[1], draws[2])
  {
  }

  /** A device id already held by a registered account can never open a guest session: the insert clashes. */
  lemma RegisteredDeviceBlocksGuest(s: Store, deviceId: string, draws: seq<Hex32>, k: nat)
    requires |draws| >= 3 && ValidStore(s) && deviceId != ""
    requires k < |s.rows| && s.rows[k].deviceId == Some(deviceId) && !s.rows[k].isGuest
    ensures GuestOutcome(s, Some(deviceId), draws) == Outcome(Answer(500, ErrorReply("failed_create_guest")), s)
  {
    forall i | 0 <= i < |s.rows|
      ensures !Matches(GuestWithDevice(deviceId), s.rows[i])
    {
      if i < k {
        assert !Clash(s.rows[i], s.rows[k]);
      } else if k < i {
        assert !Clash(s.rows[k], s.rows[i]);
      }
    }
    var guest := User(0, draws[1], None, None, DeviceOf(deviceId), "", false, true, "Guest_" + draws[0][..8], "");
    assert Clash(s.rows[k], guest.(id := s.nextId));
  }

  // ---------------------------------------------------------------- register

  datatype RegisterRequest = RegisterRequest(
    claimToken: string, pin: string, guestUuid: string, deviceId: string, biometricsEnabled: bool)

  /** The binding rules: `claim_token` required, `pin` required with exactly four characters. */
  predicate RegisterBinds(input: Option<RegisterRequest>) {
    input.Some? && input.value.claimToken != "" && |input.value.pin| == 4
  }

  /** The existence check `authRegister` runs for the claimed contact. */
  function ContactQuery(c: Claim): Query {
    if c.kind == EmailContact then EmailIs(c.identifier) else PhoneIs(c.identifier)
  }

  /** The claimed guest after the upgrade: the claimed contact, the pin, biometrics, a fresh username, the device if sent. */
  function Upgrade(guest: User, c: Claim, hash: string, req: RegisterRequest, draw: Hex32): User {
    guest.(email := if c.kind == EmailContact then Some(c.identifier) else guest.email,
           phone := if c.kind == PhoneContact then Some(c.identifier) else guest.phone,
           pinHash := hash,
           isGuest := false,
           biometricsEnabled := req.biometricsEnabled,
           username := "User_" + draw[..8],
           deviceId := if req.deviceId != "" then Some(req.deviceId) else guest.deviceId)
  }

  /** A new registered user: fresh uuid, the claimed contact, the pin, a fresh username. */
  function Fresh(c: Claim, hash: string, req: RegisterRequest, uuidDraw: Hex32, nameDraw: Hex32): User {
    User(0, uuidDraw,
         if c.kind == EmailContact then Some(c.identifier) else None,
         if c.kind == PhoneContact then Some(c.identifier) else None,
         DeviceOf(req.deviceId), hash, req.biometricsEnabled, false, "User_" + nameDraw[..8], "")
  }

  /** The guest a registration upgrades, if it names one. */
  function GuestToUpgrade(s: Store, req: RegisterRequest): Option<User> {
    if req.guestUuid == "" then None else First(s.rows, GuestWithUuid(req.guestUuid))
  }

  /** `authRegister`; `hashed` is bcrypt's result for the pin (`None` when hashing failed). */
  function RegisterOutcome(s: Store, input: Option<RegisterRequest>, hashed: Option<string>,
                           draws: seq<Hex32>): Outcome
    requires |draws| >= 3
  {
    if !RegisterBinds(input) then Outcome(Answer(400, BindErrorReply), s)
    else
      var req := input.value;
      match ParseClaim(req.claimToken)
      case ClaimRejected(error) => Outcome(Answer(401, ErrorReply(error)), s)
      case Claimed(c) =>
        if hashed.None? then Outcome(Answer(500, ErrorReply("encryption_failed")), s)
        else if First(s.rows, ContactQuery(c)).Some? then Outcome(Answer(409, ErrorReply("user_already_exists")), s)
        else Enroll(s, req, c, hashed.value, draws)
  }

  /** The second half of `authRegister`, once the claim is new: upgrade the named guest, or create a user. */
  function Enroll(s: Store, req: RegisterRequest, c: Claim, hash: string, draws: seq<Hex32>): Outcome
    requires |draws| >= 3
  {
    var guest := GuestToUpgrade(s, req);
    if guest.Some? then
      var user := Upgrade(guest.value, c, hash, req, draws[0]);
      var (s', saved) := Update(s, user);
      if !saved then Outcome(Answer(500, ErrorReply("failed_upgrade_guest")), s)
      else Outcome(Answer(201, Session(GenerateToken(user.uuid, draws[1]), AuthView(user))), s')
    else
      var (s', created) := Insert(s, Fresh(c, hash, req, draws[0], draws[1]));
      if created.None? then Outcome(Answer(500, ErrorReply("db_error")), s)
      else Outcome(Answer(201, Session(GenerateToken(created.value.uuid, draws[2]), AuthView(created.value))), s')
  }

  method Register(table: UserTable, input: Option<RegisterRequest>, hashed: Option<string>, draws: seq<Hex32>)
    returns (answer: Answer)
    requires |draws| >= 3 && table.Valid()
    modifies table
    ensures table.Valid()
    ensures Outcome(answer, table.State()) == RegisterOutcome(old(table.State()), input, hashed, draws)
  {
    if !RegisterBinds(input) {
      return Answer(400, BindErrorReply);
    }
    var req := input.value;
    var parsed := ParseClaim(req.claimToken);
    if parsed.ClaimRejected? {
      return Answer(401, ErrorReply(parsed.error));
    }
    var c := parsed.claim;
    if hashed.None? {
      return Answer(500, ErrorReply("encryption_failed"));
    }
    if First(table.rows, ContactQuery(c)).Some? {
      return Answer(409, ErrorReply("user_already_exists"));
    }
    var user := User(0, "", None, None, None, "", false, false, "", "");
    var userFound := false;
    if req.guestUuid != "" {
      var guest := First(table.rows, GuestWithUuid(req.guestUuid));
      if guest.Some? {
        user := Upgrade(guest.value, c, hashed.value, req, draws[0]);
        var saved := table.Save(user);
        if !saved {
          return Answer(500, ErrorReply("failed_upgrade_guest"));
        }
        userFound := true;
      }
    }
    // generateUUID has been called once on the upgrade path and twice on the create path
    var tokenDraw := draws[1];
    if !userFound {
      var created := table.Create(Fresh(c, hashed.value, req, draws[0], draws[1]));
      if created.None? {
        return Answer(500, ErrorReply("db_error"));
      }
      user := created.value;
      tokenDraw := draws[2];
    }
    return Answer(201, Session(GenerateToken(user.uuid, tokenDraw), AuthView(user)));
  }

  /** Registration keeps every unique index of the table. */
  lemma RegisterKeepsValid(s: Store, input: Option<RegisterRequest>, hashed: Option<string>, draws: seq<Hex32>)
    requires |draws| >= 3 && ValidStore(s)
    ensures ValidStore(RegisterOutcome(s, input, hashed, draws).store)
  {
    if RegisterBinds(input) && ParseClaim(input.value.claimToken).Claimed? && hashed.Some? {
      EnrollKeepsValid(s, input.value, ParseClaim(input.value.claimToken).claim, hashed.value, draws);
    }
  }

  /** Enrolment keeps every unique index of the table. */
  lemma EnrollKeepsValid(s: Store, req: RegisterRequest, c: Claim, hash: string, draws: seq<Hex32>)
    requires |draws| >= 3 && ValidStore(s)
    ensures ValidStore(Enroll(s, req, c, hash, draws).store)
  {
    var guest := GuestToUpgrade(s, req);
    if guest.Some? {
      assert guest.value in s.rows;
      UpdateKeepsValid(s, Upgrade(guest.value, c, hash, req, draws[0]));
    } else {
      InsertKeepsValid(s, Fresh(c, hash, req, draws[0], draws[1]));
    }
  }


  /** Every answer other than 201 leaves the table as it was. */
  lemma RegisterFailureKeepsStore(s: Store, input: Option<RegisterRequest>, hashed: Option<string>, draws: seq<Hex32>)
    requires |draws| >= 3
    ensures var o := RegisterOutcome(s, input, hashed, draws);
      o.answer.status != 201 ==> o.store == s
  {
    if RegisterBinds(input) {
      var claim := ParseClaim(input.value.claimToken);
      if claim.Claimed? && hashed.Some? && First(s.rows, ContactQuery(claim.claim)).None? {
        assert RegisterOutcome(s, input, hashed, draws) == Enroll(s, input.value, claim.claim, hashed.value, draws);
        EnrollFailureKeepsStore(s, input.value, claim.claim, hashed.value, draws);
      }
    }
  }

  /** An enrolment that does not answer 201 leaves the table as it was. */
  lemma EnrollFailureKeepsStore(s: Store, req: RegisterRequest, c: Claim, hash: string, draws: seq<Hex32>)
    requires |draws| >= 3
    ensures var o := Enroll(s, req, c, hash, draws);
      o.answer.status != 201 ==> o.store == s
  {
  }

  /** A contact that is already registered gives 409 before any guest is looked up. */
  lemma ContactTakenConflicts(s: Store, req: RegisterRequest, hash: string, draws: seq<Hex32>)
    requires |draws| >= 3 && RegisterBinds(Some(req)) && ParseClaim(req.claimToken).Claimed?
    requires First(s.rows, ContactQuery(ParseClaim(req.claimToken).claim)).Some?
    ensures RegisterOutcome(s, Some(req), Some(hash), draws) ==
      Outcome(Answer(409, ErrorReply("user_already_exists")), s)
  {
  }

  /**
   * Upgrading a guest keeps its id and uuid, clears the guest flag, sets
   * the claimed contact and leaves the other one alone, replaces the device
   * id only when one was sent, and stores the pin hash.
   */
  lemma GuestUpgradeKeepsIdentity(s: Store, req: RegisterRequest, hash: string, draws: seq<Hex32>, guest: User)
    requires |draws| >= 3 && hash != ""
    requires GuestToUpgrade(s, req) == Some(guest)
    ensures var o := RegisterOutcome(s, Some(req), Some(hash), draws);
      o.answer.status == 201 ==>
        && ParseClaim(req.claimToken).Claimed?
        && o.answer.reply.Session?
        && var c := ParseClaim(req.claimToken).claim;
        && var v := o.answer.reply.user;
        && v.id == guest.id && v.uuid == guest.uuid && !v.isGuest && v.hasPin
        && (c.kind == EmailContact ==> v.email == Some(c.identifier) && v.phone == guest.phone)
        && (c.kind == PhoneContact ==> v.phone == Some(c.identifier) && v.email == guest.email)
        && v.deviceId == (if req.deviceId != "" then Some(req.deviceId) else guest.deviceId)
        && o.answer.reply.token == GenerateToken(guest.uuid, draws[1])
  {
    var o := RegisterOutcome(s, Some(req), Some(hash), draws);
    if o.answer.status == 201 {
      RegisterEnrols(s, req, hash, draws);
      var c := ParseClaim(req.claimToken).claim;
      var user := Upgrade(guest, c, hash, req, draws[0]);
      assert o.answer.reply == Session(GenerateToken(user.uuid, draws[1]), AuthView(user));
    }
  }

  /** A 201 from `authRegister` is the enrolment of the parsed claim. */
  lemma RegisterEnrols(s: Store, req: RegisterRequest, hash: string, draws: seq<Hex32>)
    requires |draws| >= 3
    ensures var o := RegisterOutcome(s, Some(req), Some(hash), draws);
      o.answer.status == 201 ==>
        && RegisterBinds(Some(req))
        && ParseClaim(req.claimToken).Claimed?
        && First(s.rows, ContactQuery(ParseClaim(req.claimToken).claim)).None?
        && o == Enroll(s, req, ParseClaim(req.claimToken).claim, hash, draws)
  {
  }

  /**
   * Enrolment stores a registered (not guest) user with the claimed
   * identifier in the column its tag names and the pin hash, and answers
   * with that row. A created user has only the claimed contact, the first
   * uuid draw and the next id, and is appended to the table.
   */
  lemma EnrollStoresClaim(s: Store, req: RegisterRequest, c: Claim, hash: string, draws: seq<Hex32>)
    requires |draws| >= 3 && hash != ""
    ensures var o := Enroll(s, req, c, hash, draws);
      o.answer.status == 201 ==>
        && o.answer.reply.Session?
        && var v := o.answer.reply.user;
        && v.hasPin && !v.isGuest
        && (c.kind == EmailContact ==> v.email == Some(c.identifier))
        && (c.kind == PhoneContact ==> v.phone == Some(c.identifier))
        && (exists u :: u in o.store.rows && u.pinHash == hash && AuthView(u) == v)
        && (GuestToUpgrade(s, req).None? ==>
              && v.uuid == draws[0] && v.id == s.nextId
              && (c.kind == EmailContact ==> v.phone == None)
              && (c.kind == PhoneContact ==> v.email == None)
              && |o.store.rows| == |s.rows| + 1 && o.store.rows[..|s.rows|] == s.rows)
  {
    var o := Enroll(s, req, c, hash, draws);
    var guest := GuestToUpgrade(s, req);
    if o.answer.status == 201 {
      if guest.Some? {
        var user := Upgrade(guest.value, c, hash, req, draws[0]);
        var k :| 0 <= k < |s.rows| && s.rows[k] == guest.value;
        assert o.store.rows[k] == user;
      } else {
        var row := Fresh(c, hash, req, draws[0], draws[1]).(id := s.nextId);
        assert o.store.rows[|s.rows|] == row;
      }
    }
  }

  /**
   * A successful registration stores a registered user with the claimed
   * identifier in the column its tag names and the pin hash, and answers
   * with that row.
   */
  lemma RegisterStoresClaim(s: Store, req: RegisterRequest, hash: string, draws: seq<Hex32>)
    requires |draws| >= 3 && hash != ""
    ensures var o := RegisterOutcome(s, Some(req), Some(hash), draws);
      o.answer.status == 201 ==>
        && ParseClaim(req.claimToken).Claimed?
        && o.answer.reply.Session?
        && var c := ParseClaim(req.claimToken).claim;
        && var v := o.answer.reply.user;
        && v.hasPin && !v.isGuest
        && (c.kind == EmailContact ==> v.email == Some(c.identifier))
        && (c.kind == PhoneContact ==> v.phone == Some(c.identifier))
        && (exists u :: u in o.store.rows && u.pinHash == hash && AuthView(u) == v)
        && (GuestToUpgrade(s, req).None? ==>
              && (c.kind == EmailContact ==> v.phone == None)
              && (c.kind == PhoneContact ==> v.email == None))
  {
    var o := RegisterOutcome(s, Some(req), Some(hash), draws);
    if o.answer.status == 201 {
      RegisterEnrols(s, req, hash, draws);
      EnrollStoresClaim(s, req, ParseClaim(req.claimToken).claim, hash, draws);
    }
  }

  /**
   * Registering with a claim token from `authOtpVerify` stores a registered
   * user with the verified identifier in the right column and the pin hash.
   */
  lemma RegisterWithIssuedClaim(s: Store, req: RegisterRequest, identifier: string, hash: string, draws: seq<Hex32>)
    requires |draws| >= 3 && hash != ""
    requires req.claimToken == ClaimToken(identifier)
    ensures var o := RegisterOutcome(s, Some(req), Some(hash), draws);
      o.answer.status == 201 ==>
        && o.answer.reply.Session?
        && var v := o.answer.reply.user;
        && v.hasPin && !v.isGuest
        && ('@' in identifier ==> v.email == Some(identifier))
        && ('@' !in identifier ==> v.phone == Some(identifier))
        && (exists u :: u in o.store.rows && u.pinHash == hash && AuthView(u) == v)
  {
    ClaimRoundTrip(identifier);
    RegisterStoresClaim(s, req, hash, draws);
  }

  /**
   * In a valid table, after a successful registration the claimed contact
   * finds exactly the stored user: the row with the pin hash that the
   * answer shows.
   */
  lemma RegisteredContactFindsUser(s: Store, req: RegisterRequest, hash: string, draws: seq<Hex32>)
    requires |draws| >= 3 && hash != "" && ValidStore(s)
    ensures var o := RegisterOutcome(s, Some(req), Some(hash), draws);
      o.answer.status == 201 ==>
        && ParseClaim(req.claimToken).Claimed?
        && var found := First(o.store.rows, ContactQuery(ParseClaim(req.claimToken).claim));
        && o.answer.reply.Session?
        && found.Some? && found.value.pinHash == hash && AuthView(found.value) == o.answer.reply.user
  {
    var o := RegisterOutcome(s, Some(req), Some(hash), draws);
    if o.answer.status == 201 {
      RegisterEnrols(s, req, hash, draws);
      var c := ParseClaim(req.claimToken).claim;
      if GuestToUpgrade(s, req).Some? {
        UpgradedContactFindsUser(s, req, c, hash, draws);
      } else {
        CreatedContactFindsUser(s, req, c, hash, draws);
      }
    }
  }

  /** After a guest upgrade, the claimed contact finds the upgraded row. */
  lemma UpgradedContactFindsUser(s: Store, req: RegisterRequest, c: Claim, hash: string, draws: seq<Hex32>)
    requires |draws| >= 3 && ValidStore(s) && GuestToUpgrade(s, req).Some?
    ensures var o := Enroll(s, req, c, hash, draws);
      o.answer.status == 201 ==>
        && var found := First(o.store.rows, ContactQuery(c));
        && o.answer.reply.Session?
        && found.Some? && found.value.pinHash == hash && AuthView(found.value) == o.answer.reply.user
  {
    var o := Enroll(s, req, c, hash, draws);
    if o.answer.status == 201 {
      var guest := GuestToUpgrade(s, req).value;
      var user := Upgrade(guest, c, hash, req, draws[0]);
      EnrollKeepsValid(s, req, c, hash, draws);
      var k :| 0 <= k < |s.rows| && s.rows[k] == guest;
      assert o.store.rows[k] == user;
      ContactFindsRow(o.store.rows, ContactQuery(c), k);
    }
  }

  /** After creating a user, the claimed contact finds the new row. */
  lemma CreatedContactFindsUser(s: Store, req: RegisterRequest, c: Claim, hash: string, draws: seq<Hex32>)
    requires |draws| >= 3 && ValidStore(s) && GuestToUpgrade(s, req).None?
    ensures var o := Enroll(s, req, c, hash, draws);
      o.answer.status == 201 ==>
        && var found := First(o.store.rows, ContactQuery(c));
        && o.answer.reply.Session?
        && found.Some? && found.value.pinHash == hash && AuthView(found.value) == o.answer.reply.user
  {
    var o := Enroll(s, req, c, hash, draws);
    if o.answer.status == 201 {
      var row := Fresh(c, hash, req, draws[0], draws[1]).(id := s.nextId);
      EnrollKeepsValid(s, req, c, hash, draws);
      assert o.store.rows[|s.rows|] == row;
      ContactFindsRow(o.store.rows, ContactQuery(c), |s.rows|);
    }
  }

  // ---------------------------------------------------------------- login

  datatype LoginRequest = LoginRequest(identifier: string, pin: string, deviceId: string)

  /** The user a login finds and, when a new device id was sent, the same user carrying it. */
  function WithDevice(user: User, deviceId: string): User {
    if deviceId != "" && user.deviceId != Some(deviceId) then user.(deviceId := Some(deviceId)) else user
  }

  /**
   * `authLogin`; `verify(hash, pin)` is bcrypt's comparison. The save of a
   * changed device id ignores its error, so the answer shows the new device
   * id whether or not it was stored.
   */
  function LoginOutcome(s: Store, input: Option<LoginRequest>, verify: (string, string) -> bool, draw: Hex32): Outcome
  {
    if input.None? || input.value.identifier == "" || input.value.pin == "" then Outcome(Answer(400, BindErrorReply), s)
    else
      var req := input.value;
      var found := First(s.rows, ContactIs(req.identifier));
      if found.None? || !verify(found.value.pinHash, req.pin) then
        Outcome(Answer(401, ErrorReply("invalid_credentials")), s)
      else
        var user := WithDevice(found.value, req.deviceId);
        var s' := if user != found.value then Update(s, user).0 else s;
        Outcome(Answer(200, Session(GenerateToken(user.uuid, draw), AuthView(user))), s')
  }

  method Login(table: UserTable, input: Option<LoginRequest>, verify: (string, string) -> bool, draw: Hex32)
    returns (answer: Answer)
    requires table.Valid()
    modifies table
    ensures table.Valid()
    ensures Outcome(answer, table.State()) == LoginOutcome(old(table.State()), input, verify, draw)
  {
    if input.None? || input.value.identifier == "" || input.value.pin == "" {
      return Answer(400, BindErrorReply);
    }
    var req := input.value;
    var found := First(table.rows, ContactIs(req.identifier));
    if found.None? {
      return Answer(401, ErrorReply("invalid_credentials"));
    }
    var user := found.value;
    if !verify(user.pinHash, req.pin) {
      return Answer(401, ErrorReply("invalid_credentials"));
    }
    var shouldSave := false;
    if req.deviceId != "" {
      if user.deviceId.None? || user.deviceId.value != req.deviceId {
        user := user.(deviceId := Some(req.deviceId));
        shouldSave := true;
      }
    }
    assert user == WithDevice(found.value, req.deviceId);
    assert shouldSave <==> user != found.value;
    if shouldSave {
      // the error of this save is ignored
      var _ := table.Save(user);
    }
    return Answer(200, Session(GenerateToken(user.uuid, draw), AuthView(user)));
  }

  /** An unknown identifier and a wrong pin get the very same answer, and neither changes the table. */
  lemma LoginFailuresIndistinguishable(s: Store, req: LoginRequest, verify: (string, string) -> bool, draw: Hex32)
    requires req.identifier != "" && req.pin != ""
    ensures var found := First(s.rows, ContactIs(req.identifier));
      (found.None? || !verify(found.value.pinHash, req.pin)) <==>
        LoginOutcome(s, Some(req), verify, draw) == Outcome(Answer(401, ErrorReply("invalid_credentials")), s)
  {
  }

  /**
   * A login writes to the table only when a non-empty device id differs
   * from the stored one, and then only that row's device id changes; the
   * answer carries the sent device id even when the write failed.
   */
  lemma LoginWritesOnlyNewDevice(s: Store, req: LoginRequest, verify: (string, string) -> bool, draw: Hex32)
    requires ValidStore(s) && req.identifier != "" && req.pin != ""
    ensures var o := LoginOutcome(s, Some(req), verify, draw);
      var found := First(s.rows, ContactIs(req.identifier));
      && (o.store != s ==>
            && found.Some?
            && req.deviceId != "" && found.value.deviceId != Some(req.deviceId)
            && o.store == Store(Replace(s.rows, found.value.(deviceId := Some(req.deviceId))), s.nextId))
      && (o.answer.status == 200 && req.deviceId != "" ==> o.answer.reply.user.deviceId == Some(req.deviceId))
  {
  }

  // ---------------------------------------------------------------- identify

  /** `authIdentify`: whether any account holds the identifier as its email or phone. */
  function IdentifyAnswer(rows: seq<User>, input: Option<string>): (a: Answer)
    ensures a.status == 400 <==> input.None? || input.value == ""
    ensures a.status != 400 ==> a.status == 200 && (a.reply.Registered? || a.reply == NotRegistered)
    ensures a.reply.Registered? ==>
      && input.Some?
      && exists u :: u in rows && (u.email == Some(input.value) || u.phone == Some(input.value)) && u.isGuest == a.reply.isGuest
    ensures a.reply == NotRegistered ==>
      && input.Some?
      && forall k :: 0 <= k < |rows| ==> rows[k].email != Some(input.value) && rows[k].phone != Some(input.value)
  {
    if input.None? || input.value == "" then Answer(400, BindErrorReply)
    else
      match First(rows, ContactIs(input.value))
      case None => Answer(200, NotRegistered)
      case Some(u) => Answer(200, Registered(u.isGuest))
  }

  /** An identifier the probe reports unknown cannot log in; a known one logs in with the right pin. */
  lemma IdentifyAgreesWithLogin(s: Store, req: LoginRequest, verify: (string, string) -> bool, draw: Hex32)
    requires req.identifier != "" && req.pin != ""
    ensures IdentifyAnswer(s.rows, Some(req.identifier)).reply == NotRegistered ==>
      LoginOutcome(s, Some(req), verify, draw).answer.status == 401
    ensures (IdentifyAnswer(s.rows, Some(req.identifier)).reply.Registered? &&
             verify(First(s.rows, ContactIs(req.identifier)).value.pinHash, req.pin)) ==>
      LoginOutcome(s, Some(req), verify, draw).answer.status == 200
  {
  }
}
