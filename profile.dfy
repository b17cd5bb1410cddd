/**
 * `updateProfile` (`PUT /v1/user`): set the username and, when a claim
 * token backs it, a new email or phone. The claim token is checked only by
 * its prefix "claim_email:<email>" or "claim_phone:<phone>".
 */
module Profile {
  import opened Wrappers
  import opened GoStrings
  import opened Users
  import Auth

  datatype ProfileRequest = ProfileRequest(username: string, email: string, phone: string, claimToken: string)

  datatype Reply = ErrorReply(error: string) | BindErrorReply | Saved(user: UserView)

  datatype Answer = Answer(status: int, reply: Reply)

  datatype Outcome = Outcome(answer: Answer, store: Store)

  const EmailClaimRequired: string := "Email verification required. Please verify OTP."
  const PhoneClaimRequired: string := "Phone verification required. Please verify OTP."

  /** Whether the request changes the stored email: a non-empty email other than the stored one. */
  predicate ChangesEmail(user: User, req: ProfileRequest) {
    req.email != "" && user.email != Some(req.email)
  }

  predicate ChangesPhone(user: User, req: ProfileRequest) {
    req.phone != "" && user.phone != Some(req.phone)
  }

  /** The guard on a new email: the claim token starts with "claim_email:" and the email. */
  predicate EmailClaimed(req: ProfileRequest) {
    "claim_email:" + req.email <= req.claimToken
  }

  predicate PhoneClaimed(req: ProfileRequest) {
    "claim_phone:" + req.phone <= req.claimToken
  }

  /** The user after the contact updates and the username, before saving. */
  function Edited(user: User, req: ProfileRequest): User {
    user.(email := if ChangesEmail(user, req) then Some(req.email) else user.email,
          phone := if ChangesPhone(user, req) then Some(req.phone) else user.phone,
          username := req.username)
  }

  /**
   * `updateProfile` for the context's `userID` (`None` when unset). The
   * answer's `has_pin` is false: this handler never sets it.
   */
  function ProfileOutcome(s: Store, userId: Option<nat>, input: Option<ProfileRequest>): Outcome {
    if userId.None? then Outcome(Answer(401, ErrorReply("unauthorized")), s)
    else if input.None? then Outcome(Answer(400, BindErrorReply), s)
    else
      var req := input.value;
      if TrimSpace(req.username) == "" then Outcome(Answer(400, ErrorReply("Username cannot be empty")), s)
      else if First(s.rows, UsernameElsewhere(req.username, userId.value)).Some? then
        Outcome(Answer(409, ErrorReply("Username is already taken")), s)
      else
        match First(s.rows, IdIs(userId.value))
        case None => Outcome(Answer(404, ErrorReply("User not found")), s)
        case Some(user) =>
          if ChangesEmail(user, req) && !EmailClaimed(req) then Outcome(Answer(403, ErrorReply(EmailClaimRequired)), s)
          else if ChangesPhone(user, req) && !PhoneClaimed(req) then Outcome(Answer(403, ErrorReply(PhoneClaimRequired)), s)
          else
            var edited := Edited(user, req);
            var (s', saved) := Update(s, edited);
            if !saved then Outcome(Answer(500, ErrorReply("Failed to update profile.")), s)
            else Outcome(Answer(200, Saved(ViewWith(edited, false))), s')
  }

  method UpdateProfile(table: UserTable, userId: Option<nat>, input: Option<ProfileRequest>) returns (answer: Answer)
    requires table.Valid()
    modifies table
    ensures table.Valid()
    ensures Outcome(answer, table.State()) == ProfileOutcome(old(table.State()), userId, input)
  {
    if userId.None? {
      return Answer(401, ErrorReply("unauthorized"));
    }
    if input.None? {
      return Answer(400, BindErrorReply);
    }
    var req := input.value;
    if TrimSpace(req.username) == "" {
      return Answer(400, ErrorReply("Username cannot be empty"));
    }
    if First(table.rows, UsernameElsewhere(req.username, userId.value)).Some? {
      return Answer(409, ErrorReply("Username is already taken"));
    }
    var found := First(table.rows, IdIs(userId.value));
    if found.None? {
      return Answer(404, ErrorReply("User not found"));
    }
    var user := found.value;
    ghost var before := user;
    if ChangesEmail(user, req) {
      if !EmailClaimed(req) {
        return Answer(403, ErrorReply(EmailClaimRequired));
      }
      user := user.(email := Some(req.email));
    }
    if ChangesPhone(user, req) {
      if !PhoneClaimed(req) {
        return Answer(403, ErrorReply(PhoneClaimRequired));
      }
      user := user.(phone := Some(req.phone));
    }
    user := user.(username := req.username);
    assert user == Edited(before, req);
    assert before in table.rows && before.id == user.id;
    var saved := table.Save(user);
    if !saved {
      return Answer(500, ErrorReply("Failed to update profile."));
    }
    return Answer(200, Saved(ViewWith(user, false)));
  }

  /** A saved change of email or phone was backed by a claim token with the matching prefix. */
  lemma ContactChangeNeedsClaim(s: Store, id: nat, req: ProfileRequest)
    ensures var o := ProfileOutcome(s, Some(id), Some(req));
      o.answer.status == 200 ==>
        && First(s.rows, IdIs(id)).Some?
        && var prior := First(s.rows, IdIs(id)).value;
        && (o.answer.reply.user.email != prior.email ==> EmailClaimed(req) && o.answer.reply.user.email == Some(req.email))
        && (o.answer.reply.user.phone != prior.phone ==> PhoneClaimed(req) && o.answer.reply.user.phone == Some(req.phone))
  {
  }

  /** The token `authOtpVerify` issues for an email passes the email guard; one for a phone passes the phone guard. */
  lemma IssuedClaimPassesGuard(req: ProfileRequest)
    ensures '@' in req.email && req.claimToken == Auth.ClaimToken(req.email) ==> EmailClaimed(req)
    ensures '@' !in req.phone && req.claimToken == Auth.ClaimToken(req.phone) ==> PhoneClaimed(req)
  {
    if '@' in req.email && req.claimToken == Auth.ClaimToken(req.email) {
      assert req.claimToken == "claim_email:" + req.email;
    }
    if '@' !in req.phone && req.claimToken == Auth.ClaimToken(req.phone) {
      assert req.claimToken == "claim_phone:" + req.phone;
    }
  }

  /**
   * The prefix test also accepts a token verified for a longer identifier:
   * the claim for `email + suffix` passes the guard for `email`.
   */
  lemma LongerClaimPassesGuard(email: string, suffix: string, username: string, phone: string)
    requires '@' in email
    ensures EmailClaimed(ProfileRequest(username, email, phone, Auth.ClaimToken(email + suffix)))
  {
    assert '@' in email + suffix by {
      var i :| 0 <= i < |email| && email[i] == '@';
      assert (email + suffix)[i] == '@';
    }
    assert Auth.ClaimToken(email + suffix) == ("claim_email:" + email) + suffix;
  }

  /** One request cannot change both email and phone: no token starts with both prefixes. */
  lemma EmailAndPhoneNeverTogether(s: Store, id: nat, req: ProfileRequest)
    requires First(s.rows, IdIs(id)).Some?
    requires ChangesEmail(First(s.rows, IdIs(id)).value, req) && ChangesPhone(First(s.rows, IdIs(id)).value, req)
    ensures ProfileOutcome(s, Some(id), Some(req)).answer.status != 200
  {
    assert ProfileOutcome(s, Some(id), Some(req)).answer.status == 200 ==> EmailClaimed(req) && PhoneClaimed(req) by {
      SavedPassedGuards(s, id, req);
    }
    ClaimPrefixesDiffer(req);
  }

  /** A request answered 200 passed the claim guard of each contact it changes. */
  lemma SavedPassedGuards(s: Store, id: nat, req: ProfileRequest)
    ensures ProfileOutcome(s, Some(id), Some(req)).answer.status == 200 ==>
      && First(s.rows, IdIs(id)).Some?
      && (ChangesEmail(First(s.rows, IdIs(id)).value, req) ==> EmailClaimed(req))
      && (ChangesPhone(First(s.rows, IdIs(id)).value, req) ==> PhoneClaimed(req))
  {
  }

  /** No claim token starts with both "claim_email:" and "claim_phone:". */
  lemma ClaimPrefixesDiffer(req: ProfileRequest)
    ensures !(EmailClaimed(req) && PhoneClaimed(req))
  {
    assert ("claim_email:" + req.email)[6] == 'e';
    assert ("claim_phone:" + req.phone)[6] == 'p';
  }

  /**
   * A successful update stores the username exactly as sent (only the
   * emptiness check trims it), keeps the user's id, uuid, pin hash, guest
   * flag and device, changes no other row, and answers with `has_pin` false.
   */
  lemma ProfileSaveScope(s: Store, id: nat, req: ProfileRequest)
    requires ValidStore(s)
    ensures var o := ProfileOutcome(s, Some(id), Some(req));
      o.answer.status == 200 ==>
        && First(s.rows, IdIs(id)).Some?
        && var prior := First(s.rows, IdIs(id)).value;
        && o.answer.reply.user.username == req.username
        && !o.answer.reply.user.hasPin
        && o.store == Store(Replace(s.rows, Edited(prior, req)), s.nextId)
        && Edited(prior, req).(email := prior.email, phone := prior.phone, username := prior.username) == prior
  {
  }

  /** Every answer but 200 leaves the table unchanged, and the table stays valid. */
  lemma ProfileKeepsValid(s: Store, userId: Option<nat>, input: Option<ProfileRequest>)
    requires ValidStore(s)
    ensures var o := ProfileOutcome(s, userId, input);
      && (o.answer.status != 200 ==> o.store == s)
      && ValidStore(o.store)
  {
    ProfileStoreCases(s, userId, input);
    var o := ProfileOutcome(s, userId, input);
    if o.store != s {
      var user := First(s.rows, IdIs(userId.value)).value;
      assert user in s.rows;
      UpdateKeepsValid(s, Edited(user, input.value));
    }
  }

  /** The table after `updateProfile`: as it was on every answer but 200, else the save of the edited row. */
  lemma ProfileStoreCases(s: Store, userId: Option<nat>, input: Option<ProfileRequest>)
    ensures var o := ProfileOutcome(s, userId, input);
      && (o.answer.status != 200 ==> o.store == s)
      && (o.store == s ||
            (userId.Some? && input.Some? && First(s.rows, IdIs(userId.value)).Some?
             && o.store == Update(s, Edited(First(s.rows, IdIs(userId.value)).value, input.value)).0))
  {
    if userId.Some? && input.Some? && TrimSpace(input.value.username) != ""
       && First(s.rows, UsernameElsewhere(input.value.username, userId.value)).None?
       && First(s.rows, IdIs(userId.value)).Some?
    {
      var user := First(s.rows, IdIs(userId.value)).value;
      EditOutcome(s, user, input.value);
    }
  }

  /** The last step of `updateProfile`, once the caller's row is found: refuse, or save the edit. */
  lemma EditOutcome(s: Store, user: User, req: ProfileRequest)
    ensures var (s', saved) := Update(s, Edited(user, req));
      var o := if ChangesEmail(user, req) && !EmailClaimed(req) then Outcome(Answer(403, ErrorReply(EmailClaimRequired)), s)
        else if ChangesPhone(user, req) && !PhoneClaimed(req) then Outcome(Answer(403, ErrorReply(PhoneClaimRequired)), s)
        else if !saved then Outcome(Answer(500, ErrorReply("Failed to update profile.")), s)
        else Outcome(Answer(200, Saved(ViewWith(Edited(user, req), false))), s');
      && (o.answer.status != 200 ==> o.store == s)
      && (o.store == s || o.store == s')
  {
  }
}
