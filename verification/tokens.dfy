/** The decision logic of the token consumers of `User` (app/models.py):
    `confirm`, `reset_password`, `change_email` and `verify_auth_token`.
    Signing, expiry and the secret key belong to the serializer library and
    are one abstract `Decoder`: it yields the payload object of a token that
    is well-formed, correctly signed and unexpired, and `None` for any
    other token (everything the source's bare `except:` swallows). */
module Tokens {
  import opened Base
  import opened Users

  type Token = string

  type Decoder = Token -> Option<Payload>

  /** The payloads the token generators sign. Each names its user under
      its own key only, so no payload passes for another purpose. */
  function ConfirmationPayload(u: User): (d: Payload)
    ensures d.Keys == {"confirm"} && PyEqualsInt(d["confirm"], u.id)
  {
    map["confirm" := JInt(u.id)]
  }

  function ResetPayload(u: User): (d: Payload)
    ensures d.Keys == {"reset"} && PyEqualsInt(d["reset"], u.id)
  {
    map["reset" := JInt(u.id)]
  }

  function EmailChangePayload(u: User, newEmail: string): (d: Payload)
    ensures d.Keys == {"change_email", "new_email"} && PyEqualsInt(d["change_email"], u.id)
    ensures d["new_email"] == JStr(newEmail)
  {
    map["change_email" := JInt(u.id), "new_email" := JStr(newEmail)]
  }

  /** The payload field `key` decodes to a value equal to the user's id. */
  predicate NamesUser(decode: Decoder, token: Token, key: string, u: User) {
    decode(token).Some? && PyEqualsInt(Get(decode(token).value, key), u.id)
  }

  /** `u.confirm(token)`: true exactly when the token decodes and its
      `confirm` field equals u's id; only then is u marked confirmed, and
      nothing else about u changes. */
  function Confirm(decode: Decoder, token: Token, u: User): (res: (bool, User))
    ensures res.0 <==> decode(token).Some? && "confirm" in decode(token).value
                       && PyEqualsInt(decode(token).value["confirm"], u.id)
    ensures res.1.confirmed == (u.confirmed || res.0)
    ensures res.1.(confirmed := u.confirmed) == u
  {
    match decode(token)
    case None => (false, u)
    case Some(data) =>
      if !PyEqualsInt(Get(data, "confirm"), u.id) then (false, u)
      else (true, u.(confirmed := true))
  }

  /** A confirmation token issued for u confirms u. */
  lemma ConfirmRoundTrip(decode: Decoder, token: Token, u: User)
    requires decode(token) == Some(ConfirmationPayload(u))
    ensures Confirm(decode, token, u) == (true, u.(confirmed := true))
  {
  }

  /** A confirmation token issued for someone else, or a token issued for
      any other purpose, confirms nobody. */
  lemma ConfirmRejectsOthers(decode: Decoder, token: Token, u: User, v: User, e: string)
    ensures decode(token) == Some(ConfirmationPayload(v)) && v.id != u.id ==> Confirm(decode, token, u) == (false, u)
    ensures decode(token) == Some(ResetPayload(v)) ==> Confirm(decode, token, u) == (false, u)
    ensures decode(token) == Some(EmailChangePayload(v, e)) ==> Confirm(decode, token, u) == (false, u)
    ensures decode(token) == Some(AuthPayload(v)) ==> Confirm(decode, token, u) == (false, u)
  {
  }

  /** Tokens are not consumed: a token that confirmed u confirms the
      updated u again, with no further change. */
  lemma ConfirmReusable(decode: Decoder, token: Token, u: User)
    requires Confirm(decode, token, u).0
    ensures Confirm(decode, token, Confirm(decode, token, u).1) == Confirm(decode, token, u)
  {
  }

  /** `u.reset_password(token, new_password)` as written: true exactly when
      the token decodes and its `reset` field equals u's id; `new_password`
      is never used and u never changes. */
  function ResetPassword(decode: Decoder, token: Token, newPassword: string, u: User): (res: (bool, User))
    ensures res.0 <==> decode(token).Some? && "reset" in decode(token).value
                       && PyEqualsInt(decode(token).value["reset"], u.id)
    ensures res.1 == u
  {
    match decode(token)
    case None => (false, u)
    case Some(data) =>
      if !PyEqualsInt(Get(data, "reset"), u.id) then (false, u)
      else (true, u)
  }

  /** A valid reset token for u is accepted, yet the password hash stays
      what it was, whatever new password was given. */
  lemma ResetPasswordIgnoresNewPassword(decode: Decoder, token: Token, newPassword: string, u: User)
    requires decode(token) == Some(ResetPayload(u))
    ensures ResetPassword(decode, token, newPassword, u).0
    ensures ResetPassword(decode, token, newPassword, u).1.passwordHash == u.passwordHash
  {
  }

  /** The evidently intended `reset_password`: the same decision, and on
      success the hash of `newPassword` replaces the stored one. `hash`
      stands for the foreign salted hashing routine. */
  function ResetPasswordFixed(decode: Decoder, token: Token, newPassword: string, hash: string -> string,
                              u: User): (res: (bool, User))
    ensures res.0 == ResetPassword(decode, token, newPassword, u).0
    ensures res.0 ==> res.1 == u.(passwordHash := Some(hash(newPassword)))
    ensures !res.0 ==> res.1 == u
  {
    if NamesUser(decode, token, "reset", u) then (true, u.(passwordHash := Some(hash(newPassword))))
    else (false, u)
  }

  /** `self.query.filter_by(email=new_email).first() is not None`: some
      stored user already has this address. Only a string can equal a
      stored address. */
  predicate EmailTaken(users: seq<User>, v: Json) {
    v.JStr? && exists i :: 0 <= i < |users| && users[i].email == Some(v.s)
  }

  /** `u.change_email(token)` as written: true exactly when the token
      decodes, its `change_email` field equals u's id, it carries a non-null
      `new_email`, and no stored user (u included) has that address; u never
      changes. */
  function ChangeEmail(decode: Decoder, token: Token, u: User, users: seq<User>): (res: (bool, User))
    ensures res.0 <==> decode(token).Some? && "change_email" in decode(token).value
                       && PyEqualsInt(decode(token).value["change_email"], u.id)
                       && "new_email" in decode(token).value && decode(token).value["new_email"] != JNull
                       && !EmailTaken(users, decode(token).value["new_email"])
    ensures res.1 == u
  {
    match decode(token)
    case None => (false, u)
    case Some(data) =>
      if !PyEqualsInt(Get(data, "change_email"), u.id) then (false, u)
      else
        var newEmail := Get(data, "new_email");
        if newEmail == JNull then (false, u)
        else if EmailTaken(users, newEmail) then (false, u)
        else (true, u)
  }

  /** An email-change token for u naming a free address is accepted. */
  lemma ChangeEmailRoundTrip(decode: Decoder, token: Token, u: User, users: seq<User>, e: string)
    requires decode(token) == Some(EmailChangePayload(u, e))
    requires forall i :: 0 <= i < |users| ==> users[i].email != Some(e)
    ensures ChangeEmail(decode, token, u, users) == (true, u)
  {
  }

  /** An address another stored user already has is refused, even with a
      valid token for u; so is u's own current address. */
  lemma ChangeEmailRejectsTaken(decode: Decoder, token: Token, u: User, users: seq<User>, e: string)
    requires decode(token) == Some(EmailChangePayload(u, e))
    requires exists i :: 0 <= i < |users| && users[i].email == Some(e)
    ensures ChangeEmail(decode, token, u, users) == (false, u)
  {
  }

  lemma ChangeEmailRejectsOwnAddress(decode: Decoder, token: Token, u: User, users: seq<User>)
    requires u in users && u.email.Some?
    requires decode(token) == Some(EmailChangePayload(u, u.email.value))
    ensures ChangeEmail(decode, token, u, users) == (false, u)
  {
  }

  /** An accepted change leaves u's address as it was. */
  lemma ChangeEmailKeepsAddress(decode: Decoder, token: Token, u: User, users: seq<User>, e: string)
    requires decode(token) == Some(EmailChangePayload(u, e))
    requires forall i :: 0 <= i < |users| ==> users[i].email != Some(e)
    ensures ChangeEmail(decode, token, u, users).0
    ensures ChangeEmail(decode, token, u, users).1.email == u.email
    ensures u.email != Some(e) ==> ChangeEmail(decode, token, u, users).1.email != Some(e)
  {
  }

  /** The evidently intended `change_email`: the same decision for a string
      address, and on success u's address becomes the new one, which no
      stored user had before. */
  function ChangeEmailFixed(decode: Decoder, token: Token, u: User, users: seq<User>): (res: (bool, User))
    ensures res.0 ==> ChangeEmail(decode, token, u, users).0
    ensures (ChangeEmail(decode, token, u, users).0 && Get(decode(token).value, "new_email").JStr?) ==> res.0
    ensures res.0 ==> decode(token).Some? && "new_email" in decode(token).value
                      && decode(token).value["new_email"].JStr?
                      && res.1 == u.(email := Some(decode(token).value["new_email"].s))
                      && forall i :: 0 <= i < |users| ==> users[i].email != res.1.email
    ensures !res.0 ==> res.1 == u
  {
    if ChangeEmail(decode, token, u, users).0 && Get(decode(token).value, "new_email").JStr? then
      (true, u.(email := Some(Get(decode(token).value, "new_email").s)))
    else (false, u)
  }

  /** An email-change token issued for u naming an address no stored user
      has moves u to that address. */
  lemma ChangeEmailFixedRoundTrip(decode: Decoder, token: Token, u: User, users: seq<User>, e: string)
    requires decode(token) == Some(EmailChangePayload(u, e))
    requires forall i :: 0 <= i < |users| ==> users[i].email != Some(e)
    ensures ChangeEmailFixed(decode, token, u, users) == (true, u.(email := Some(e)))
  {
  }

  /** Exceptions the auth-token code raises instead of returning. */
  datatype Raised = KeyError | AttributeError

  /** The payload `generate_auth_token` evidently means to sign. */
  function AuthPayload(u: User): Payload {
    map["id" := JInt(u.id)]
  }

  /** `generate_auth_token` as written reads `self.d`, an attribute `User`
      does not have, so it raises before anything is signed. */
  function GenerateAuthPayloadAsWritten(u: User): Result<Payload, Raised> {
    Failure(AttributeError)
  }

  /** The corrected generator: sign `{'id': self.id}`. */
  function GenerateAuthPayload(u: User): (r: Result<Payload, Raised>)
    ensures r.Success? && r.value.Keys == {"id"} && PyEqualsInt(r.value["id"], u.id)
  {
    Success(AuthPayload(u))
  }

  /** As written, no user ever obtains an auth token, although the
      corrected generator gives every user one that authenticates them. */
  lemma AuthTokenNeverIssued(decode: Decoder, token: Token, u: User, users: seq<User>)
    ensures GenerateAuthPayloadAsWritten(u) == Failure(AttributeError)
    ensures GenerateAuthPayload(u).Success?
    ensures (&& (forall i, j :: 0 <= i < j < |users| ==> users[i].id != users[j].id)
             && u in users
             && decode(token) == Some(GenerateAuthPayload(u).value))
            ==> VerifyAuthToken(decode, token, users) == Success(Some(u))
  {
    if && (forall i, j :: 0 <= i < j < |users| ==> users[i].id != users[j].id)
       && u in users
       && decode(token) == Some(GenerateAuthPayload(u).value)
    {
      AuthTokenRoundTrip(decode, token, u, users);
    }
  }

  predicate HasIdOf(v: Json, u: User) {
    PyEqualsInt(v, u.id)
  }

  /** `User.verify_auth_token(token)`: `None` for a token that does not
      decode; `KeyError` for a decoded payload without an `id` field;
      otherwise `User.query.get(data['id'])`, the stored user with that id or
      `None`. */
  function VerifyAuthToken(decode: Decoder, token: Token, users: seq<User>): (r: Result<Option<User>, Raised>)
    ensures decode(token).None? ==> r == Success(None)
    ensures r.Failure? <==> decode(token).Some? && "id" !in decode(token).value
    ensures r.Failure? ==> r.error == KeyError
    ensures (r.Success? && r.value.Some?) ==>
              && r.value.value in users && decode(token).Some?
              && PyEqualsInt(decode(token).value["id"], r.value.value.id)
    ensures (decode(token).Some? && r == Success(None)) ==>
              forall i :: 0 <= i < |users| ==> !PyEqualsInt(decode(token).value["id"], users[i].id)
  {
    match decode(token)
    case None => Success(None)
    case Some(data) =>
      if "id" !in data then Failure(KeyError)
      else
        var key := data["id"];
        match Find(users, (v: User) => HasIdOf(key, v))
        case Some(k) => Success(Some(users[k]))
        case None => Success(None)
  }

  /** The corrected generator and the verifier round-trip: a token signed
      over u's auth payload identifies u among users with distinct ids. */
  lemma AuthTokenRoundTrip(decode: Decoder, token: Token, u: User, users: seq<User>)
    requires forall i, j :: 0 <= i < j < |users| ==> users[i].id != users[j].id
    requires u in users
    requires GenerateAuthPayload(u).Success? && decode(token) == Some(GenerateAuthPayload(u).value)
    ensures VerifyAuthToken(decode, token, users) == Success(Some(u))
  {
  }

  /** A confirmation, reset or email-change token is no auth token: its
      payload has no `id` field, so verifying it raises. */
  lemma VerifyRaisesOnOtherPurposes(decode: Decoder, token: Token, users: seq<User>, v: User, e: string)
    requires decode(token) in {Some(ConfirmationPayload(v)), Some(ResetPayload(v)), Some(EmailChangePayload(v, e))}
    ensures VerifyAuthToken(decode, token, users) == Failure(KeyError)
  {
  }
}
