# Blog domain model in Dafny

A model of the domain rules of a Flask blogging application, as they appear in
`app/models.py`. The ORM, the token-signing library, the password hasher and
the markdown/HTML sanitiser are treated as abstract. The model covers:

- **Permissions and roles.** The `Permission` bits and `Role.insert_roles`.
  `insert_roles` is an upsert by name that seeds the User, Moderator and
  Administrator roles. The model also covers the role a `User` gets when it
  is built without one, and the `can` / `is_administrator` checks of `User`
  and `AnonymousUser`.
- **The follow graph.** The `follows` table is a set of directed
  `(follower_id, followed_id)` edges. The model has `follow`, `unfollow`,
  `is_following`, `is_followed_by` and the `followed_posts` feed.
- **Token consumers.** `confirm`, `reset_password`, `change_email` and
  `verify_auth_token` are modelled over an abstract decoder
  `Token -> Option<Payload>`. The decoder gives the payload object of a
  well-formed, correctly signed, unexpired token, and `None` for any other
  token.
- **`Post.from_json`.** This is the validation of the body of a new post.

Every operation is a pure function over immutable values. A function returns
the new state, for example `(accepted, user')` for a token consumer, or the
new edge set for a follow.

Modules follow the source's structure:

- `Base`: `Option`, `Result`, decoded JSON values, Python's `dict.get` and
  `==` against an integer id, and `Find`. `Find` is the `.first()` of every
  query: the first matching row in store order.
- `Permission`: the capability bits, bitwise AND/OR on naturals, and the
  test as written (Python's logical `and`) next to the bitwise test.
- `Roles`: the `roles` table and `insert_roles`.
- `Users`: `User`, role defaulting in `__init__`, `can`, `is_administrator`
  and the anonymous user.
- `Posts`: `Post` and `from_json`.
- `Follows`: the follow graph and the feed.
- `Tokens`: the token consumers and the payloads the generators sign.

Python semantics are kept where they change an outcome:

- In `can`, `mask and p` is `p` when the mask is non-zero, and `0` when it
  is zero.
- `True == 1`, so a payload field holding `true` names user 1.
- `dict.get` treats a missing key and a JSON `null` alike.
- `email == FLASKY_ADMIN` holds when both are `None`.

Where the code does something other than what its names suggest, the model
follows the code:

- `can` uses logical `and`, not bitwise `&`.
- `verify_auth_token` raises `KeyError` for a payload without `id`. It does
  not return "invalid".
- `reset_password` and `change_email` accept a token but never write the new
  password or address.
- Nothing keeps a single default role.

## Model

| member | source | states |
|---|---|---|
| `Permission.SeedMaskValues` | app/models.py:14-40 | The User seed is FOLLOW\|COMMENT\|WRITE_ARTICLES = 0x07. Moderator adds MODERATE_COMMENTS, giving 0x0f. Administrator is 0xff. |
| `Permission.GrantsMeansEveryBit` | app/models.py:155-157 | The bitwise test `mask & p == p` passes exactly when every bit set in `p` is set in `mask`. |
| `Permission.AsWrittenMeaning` | app/models.py:157 | The written test `(mask and p) == p` passes exactly when the mask is non-zero or the request is 0. |
| `Permission.AsWrittenVersusBitwise` | app/models.py:155-157 | Every bitwise grant is also a written grant. The two tests disagree exactly when the mask is non-zero and does not hold all requested bits. |
| `Permission.UserMaskPassesAdministerAsWritten` | app/models.py:155-160 | The User mask 0x07 passes the written test for ADMINISTER (0x80) but does not hold that bit. |
| `Permission.SeedMasksBitwise` | app/models.py:14-40 | Under the bitwise test, only the Administrator mask holds ADMINISTER, and only Moderator and Administrator hold MODERATE_COMMENTS. |
| `Roles.Upsert` | app/models.py:43-48 | One loop step looks the role up by name, or appends a new row with a fresh id. Afterwards the first role of that name has the seed's mask and default flag. Every row with another name, and every id and name, is unchanged. An already-seeded registry is returned as is. |
| `Roles.UpsertKeepsKeys` | app/models.py:43-48 | An upsert keeps role names unique and role ids unique. |
| `Roles.UpsertKeepsOtherSeeds` | app/models.py:42-48 | Upserting one seed does not disturb the lookup of any other name. |
| `Roles.UpsertAll` | app/models.py:42-49 | The loop keeps existing rows in place with the same ids and names. Rows whose names are not seeded are untouched. Added rows carry seed names. |
| `Roles.UpsertAllSeedsEach` | app/models.py:42-49 | After the loop, every seed (with distinct names) is in place. |
| `Roles.UpsertAllNoop` | app/models.py:42-49 | On a registry where every seed is in place, the loop changes nothing. |
| `Roles.InsertRoles` | app/models.py:30-49 | Afterwards every seed is in place: the first role of each seed name has the seed's mask and default flag. Existing rows keep their ids and names. Name and id uniqueness are kept. |
| `Roles.InsertRolesIdempotent` | app/models.py:30-49 | Running `insert_roles` twice gives the same registry as running it once. |
| `Roles.InsertRolesResult` | app/models.py:30-49 | Given unique names, afterwards User (0x07, default), Moderator (0x0f, not default) and Administrator (0xff, not default) each exist exactly once. Other roles are unchanged and in place. Name and id uniqueness are kept. |
| `Users.AssignedRole` | app/models.py:85-91 | An explicit role is kept. Otherwise the admin email gets the first role with mask 0xff. Otherwise, or when no such role exists, the user gets the first default role. With no default role, the result is None. |
| `Roles.InsertRolesOnEmpty` | app/models.py:30-49 | On an empty database, `insert_roles` creates exactly User (id 1, 0x07, default), Moderator (id 2, 0x0f) and Administrator (id 3, 0xff). |
| `Users.FreshRegistryRoles` | app/models.py:85-91 | On that freshly seeded registry, a new user with the admin email gets Administrator, and any other new user gets User. |
| `Users.NewUser` | app/models.py:85-91 | The email, username, password-hash and `confirmed` keywords are kept. The user has a role exactly when one was assigned, and then `role_id` is that role's id. |
| `Users.RoleOf` | app/models.py:28 | `user.role` is a registry row whose id is the user's `role_id`. There is no role exactly when `role_id` is unset or no row has that id. |
| `Users.NewUserRole` | app/models.py:85-91 | With unique role ids, the new user's role (looked up through `role_id`) is the assigned role. |
| `Users.Can` | app/models.py:155-157 | A member with a role passes when the role's mask is non-zero or the request is 0. A member without a role fails. The anonymous user fails. |
| `Users.IsAdministrator` | app/models.py:159-160 | As written, a member is an administrator exactly when their role has a non-zero mask. |
| `Users.AnonymousCannot` | app/models.py:218-223 | `AnonymousUser.can` and `is_administrator` are always false, under both the written and the intended tests. |
| `Users.CanBitwise` | app/models.py:155-157 | The intended check passes exactly when the member's role holds every requested bit. |
| `Users.IsAdministratorBitwise` | app/models.py:159-160 | The intended administrator check passes exactly when the role's mask has bit 7 (0x80) set. |
| `Users.CanAsWrittenVersusBitwise` | app/models.py:155-157 | Intended grants are written grants. The two checks differ exactly for a role with a non-zero mask that lacks a requested bit. |
| `Users.UserRoleIsAdministratorAsWritten` | app/models.py:155-160 | A holder of the User role (0x07) is an administrator as written but not under the intended check. |
| `Posts.FromJson` | app/models.py:262-267 | A missing, null or empty body raises `ValidationError('post does not have a body')`. A non-empty string body gives a new, unstored, authorless post with exactly that body. Any other body is rejected. |
| `Posts.FromJsonRoundTrip` | app/models.py:250-267 | The `body` entry of `to_json` for a non-empty body reads back as the same text. |
| `Posts.FromJsonAcceptsBlank` | app/models.py:264-267 | Every non-empty body made only of spaces, tabs and line breaks passes validation and is kept verbatim. |
| `Follows.IsFollowing` | app/models.py:176-177 | u is following t exactly when some edge goes from u's id to t's id. |
| `Follows.IsFollowedBy` | app/models.py:179-180 | u is followed by t exactly when t is following u. |
| `Follows.Follow` | app/models.py:166-169 | Afterwards u follows t. No other edge changes. Repeating the call adds nothing. Self-follow is allowed. |
| `Follows.Unfollow` | app/models.py:171-174 | Afterwards u does not follow t. No other edge changes. Without an edge this is a no-op. |
| `Follows.FollowedByIsConverse` | app/models.py:176-180 | `u.is_followed_by(t)` holds exactly when `t.is_following(u)`. |
| `Follows.FollowIdempotent` | app/models.py:166-169 | Following twice leaves one edge, the same graph as following once. |
| `Follows.FollowUnfollowInverse` | app/models.py:166-177 | Unfollow undoes a fresh follow, and follow restores an edge that unfollow removed. |
| `Follows.FollowedPosts` | app/models.py:182-185 | The feed holds exactly the posts whose author u follows, each as many times as it is stored. Posts without an author never appear. |
| `Follows.FollowShowsPosts` | app/models.py:166-185 | After `u.follow(t)`, every post by t is in u's feed. |
| `Follows.UnfollowHidesPosts` | app/models.py:171-185 | After `u.unfollow(t)`, no post by t is in u's feed, and every other feed post remains. |
| `Follows.SelfFollowShowsOwnPosts` | app/models.py:166-185 | A self-follow puts a user's own posts in their feed. |
| `Follows.FeedSameEdges` | app/models.py:182-185 | The feed depends only on u's outgoing edges. |
| `Follows.FeedIgnoresOthers` | app/models.py:166-185 | Another user's follow or unfollow leaves u's feed unchanged. |
| `Tokens.ConfirmationPayload` | app/models.py:105-107 | The confirmation payload has only the key `confirm`, and it equals the user's id. |
| `Tokens.ResetPayload` | app/models.py:121-123 | The reset payload has only the key `reset`, and it equals the user's id. |
| `Tokens.EmailChangePayload` | app/models.py:136-138 | The email-change payload has only the keys `change_email`, equal to the user's id, and `new_email`, the requested address. |
| `Tokens.Confirm` | app/models.py:109-119 | Returns true exactly when the token decodes and its `confirm` field equals the user's id. Only then is `confirmed` set. Nothing else changes. |
| `Tokens.ConfirmRoundTrip` | app/models.py:105-119 | A confirmation token issued for u confirms u. |
| `Tokens.ConfirmRejectsOthers` | app/models.py:105-138 | A confirmation token for another user, or a reset, email-change or auth token, confirms nobody. |
| `Tokens.ConfirmReusable` | app/models.py:109-119 | A confirming token confirms the user again with no further change. Tokens are not consumed. |
| `Tokens.ResetPassword` | app/models.py:125-134 | Returns true exactly when the token decodes and its `reset` field equals the user's id. The user, including the password hash, never changes. |
| `Tokens.ResetPasswordIgnoresNewPassword` | app/models.py:121-134 | A valid reset token is accepted, and the stored hash is unchanged whatever new password was given. |
| `Tokens.ResetPasswordFixed` | app/models.py:125-134 | Same decision as `reset_password`. On success the stored hash becomes the hash of the new password. |
| `Tokens.ChangeEmail` | app/models.py:140-153 | Returns true exactly when the token decodes, `change_email` equals the id, `new_email` is present and non-null, and no stored user has that address. The user never changes. |
| `Tokens.ChangeEmailRoundTrip` | app/models.py:136-153 | An email-change token for u naming an unused address is accepted. |
| `Tokens.ChangeEmailRejectsTaken` | app/models.py:151-152 | An address some stored user has is refused, even with a valid token. |
| `Tokens.ChangeEmailRejectsOwnAddress` | app/models.py:151-152 | The user's own current address counts as taken. |
| `Tokens.ChangeEmailKeepsAddress` | app/models.py:140-153 | An accepted change leaves the user's address as it was. |
| `Tokens.ChangeEmailFixed` | app/models.py:140-153 | It accepts exactly what `change_email` accepts with a string address. On success the address becomes the new one, which no stored user had. On refusal the user is unchanged. |
| `Tokens.ChangeEmailFixedRoundTrip` | app/models.py:136-153 | An email-change token for u naming an unused address moves u to that address. |
| `Tokens.GenerateAuthPayloadAsWritten` | app/models.py:200-203 | `generate_auth_token` as written raises `AttributeError` before anything is signed. |
| `Tokens.GenerateAuthPayload` | app/models.py:200-203 | The corrected `generate_auth_token` signs a payload whose only key is `id`, holding the user's id. |
| `Tokens.AuthTokenNeverIssued` | app/models.py:200-212 | For every user, `generate_auth_token` as written raises `AttributeError` (`self.d`), while the corrected generator succeeds, and its token authenticates that user among stored users with distinct ids. |
| `Tokens.VerifyAuthToken` | app/models.py:205-212 | Returns None for an undecodable token. Raises `KeyError` for a payload without `id`. Otherwise returns the stored user whose id equals `id`, or None when no stored user has it. |
| `Tokens.AuthTokenRoundTrip` | app/models.py:200-212 | With unique ids, a token over the corrected auth payload for a stored user verifies to that user. |
| `Tokens.VerifyRaisesOnOtherPurposes` | app/models.py:205-212 | A confirmation, reset or email-change token makes `verify_auth_token` raise `KeyError`. |

## Left out

- Markdown rendering and bleach sanitising are left out, and so is the
  derived `body_html` (both `on_changed_body` listeners). They are foreign
  libraries. The `Comment` model has nothing else, so it is left out too.
  The Post allowlist contains the string `'h3,'`, so `h3` is not actually
  allowed. The model claims nothing about it.
- Token signing, expiry and the secret key are left out. The serializer is
  the abstract `Decoder`. This model has no clock, so it cannot observe that
  `generate_confirmation_token` ignores its `expiration` argument.
- Password hashing, `verify_password` and the unreadable `password` getter
  (`ArithmeticError`) are left out: they are foreign crypto. A stored hash is
  an opaque string.
- Output and persistence glue is left out: `to_json` (except its `body`
  entry), `url_for`, `ping`, every timestamp (`member_since`, `last_seen`,
  follow edges, posts), sessions, commits, cascades, lazy queries, and the
  `login_manager` hooks (`load_user`). These are framework I/O.
- The row order of `.first()` and of the feed is the store's own. The model
  uses the sequence order of each table.
- Two concurrent follows racing on the unique key are left out. The model
  has no concurrency.
- `manage.py` is left out. Its `deploy` calls `User.add_self_follows`, which
  `app/models.py` does not define.
- Users that are not stored yet (id `None`) are left out: every modelled
  user has an integer id.
- A `NULL` or negative `Role.permissions` is left out: masks are naturals.
- Floats in payloads are left out. Python's `1.0 == 1` would let a float id
  match, but fractional numbers, arrays and objects are `JOther`, which never
  equals an id.
- A payload or request body that is not a JSON object is left out. Python
  raises `AttributeError` on `.get` there.
- Database coercion of a non-string `new_email` or `id` is left out. Only a
  string matches an address, and only an integer or boolean matches an id.
- `Users.NewUser` takes only the email, username, password-hash, `confirmed`
  and `role` keywords. Profile keywords are left out. A `role_id=` keyword is
  left out too: `self.role` is still `None` during `__init__`, so the
  defaulting picks a role that overrides the given id.
- `Roles.FreshId` gives a new row the larger of 1 and one more than the
  largest id in the table. The real id policy belongs to the store. SQLite, for example,
  can reuse the rowid of a deleted last row.
- `Roles.InsertRoles` applies the seeds in the dict literal's order (User,
  Moderator, Administrator). Under an interpreter with unordered dicts, newly
  created roles could be appended in another order with other ids.
- `Posts.FromJson` returns `BodyNotText` for a body that is neither text nor
  null. In the source, that body passes validation and then fails in the
  markdown listener, which is not modelled.
- `Follows.FollowedPosts` states the feed's contents and how many times each
  post appears, not its row order.
- `Tokens.ChangeEmailFixed` refuses a `new_email` that is not a string,
  which the written `change_email` would accept.

## Findings

| source | as written | input that shows it | evidently intended | confidence | as-written member | corrected member |
|---|---|---|---|---|---|---|
| app/models.py:155-157 | `(self.role.permissions and permissions) == permissions` uses logical `and` | A user holding the User role (mask 0x07) calls `can(Permission.ADMINISTER)` or `is_administrator()`: the result is True | `role.permissions & permissions == permissions` | high; not executed | `Users.UserRoleIsAdministratorAsWritten` | `Users.CanBitwise` |
| app/models.py:200-203 | `s.dumps({'id': self.d})` reads an attribute `User` does not have | Any user calling `generate_auth_token(3600)` gets `AttributeError` | `{'id': self.id}` | high; not executed | `Tokens.AuthTokenNeverIssued` | `Tokens.AuthTokenRoundTrip` |
| app/models.py:125-134 | `reset_password` never uses `new_password` | A valid reset token for u with new password "x": returns True, and the hash is unchanged | `self.password = new_password` before returning True | high; not executed | `Tokens.ResetPasswordIgnoresNewPassword` | `Tokens.ResetPasswordFixed` |
| app/models.py:140-153 | `change_email` never assigns `new_email` | A valid email-change token for u naming an unused address: returns True, and the address is unchanged | `self.email = new_email` before returning True | medium; not executed | `Tokens.ChangeEmailKeepsAddress` | `Tokens.ChangeEmailFixed` |
