# Storefront account and cart resolvers, modelled in Dafny

This project models the GraphQL resolvers of the storefront's backend: the
mutations in `backend/src/resolvers/Mutation.js` (items, sign-up and sign-in,
password reset, permissions, the cart) and the two queries with logic of their
own in `backend/src/resolvers/Query.js` (`me` and `users`).

The store the resolvers share is the object `Mutation.Backend`. Its fields are
the user, item and cart-item tables (`seq`s of records, searched first match
first, as the store's list queries are), the response's `token` cookie (the id
of the user a session token was issued for, or nothing), and the next id the
store hands out. Each resolver is a method of that class. It checks its guards
in the source's order and fails with an `Err` at the first one that does not
hold, leaving the store as it was. Otherwise it performs its single write.
`Valid()` is the store's invariant. Every method keeps it:

- user ids, item ids and cart-item ids are unique;
- e-mail addresses are unique;
- a user's reset token and its expiry are set together or cleared together;
- at most one cart item links a user to an item (`Cart.AtMostOnePerPair`);
- every quantity is positive.

The two queries only read, so they are functions over the same object.

Collaborators become parameters:

- bcrypt's `hash` and `compare` are the function parameters `hash` and `verify`;
- `Date.now()` is `now`;
- the random reset token is `token`;
- the schema's default cart quantity is the constructor's `defaultQuantity`.

The request is a `Request` value: the user id the session middleware found,
if any. The request's `user` record is the user with that id in the store.

Some behaviours of the code are modelled exactly as written:

- `deleteItem` (Mutation.js:55-62) refuses a caller only when the caller does
  not own the item AND holds ADMIN or ITEMDELETE. A non-owner without those
  permissions may delete, and an ADMIN who is not the owner may not. The
  `// TODO: check if they own item` just above the guard (Mutation.js:54)
  suggests that an ownership check was still meant to be added. The guard
  is the single predicate `Records.DeleteBlocked`.
  `Records.DeleteGuardAsWritten` and `Scenarios.DeleteByNonOwner` show its
  consequences.
- `requestReset` sets the expiry to now + 1 hour (Mutation.js:115), and
  `resetPassword` accepts any expiry at or after now - 1 hour (Mutation.js:143).
  A token is therefore accepted for up to two hours after it was issued,
  twice the hour `requestReset` puts on its expiry
  (`Records.ResetWindowIsTwoHours`, `Records.ResetTokenFoundWithinTwoHours`).
- `requestReset` replies `'success' + res.resetToken` (Mutation.js:132), so the
  reply carries the token itself. Whoever asks for a reset for an address can
  read the token off the reply and reset that user's password without access
  to their mailbox (`Scenarios.ResetTokenFromReply`).
- A new cart item's quantity is the schema default, since the resolver sets
  none (Mutation.js:229-241).
- `signin` looks the address up exactly as typed. Only `signup` lower-cases
  it (`Scenarios.SigninIsCaseSensitive`).

`Scenarios` holds call sequences verified from the contracts alone: sign-up
lower-cases the address, and sign-in refuses a wrong password. Adding an item
twice gives one cart item of quantity 2. Another user cannot remove your cart
item. A non-owner deletes an item. A reset token works 90 minutes after issue
and works only once, and the token in `requestReset`'s reply resets the
password.

## Model

| member | source | states |
|---|---|---|
| `Seqs.FirstIndex` | backend/src/resolvers/Mutation.js:140-145 | the index of the first row satisfying the filter, with no earlier row satisfying it, or none when no row does (the `const [x] = await query(...)` pattern) |
| `Seqs.RemoveByKey` | backend/src/resolvers/Mutation.js:64 | deleting a row by its unique id keeps ids unique and removes exactly the rows with that id; every other row stays |
| `Records.ApplyChanges` | backend/src/resolvers/Mutation.js:37-49 | `updateItem` sets each given field, keeps every other field, and never changes the id or the owner |
| `Records.UserWithId` | backend/src/resolvers/Query.js:13-18 | the user whose id is the given one, or none when no user has it |
| `Records.UserWithEmail` | backend/src/resolvers/Mutation.js:88-91 | the user whose e-mail is exactly the given string, or none when no user has it |
| `Records.UserWithResetToken` | backend/src/resolvers/Mutation.js:140-148 | a user whose reset token matches and whose expiry is at least now - 3600000, or none when no user passes that filter |
| `Records.CurrentUser` | backend/src/resolvers/Mutation.js:56 | the request's user record: none without a session, otherwise the user whose id is the session's |
| `Records.ItemWithId` | backend/src/resolvers/Mutation.js:51-53 | the item with the given id, or none |
| `Records.CartItemWithId` | backend/src/resolvers/Mutation.js:249-255 | the cart item with the given id, or none |
| `Records.CartItemFor` | backend/src/resolvers/Mutation.js:208-216 | the cart item linking the user to the item, or none when there is none |
| `Records.ExpiryAccepted` | backend/src/resolvers/Mutation.js:141-144 | the `resetTokenExpiry_gte: Date.now() - 3600000` filter: an expiry passes exactly while now is at most one hour past it |
| `Records.ResetTokenAccepted` | backend/src/resolvers/Mutation.js:141-144 | a user passes `resetPassword`'s filter exactly when their token equals the given one and their expiry is set and at most one hour behind now |
| `Records.IssueResetToken` | backend/src/resolvers/Mutation.js:114-119 | the user after `requestReset`'s write: token and expiry (now + 3600000) set, every other field kept, and the token accepted from issue until two hours later |
| `Records.CompleteReset` | backend/src/resolvers/Mutation.js:150-159 | the user after `resetPassword`'s write: password replaced by the new hash, token and expiry cleared so that no token is accepted for them, every other field kept |
| `Records.Intersects` | backend/src/resolvers/Mutation.js:56-58 | `deleteItem`'s `hasPermissions`: true exactly when some permission the caller holds is in the list `['ADMIN', 'ITEMDELETE']`, never with an empty list; `Records.HasPermission` reuses it, there as an assumption about unseen code |
| `Records.HasPermission` | backend/src/resolvers/Mutation.js:185 | ASSUMED behaviour of `hasPermission` (also called at Query.js:26): passes exactly when some permission the user holds is in the allowed list, and never with an empty list |
| `Records.DeleteBlocked` | backend/src/resolvers/Mutation.js:60 | the guard `!ownsItem && hasPermissions`: an owner is never refused, a caller without ADMIN/ITEMDELETE is never refused, and a non-owner holding one is always refused |
| `Records.DeleteGuardAsWritten` | backend/src/resolvers/Mutation.js:55-62 | a non-owner without ADMIN/ITEMDELETE passes the guard; a non-owner with ADMIN is refused |
| `Records.ResetWindowIsTwoHours` | backend/src/resolvers/Mutation.js:115-143 | an expiry set at issue + 1 hour passes the filter exactly while now is at most issue + 2 hours |
| `Records.ResetTokenFoundWithinTwoHours` | backend/src/resolvers/Mutation.js:107-148 | after `requestReset` issued a token held by one user, `resetPassword`'s look-up finds that user exactly up to two hours after issue, and nobody later |
| `Records.ResetTokenSingleUse` | backend/src/resolvers/Mutation.js:150-159 | once a reset has cleared the token, the token is accepted for nobody |
| `Text.LowerChar` | backend/src/resolvers/Mutation.js:67 | an upper-case ASCII letter becomes its lower-case letter, any other character stays, and the result is never upper-case |
| `Text.ToLower` | backend/src/resolvers/Mutation.js:67 | the lower-cased e-mail has the same length, each character lower-cased, and no upper-case letter |
| `Text.ToLowerIdempotent` | backend/src/resolvers/Mutation.js:67 | lower-casing a stored (already lower-cased) address changes nothing |
| `Text.ToLowerKeepsLower` | backend/src/resolvers/Mutation.js:67 | an address without upper-case letters is stored exactly as typed |
| `Cart.PairCountZero` | backend/src/resolvers/Mutation.js:208-218 | the cart-item look-up for (user, item) finds nothing exactly when no cart item links them |
| `Cart.PairCountAppend` | backend/src/resolvers/Mutation.js:229-241 | creating a cart item adds one to its own (user, item) count and nothing to any other |
| `Cart.PairCountUpdate` | backend/src/resolvers/Mutation.js:218-226 | changing the quantity of a cart item leaves every (user, item) count unchanged |
| `Cart.PairCountRemove` | backend/src/resolvers/Mutation.js:261-268 | deleting a cart item takes one from its own (user, item) count and nothing from any other |
| `Cart.UpdateKeepsAtMostOne` | backend/src/resolvers/Mutation.js:218-226 | incrementing an existing cart item keeps at most one cart item per (user, item) |
| `Cart.AppendKeepsAtMostOne` | backend/src/resolvers/Mutation.js:228-241 | creating a cart item for a pair that has none keeps at most one cart item per (user, item) |
| `Cart.RemoveKeepsAtMostOne` | backend/src/resolvers/Mutation.js:243-268 | deleting a cart item keeps at most one cart item per (user, item) |
| `Mutation.Backend.CreateItem` | backend/src/resolvers/Mutation.js:11-36 | without a session: fails, nothing changes; otherwise appends one item with a fresh id, owned by the session user, with the given fields |
| `Mutation.Backend.UpdateItem` | backend/src/resolvers/Mutation.js:37-49 | with no session or ownership check: a missing item fails with nothing changed; otherwise only that item changes, to `ApplyChanges` of it |
| `Mutation.Backend.DeleteItem` | backend/src/resolvers/Mutation.js:50-65 | a missing item or missing request user fails; otherwise it fails, with the permission error, exactly when `DeleteBlocked(owns, holds ADMIN/ITEMDELETE)`; failure changes nothing; success returns the deleted record and removes exactly the item with that id, keeping every other |
| `Mutation.Backend.Signup` | backend/src/resolvers/Mutation.js:66-86 | appends a user with the lower-cased e-mail, `hash(password)` as password, permissions exactly `[USER]`, no reset token, and sets the cookie for that user; a taken address fails with nothing changed |
| `Mutation.Backend.Signin` | backend/src/resolvers/Mutation.js:87-102 | no user with that exact e-mail: "no such user"; `verify` false: "invalid password"; in both cases the cookie is untouched; otherwise returns that user and sets the cookie for them; no table changes |
| `Mutation.Backend.Signout` | backend/src/resolvers/Mutation.js:103-106 | clears the cookie, changes nothing else, and returns the logged-out message |
| `Mutation.Backend.RequestReset` | backend/src/resolvers/Mutation.js:107-133 | no user with that e-mail: fails with nothing changed; otherwise only that user changes: reset token = `token`, expiry = now + 3600000 |
| `Mutation.Backend.ResetPassword` | backend/src/resolvers/Mutation.js:134-169 | mismatched passwords fail first; no user passing the token/expiry filter fails; failures change nothing; otherwise only that user changes: password = `hash(password)`, token and expiry cleared, cookie set for them |
| `Mutation.Backend.UpdatePermissions` | backend/src/resolvers/Mutation.js:170-200 | no session, no caller record, a caller without ADMIN/PERMISSIONUPDATE, or a missing target each fail with nothing changed; otherwise only the target changes and its permission list is exactly the argument |
| `Mutation.Backend.AddToCart` | backend/src/resolvers/Mutation.js:201-242 | no session fails; an existing cart item for (user, item) has its quantity raised by exactly 1 and no cart item is created; otherwise one cart item with the default quantity is appended; afterwards exactly one cart item links the pair |
| `Mutation.Backend.RemoveFromCart` | backend/src/resolvers/Mutation.js:243-269 | no session, a missing cart item, or another user's cart item each fail with nothing changed; otherwise exactly that cart item is deleted |
| `Query.Me` | backend/src/resolvers/Query.js:8-19 | none without a session; otherwise the store's user whose id is the session's, found whenever such a user exists |
| `Query.Users` | backend/src/resolvers/Query.js:20-28 | no session gives "must be logged in"; succeeds exactly when the request's user holds ADMIN or PERMISSIONUPDATE, and then returns the whole user table; it reads the store and changes nothing |

## Left out

- `hasPermission` lives in the utilities module, which is not part of this model. `Records.HasPermission` ASSUMES that it passes exactly when the user holds one of the listed permissions and that it throws otherwise. This is not verified behaviour.
- bcrypt hashing and comparison are the parameters `hash` and `verify`. No cryptographic property is claimed: not salting, not one-wayness, and not that the stored hash differs from the plaintext.
- JWT signing, the cookie's flags (`httpOnly`, 30-day max age) and the signing secret are left out. The cookie is reduced to "a token for user id X".
- `randomBytes` and `Date.now` are left out. The reset token and the clock are parameters.
- Mail sending in `requestReset` (Mutation.js:121-131) is I/O and is left out.
- The `forwardTo('db')` queries `items`, `item` and `itemsConnection` pass straight through to the store library and are not modelled.
- Field projections (the `info` argument) are not modelled.
- Mutation.Backend.CreateItem: succeeds when the session's user id has no user record, where the store's `connect` fails (Mutation.js:20-24). Referential integrity is not modelled.
- Mutation.Backend.AddToCart: succeeds when the item id has no item record, where the store's `connect` fails (Mutation.js:235-237). Referential integrity is not modelled.
- Mutation.Backend.DeleteItem: leaves cart items that refer to the deleted item, as the model keeps no references between tables.
- The store's unique constraint on e-mail is modelled as the `EmailTaken` failure of `signup`. The schema that declares it is not part of this model.
- JavaScript `TypeError`s are modelled as explicit failures. These are a missing item in `deleteItem` and a missing request user in `deleteItem`, `updatePermissions` and `users`. The same goes for the store's error when an update targets a missing record.
- Text.LowerChar: lower-cases ASCII letters only. `toLowerCase` also maps other Unicode upper-case letters.
- Text.ToLower: inherits the ASCII-only lower-casing of `Text.LowerChar`.
- Store-generated ids are modelled as a counter. Real ids are opaque strings.
- Concurrency is left out. Two simultaneous `addToCart` calls could both miss the existing cart item. The model treats each resolver call as atomic.
- `frontend/components/Signin.js`, `RequestReset.js` and `Signout.js` are UI form state and are not modelled.
