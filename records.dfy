/** The records the resolvers read and write (users, items, cart items), the
    request context they receive, their errors, and the pure decisions they
    take: look-ups by column, the permission tests, the delete guard and the
    reset-token window. */
module Records {
  import opened Seqs

  /** Record identifiers, handed out by the store. */
  type Id = nat

  /** A permission label, e.g. "ADMIN". */
  type Permission = string

  const USER: Permission := "USER"
  const ADMIN: Permission := "ADMIN"
  const ITEMDELETE: Permission := "ITEMDELETE"
  const PERMISSIONUPDATE: Permission := "PERMISSIONUPDATE"

  /** One hour in milliseconds: how far `requestReset` puts the expiry ahead of
      now, and how far `resetPassword` looks back from now. */
  const ResetTokenLifetime: int := 3600000

  datatype User = User(
    id: Id,
    name: string,
    email: string,
    password: string,              // the stored hash, never the plaintext
    permissions: seq<Permission>,
    resetToken: Option<string>,
    resetTokenExpiry: Option<int>  // milliseconds since the epoch
  )

  datatype Item = Item(
    id: Id,
    owner: Id,
    title: string,
    description: string,
    price: int,
    image: string,
    largeImage: string
  )

  datatype CartItem = CartItem(id: Id, user: Id, item: Id, quantity: int)

  /** The fields an `updateItem` call may set; `None` leaves a field as it is. */
  datatype ItemChanges = ItemChanges(
    title: Option<string>,
    description: Option<string>,
    price: Option<int>,
    image: Option<string>,
    largeImage: Option<string>
  )

  /** What the upstream middleware resolved from the session cookie. */
  datatype Request = Request(userId: Option<Id>)

  /** The ways a resolver call fails. */
  datatype Error =
    | NotSignedIn              // no user id on the request
    | NoCurrentUser            // the request's user record is missing
    | NoSuchUser(email: string)
    | InvalidPassword
    | PasswordsDoNotMatch
    | InvalidResetToken        // no user with that token inside the window
    | InsufficientPermissions
    | ItemNotFound
    | UserNotFound
    | CartItemNotFound
    | CartItemNotOwned
    | EmailTaken               // the store's uniqueness constraint on e-mail

  datatype Result<+T> = Ok(value: T) | Err(error: Error)

  function UserId(u: User): Id { u.id }
  function UserEmail(u: User): string { u.email }
  function ItemId(i: Item): Id { i.id }
  function CartItemId(c: CartItem): Id { c.id }

  /** The item after an `updateItem` call: every field given in `changes` takes
      its new value, every other field keeps its old one, and the id and the
      owner never change (the resolver drops `id` from the update set). */
  function ApplyChanges(item: Item, changes: ItemChanges): (r: Item)
    ensures r.id == item.id && r.owner == item.owner
    ensures r.title == (if changes.title.Some? then changes.title.value else item.title)
    ensures r.description == (if changes.description.Some? then changes.description.value else item.description)
    ensures r.price == (if changes.price.Some? then changes.price.value else item.price)
    ensures r.image == (if changes.image.Some? then changes.image.value else item.image)
    ensures r.largeImage == (if changes.largeImage.Some? then changes.largeImage.value else item.largeImage)
  {
    item.(
      title := if changes.title.Some? then changes.title.value else item.title,
      description := if changes.description.Some? then changes.description.value else item.description,
      price := if changes.price.Some? then changes.price.value else item.price,
      image := if changes.image.Some? then changes.image.value else item.image,
      largeImage := if changes.largeImage.Some? then changes.largeImage.value else item.largeImage
    )
  }

  /** Look-up of a user by id. */
  function UserWithId(users: seq<User>, id: Id): (r: Option<nat>)
    ensures r.Some? ==> r.value < |users| && users[r.value].id == id
    ensures r.None? ==> forall j :: 0 <= j < |users| ==> users[j].id != id
  {
    FirstIndex(users, (u: User) => u.id == id)
  }

  /** Look-up of a user by e-mail address, compared exactly. */
  function UserWithEmail(users: seq<User>, email: string): (r: Option<nat>)
    ensures r.Some? ==> r.value < |users| && users[r.value].email == email
    ensures r.None? ==> forall j :: 0 <= j < |users| ==> users[j].email != email
  {
    FirstIndex(users, (u: User) => u.email == email)
  }

  /** The reset-token filter of `resetPassword`: the expiry is at least one
      lifetime before now. */
  function ExpiryAccepted(expiry: int, now: int): (b: bool)
    ensures b <==> now <= expiry + ResetTokenLifetime
  {
    expiry >= now - ResetTokenLifetime
  }

  /** `resetPassword`'s filter on one user: the token matches and the expiry is
      set and passes `ExpiryAccepted`. */
  function ResetTokenAccepted(u: User, token: string, now: int): (b: bool)
    ensures b ==> u.resetToken == Some(token) && u.resetTokenExpiry.Some?
    ensures b ==> now <= u.resetTokenExpiry.value + ResetTokenLifetime
    ensures u.resetToken == Some(token) && u.resetTokenExpiry.Some? && now <= u.resetTokenExpiry.value + ResetTokenLifetime ==> b
  {
    u.resetToken == Some(token) && u.resetTokenExpiry.Some? && ExpiryAccepted(u.resetTokenExpiry.value, now)
  }

  /** The user after `requestReset` at time `now` handed them `token`: only the
      two reset fields change, and the token is accepted from then on for two
      lifetimes. */
  function IssueResetToken(u: User, token: string, now: int): (r: User)
    ensures r.id == u.id && r.name == u.name && r.email == u.email
    ensures r.password == u.password && r.permissions == u.permissions
    ensures r.resetToken == Some(token) && r.resetTokenExpiry == Some(now + ResetTokenLifetime)
    ensures forall later :: now <= later <= now + 2 * ResetTokenLifetime ==> ResetTokenAccepted(r, token, later)
  {
    u.(resetToken := Some(token), resetTokenExpiry := Some(now + ResetTokenLifetime))
  }

  /** The user after `resetPassword` stored the new hash `hashed`: the password
      changes, both reset fields are cleared, so no token is accepted for them
      any more, and nothing else changes. */
  function CompleteReset(u: User, hashed: string): (r: User)
    ensures r.id == u.id && r.name == u.name && r.email == u.email && r.permissions == u.permissions
    ensures r.password == hashed
    ensures r.resetToken.None? && r.resetTokenExpiry.None?
    ensures forall token, now :: !ResetTokenAccepted(r, token, now)
  {
    u.(password := hashed, resetToken := None, resetTokenExpiry := None)
  }

  /** The first user whose reset token is `token` and whose expiry passes the filter. */
  function UserWithResetToken(users: seq<User>, token: string, now: int): (r: Option<nat>)
    ensures r.Some? ==> r.value < |users| && users[r.value].resetToken == Some(token)
    ensures r.Some? ==> users[r.value].resetTokenExpiry.Some?
    ensures r.Some? ==> users[r.value].resetTokenExpiry.value >= now - ResetTokenLifetime
    ensures r.Some? ==> forall j :: 0 <= j < r.value ==> !ResetTokenAccepted(users[j], token, now)
    ensures r.None? ==> forall j :: 0 <= j < |users| ==> !ResetTokenAccepted(users[j], token, now)
  {
    FirstIndex(users, (u: User) => ResetTokenAccepted(u, token, now))
  }

  /** The user record behind the request, when there is a session and its user exists. */
  function CurrentUser(users: seq<User>, req: Request): (r: Option<nat>)
    ensures req.userId.None? ==> r.None?
    ensures r.Some? ==> r.value < |users| && Some(users[r.value].id) == req.userId
    ensures r.None? && req.userId.Some? ==> forall j :: 0 <= j < |users| ==> users[j].id != req.userId.value
  {
    if req.userId.None? then None else UserWithId(users, req.userId.value)
  }

  function ItemWithId(items: seq<Item>, id: Id): (r: Option<nat>)
    ensures r.Some? ==> r.value < |items| && items[r.value].id == id
    ensures r.None? ==> forall j :: 0 <= j < |items| ==> items[j].id != id
  {
    FirstIndex(items, (i: Item) => i.id == id)
  }

  function CartItemWithId(cart: seq<CartItem>, id: Id): (r: Option<nat>)
    ensures r.Some? ==> r.value < |cart| && cart[r.value].id == id
    ensures r.None? ==> forall j :: 0 <= j < |cart| ==> cart[j].id != id
  {
    FirstIndex(cart, (c: CartItem) => c.id == id)
  }

  /** The cart item links `user` to `item`. */
  predicate Matches(c: CartItem, user: Id, item: Id) {
    c.user == user && c.item == item
  }

  /** The cart item of `user` for `item`, if the cart holds one. */
  function CartItemFor(cart: seq<CartItem>, user: Id, item: Id): (r: Option<nat>)
    ensures r.Some? ==> r.value < |cart| && cart[r.value].user == user && cart[r.value].item == item
    ensures r.None? ==> forall j :: 0 <= j < |cart| ==> !(cart[j].user == user && cart[j].item == item)
  {
    FirstIndex(cart, (c: CartItem) => Matches(c, user, item))
  }

  /** Some label is both held and allowed: `held.some(p => allowed.includes(p))`. */
  function Intersects(held: seq<Permission>, allowed: seq<Permission>): (b: bool)
    ensures b <==> exists i :: 0 <= i < |held| && held[i] in allowed
    ensures b ==> |held| > 0 && |allowed| > 0
  {
    exists p :: p in held && p in allowed
  }

  /** `hasPermission` of the utilities module, which is not part of this model:
      ASSUMED to pass exactly when the user holds one of the allowed labels. */
  function HasPermission(u: User, allowed: seq<Permission>): (b: bool)
    ensures b <==> exists i :: 0 <= i < |u.permissions| && u.permissions[i] in allowed
    ensures b ==> |allowed| > 0
  {
    Intersects(u.permissions, allowed)
  }

  /** The guard of `deleteItem`, exactly as written: the call is refused when the
      caller does NOT own the item AND DOES hold a deleting permission. An owner
      is never refused, and neither is a caller without a deleting permission. */
  function DeleteBlocked(ownsItem: bool, hasPermissions: bool): (b: bool)
    ensures ownsItem ==> !b
    ensures !hasPermissions ==> !b
    ensures !ownsItem && hasPermissions ==> b
  {
    !ownsItem && hasPermissions
  }

  /** The literal guard lets a caller delete an item they do not own when they
      hold no deleting permission, and refuses a non-owner who holds one. */
  lemma DeleteGuardAsWritten(owner: Id, caller: User)
    requires owner != caller.id
    ensures !Intersects(caller.permissions, [ADMIN, ITEMDELETE]) ==>
              !DeleteBlocked(Some(owner) == Some(caller.id), Intersects(caller.permissions, [ADMIN, ITEMDELETE]))
    ensures ADMIN in caller.permissions ==>
              DeleteBlocked(Some(owner) == Some(caller.id), Intersects(caller.permissions, [ADMIN, ITEMDELETE]))
  {
    if ADMIN in caller.permissions {
      assert ADMIN in [ADMIN, ITEMDELETE];
    }
  }

  /** A token issued at `issuedAt` carries expiry `issuedAt + 1h`; the filter
      then accepts it up to two hours after issue, not one. */
  lemma ResetWindowIsTwoHours(issuedAt: int, now: int)
    ensures ExpiryAccepted(issuedAt + ResetTokenLifetime, now) <==> now <= issuedAt + 2 * ResetTokenLifetime
  {
  }

  /** A token `requestReset` issued at `issuedAt` to the one user holding it is
      found by the `resetPassword` filter at `now` exactly when `now` is at most
      two hours after issue. */
  lemma ResetTokenFoundWithinTwoHours(users: seq<User>, k: nat, token: string, issuedAt: int, now: int)
    requires k < |users|
    requires forall j :: 0 <= j < |users| && j != k ==> users[j].resetToken != Some(token)
    ensures UserWithResetToken(users[k := IssueResetToken(users[k], token, issuedAt)], token, now)
            == if now <= issuedAt + 2 * ResetTokenLifetime then Some(k) else None
  {
    var issued := users[k := IssueResetToken(users[k], token, issuedAt)];
    var found := UserWithResetToken(issued, token, now);
    if now <= issuedAt + 2 * ResetTokenLifetime {
      assert ResetTokenAccepted(issued[k], token, now);
      assert found.Some?;
      assert issued[found.value].resetToken == Some(token);
    }
  }

  /** Once `resetPassword` has completed for the one user holding `token`, the
      same token is never accepted again. */
  lemma ResetTokenSingleUse(users: seq<User>, k: nat, token: string, hashed: string, now: int)
    requires k < |users|
    requires forall j :: 0 <= j < |users| && j != k ==> users[j].resetToken != Some(token)
    ensures UserWithResetToken(users[k := CompleteReset(users[k], hashed)], token, now).None?
  {
  }
}
