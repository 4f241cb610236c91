/** The mutation resolvers. The store they share (the user, item and cart-item
    tables) and the response's `token` cookie are the fields of one object; each
    resolver is a method that checks its guards in the source's order, fails
    without touching anything on the first that does not hold, and otherwise
    performs its single write. */
module Mutation {
  import opened Seqs
  import opened Records
  import opened Text
  import opened Cart

  class Backend {
    var users: seq<User>
    var items: seq<Item>
    var cartItems: seq<CartItem>
    /** The response's `token` cookie: a session token for this user id, or cleared. */
    var cookie: Option<Id>
    /** The next identifier the store hands out. */
    var nextId: Id
    /** The schema's default quantity of a new cart item. */
    const defaultQuantity: int

    /** What the store guarantees of its tables: unique ids, unique e-mail
        addresses, reset token and expiry set together, at most one cart item
        per (user, item) pair, and positive quantities. */
    ghost predicate Valid()
      reads this
    {
      && defaultQuantity >= 1
      && DistinctKeys(users, UserId)
      && DistinctKeys(users, UserEmail)
      && DistinctKeys(items, ItemId)
      && DistinctKeys(cartItems, CartItemId)
      && AtMostOnePerPair(cartItems)
      && (forall u :: u in users ==> u.id < nextId && (u.resetToken.Some? <==> u.resetTokenExpiry.Some?))
      && (forall i :: i in items ==> i.id < nextId)
      && (forall c :: c in cartItems ==> c.id < nextId && c.quantity >= 1)
    }

    constructor (defaultQuantity: int)
      requires defaultQuantity >= 1
      ensures Valid()
      ensures users == [] && items == [] && cartItems == [] && cookie == None && nextId == 0
      ensures this.defaultQuantity == defaultQuantity
    {
      users, items, cartItems := [], [], [];
      cookie := None;
      nextId := 0;
      this.defaultQuantity := defaultQuantity;
    }

    /** createItem: a signed-in caller creates an item they own. */
    method CreateItem(req: Request, title: string, description: string, price: int, image: string, largeImage: string)
      returns (r: Result<Item>)
      requires Valid()
      modifies this`items, this`nextId
      ensures Valid()
      ensures req.userId.None? ==> r == Err(NotSignedIn) && items == old(items) && nextId == old(nextId)
      ensures req.userId.Some? ==>
        && r == Ok(Item(old(nextId), req.userId.value, title, description, price, image, largeImage))
        && items == old(items) + [r.value]
        && nextId == old(nextId) + 1
      ensures r.Ok? ==> forall i :: i in old(items) ==> i.id != r.value.id
    {
      if req.userId.None? {
        return Err(NotSignedIn);
      }
      var item := Item(nextId, req.userId.value, title, description, price, image, largeImage);
      AppendFreshKey(items, ItemId, item);
      items := items + [item];
      nextId := nextId + 1;
      r := Ok(item);
    }

    /** updateItem: anyone, signed in or not, owner or not, may change the fields
        of an existing item. */
    method UpdateItem(id: Id, changes: ItemChanges) returns (r: Result<Item>)
      requires Valid()
      modifies this`items
      ensures Valid()
      ensures ItemWithId(old(items), id).None? ==> r == Err(ItemNotFound) && items == old(items)
      ensures ItemWithId(old(items), id).Some? ==>
        var k := ItemWithId(old(items), id).value;
        && r == Ok(ApplyChanges(old(items)[k], changes))
        && items == old(items)[k := r.value]
    {
      var k := ItemWithId(items, id);
      if k.None? {
        return Err(ItemNotFound);
      }
      var updated := ApplyChanges(items[k.value], changes);
      UpdateByKey(items, ItemId, k.value, updated);
      items := items[k.value := updated];
      r := Ok(updated);
    }

    /** deleteItem, with its guard as written: it refuses exactly a caller who
        does not own the item and holds ADMIN or ITEMDELETE. */
    method DeleteItem(req: Request, id: Id) returns (r: Result<Item>)
      requires Valid()
      modifies this`items
      ensures Valid()
      ensures ItemWithId(old(items), id).None? ==> r == Err(ItemNotFound)
      ensures ItemWithId(old(items), id).Some? && CurrentUser(users, req).None? ==> r == Err(NoCurrentUser)
      ensures ItemWithId(old(items), id).Some? && CurrentUser(users, req).Some? ==>
        var item := old(items)[ItemWithId(old(items), id).value];
        var caller := users[CurrentUser(users, req).value];
        && (r.Err? <==> DeleteBlocked(Some(item.owner) == req.userId, Intersects(caller.permissions, [ADMIN, ITEMDELETE])))
        && (r.Err? ==> r.error == InsufficientPermissions)
      ensures r.Err? ==> r.error in {ItemNotFound, NoCurrentUser, InsufficientPermissions} && items == old(items)
      ensures r.Ok? ==>
        && r.value.id == id
        && r.value == old(items)[ItemWithId(old(items), id).value]
        && items == Remove(old(items), ItemWithId(old(items), id).value)
        && forall i :: i in items <==> i in old(items) && i.id != id
    {
      var k := ItemWithId(items, id);
      if k.None? {
        return Err(ItemNotFound);
      }
      var item := items[k.value];
      var ownsItem := Some(item.owner) == req.userId;
      var c := CurrentUser(users, req);
      if c.None? {
        return Err(NoCurrentUser);
      }
      var hasPermissions := Intersects(users[c.value].permissions, [ADMIN, ITEMDELETE]);
      if DeleteBlocked(ownsItem, hasPermissions) {
        return Err(InsufficientPermissions);
      }
      RemoveByKey(items, ItemId, k.value);
      items := Remove(items, k.value);
      r := Ok(item);
    }

    /** signup: stores the lower-cased address, the hash of the password and the
        single permission USER, and signs the new user in. */
    method Signup(name: string, email: string, password: string, hash: string -> string)
      returns (r: Result<User>)
      requires Valid()
      modifies this`users, this`nextId, this`cookie
      ensures Valid()
      ensures UserWithEmail(old(users), ToLower(email)).Some? ==>
        r == Err(EmailTaken) && users == old(users) && nextId == old(nextId) && cookie == old(cookie)
      ensures UserWithEmail(old(users), ToLower(email)).None? ==>
        && r == Ok(User(old(nextId), name, ToLower(email), hash(password), [USER], None, None))
        && users == old(users) + [r.value]
        && nextId == old(nextId) + 1
        && cookie == Some(r.value.id)
    {
      var lowered := ToLower(email);
      if UserWithEmail(users, lowered).Some? {
        return Err(EmailTaken);
      }
      var user := User(nextId, name, lowered, hash(password), [USER], None, None);
      AppendFreshKey(users, UserId, user);
      AppendFreshKey(users, UserEmail, user);
      users := users + [user];
      nextId := nextId + 1;
      cookie := Some(user.id);
      r := Ok(user);
    }

    /** signin: looks the address up as given (not lower-cased) and checks the
        password against the stored hash; only success sets the cookie. */
    method Signin(email: string, password: string, verify: (string, string) -> bool)
      returns (r: Result<User>)
      requires Valid()
      modifies this`cookie
      ensures Valid()
      ensures UserWithEmail(users, email).None? ==> r == Err(NoSuchUser(email))
      ensures UserWithEmail(users, email).Some? ==>
        var u := users[UserWithEmail(users, email).value];
        r == if verify(password, u.password) then Ok(u) else Err(InvalidPassword)
      ensures r.Err? ==> cookie == old(cookie)
      ensures r.Ok? ==> r.value in users && r.value.email == email && cookie == Some(r.value.id)
    {
      var k := UserWithEmail(users, email);
      if k.None? {
        return Err(NoSuchUser(email));
      }
      var user := users[k.value];
      if !verify(password, user.password) {
        return Err(InvalidPassword);
      }
      cookie := Some(user.id);
      r := Ok(user);
    }

    /** signout: clears the cookie and nothing else. */
    method Signout() returns (message: string)
      requires Valid()
      modifies this`cookie
      ensures Valid()
      ensures cookie == None
      ensures message == "successfully logged out"
    {
      cookie := None;
      message := "successfully logged out";
    }

    /** requestReset: gives the user with that address the fresh token `token`,
        expiring one hour after `now`; no other record changes. */
    method RequestReset(email: string, token: string, now: int) returns (r: Result<string>)
      requires Valid()
      modifies this`users
      ensures Valid()
      ensures UserWithEmail(old(users), email).None? ==> r == Err(NoSuchUser(email)) && users == old(users)
      ensures UserWithEmail(old(users), email).Some? ==>
        var k := UserWithEmail(old(users), email).value;
        && users == old(users)[k := IssueResetToken(old(users)[k], token, now)]
        && users[k].resetTokenExpiry == Some(now + 3600000)
        && r == Ok("success" + token)
    {
      var k := UserWithEmail(users, email);
      if k.None? {
        return Err(NoSuchUser(email));
      }
      var updated := IssueResetToken(users[k.value], token, now);
      UpdateByKey(users, UserId, k.value, updated);
      UpdateByKey(users, UserEmail, k.value, updated);
      users := users[k.value := updated];
      r := Ok("success" + token);
    }

    /** resetPassword: with matching passwords and a user whose token matches and
        whose expiry is no earlier than one hour before `now`, replaces that
        user's password hash, clears both reset fields and signs them in. */
    method ResetPassword(token: string, password: string, confirmPassword: string, now: int, hash: string -> string)
      returns (r: Result<User>)
      requires Valid()
      modifies this`users, this`cookie
      ensures Valid()
      ensures password != confirmPassword ==> r == Err(PasswordsDoNotMatch)
      ensures password == confirmPassword && UserWithResetToken(old(users), token, now).None? ==> r == Err(InvalidResetToken)
      ensures r.Err? ==> users == old(users) && cookie == old(cookie)
      ensures password == confirmPassword && UserWithResetToken(old(users), token, now).Some? ==>
        var k := UserWithResetToken(old(users), token, now).value;
        && users == old(users)[k := CompleteReset(old(users)[k], hash(password))]
        && users[k].resetToken.None? && users[k].resetTokenExpiry.None?
        && r == Ok(users[k])
        && cookie == Some(old(users)[k].id)
    {
      if password != confirmPassword {
        return Err(PasswordsDoNotMatch);
      }
      var found := UserWithResetToken(users, token, now);
      if found.None? {
        return Err(InvalidResetToken);
      }
      // The write is keyed by the found user's e-mail address, which is unique.
      var k := UserWithEmail(users, users[found.value].email);
      KeyDeterminesIndex(users, UserEmail, k.value, found.value);
      var updated := CompleteReset(users[k.value], hash(password));
      UpdateByKey(users, UserId, k.value, updated);
      UpdateByKey(users, UserEmail, k.value, updated);
      users := users[k.value := updated];
      cookie := Some(updated.id);
      r := Ok(updated);
    }

    /** updatePermissions: a signed-in ADMIN or PERMISSIONUPDATE holder replaces
        the target user's permission list by `permissions`, wholesale. */
    method UpdatePermissions(req: Request, userId: Id, permissions: seq<Permission>) returns (r: Result<User>)
      requires Valid()
      modifies this`users
      ensures Valid()
      ensures req.userId.None? ==> r == Err(NotSignedIn)
      ensures req.userId.Some? && CurrentUser(old(users), req).None? ==> r == Err(NoCurrentUser)
      ensures CurrentUser(old(users), req).Some? ==>
        var caller := old(users)[CurrentUser(old(users), req).value];
        && (!HasPermission(caller, [ADMIN, PERMISSIONUPDATE]) ==> r == Err(InsufficientPermissions))
        && (HasPermission(caller, [ADMIN, PERMISSIONUPDATE]) && UserWithId(old(users), userId).None? ==> r == Err(UserNotFound))
        && (HasPermission(caller, [ADMIN, PERMISSIONUPDATE]) && UserWithId(old(users), userId).Some? ==>
              var t := UserWithId(old(users), userId).value;
              && users == old(users)[t := old(users)[t].(permissions := permissions)]
              && r == Ok(users[t]))
      ensures r.Err? ==> users == old(users)
      ensures r.Ok? ==> r.value.id == userId && r.value.permissions == permissions
    {
      if req.userId.None? {
        return Err(NotSignedIn);
      }
      var c := CurrentUser(users, req);
      if c.None? {
        return Err(NoCurrentUser);
      }
      if !HasPermission(users[c.value], [ADMIN, PERMISSIONUPDATE]) {
        return Err(InsufficientPermissions);
      }
      var t := UserWithId(users, userId);
      if t.None? {
        return Err(UserNotFound);
      }
      var updated := users[t.value].(permissions := permissions);
      UpdateByKey(users, UserId, t.value, updated);
      UpdateByKey(users, UserEmail, t.value, updated);
      users := users[t.value := updated];
      r := Ok(updated);
    }

    /** addToCart: bumps the quantity of the caller's cart item for the item by
        one when there is one, and creates one otherwise. */
    method AddToCart(req: Request, itemId: Id) returns (r: Result<CartItem>)
      requires Valid()
      modifies this`cartItems, this`nextId
      ensures Valid()
      ensures req.userId.None? ==> r == Err(NotSignedIn) && cartItems == old(cartItems) && nextId == old(nextId)
      ensures req.userId.Some? && CartItemFor(old(cartItems), req.userId.value, itemId).Some? ==>
        var k := CartItemFor(old(cartItems), req.userId.value, itemId).value;
        && r == Ok(old(cartItems)[k].(quantity := old(cartItems)[k].quantity + 1))
        && cartItems == old(cartItems)[k := r.value]
        && nextId == old(nextId)
      ensures req.userId.Some? && CartItemFor(old(cartItems), req.userId.value, itemId).None? ==>
        && r == Ok(CartItem(old(nextId), req.userId.value, itemId, defaultQuantity))
        && cartItems == old(cartItems) + [r.value]
        && nextId == old(nextId) + 1
      ensures r.Ok? ==> PairCount(cartItems, req.userId.value, itemId) == 1
    {
      if req.userId.None? {
        return Err(NotSignedIn);
      }
      var user := req.userId.value;
      var existing := CartItemFor(cartItems, user, itemId);
      if existing.Some? {
        var k := existing.value;
        var bumped := cartItems[k].(quantity := cartItems[k].quantity + 1);
        UpdateByKey(cartItems, CartItemId, k, bumped);
        UpdateKeepsAtMostOne(cartItems, k, bumped);
        PairCountZero(cartItems, user, itemId);
        PairCountUpdate(cartItems, k, bumped, user, itemId);
        cartItems := cartItems[k := bumped];
        r := Ok(bumped);
      } else {
        var created := CartItem(nextId, user, itemId, defaultQuantity);
        AppendFreshKey(cartItems, CartItemId, created);
        AppendKeepsAtMostOne(cartItems, created);
        PairCountZero(cartItems, user, itemId);
        PairCountAppend(cartItems, created, user, itemId);
        cartItems := cartItems + [created];
        nextId := nextId + 1;
        r := Ok(created);
      }
    }

    /** removeFromCart: a signed-in caller deletes one of their own cart items. */
    method RemoveFromCart(req: Request, id: Id) returns (r: Result<CartItem>)
      requires Valid()
      modifies this`cartItems
      ensures Valid()
      ensures req.userId.None? ==> r == Err(NotSignedIn)
      ensures req.userId.Some? && CartItemWithId(old(cartItems), id).None? ==> r == Err(CartItemNotFound)
      ensures req.userId.Some? && CartItemWithId(old(cartItems), id).Some? ==>
        var k := CartItemWithId(old(cartItems), id).value;
        && (old(cartItems)[k].user != req.userId.value ==> r == Err(CartItemNotOwned))
        && (old(cartItems)[k].user == req.userId.value ==>
              r == Ok(old(cartItems)[k]) && cartItems == Remove(old(cartItems), k))
      ensures r.Err? ==> cartItems == old(cartItems)
      ensures r.Ok? ==> forall c :: c in cartItems <==> c in old(cartItems) && c.id != id
    {
      if req.userId.None? {
        return Err(NotSignedIn);
      }
      var k := CartItemWithId(cartItems, id);
      if k.None? {
        return Err(CartItemNotFound);
      }
      var cartItem := cartItems[k.value];
      if cartItem.user != req.userId.value {
        return Err(CartItemNotOwned);
      }
      RemoveByKey(cartItems, CartItemId, k.value);
      RemoveKeepsAtMostOne(cartItems, k.value);
      cartItems := Remove(cartItems, k.value);
      r := Ok(cartItem);
    }
  }
}
