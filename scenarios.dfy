/** Call sequences of the resolvers, verified from their contracts alone. Each
    one follows a short sequence of calls a user of the storefront makes. The
    hash and its check stand for bcrypt: all a sequence relies on is that the
    check accepts exactly the hash of the password. */
module Scenarios {
  import opened Seqs
  import opened Records
  import opened Text
  import opened Mutation

  ghost predicate VerifiesHash(hash: string -> string, verify: (string, string) -> bool) {
    forall p, h :: verify(p, h) <==> h == hash(p)
  }

  /** Signing up with a mixed-case address stores it lower-cased, with the hash
      of the password and the single permission USER, and signs the user in. */
  method SignupStoresLowerCase(hash: string -> string) {
    assert ToLower("A@B.com") == "a@b.com";
    var b := new Backend(1);
    var up := b.Signup("Ann", "A@B.com", "p1", hash);
    assert up.Ok? && up.value.email == "a@b.com" && up.value.password == hash("p1");
    assert up.value.permissions == [USER] && b.cookie == Some(up.value.id);
  }

  /** After signing up and out, a wrong password does not sign in and leaves the
      cookie cleared. */
  method SigninRefusesWrongPassword(email: string, hash: string -> string, verify: (string, string) -> bool)
    requires VerifiesHash(hash, verify)
    requires hash("wrongpass") != hash("p1")
  {
    var b := new Backend(1);
    var up := b.Signup("Ann", email, "p1", hash);
    var out := b.Signout();
    assert up.Ok? && b.users == [up.value] && b.cookie == None;
    assert UserWithEmail(b.users, up.value.email) == Some(0);
    assert !verify("wrongpass", b.users[0].password);
    var wrong := b.Signin(up.value.email, "wrongpass", verify);
    assert wrong == Err(InvalidPassword) && b.cookie == None;
  }

  /** After signing up, the stored address and the right password sign the
      same user in again. */
  method SigninAcceptsRightPassword(email: string, hash: string -> string, verify: (string, string) -> bool)
    requires VerifiesHash(hash, verify)
  {
    var b := new Backend(1);
    var up := b.Signup("Ann", email, "p1", hash);
    assert up.Ok? && b.users == [up.value];
    assert UserWithEmail(b.users, up.value.email) == Some(0);
    assert verify("p1", b.users[0].password);
    var ok := b.Signin(up.value.email, "p1", verify);
    assert ok == Ok(up.value) && b.cookie == Some(up.value.id);
  }

  /** Sign-in does not lower-case: an address typed at sign-up with upper-case
      letters is not found when typed the same way at sign-in. */
  method SigninIsCaseSensitive(email: string, hash: string -> string, verify: (string, string) -> bool)
    requires ToLower(email) != email
  {
    var b := new Backend(1);
    var up := b.Signup("Ann", email, "p1", hash);
    assert up.Ok? && b.users == [up.value] && b.users[0].email != email;
    assert UserWithEmail(b.users, email).None?;
    var typed := b.Signin(email, "p1", verify);
    assert typed == Err(NoSuchUser(email));
  }

  /** Adding the same item twice leaves one cart item of quantity two. */
  method AddTwiceMerges(user: Id, item: Id) {
    var b := new Backend(1);
    var ann := Request(Some(user));
    var first := b.AddToCart(ann, item);
    assert first.Ok? && first.value.quantity == 1 && b.cartItems == [first.value];
    var second := b.AddToCart(ann, item);
    assert second.Ok? && second.value.id == first.value.id && second.value.quantity == 2;
    assert b.cartItems == [second.value];
  }

  /** Another user cannot remove a cart item; its owner can. */
  method RemoveChecksOwner(user: Id, other: Id, item: Id)
    requires user != other
  {
    var b := new Backend(1);
    var added := b.AddToCart(Request(Some(user)), item);
    assert added.Ok? && b.cartItems == [added.value];

    var stolen := b.RemoveFromCart(Request(Some(other)), added.value.id);
    assert stolen == Err(CartItemNotOwned) && b.cartItems == [added.value];

    var removed := b.RemoveFromCart(Request(Some(user)), added.value.id);
    assert removed == Ok(added.value) && b.cartItems == [];
  }

  /** The delete guard as written: a signed-in user without ADMIN or ITEMDELETE
      deletes an item another user owns. */
  method DeleteByNonOwner(annEmail: string, bobEmail: string, hash: string -> string)
    requires ToLower(annEmail) != ToLower(bobEmail)
  {
    var b := new Backend(1);
    var owner := b.Signup("Ann", annEmail, "p1", hash);
    assert owner.Ok? && b.users == [owner.value] && b.users[0].email != ToLower(bobEmail);
    assert UserWithEmail(b.users, ToLower(bobEmail)).None?;
    var other := b.Signup("Bob", bobEmail, "p2", hash);
    assert b.users == [owner.value, other.value];
    assert b.users[0].id == 0 && b.users[1].id == 1 && b.users[1].permissions == [USER];
    var item := b.CreateItem(Request(Some(0)), "Hat", "A hat", 1000, "hat.png", "hat-large.png");
    assert item.Ok? && b.items == [item.value];

    var bobReq := Request(Some(1));
    var caller := CurrentUser(b.users, bobReq);
    assert caller.Some? && caller.value != 0;
    assert !Intersects(b.users[1].permissions, [ADMIN, ITEMDELETE]);
    assert ItemWithId(b.items, item.value.id) == Some(0);
    var gone := b.DeleteItem(bobReq, item.value.id);
    assert gone.Ok? && b.items == [];
  }

  /** A reset token issued at `t` is still accepted 90 minutes later, and a
      password confirmation that differs is refused first. */
  method ResetWithinTwoHours(email: string, t: int, hash: string -> string)
    requires ToLower(email) == email
  {
    var b := new Backend(1);
    var up := b.Signup("Ann", email, "p1", hash);
    assert up.Ok? && b.users == [up.value] && up.value.email == email;
    assert UserWithEmail(b.users, email) == Some(0);
    var sent := b.RequestReset(email, "tok", t);
    assert sent.Ok? && b.users[0].resetTokenExpiry == Some(t + 3600000);

    var late := t + 5400000;
    var mismatch := b.ResetPassword("tok", "p2", "p3", late, hash);
    assert mismatch == Err(PasswordsDoNotMatch);

    assert ResetTokenAccepted(b.users[0], "tok", late);
    assert UserWithResetToken(b.users, "tok", late) == Some(0);
    var reset := b.ResetPassword("tok", "p2", "p2", late, hash);
    assert reset.Ok? && b.users[0].password == hash("p2") && b.cookie == Some(up.value.id);
  }

  /** A reset token is accepted once: a second reset with it fails. */
  method ResetTokenUsedOnce(email: string, t: int, hash: string -> string)
    requires ToLower(email) == email
  {
    var b := new Backend(1);
    var up := b.Signup("Ann", email, "p1", hash);
    assert up.Ok? && b.users == [up.value] && up.value.email == email;
    assert UserWithEmail(b.users, email) == Some(0);
    var sent := b.RequestReset(email, "tok", t);
    assert ResetTokenAccepted(b.users[0], "tok", t) && |b.users| == 1;
    assert UserWithResetToken(b.users, "tok", t) == Some(0);
    var reset := b.ResetPassword("tok", "p2", "p2", t, hash);
    assert reset.Ok? && b.users[0].resetToken == None && |b.users| == 1;
    assert UserWithResetToken(b.users, "tok", t).None?;

    var again := b.ResetPassword("tok", "p3", "p3", t, hash);
    assert again == Err(InvalidResetToken);
  }

  /** `requestReset` replies "success" followed by the token itself, so a caller
      who knows only the address reads the token off the reply, resets the
      password with it and is signed in as the address's owner. */
  method ResetTokenFromReply(email: string, t: int, hash: string -> string)
    requires ToLower(email) == email
  {
    var b := new Backend(1);
    var up := b.Signup("Ann", email, "p1", hash);
    var out := b.Signout();
    assert up.Ok? && b.users == [up.value] && up.value.email == email && b.cookie == None;
    assert UserWithEmail(b.users, email) == Some(0);
    var reply := b.RequestReset(email, "tok", t);
    assert reply == Ok("success" + "tok");
    var stolen := reply.value[|"success"|..];
    assert stolen == "tok";

    assert ResetTokenAccepted(b.users[0], stolen, t) && |b.users| == 1;
    assert UserWithResetToken(b.users, stolen, t) == Some(0);
    var reset := b.ResetPassword(stolen, "mine", "mine", t, hash);
    assert reset.Ok? && b.users[0].password == hash("mine") && b.cookie == Some(up.value.id);
  }
}
