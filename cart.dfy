/** The cart invariant: at most one cart item per (user, item) pair. `addToCart`
    keeps it by bumping the quantity of an existing cart item instead of
    creating a second one. */
module Cart {
  import opened Seqs
  import opened Records

  /** How many cart items link `user` to `item`. */
  function PairCount(cart: seq<CartItem>, user: Id, item: Id): nat {
    if cart == [] then 0
    else (if Matches(cart[0], user, item) then 1 else 0) + PairCount(cart[1..], user, item)
  }

  ghost predicate AtMostOnePerPair(cart: seq<CartItem>) {
    forall user, item :: PairCount(cart, user, item) <= 1
  }

  /** No cart item for the pair exactly when the count is zero, so the
      look-up `addToCart` performs finds one exactly when the count is positive. */
  lemma {:induction false} PairCountZero(cart: seq<CartItem>, user: Id, item: Id)
    ensures PairCount(cart, user, item) == 0 <==> CartItemFor(cart, user, item).None?
  {
    if cart != [] {
      PairCountZero(cart[1..], user, item);
      if CartItemFor(cart[1..], user, item).Some? {
        var k := CartItemFor(cart[1..], user, item).value;
        assert Matches(cart[k + 1], user, item);
      }
      if CartItemFor(cart, user, item).Some? {
        var k := CartItemFor(cart, user, item).value;
        if k > 0 {
          assert Matches(cart[1..][k - 1], user, item);
        }
      }
    }
  }

  /** Appending a cart item adds one to its own pair and nothing to any other. */
  lemma {:induction false} PairCountAppend(cart: seq<CartItem>, c: CartItem, user: Id, item: Id)
    ensures PairCount(cart + [c], user, item) == PairCount(cart, user, item) + (if Matches(c, user, item) then 1 else 0)
  {
    if cart != [] {
      assert (cart + [c])[1..] == cart[1..] + [c];
      PairCountAppend(cart[1..], c, user, item);
    }
  }

  /** Replacing a cart item by one for the same pair (a new quantity) leaves
      every count as it was. */
  lemma {:induction false} PairCountUpdate(cart: seq<CartItem>, k: nat, c: CartItem, user: Id, item: Id)
    requires k < |cart|
    requires c.user == cart[k].user && c.item == cart[k].item
    ensures PairCount(cart[k := c], user, item) == PairCount(cart, user, item)
  {
    if k > 0 {
      assert cart[k := c][1..] == cart[1..][k - 1 := c];
      PairCountUpdate(cart[1..], k - 1, c, user, item);
    } else {
      assert cart[k := c][1..] == cart[1..];
    }
  }

  /** Deleting a cart item takes one from its own pair and nothing from any other. */
  lemma {:induction false} PairCountRemove(cart: seq<CartItem>, k: nat, user: Id, item: Id)
    requires k < |cart|
    ensures PairCount(cart, user, item) == PairCount(Remove(cart, k), user, item) + (if Matches(cart[k], user, item) then 1 else 0)
  {
    if k > 0 {
      assert Remove(cart, k)[1..] == Remove(cart[1..], k - 1);
      PairCountRemove(cart[1..], k - 1, user, item);
    } else {
      assert Remove(cart, k) == cart[1..];
    }
  }

  /** Bumping the quantity of the pair's cart item keeps the invariant. */
  lemma UpdateKeepsAtMostOne(cart: seq<CartItem>, k: nat, c: CartItem)
    requires AtMostOnePerPair(cart) && k < |cart|
    requires c.user == cart[k].user && c.item == cart[k].item
    ensures AtMostOnePerPair(cart[k := c])
  {
    var updated := cart[k := c];
    forall user, item ensures PairCount(updated, user, item) <= 1 {
      PairCountUpdate(cart, k, c, user, item);
    }
  }

  /** Creating a cart item for a pair that has none keeps the invariant. */
  lemma AppendKeepsAtMostOne(cart: seq<CartItem>, c: CartItem)
    requires AtMostOnePerPair(cart)
    requires CartItemFor(cart, c.user, c.item).None?
    ensures AtMostOnePerPair(cart + [c])
  {
    PairCountZero(cart, c.user, c.item);
    forall user, item ensures PairCount(cart + [c], user, item) <= 1 {
      PairCountAppend(cart, c, user, item);
    }
  }

  /** Deleting a cart item keeps the invariant. */
  lemma RemoveKeepsAtMostOne(cart: seq<CartItem>, k: nat)
    requires AtMostOnePerPair(cart) && k < |cart|
    ensures AtMostOnePerPair(Remove(cart, k))
  {
    forall user, item ensures PairCount(Remove(cart, k), user, item) <= 1 {
      PairCountRemove(cart, k, user, item);
    }
  }
}
