/** The shopping cart: its list of items and the total derived from it. */
module Cart {
  import opened Products

  /** Reference definition of the cart total: the sum of the prices. */
  function Sum(items: seq<Product>): real
  {
    if items == [] then 0.0 else items[0].price + Sum(items[1..])
  }

  /** The `reduce` of `totalAmount`: a left fold that adds each item's price
      to the running value `acc`, in list order. */
  function FoldPrices(acc: real, items: seq<Product>): (r: real)
    ensures r == acc + Sum(items)
    decreases items
  {
    if items == [] then acc else FoldPrices(acc + items[0].price, items[1..])
  }

  /** The total of a concatenation is the sum of the totals. */
  lemma {:induction false} SumAppend(s: seq<Product>, t: seq<Product>)
    ensures Sum(s + t) == Sum(s) + Sum(t)
  {
    if s == [] {
      assert s + t == t;
    } else {
      assert (s + t)[1..] == s[1..] + t;
      SumAppend(s[1..], t);
    }
  }

  /** Appending one product raises the total by exactly its price. */
  lemma {:induction false} SumSnoc(s: seq<Product>, p: Product)
    ensures Sum(s + [p]) == Sum(s) + p.price
  {
    SumAppend(s, [p]);
    assert [p][1..] == [];
  }

  /** Taking one entry out of a list lowers its total by that entry's price. */
  lemma {:induction false} SumRemoveAt(t: seq<Product>, j: nat)
    requires j < |t|
    ensures Sum(t) == t[j].price + Sum(t[..j] + t[j + 1..])
  {
    assert t == (t[..j] + [t[j]]) + t[j + 1..];
    SumAppend(t[..j] + [t[j]], t[j + 1..]);
    SumSnoc(t[..j], t[j]);
    SumAppend(t[..j], t[j + 1..]);
  }

  /** Insertion order does not matter for the total: any rearrangement of
      the same items has the same total. */
  lemma {:induction false} SumPermutation(s: seq<Product>, t: seq<Product>)
    requires multiset(s) == multiset(t)
    ensures Sum(s) == Sum(t)
  {
    if s == [] {
      assert |t| == |multiset(t)| == 0;
    } else {
      assert s[0] in multiset(t);
      var j :| 0 <= j < |t| && t[j] == s[0];
      var rest := t[..j] + t[j + 1..];
      assert t == t[..j] + [t[j]] + t[j + 1..];
      assert multiset(rest) == multiset(t) - multiset{s[0]};
      assert s == [s[0]] + s[1..];
      assert multiset(s[1..]) == multiset(s) - multiset{s[0]};
      SumPermutation(s[1..], rest);
      SumRemoveAt(t, j);
    }
  }

  /** There is no duplicate check: adding the same product twice gives two
      more entries equal to it and raises the total by twice its price. */
  lemma {:induction false} AddTwice(s: seq<Product>, p: Product)
    ensures |s + [p] + [p]| == |s| + 2
    ensures multiset(s + [p] + [p])[p] == multiset(s)[p] + 2
    ensures Sum(s + [p] + [p]) == Sum(s) + 2.0 * p.price
  {
    SumSnoc(s, p);
    SumSnoc(s + [p], p);
  }

  /** The `ShoppingCart` component, without its rendering. `items` is the
      array the cart currently holds; `addProduct` replaces it by a fresh
      copy instead of growing it in place. */
  class ShoppingCart {
    var items: array<Product>

    /** A new cart holds an empty list and so totals 0. */
    constructor ()
      ensures fresh(items) && items[..] == []
      ensures TotalAmount() == 0.0
    {
      items := new Product[0];
    }

    /** The `totalAmount` getter, recomputed from the items on every read.
        Being a function, reading it cannot change the items. */
    function TotalAmount(): (total: real)
      reads this, items
      ensures total == Sum(items[..])
    {
      FoldPrices(0.0, items[..])
    }

    /** The state part of the `cartItems` setter: the given array becomes
        the cart's list. */
    method SetCartItems(value: array<Product>)
      modifies this
      ensures items == value
    {
      items := value;
    }

    /** `addProduct`: copy the current list, push the product onto the copy
        and hand the copy to the setter. */
    method AddProduct(product: Product)
      modifies this
      ensures fresh(items)
      ensures items[..] == old(items[..]) + [product]
      ensures old(items)[..] == old(items[..])
      ensures TotalAmount() == old(TotalAmount()) + product.price
    {
      var current, n := items, items.Length;
      // the spread copy, with one slot more for the push
      var updateItems := new Product[n + 1];
      for k := 0 to n
        invariant updateItems[..k] == current[..k]
      {
        updateItems[k] := current[k];
      }
      updateItems[n] := product;
      assert updateItems[..] == current[..] + [product];
      SumSnoc(current[..], product);
      SetCartItems(updateItems);
    }
  }
}
