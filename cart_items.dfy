/** Line items of the shopping cart and the pure list transforms the cart
    store applies to them: the lookup by id, the stock comparison and the
    three rewrites (increment, filter, set amount). */
module CartItems {

  datatype Option<T> = None | Some(value: T)

  /** Catalogue data returned by the product endpoint. */
  datatype ProductInfo = ProductInfo(id: int, title: string, price: real, image: string)

  /** A cart line item. `AmountOnly` is what spreading a falsy product body
      into `{ ...data, amount: 1 }` builds: an object whose only field is
      `amount`, with no id. */
  datatype Product =
    | Product(id: int, title: string, price: real, image: string, amount: int)
    | AmountOnly(amount: int)

  /** What the product request resolved to: a record, or a falsy body. */
  datatype Body = Record(info: ProductInfo) | Falsy

  /** Reply of the stock endpoint. */
  datatype Stock = Stock(id: int, amount: int)

  /** `product.id === id`; an item without an id never matches. */
  predicate HasId(p: Product, id: int) {
    p.Product? && p.id == id
  }

  /** At most one line item per product id. */
  predicate UniqueIds(s: seq<Product>) {
    forall i, j :: 0 <= i < j < |s| && s[i].Product? && s[j].Product? ==> s[i].id != s[j].id
  }

  /** Every line item holds an amount of at least 1. */
  predicate Positive(s: seq<Product>) {
    forall i :: 0 <= i < |s| ==> s[i].amount >= 1
  }

  /** No line item carries the given id. */
  predicate Absent(s: seq<Product>, id: int) {
    forall i :: 0 <= i < |s| ==> !HasId(s[i], id)
  }

  // ---------------------------------------------------------------------
  // hasStock and hasProduct

  /** The stock gate: reject when the stock amount is at most the quantity. */
  function HasStock(stock: Stock, quantity: int): (r: bool)
    ensures r <==> quantity < stock.amount
  {
    if stock.amount <= quantity then false else true
  }

  /** `cart.find(product => product.id === id) ?? null`: the first item with the id. */
  function Find(s: seq<Product>, id: int): (r: Option<Product>)
    ensures r.None? <==> Absent(s, id)
    ensures r.Some? ==> exists k :: 0 <= k < |s| && s[k] == r.value && HasId(s[k], id) && Absent(s[..k], id)
  {
    if s == [] then None
    else if HasId(s[0], id) then
      assert s[..0] == [];
      Some(s[0])
    else
      var r := Find(s[1..], id);
      assert r.Some? ==> exists k :: 0 <= k < |s| && s[k] == r.value && HasId(s[k], id) && Absent(s[..k], id) by {
        if r.Some? {
          var k :| 0 <= k < |s[1..]| && s[1..][k] == r.value && HasId(s[1..][k], id) && Absent(s[1..][..k], id);
          assert s[..k + 1] == [s[0]] + s[1..][..k];
        }
      }
      r
  }

  /** `productExists?.amount || 0`: the quantity the stock gate is asked about. */
  function GateQuantity(found: Option<Product>): (q: int)
    ensures found.Some? ==> q == found.value.amount
    ensures found.None? ==> q == 0
  {
    match found
    case Some(p) => p.amount
    case None => 0
  }

  /** The amount held for an id in a cart, 0 when no item has it. */
  function AmountOf(s: seq<Product>, id: int): int {
    GateQuantity(Find(s, id))
  }

  /** With unique ids, the item an id is found at is the only one with it. */
  lemma FindUnique(s: seq<Product>, id: int, k: int)
    requires UniqueIds(s) && 0 <= k < |s| && HasId(s[k], id)
    ensures Find(s, id) == Some(s[k])
  {
    assert Find(s, id).Some?;
    var j :| 0 <= j < |s| && s[j] == Find(s, id).value && HasId(s[j], id) && Absent(s[..j], id);
    if j < k {
      assert false;
    } else if k < j {
      assert false;
    }
  }

  // ---------------------------------------------------------------------
  // The three rewrites

  /** One step of the increment map: `if (product.id === id) product.amount += 1`. */
  function Bump(p: Product, id: int): (r: Product)
    ensures r.Product? == p.Product? && (p.Product? ==> r.id == p.id)
    ensures HasId(p, id) ==> r == p.(amount := p.amount + 1)
    ensures !HasId(p, id) ==> r == p
  {
    if HasId(p, id) then p.(amount := p.amount + 1) else p
  }

  /** One step of the update map: `product.id === id ? { ...product, amount } : product`. */
  function SetAmount(p: Product, id: int, amount: int): (r: Product)
    ensures r.Product? == p.Product? && (p.Product? ==> r.id == p.id)
    ensures HasId(p, id) ==> r == p.(amount := amount)
    ensures !HasId(p, id) ==> r == p
  {
    if HasId(p, id) then p.(amount := amount) else p
  }

  /** The cart after the increment map of addProduct. */
  function Incremented(s: seq<Product>, id: int): (r: seq<Product>)
    ensures |r| == |s|
    ensures forall i :: 0 <= i < |s| ==> r[i] == Bump(s[i], id)
  {
    if s == [] then [] else [Bump(s[0], id)] + Incremented(s[1..], id)
  }

  /** The cart after the map of updateProductAmount. */
  function WithAmount(s: seq<Product>, id: int, amount: int): (r: seq<Product>)
    ensures |r| == |s|
    ensures forall i :: 0 <= i < |s| ==> r[i] == SetAmount(s[i], id, amount)
  {
    if s == [] then [] else [SetAmount(s[0], id, amount)] + WithAmount(s[1..], id, amount)
  }

  /** The cart after `cart.filter(product => product.id !== id)`. */
  function Removed(s: seq<Product>, id: int): (r: seq<Product>)
    ensures |r| <= |s|
    ensures Absent(r, id)
  {
    if s == [] then []
    else (if HasId(s[0], id) then [] else [s[0]]) + Removed(s[1..], id)
  }

  /** The item addProduct pushes for an id not yet in the cart. */
  function NewItem(body: Body): (p: Product)
    ensures p.amount == 1
    ensures body.Record? ==> p == Product(body.info.id, body.info.title, body.info.price, body.info.image, 1)
    ensures body.Falsy? ==> p.AmountOnly?
  {
    match body
    case Record(info) => Product(info.id, info.title, info.price, info.image, 1)
    case Falsy => AmountOnly(1)
  }

  /** The list addProduct builds once the stock gate has passed. */
  function Added(s: seq<Product>, id: int, body: Body): (r: seq<Product>)
    ensures |r| == |s| + (if Absent(s, id) then 1 else 0)
    ensures forall i :: 0 <= i < |s| ==> r[i] == Bump(s[i], id)
    ensures Absent(s, id) ==> r[|s|] == NewItem(body)
  {
    if Find(s, id).None? then s + [NewItem(body)] else Incremented(s, id)
  }

  // ---------------------------------------------------------------------
  // Properties of the rewrites

  /** Two carts with the same ids at the same positions. */
  predicate SameIds(s: seq<Product>, r: seq<Product>) {
    |s| == |r| &&
    forall i :: 0 <= i < |s| ==> (r[i].Product? <==> s[i].Product?) && (s[i].Product? ==> r[i].id == s[i].id)
  }

  lemma SameIdsKeepUnique(s: seq<Product>, r: seq<Product>)
    requires SameIds(s, r) && UniqueIds(s)
    ensures UniqueIds(r)
  {
  }

  /** addProduct on an absent id appends exactly one item, with amount 1, at
      the end, and leaves the earlier items as they were. */
  lemma AddedAbsent(s: seq<Product>, id: int, body: Body)
    requires Absent(s, id)
    ensures |Added(s, id, body)| == |s| + 1
    ensures Added(s, id, body)[..|s|] == s
    ensures Added(s, id, body)[|s|] == NewItem(body) && NewItem(body).amount == 1
    ensures body.Record? ==> HasId(Added(s, id, body)[|s|], body.info.id)
  {
  }

  /** With unique ids, addProduct on a present id adds 1 to that item's amount
      only: length, order and every other item stay as they were. */
  lemma AddedPresent(s: seq<Product>, id: int, body: Body, k: int)
    requires UniqueIds(s) && 0 <= k < |s| && HasId(s[k], id)
    ensures Added(s, id, body) == s[k := s[k].(amount := s[k].amount + 1)]
    ensures UniqueIds(Added(s, id, body))
  {
    var r := Added(s, id, body);
    assert Find(s, id).Some?;
    forall i | 0 <= i < |s| ensures r[i] == s[k := s[k].(amount := s[k].amount + 1)][i] {
      if i != k {
        assert !HasId(s[i], id);
      }
    }
    SameIdsKeepUnique(s, r);
  }

  /** Ids stay unique through addProduct when the product endpoint returns the
      record of the id that was asked for. */
  lemma AddedKeepsUnique(s: seq<Product>, id: int, body: Body)
    requires UniqueIds(s)
    requires body.Record? ==> body.info.id == id
    ensures UniqueIds(Added(s, id, body))
  {
    if Find(s, id).None? {
      var r := Added(s, id, body);
      forall i, j | 0 <= i < j < |r| && r[i].Product? && r[j].Product? ensures r[i].id != r[j].id {
        if j == |s| {
          assert r[i] == s[i] && !HasId(s[i], id);
        }
      }
    } else {
      SameIdsKeepUnique(s, Added(s, id, body));
    }
  }

  /** After a passed stock gate, no item with the id holds more than the
      stock amount: `current < stock` gives `current + 1 <= stock`. */
  lemma AddedWithinStock(s: seq<Product>, id: int, body: Body, stock: Stock)
    requires UniqueIds(s)
    requires HasStock(stock, GateQuantity(Find(s, id)))
    ensures forall p :: p in Added(s, id, body) && HasId(p, id) ==> p.amount <= stock.amount
  {
    var r := Added(s, id, body);
    if Find(s, id).None? {
      assert r == s + [NewItem(body)];
    } else {
      forall p | p in r && HasId(p, id) ensures p.amount <= stock.amount {
        var i :| 0 <= i < |r| && r[i] == p;
        FindUnique(s, id, i);
      }
    }
  }

  /** The stock gate of addProduct checks the current amount, which is the
      same as checking the candidate amount `current + 1` against the stock
      with equality allowed. */
  lemma GateIsCandidateBound(stock: Stock, current: int)
    ensures HasStock(stock, current) <==> current + 1 <= stock.amount
  {
  }

  /** With unique ids, the update writes the requested amount into the one
      matching item: length, order and every other item stay as they were. */
  lemma WithAmountPresent(s: seq<Product>, id: int, amount: int, k: int)
    requires UniqueIds(s) && 0 <= k < |s| && HasId(s[k], id)
    ensures WithAmount(s, id, amount) == s[k := s[k].(amount := amount)]
    ensures UniqueIds(WithAmount(s, id, amount))
  {
    var r := WithAmount(s, id, amount);
    forall i | 0 <= i < |s| ensures r[i] == s[k := s[k].(amount := amount)][i] {
      if i != k {
        assert !HasId(s[i], id);
      }
    }
    SameIdsKeepUnique(s, r);
  }

  /** The update map leaves a cart without the id as it was. */
  lemma WithAmountAbsent(s: seq<Product>, id: int, amount: int)
    requires Absent(s, id)
    ensures WithAmount(s, id, amount) == s
  {
    assert forall i :: 0 <= i < |s| ==> WithAmount(s, id, amount)[i] == s[i];
  }

  /** The filter keeps exactly the items without the id. */
  lemma {:induction false} RemovedMembers(s: seq<Product>, id: int)
    ensures forall p :: p in Removed(s, id) <==> p in s && !HasId(p, id)
    ensures |Removed(s, id)| <= |s|
  {
    if s != [] {
      RemovedMembers(s[1..], id);
      assert s == [s[0]] + s[1..];
    }
  }

  /** The filter keeps relative order: it distributes over concatenation. */
  lemma {:induction false} RemovedAppend(a: seq<Product>, b: seq<Product>, id: int)
    ensures Removed(a + b, id) == Removed(a, id) + Removed(b, id)
  {
    if a == [] {
      assert a + b == b;
    } else {
      assert (a + b)[0] == a[0];
      assert (a + b)[1..] == a[1..] + b;
      RemovedAppend(a[1..], b, id);
    }
  }

  /** The filter leaves a cart without the id as it was. */
  lemma {:induction false} RemovedAbsent(s: seq<Product>, id: int)
    requires Absent(s, id)
    ensures Removed(s, id) == s
  {
    if s != [] {
      RemovedAbsent(s[1..], id);
    }
  }

  /** With unique ids, removing a present id drops exactly the item at its
      position and keeps the others in order. */
  lemma {:induction false} RemovedPresent(s: seq<Product>, id: int, k: int)
    requires UniqueIds(s) && 0 <= k < |s| && HasId(s[k], id)
    ensures Removed(s, id) == s[..k] + s[k + 1..]
  {
    if k == 0 {
      assert Absent(s[1..], id) by {
        forall i | 0 <= i < |s| - 1 ensures !HasId(s[1..][i], id) {
          assert s[1..][i] == s[i + 1];
        }
      }
      RemovedAbsent(s[1..], id);
    } else {
      assert !HasId(s[0], id);
      UniqueTail(s);
      RemovedPresent(s[1..], id, k - 1);
      calc {
        Removed(s, id);
        [s[0]] + Removed(s[1..], id);
        [s[0]] + (s[1..][..k - 1] + s[1..][k..]);
        { assert s[..k] == [s[0]] + s[1..][..k - 1]; assert s[k + 1..] == s[1..][k..]; }
        s[..k] + s[k + 1..];
      }
    }
  }

  lemma UniqueTail(s: seq<Product>)
    requires UniqueIds(s) && s != []
    ensures UniqueIds(s[1..])
  {
    forall i, j | 0 <= i < j < |s| - 1 && s[1..][i].Product? && s[1..][j].Product?
      ensures s[1..][i].id != s[1..][j].id
    {
      assert s[1..][i] == s[i + 1] && s[1..][j] == s[j + 1];
    }
  }

  /** The filter never breaks unique ids. */
  lemma {:induction false} RemovedKeepsUnique(s: seq<Product>, id: int)
    requires UniqueIds(s)
    ensures UniqueIds(Removed(s, id))
  {
    if s != [] {
      UniqueTail(s);
      RemovedKeepsUnique(s[1..], id);
      var t := Removed(s[1..], id);
      var r := Removed(s, id);
      if HasId(s[0], id) {
        assert r == t;
      } else {
        assert r == [s[0]] + t;
        forall i, j | 0 <= i < j < |r| && r[i].Product? && r[j].Product? ensures r[i].id != r[j].id {
          if i == 0 {
            assert r[j] in t;
            RemovedMembers(s[1..], id);
            var m :| 0 <= m < |s[1..]| && s[1..][m] == r[j];
            assert s[m + 1] == r[j];
          } else {
            assert r[i] == t[i - 1] && r[j] == t[j - 1];
          }
        }
      }
    }
  }

  // ---------------------------------------------------------------------
  // Repeated adds

  /** How many times an id occurs in a sequence of ids. */
  function Count(ids: seq<int>, x: int): nat {
    if ids == [] then 0 else (if ids[0] == x then 1 else 0) + Count(ids[1..], x)
  }

  /** The cart after adding each id in turn, every stock gate passing and the
      product endpoint answering each id with `catalog(id)`. */
  function AddedAll(s: seq<Product>, ids: seq<int>, catalog: int -> ProductInfo): seq<Product>
    decreases |ids|
  {
    if ids == [] then s else AddedAll(Added(s, ids[0], Record(catalog(ids[0]))), ids[1..], catalog)
  }

  /** One add raises the amount held for its id by 1 and changes no other id's. */
  lemma AddedAmount(s: seq<Product>, id: int, info: ProductInfo, x: int)
    requires UniqueIds(s) && info.id == id
    ensures AmountOf(Added(s, id, Record(info)), x) == AmountOf(s, x) + (if x == id then 1 else 0)
  {
    var r := Added(s, id, Record(info));
    AddedKeepsUnique(s, id, Record(info));
    if Find(s, id).None? {
      if Find(s, x).Some? {
        var k :| 0 <= k < |s| && s[k] == Find(s, x).value && HasId(s[k], x) && Absent(s[..k], x);
        FindUnique(r, x, k);
      } else if x == id {
        FindUnique(r, x, |s|);
      } else {
        assert Absent(r, x) by {
          forall i | 0 <= i < |r| ensures !HasId(r[i], x) {
            if i < |s| { assert r[i] == s[i]; }
          }
        }
      }
    } else {
      if Find(s, x).Some? {
        var k :| 0 <= k < |s| && s[k] == Find(s, x).value && HasId(s[k], x) && Absent(s[..k], x);
        FindUnique(r, x, k);
      } else {
        assert x != id;
        assert Absent(r, x) by {
          forall i | 0 <= i < |r| ensures !HasId(r[i], x) {
            assert r[i] == Bump(s[i], id);
          }
        }
      }
    }
  }

  /** Adding a sequence of ids to a cart with unique ids keeps them unique and
      raises each id's amount by the number of times it was added. */
  lemma {:induction false} AddedAllAmounts(s: seq<Product>, ids: seq<int>, catalog: int -> ProductInfo, x: int)
    requires UniqueIds(s)
    requires forall id :: catalog(id).id == id
    ensures UniqueIds(AddedAll(s, ids, catalog))
    ensures AmountOf(AddedAll(s, ids, catalog), x) == AmountOf(s, x) + Count(ids, x)
    decreases |ids|
  {
    if ids != [] {
      var s' := Added(s, ids[0], Record(catalog(ids[0])));
      AddedKeepsUnique(s, ids[0], Record(catalog(ids[0])));
      AddedAmount(s, ids[0], catalog(ids[0]), x);
      AddedAllAmounts(s', ids[1..], catalog, x);
    }
  }

  /** Every item has an id, and that id is one of `ids`. */
  predicate IdsWithin(s: seq<Product>, ids: seq<int>) {
    forall p :: p in s ==> p.Product? && p.id in ids
  }

  /** An add of an id from `all` with a matching record keeps every id in `all`. */
  lemma AddedWithin(s: seq<Product>, id: int, info: ProductInfo, all: seq<int>)
    requires IdsWithin(s, all) && id in all && info.id == id
    ensures IdsWithin(Added(s, id, Record(info)), all)
  {
    var r := Added(s, id, Record(info));
    forall p | p in r ensures p.Product? && p.id in all {
      var i :| 0 <= i < |r| && r[i] == p;
      if Find(s, id).None? {
        if i < |s| { assert r[i] == s[i]; }
      } else {
        assert r[i] == Bump(s[i], id) && s[i] in s;
      }
    }
  }

  /** Repeated adds of ids from `all` keep every id in `all`. */
  lemma {:induction false} AddedAllWithin(s: seq<Product>, ids: seq<int>, catalog: int -> ProductInfo, all: seq<int>)
    requires IdsWithin(s, all)
    requires forall i :: 0 <= i < |ids| ==> ids[i] in all
    requires forall id :: catalog(id).id == id
    ensures IdsWithin(AddedAll(s, ids, catalog), all)
    decreases |ids|
  {
    if ids != [] {
      AddedWithin(s, ids[0], catalog(ids[0]), all);
      AddedAllWithin(Added(s, ids[0], Record(catalog(ids[0]))), ids[1..], catalog, all);
    }
  }

  /** On an empty cart, repeated adds leave exactly one item per distinct id
      added, whose amount is the number of times the id was added, and no
      other item. */
  lemma AddedAllFromEmpty(ids: seq<int>, catalog: int -> ProductInfo, x: int)
    requires forall id :: catalog(id).id == id
    ensures UniqueIds(AddedAll([], ids, catalog))
    ensures AmountOf(AddedAll([], ids, catalog), x) == Count(ids, x)
    ensures forall p :: p in AddedAll([], ids, catalog) ==> p.Product? && p.id in ids
  {
    AddedAllAmounts([], ids, catalog, x);
    AddedAllWithin([], ids, catalog, ids);
  }

  /** The add gate sees only the first item with the id, so with a duplicate
      id the later item can be raised above the stock. */
  lemma DuplicatesExceedStock()
    ensures var s := [Product(1, "", 0.0, "", 1), Product(1, "", 0.0, "", 5)];
            HasStock(Stock(1, 3), GateQuantity(Find(s, 1))) &&
            Added(s, 1, Falsy)[1].amount > Stock(1, 3).amount
  {
  }

  /** Amounts stay at least 1 through an add: a new item starts at 1 and an
      increment only raises an amount. */
  lemma AddedPositive(s: seq<Product>, id: int, body: Body)
    requires Positive(s)
    ensures Positive(Added(s, id, body))
  {
    var r := Added(s, id, body);
    forall i | 0 <= i < |r| ensures r[i].amount >= 1 {
      if i < |s| { assert r[i] == Bump(s[i], id); }
    }
  }

  /** The filter only drops items, so amounts stay at least 1. */
  lemma RemovedPositive(s: seq<Product>, id: int)
    requires Positive(s)
    ensures Positive(Removed(s, id))
  {
    RemovedMembers(s, id);
    var r := Removed(s, id);
    forall i | 0 <= i < |r| ensures r[i].amount >= 1 {
      assert r[i] in s;
    }
  }

  /** An update with a positive amount keeps every amount at least 1. */
  lemma WithAmountPositive(s: seq<Product>, id: int, amount: int)
    requires Positive(s) && amount > 0
    ensures Positive(WithAmount(s, id, amount))
  {
    var r := WithAmount(s, id, amount);
    forall i | 0 <= i < |r| ensures r[i].amount >= 1 {
      assert r[i] == SetAmount(s[i], id, amount);
    }
  }

  /** The update gate asks about the item's current amount, not the requested
      one, so an update can set an amount above the stock. */
  lemma UpdateGateIgnoresRequested()
    ensures var s := [Product(3, "", 0.0, "", 1)];
            HasStock(Stock(3, 2), GateQuantity(Find(s, 3))) &&
            WithAmount(s, 3, 5)[0].amount > Stock(3, 2).amount
  {
  }
}
