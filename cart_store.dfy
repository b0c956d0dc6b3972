/** The cart store: the in-memory cart, the storage slot it is mirrored to,
    and the three operations that change them. Every network reply is a
    parameter; every toast is a returned notice. */
module CartStore {
  import opened CartItems

  /** What an awaited request resolved to: its data, or a rejection caught
      by the operation's `catch`. */
  datatype Fetch<T> = Fetched(data: T) | Failed

  /** The toast an operation shows; `Quiet` when it shows none. */
  datatype Notice =
    | Quiet
    | ProductAdded   // "Produto adicionado no carrinho!"
    | OutOfStock     // "Quantidade solicitada fora de estoque"
    | AddFailed      // "Erro na adição do produto"
    | RemoveFailed   // "Erro na remoção do produto"
    | UpdateFailed   // "Erro na alteração de quantidade do produto"

  /** The cart read back from the storage slot: its list, or empty when the
      key is missing. */
  function Load(slot: Option<seq<Product>>): (r: seq<Product>)
    ensures slot == Some(r) || (slot.None? && r == [])
  {
    match slot
    case Some(s) => s
    case None => []
  }

  /** The stored copy and the in-memory cart agree once reloaded. */
  predicate InSync(cart: seq<Product>, stored: Option<seq<Product>>) {
    stored == Some(cart)
  }

  class CartProvider {
    /** The cart state. */
    var cart: seq<Product>
    /** The slot under the storage key "@RocketShoes:cart"; `None` while the key is missing. */
    var stored: Option<seq<Product>>

    /** The `useState` initialiser: the cart starts as what storage holds. */
    constructor (slot: Option<seq<Product>>)
      ensures stored == slot
      ensures cart == Load(slot)
      ensures slot.Some? ==> InSync(cart, stored)
    {
      cart := Load(slot);
      stored := slot;
    }

    /** addProduct: `product` is the reply of `products/{id}`, `stock` the one
        of `stock/{id}`, asked only once the product reply arrived. */
    method AddProduct(productId: int, product: Fetch<Body>, stock: Fetch<Stock>) returns (notice: Notice)
      modifies this
      // a rejected request: nothing changes
      ensures product.Failed? || stock.Failed? ==>
        notice == AddFailed && cart == old(cart) && stored == old(stored)
      // the stock gate, asked about the current amount or 0
      ensures product.Fetched? && stock.Fetched? &&
              !HasStock(stock.data, GateQuantity(Find(old(cart), productId))) ==>
        notice == OutOfStock && cart == old(cart) && stored == old(stored)
      // success: storage always gets the new list; the cart does unless a
      // falsy body was pushed as a new item
      ensures product.Fetched? && stock.Fetched? &&
              HasStock(stock.data, GateQuantity(Find(old(cart), productId))) ==>
        notice == ProductAdded &&
        stored == Some(Added(old(cart), productId, product.data)) &&
        cart == (if product.data.Record? || Find(old(cart), productId).Some?
                 then Added(old(cart), productId, product.data) else old(cart))
      ensures notice == ProductAdded && (product.data.Record? || Find(old(cart), productId).Some?) ==>
        InSync(cart, stored)
      ensures notice == ProductAdded && old(UniqueIds(cart)) ==>
        forall p :: p in cart && HasId(p, productId) ==> p.amount <= stock.data.amount
      ensures notice == ProductAdded && old(UniqueIds(cart)) ==>
        stored.Some? && forall p :: p in stored.value && HasId(p, productId) ==> p.amount <= stock.data.amount
      ensures old(UniqueIds(cart)) && (product.Fetched? && product.data.Record? ==> product.data.info.id == productId) ==>
        UniqueIds(cart) && (stored != old(stored) ==> UniqueIds(stored.value))
      ensures old(Positive(cart)) ==> Positive(cart) && (stored != old(stored) ==> Positive(stored.value))
    {
      if product.Failed? {
        return AddFailed;
      }
      var found := Find(cart, productId);
      if stock.Failed? {
        return AddFailed;
      }
      if !HasStock(stock.data, GateQuantity(found)) {
        return OutOfStock;
      }
      var newCart := cart;
      if found.None? {
        newCart := newCart + [NewItem(product.data)];
      } else {
        var i := 0;
        while i < |newCart|
          invariant 0 <= i <= |newCart| == |cart|
          invariant forall k :: 0 <= k < i ==> newCart[k] == Bump(cart[k], productId)
          invariant forall k :: i <= k < |newCart| ==> newCart[k] == cart[k]
        {
          if HasId(newCart[i], productId) {
            newCart := newCart[i := newCart[i].(amount := newCart[i].amount + 1)];
          }
          i := i + 1;
        }
        assert newCart == Incremented(cart, productId);
      }
      ghost var before := cart;
      // `data && setCart(newCart)`. In the present case the map has already
      // raised `product.amount` on the objects `cart` shares with the shallow
      // copy, so the in-memory items change even when `data` is falsy.
      if product.data.Record? || found.Some? {
        cart := newCart;
      }
      stored := Some(newCart);
      if Positive(before) {
        AddedPositive(before, productId, product.data);
      }
      if UniqueIds(before) {
        AddedWithinStock(before, productId, product.data, stock.data);
        if product.data.Record? ==> product.data.info.id == productId {
          AddedKeepsUnique(before, productId, product.data);
        }
      }
      notice := ProductAdded;
    }

    /** removeProduct: an absent id is an error; otherwise every item with
        the id is filtered out. */
    method RemoveProduct(productId: int) returns (notice: Notice)
      modifies this
      ensures Find(old(cart), productId).None? ==>
        notice == RemoveFailed && cart == old(cart) && stored == old(stored)
      ensures Find(old(cart), productId).Some? ==>
        notice == Quiet && cart == Removed(old(cart), productId) && InSync(cart, stored)
      ensures Absent(cart, productId)
      ensures forall p :: p in cart ==> p in old(cart)
      ensures old(UniqueIds(cart)) ==> UniqueIds(cart)
      ensures old(Positive(cart)) ==> Positive(cart) && (stored != old(stored) ==> Positive(stored.value))
    {
      var found := Find(cart, productId);
      if found.None? {
        return RemoveFailed;
      }
      if Positive(cart) {
        RemovedPositive(cart, productId);
      }
      var newCart := Removed(cart, productId);
      RemovedMembers(cart, productId);
      if UniqueIds(cart) {
        RemovedKeepsUnique(cart, productId);
      }
      cart := newCart;
      stored := Some(newCart);
      notice := Quiet;
    }

    /** updateProductAmount: amounts of 0 or less are ignored; the stock gate
        is asked about the item's current amount (or 0), not the requested one. */
    method UpdateProductAmount(productId: int, amount: int, stock: Fetch<Stock>) returns (notice: Notice)
      modifies this
      ensures amount <= 0 ==> notice == Quiet && cart == old(cart) && stored == old(stored)
      ensures amount > 0 && stock.Failed? ==>
        notice == UpdateFailed && cart == old(cart) && stored == old(stored)
      ensures amount > 0 && stock.Fetched? &&
              !HasStock(stock.data, GateQuantity(Find(old(cart), productId))) ==>
        notice == OutOfStock && cart == old(cart) && stored == old(stored)
      ensures amount > 0 && stock.Fetched? &&
              HasStock(stock.data, GateQuantity(Find(old(cart), productId))) ==>
        notice == Quiet && cart == WithAmount(old(cart), productId, amount) && InSync(cart, stored)
      ensures Absent(old(cart), productId) ==> cart == old(cart)
      ensures old(UniqueIds(cart)) ==> UniqueIds(cart)
      ensures old(Positive(cart)) ==> Positive(cart) && (stored != old(stored) ==> Positive(stored.value))
    {
      if amount <= 0 {
        return Quiet;
      }
      var found := Find(cart, productId);
      if stock.Failed? {
        return UpdateFailed;
      }
      if !HasStock(stock.data, GateQuantity(found)) {
        return OutOfStock;
      }
      var newCart := WithAmount(cart, productId, amount);
      if Positive(cart) {
        WithAmountPositive(cart, productId, amount);
      }
      if Absent(cart, productId) {
        WithAmountAbsent(cart, productId, amount);
      }
      if UniqueIds(cart) {
        SameIdsKeepUnique(cart, newCart);
      }
      cart := newCart;
      stored := Some(newCart);
      notice := Quiet;
    }
  }
}
