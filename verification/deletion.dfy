/**
 Model.delete() for each model of store/models.py, following the on_delete
 rule of every foreign key that points at the model:

   PROTECT   the delete is refused with ProtectedError and nothing changes;
   CASCADE   the pointing rows are deleted with the row;
   SET_NULL  the pointing column is cleared and the pointing row stays.

 The ORM collects every dependent before it writes anything, so a refused
 delete leaves the whole store as it was. A delete of a key that is not in
 its table is refused with DoesNotExist, as the lookup that fetches the
 instance would be.
 */
module Deletion {
  import opened Records
  import opened RecordStore

  /** Collection.featured_product is SET_NULL: every collection that featured
      `product` keeps its row and loses the reference. */
  function Unfeature(cs: map<Id, Collection>, product: Id): (r: map<Id, Collection>)
    ensures r.Keys == cs.Keys
    ensures forall c :: c in cs && cs[c].featured == Some(product) ==> r[c] == cs[c].(featured := None)
    ensures forall c :: c in cs && cs[c].featured != Some(product) ==> r[c] == cs[c]
  {
    map c | c in cs :: if cs[c].featured == Some(product) then cs[c].(featured := None) else cs[c]
  }

  /** Deleting a Collection: Product.collection is PROTECT. */
  function DeleteCollection(s: Store, id: Id): (r: Change)
    ensures r.status.Refused? ==> r.store == s
    ensures r.status == Refused(DoesNotExist) <==> id !in s.collections
    ensures r.status == Refused(ProtectedError) <==> id in s.collections && ProductsIn(s, id) != {}
    ensures r.status.Committed? <==> id in s.collections && ProductsIn(s, id) == {}
    ensures r.status.Committed? ==>
      && r.store == s.(collections := r.store.collections)
      && (forall c :: c in r.store.collections <==> c in s.collections && c != id)
      && (forall c :: c in r.store.collections ==> r.store.collections[c] == s.collections[c])
  {
    if id !in s.collections then Change(s, Refused(DoesNotExist))
    else if ProductsIn(s, id) != {} then Change(s, Refused(ProtectedError))
    else Change(s.(collections := Without(s.collections, {id})), Committed)
  }

  /** Deleting a Product: OrderItem.product is PROTECT, CartItem.product and
      Review.product are CASCADE, Collection.featured_product is SET_NULL. */
  function DeleteProduct(s: Store, id: Id): (r: Change)
    ensures r.status.Refused? ==> r.store == s
    ensures r.status == Refused(DoesNotExist) <==> id !in s.products
    ensures r.status == Refused(ProtectedError) <==> id in s.products && OrderItemsOfProduct(s, id) != {}
    ensures r.status.Committed? <==> id in s.products && OrderItemsOfProduct(s, id) == {}
    ensures r.status.Committed? ==>
      && r.store == s.(products := r.store.products, collections := r.store.collections,
                       cartItems := r.store.cartItems, reviews := r.store.reviews)
      && (forall p :: p in r.store.products <==> p in s.products && p != id)
      && (forall p :: p in r.store.products ==> r.store.products[p] == s.products[p])
      && (forall i :: i in r.store.cartItems <==> i in s.cartItems && s.cartItems[i].product != id)
      && (forall i :: i in r.store.cartItems ==> r.store.cartItems[i] == s.cartItems[i])
      && (forall v :: v in r.store.reviews <==> v in s.reviews && s.reviews[v].product != id)
      && (forall v :: v in r.store.reviews ==> r.store.reviews[v] == s.reviews[v])
      && r.store.collections == Unfeature(s.collections, id)
  {
    if id !in s.products then Change(s, Refused(DoesNotExist))
    else if OrderItemsOfProduct(s, id) != {} then Change(s, Refused(ProtectedError))
    else
      Change(s.(products := Without(s.products, {id}),
                collections := Unfeature(s.collections, id),
                cartItems := Without(s.cartItems, CartItemsOfProduct(s, id)),
                reviews := Without(s.reviews, ReviewsOfProduct(s, id))),
             Committed)
  }

  /** Deleting a Customer: Order.customer is PROTECT, Address.customer is CASCADE. */
  function DeleteCustomer(s: Store, id: Id): (r: Change)
    ensures r.status.Refused? ==> r.store == s
    ensures r.status == Refused(DoesNotExist) <==> id !in s.customers
    ensures r.status == Refused(ProtectedError) <==> id in s.customers && OrdersOf(s, id) != {}
    ensures r.status.Committed? <==> id in s.customers && OrdersOf(s, id) == {}
    ensures r.status.Committed? ==>
      && r.store == s.(customers := r.store.customers, addresses := r.store.addresses)
      && (forall c :: c in r.store.customers <==> c in s.customers && c != id)
      && (forall c :: c in r.store.customers ==> r.store.customers[c] == s.customers[c])
      && (forall a :: a in r.store.addresses <==> a in s.addresses && s.addresses[a].customer != id)
      && (forall a :: a in r.store.addresses ==> r.store.addresses[a] == s.addresses[a])
  {
    if id !in s.customers then Change(s, Refused(DoesNotExist))
    else if OrdersOf(s, id) != {} then Change(s, Refused(ProtectedError))
    else
      Change(s.(customers := Without(s.customers, {id}),
                addresses := Without(s.addresses, AddressesOf(s, id))),
             Committed)
  }

  /** Deleting an Order: OrderItem.order is PROTECT. */
  function DeleteOrder(s: Store, id: Id): (r: Change)
    ensures r.status.Refused? ==> r.store == s
    ensures r.status == Refused(DoesNotExist) <==> id !in s.orders
    ensures r.status == Refused(ProtectedError) <==> id in s.orders && OrderItemsOfOrder(s, id) != {}
    ensures r.status.Committed? <==> id in s.orders && OrderItemsOfOrder(s, id) == {}
    ensures r.status.Committed? ==>
      && r.store == s.(orders := r.store.orders)
      && (forall o :: o in r.store.orders <==> o in s.orders && o != id)
      && (forall o :: o in r.store.orders ==> r.store.orders[o] == s.orders[o])
  {
    if id !in s.orders then Change(s, Refused(DoesNotExist))
    else if OrderItemsOfOrder(s, id) != {} then Change(s, Refused(ProtectedError))
    else Change(s.(orders := Without(s.orders, {id})), Committed)
  }

  /** Deleting a Cart: CartItem.cart is CASCADE. */
  function DeleteCart(s: Store, id: Id): (r: Change)
    ensures r.status.Refused? ==> r.store == s
    ensures r.status == Refused(DoesNotExist) <==> id !in s.carts
    ensures r.status.Committed? <==> id in s.carts
    ensures r.status.Committed? ==>
      && r.store == s.(carts := r.store.carts, cartItems := r.store.cartItems)
      && (forall c :: c in r.store.carts <==> c in s.carts && c != id)
      && (forall i :: i in r.store.cartItems <==> i in s.cartItems && s.cartItems[i].cart != id)
      && (forall i :: i in r.store.cartItems ==> r.store.cartItems[i] == s.cartItems[i])
  {
    if id !in s.carts then Change(s, Refused(DoesNotExist))
    else
      Change(s.(carts := Without(s.carts, {id}),
                cartItems := Without(s.cartItems, CartItemsOfCart(s, id))),
             Committed)
  }

  // OrderItem, Address, CartItem and Review have no foreign key pointing at
  // them: deleting one removes that row only.

  function DeleteOrderItem(s: Store, id: Id): (r: Change)
    ensures r.status.Refused? ==> r.store == s
    ensures r.status == Refused(DoesNotExist) <==> id !in s.orderItems
    ensures r.status.Committed? <==> id in s.orderItems
    ensures r.status.Committed? ==>
      && r.store == s.(orderItems := r.store.orderItems)
      && (forall i :: i in r.store.orderItems <==> i in s.orderItems && i != id)
      && (forall i :: i in r.store.orderItems ==> r.store.orderItems[i] == s.orderItems[i])
  {
    if id !in s.orderItems then Change(s, Refused(DoesNotExist))
    else Change(s.(orderItems := Without(s.orderItems, {id})), Committed)
  }

  function DeleteAddress(s: Store, id: Id): (r: Change)
    ensures r.status.Refused? ==> r.store == s
    ensures r.status == Refused(DoesNotExist) <==> id !in s.addresses
    ensures r.status.Committed? <==> id in s.addresses
    ensures r.status.Committed? ==>
      && r.store == s.(addresses := r.store.addresses)
      && (forall a :: a in r.store.addresses <==> a in s.addresses && a != id)
      && (forall a :: a in r.store.addresses ==> r.store.addresses[a] == s.addresses[a])
  {
    if id !in s.addresses then Change(s, Refused(DoesNotExist))
    else Change(s.(addresses := Without(s.addresses, {id})), Committed)
  }

  function DeleteCartItem(s: Store, id: Id): (r: Change)
    ensures r.status.Refused? ==> r.store == s
    ensures r.status == Refused(DoesNotExist) <==> id !in s.cartItems
    ensures r.status.Committed? <==> id in s.cartItems
    ensures r.status.Committed? ==>
      && r.store == s.(cartItems := r.store.cartItems)
      && (forall i :: i in r.store.cartItems <==> i in s.cartItems && i != id)
      && (forall i :: i in r.store.cartItems ==> r.store.cartItems[i] == s.cartItems[i])
  {
    if id !in s.cartItems then Change(s, Refused(DoesNotExist))
    else Change(s.(cartItems := Without(s.cartItems, {id})), Committed)
  }

  function DeleteReview(s: Store, id: Id): (r: Change)
    ensures r.status.Refused? ==> r.store == s
    ensures r.status == Refused(DoesNotExist) <==> id !in s.reviews
    ensures r.status.Committed? <==> id in s.reviews
    ensures r.status.Committed? ==>
      && r.store == s.(reviews := r.store.reviews)
      && (forall v :: v in r.store.reviews <==> v in s.reviews && v != id)
      && (forall v :: v in r.store.reviews ==> r.store.reviews[v] == s.reviews[v])
  {
    if id !in s.reviews then Change(s, Refused(DoesNotExist))
    else Change(s.(reviews := Without(s.reviews, {id})), Committed)
  }
}

/**
 Every committed delete keeps the store valid: no remaining row points at a
 deleted row, and the unique columns and field bounds still hold.
 */
module DeletionIntegrity {
  import opened Records
  import opened RecordStore
  import opened Deletion

  lemma DeleteCollectionPreservesValid(s: Store, id: Id)
    requires Valid(s)
    ensures Valid(DeleteCollection(s, id).store)
  {
    var r := DeleteCollection(s, id);
    if r.status.Committed? {
      var t := r.store;
      forall p | p in t.products
        ensures RefersInto(t.products[p].collection, t.collections)
      {
        assert p !in ProductsIn(s, id);
      }
    }
  }

  lemma DeleteProductPreservesValid(s: Store, id: Id)
    requires Valid(s)
    ensures Valid(DeleteProduct(s, id).store)
  {
    var r := DeleteProduct(s, id);
    if r.status.Committed? {
      var t := r.store;
      forall c | c in t.collections
        ensures RefersInto(t.collections[c].featured, t.products)
      {
        assert RefersInto(s.collections[c].featured, s.products);
      }
      forall i | i in t.orderItems
        ensures t.orderItems[i].product in t.products
      {
        assert i !in OrderItemsOfProduct(s, id);
      }
      forall c | c in t.collections
        ensures t.collections[c].InBounds()
      {
        assert s.collections[c].InBounds();
      }
    }
  }

  lemma DeleteCustomerPreservesValid(s: Store, id: Id)
    requires Valid(s)
    ensures Valid(DeleteCustomer(s, id).store)
  {
    var r := DeleteCustomer(s, id);
    if r.status.Committed? {
      var t := r.store;
      forall o | o in t.orders
        ensures t.orders[o].customer in t.customers
      {
        assert o !in OrdersOf(s, id);
      }
    }
  }

  lemma DeleteOrderPreservesValid(s: Store, id: Id)
    requires Valid(s)
    ensures Valid(DeleteOrder(s, id).store)
  {
    var r := DeleteOrder(s, id);
    if r.status.Committed? {
      var t := r.store;
      forall i | i in t.orderItems
        ensures t.orderItems[i].order in t.orders
      {
        assert i !in OrderItemsOfOrder(s, id);
      }
    }
  }

  lemma DeleteCartPreservesValid(s: Store, id: Id)
    requires Valid(s)
    ensures Valid(DeleteCart(s, id).store)
  {
  }

  lemma DeleteOrderItemPreservesValid(s: Store, id: Id)
    requires Valid(s)
    ensures Valid(DeleteOrderItem(s, id).store)
  {
  }

  lemma DeleteAddressPreservesValid(s: Store, id: Id)
    requires Valid(s)
    ensures Valid(DeleteAddress(s, id).store)
  {
  }

  lemma DeleteCartItemPreservesValid(s: Store, id: Id)
    requires Valid(s)
    ensures Valid(DeleteCartItem(s, id).store)
  {
  }

  lemma DeleteReviewPreservesValid(s: Store, id: Id)
    requires Valid(s)
    ensures Valid(DeleteReview(s, id).store)
  {
  }
}
