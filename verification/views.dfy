/**
 The view-level behaviour of store/views.py that touches the store: the
 guarded destroy actions of ProductViewSet and CollectionViewSet, and the
 product-scoped review listing of ReviewViewSet.

 The default destroy of a ModelViewSet looks the row up (404 when it is not
 there), deletes it and answers 204. It does not catch the ORM's
 ProtectedError, so a protected delete that reaches it surfaces as a 500.
 */
module Views {
  import opened Records
  import opened RecordStore
  import opened Deletion

  datatype Response =
    | BadRequest(error: string)    // 400 with an error message
    | NoContent                    // 204
    | NotFound                     // 404
    | ServerError                  // 500: an exception the view did not handle

  /** The store after a request, and the response sent. */
  datatype Reply = Reply(store: Store, response: Response)

  const ProductInUse := "Product cannot be deleted as it is associated with some order items"
  const CollectionInUse := "Collection cannot be deleted as it is associated with some products"

  /** The response the default destroy gives for the outcome of Model.delete(). */
  function Respond(c: Change): (r: Reply)
    ensures r.store == c.store
    ensures !r.response.BadRequest?
    ensures r.response == NoContent <==> c.status.Committed?
    ensures r.response == NotFound <==> c.status == Refused(DoesNotExist)
    ensures r.response == ServerError <==> c.status.Refused? && c.status.error != DoesNotExist
  {
    match c.status
    case Committed => Reply(c.store, NoContent)
    case Refused(DoesNotExist) => Reply(c.store, NotFound)
    case Refused(_) => Reply(c.store, ServerError)
  }

  /** ModelViewSet.destroy for products, without the guard: 404 for an
      unknown key, 500 when an order item still protects the product,
      otherwise 204 with the product deleted. */
  function DefaultDestroyProduct(s: Store, pk: Id): (r: Reply)
    ensures r.store == DeleteProduct(s, pk).store
    ensures r.response == NotFound <==> pk !in s.products
    ensures r.response == ServerError <==> pk in s.products && OrderItemsOfProduct(s, pk) != {}
    ensures r.response == NoContent <==> pk in s.products && OrderItemsOfProduct(s, pk) == {}
  {
    Respond(DeleteProduct(s, pk))
  }

  /** ModelViewSet.destroy for collections, without the guard: 404 for an
      unknown key, 500 when a product still protects the collection,
      otherwise 204 with the collection deleted. */
  function DefaultDestroyCollection(s: Store, pk: Id): (r: Reply)
    ensures r.store == DeleteCollection(s, pk).store
    ensures r.response == NotFound <==> pk !in s.collections
    ensures r.response == ServerError <==> pk in s.collections && ProductsIn(s, pk) != {}
    ensures r.response == NoContent <==> pk in s.collections && ProductsIn(s, pk) == {}
  {
    Respond(DeleteCollection(s, pk))
  }

  /** ProductViewSet.destroy: refuse with 400 while any order item references
      the product; otherwise the default destroy. The count runs before the
      product is looked up. */
  function DestroyProduct(s: Store, pk: Id): (r: Reply)
    ensures r.response.BadRequest? <==> exists i :: i in s.orderItems && s.orderItems[i].product == pk
    ensures r.response.BadRequest? ==> r.store == s && r.response.error == ProductInUse
    ensures r.response == NotFound <==> OrderItemsOfProduct(s, pk) == {} && pk !in s.products
    ensures r.response == NotFound ==> r.store == s
    ensures r.response == NoContent <==> OrderItemsOfProduct(s, pk) == {} && pk in s.products
    ensures r.response == NoContent ==> pk !in r.store.products && r.store == DeleteProduct(s, pk).store
    ensures r.response != ServerError
  {
    if |OrderItemsOfProduct(s, pk)| > 0 then
      Reply(s, BadRequest(ProductInUse))
    else
      assert forall i :: i in s.orderItems ==> s.orderItems[i].product != pk by {
        forall i | i in s.orderItems ensures s.orderItems[i].product != pk {
          assert i !in OrderItemsOfProduct(s, pk);
        }
      }
      DefaultDestroyProduct(s, pk)
  }

  /** CollectionViewSet.destroy: refuse with 400 while any product belongs to
      the collection; otherwise the default destroy. */
  function DestroyCollection(s: Store, pk: Id): (r: Reply)
    ensures r.response.BadRequest? <==> exists p :: p in s.products && s.products[p].collection == Some(pk)
    ensures r.response.BadRequest? ==> r.store == s && r.response.error == CollectionInUse
    ensures r.response == NotFound <==> ProductsIn(s, pk) == {} && pk !in s.collections
    ensures r.response == NotFound ==> r.store == s
    ensures r.response == NoContent <==> ProductsIn(s, pk) == {} && pk in s.collections
    ensures r.response == NoContent ==> pk !in r.store.collections && r.store == DeleteCollection(s, pk).store
    ensures r.response != ServerError
  {
    if |ProductsIn(s, pk)| > 0 then
      Reply(s, BadRequest(CollectionInUse))
    else
      assert forall p :: p in s.products ==> s.products[p].collection != Some(pk) by {
        forall p | p in s.products ensures s.products[p].collection != Some(pk) {
          assert p !in ProductsIn(s, pk);
        }
      }
      DefaultDestroyCollection(s, pk)
  }

  /** ReviewViewSet.get_queryset: the reviews of the product named in the URL. */
  function ReviewsFor(s: Store, productPk: Id): (r: map<Id, Review>)
    ensures forall v :: v in r <==> v in s.reviews && s.reviews[v].product == productPk
    ensures forall v :: v in r ==> r[v] == s.reviews[v]
  {
    map v | v in s.reviews && s.reviews[v].product == productPk :: s.reviews[v]
  }
}

/** How the view guards relate to the on_delete rules they anticipate. */
module ViewProperties {
  import opened Records
  import opened RecordStore
  import opened Deletion
  import opened DeletionIntegrity
  import opened Views

  /** The product guard refuses exactly when Model.delete() would raise
      ProtectedError, and the unguarded default destroy answers 500 in exactly
      those cases: the guard is what keeps the view from failing. */
  lemma ProductGuardMatchesProtect(s: Store, pk: Id)
    ensures pk in s.products ==>
      (DestroyProduct(s, pk).response.BadRequest? <==> DeleteProduct(s, pk).status == Refused(ProtectedError))
    ensures DefaultDestroyProduct(s, pk).response == ServerError <==>
      pk in s.products && DestroyProduct(s, pk).response.BadRequest?
    ensures !DestroyProduct(s, pk).response.BadRequest? ==> DestroyProduct(s, pk) == DefaultDestroyProduct(s, pk)
  {
  }

  lemma CollectionGuardMatchesProtect(s: Store, pk: Id)
    ensures pk in s.collections ==>
      (DestroyCollection(s, pk).response.BadRequest? <==> DeleteCollection(s, pk).status == Refused(ProtectedError))
    ensures DefaultDestroyCollection(s, pk).response == ServerError <==>
      pk in s.collections && DestroyCollection(s, pk).response.BadRequest?
    ensures !DestroyCollection(s, pk).response.BadRequest? ==> DestroyCollection(s, pk) == DefaultDestroyCollection(s, pk)
  {
  }

  /** In a valid store nothing references an unknown key, so the guard finds
      nothing and the default destroy answers 404. */
  lemma UnknownProductIsNotFound(s: Store, pk: Id)
    requires Valid(s) && pk !in s.products
    ensures DestroyProduct(s, pk) == Reply(s, NotFound)
  {
  }

  lemma UnknownCollectionIsNotFound(s: Store, pk: Id)
    requires Valid(s) && pk !in s.collections
    ensures DestroyCollection(s, pk) == Reply(s, NotFound)
  {
  }

  /** The reference count runs before the lookup: an order item left pointing
      at a missing product (which a valid store never holds) yields 400, not 404. */
  lemma GuardRunsBeforeLookup()
    ensures var s := Empty.(orderItems := map[1 := OrderItem(1, 7, 1, 100)]);
      7 !in s.products && DestroyProduct(s, 7).response.BadRequest?
  {
    var s := Empty.(orderItems := map[1 := OrderItem(1, 7, 1, 100)]);
    assert 1 in OrderItemsOfProduct(s, 7);
  }

  lemma DestroyPreservesValid(s: Store, pk: Id)
    requires Valid(s)
    ensures Valid(DestroyProduct(s, pk).store)
    ensures Valid(DestroyCollection(s, pk).store)
  {
    DeleteProductPreservesValid(s, pk);
    DeleteCollectionPreservesValid(s, pk);
  }

  /** The review listings partition the reviews by product. */
  lemma ReviewsForPartition(s: Store, a: Id, b: Id)
    ensures forall v :: v in s.reviews ==> v in ReviewsFor(s, s.reviews[v].product)
    ensures a != b ==> ReviewsFor(s, a).Keys !! ReviewsFor(s, b).Keys
  {
  }

  /** After a product is destroyed its review listing is empty; in a valid
      store an unknown product lists no reviews. */
  lemma NoReviewsForMissingProduct(s: Store, pk: Id)
    ensures DestroyProduct(s, pk).response == NoContent ==> ReviewsFor(DestroyProduct(s, pk).store, pk) == map[]
    ensures Valid(s) && pk !in s.products ==> ReviewsFor(s, pk) == map[]
  {
  }
}
