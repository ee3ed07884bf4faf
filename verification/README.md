# Storefront record store: deletion rules, slug rule and view guards

This project models the data layer of a small Django storefront (`store`
app) as pure functions over an immutable in-memory database, and proves
what its delete, save and destroy operations promise.

- `records.dfy` (module `Records`): one datatype per model of
  `store/models.py` (Collection, Product, Customer, Order, OrderItem,
  Address, Cart, CartItem, Review) with the column bounds each declares.
  Money is in whole cents.
- `store.dfy` (module `RecordStore`): the database `Store` (one finite map
  from key to row per table), its validity predicate (every foreign key names
  an existing row, `Product.slug` and `Customer.email` are unique, every field
  is within bounds), and `Change`, the result of a write: the new store plus
  `Committed` or `Refused(error)`.
- `deletion.dfy` (modules `Deletion`, `DeletionIntegrity`): `Model.delete()`
  for every model, following the `on_delete` of each foreign key that points
  at it (PROTECT refuses, CASCADE removes the dependents, SET_NULL clears the
  reference), and the proof that every delete keeps the store valid.
- `saving.dfy` (modules `Saving`, `SavingProperties`): `Product.save()` with
  its generate-the-slug-once rule, and the creation of a Customer (membership Bronze
  unless given) and an Order (payment Pending unless given).
- `views.dfy` (modules `Views`, `ViewProperties`): `ProductViewSet.destroy`
  and `CollectionViewSet.destroy`, which refuse with 400 while the row is
  referenced before deferring to the default destroy, and the product-scoped
  review listing of `ReviewViewSet`.

`slugify` is a function parameter: nothing is assumed about how a title
becomes a slug. New rows take a key their table does not hold, as the
auto-incremented primary key would give them.

Facts about the code that shape the model:

- `OrderItem.order` is `PROTECT` (store/models.py:117): an Order that still
  has items cannot be deleted.
- `CartItem.quantity` and `OrderItem.quantity` are `PositiveSmallIntegerField`,
  so 0 is storable (0..32767).
- `CollectionViewSet.destroy` passes `self` twice to `super().destroy`
  (store/views.py:111). The default destroy ignores its request argument and
  reads the key from the view itself, so the behaviour is the ordinary
  default destroy, which is what the model gives.

## Model

| member | source | states |
|---|---|---|
| RecordStore.EmptyStoreIsValid | store/models.py:28-145 | the empty database meets every foreign-key, uniqueness and bound rule of the models |
| RecordStore.ValidProductRows | store/models.py:46-58 | in a valid store every product has a unit price of 1.00..9999.99, an inventory of at least 0, a slug of at most 50 characters and an existing (or no) collection, and no two products share a slug |
| RecordStore.ValidCustomerRows | store/models.py:82-128 | in a valid store no two customers share an email, and every order and address belongs to an existing customer |
| RecordStore.ValidLinkRows | store/models.py:31-145 | in a valid store a featured product exists, order items, cart items and reviews name existing orders, carts and products, and item quantities are 0..32767 |
| Deletion.Unfeature | store/models.py:31-37 | SET_NULL on `featured_product`: every collection keeps its row; those that featured the product lose the reference, the rest are untouched |
| Deletion.DeleteCollection | store/models.py:55 | refused with ProtectedError exactly when some product belongs to the collection, DoesNotExist when the key is unknown; a refusal changes nothing; otherwise only the collection row goes |
| Deletion.DeleteProduct | store/models.py:118 | refused with ProtectedError exactly when an order item references the product; otherwise removes the product, exactly the cart items and reviews that point at it (CASCADE, models.py:137 and 142), clears `featured_product` on the collections that featured it (SET_NULL) and changes nothing else |
| Deletion.DeleteCustomer | store/models.py:113 | refused with ProtectedError exactly when an order belongs to the customer; otherwise removes the customer and exactly its addresses (Address.customer is CASCADE, models.py:127-128) |
| Deletion.DeleteOrder | store/models.py:117 | refused with ProtectedError exactly when an order item belongs to the order; otherwise only the order row goes |
| Deletion.DeleteCart | store/models.py:131-136 | removes the cart and exactly the cart items whose cart it is (CASCADE), nothing else |
| Deletion.DeleteOrderItem | store/models.py:116-120 | no foreign key points at an order item: the delete removes that row only, and is refused without change for an unknown key |
| Deletion.DeleteAddress | store/models.py:123-128 | removes that address row only; unknown key refused without change |
| Deletion.DeleteCartItem | store/models.py:135-138 | removes that cart item only; unknown key refused without change |
| Deletion.DeleteReview | store/models.py:141-145 | removes that review only; unknown key refused without change |
| DeletionIntegrity.DeleteCollectionPreservesValid | store/models.py:55 | after deleting a collection no product points at a missing collection; the whole validity predicate still holds |
| DeletionIntegrity.DeleteProductPreservesValid | store/models.py:31-37 | after deleting a product no collection features it, no order item, cart item or review points at it, and slugs stay unique |
| DeletionIntegrity.DeleteCustomerPreservesValid | store/models.py:113 | after deleting a customer no order or address points at a missing customer |
| DeletionIntegrity.DeleteOrderPreservesValid | store/models.py:117 | after deleting an order no order item points at a missing order |
| DeletionIntegrity.DeleteCartPreservesValid | store/models.py:136 | after deleting a cart no cart item points at a missing cart |
| DeletionIntegrity.DeleteOrderItemPreservesValid | store/models.py:116-120 | deleting an order item keeps the store valid |
| DeletionIntegrity.DeleteAddressPreservesValid | store/models.py:123-128 | deleting an address keeps the store valid |
| DeletionIntegrity.DeleteCartItemPreservesValid | store/models.py:135-138 | deleting a cart item keeps the store valid |
| DeletionIntegrity.DeleteReviewPreservesValid | store/models.py:141-145 | deleting a review keeps the store valid |
| Saving.WithSlug | store/models.py:66-69 | an empty slug becomes `slugify(title)`, a non-empty slug is kept, no other field changes, and the result has a slug unless the title slugifies to nothing |
| Saving.SaveProduct | store/models.py:46-69 | an empty slug becomes `slugify(title)`, a non-empty slug is kept; the row is refused with ValidationError when a field the API accepts fails its validators (price 1.00..9999.99, inventory at least 0, title and slug lengths, `validate_slug` on a given slug), with DataError when the sku is longer than its 20-character column or the generated slug longer than its 50-character column, with IntegrityError when another product holds the slug or the collection does not exist, and a refusal changes nothing; otherwise only that product row is inserted or replaced |
| Saving.CreateCustomer | store/models.py:82-88 | the new row holds exactly the given names, email and phone, with the given membership or Bronze when it is omitted; refused with IntegrityError exactly when another customer holds the email, DataError (the database refusing the value, as no validator runs) exactly on a field wider than its column, and a refusal changes nothing |
| Saving.CreateOrder | store/models.py:108-113 | the new row belongs to `customer` and has the given payment status, or Pending when it is omitted; the only refusal is IntegrityError, exactly when that customer does not exist, and it changes nothing |
| SavingProperties.SaveProductPreservesValid | store/models.py:50 | a committed save keeps slugs unique and the collection reference intact |
| SavingProperties.SaveTwiceIsSaveOnce | store/models.py:66-69 | for a `slugify` that, like Django's, yields only slug characters, saving the stored product again commits and changes nothing: the slug is never regenerated |
| SavingProperties.SaveProductBounds | store/models.py:52-58 | a committed product has a unit price of at least 1.00 (100 cents) and at most 9999.99, and an inventory of at least 0; a price below 1.00 is refused with ValidationError |
| SavingProperties.GeneratedSlugCanOverflow | store/models.py:47-50 | a product with a 51-character title passes every validator, yet the slug generated from it (with an identity slugify) overflows the 50-character slug column and the save is refused with DataError, the database error that stands for it |
| SavingProperties.CreateCustomerPreservesValid | store/models.py:84 | a committed customer creation keeps emails unique |
| SavingProperties.CreateOrderPreservesValid | store/models.py:113 | a committed order creation keeps the customer reference intact |
| Views.Respond | store/views.py:52 | the default destroy answers 204 after a committed delete, 404 for an unknown key, and 500 for an unhandled ProtectedError |
| Views.DefaultDestroyProduct | store/views.py:52 | the default destroy alone: 404 exactly for an unknown key, 500 exactly when an order item protects the product, otherwise 204; the store is the one DeleteProduct leaves |
| Views.DefaultDestroyCollection | store/views.py:111 | the default destroy alone: 404 exactly for an unknown key, 500 exactly when a product protects the collection, otherwise 204; the store is the one DeleteCollection leaves |
| Views.DestroyProduct | store/views.py:43-52 | 400 with the error message, store unchanged, exactly when some order item references the key; otherwise 404 for an unknown product and 204 after DeleteProduct; never 500 |
| Views.DestroyCollection | store/views.py:105-111 | 400 with the error message, store unchanged, exactly when some product belongs to the collection; otherwise 404 or 204 after DeleteCollection; never 500 |
| Views.ReviewsFor | store/views.py:151-152 | lists exactly the reviews whose product is the one named in the URL, unchanged |
| ViewProperties.ProductGuardMatchesProtect | store/views.py:46 | for an existing product the guard refuses exactly when the delete would raise ProtectedError; the unguarded default destroy answers 500 in exactly the cases the guard refuses |
| ViewProperties.CollectionGuardMatchesProtect | store/views.py:106 | the same correspondence for collections and `Product.collection` |
| ViewProperties.UnknownProductIsNotFound | store/views.py:46-52 | in a valid store an unknown product key passes the guard and the destroy answers 404 with the store unchanged |
| ViewProperties.UnknownCollectionIsNotFound | store/views.py:106-111 | in a valid store an unknown collection key answers 404 |
| ViewProperties.GuardRunsBeforeLookup | store/views.py:46 | the reference count precedes the lookup: a dangling order item makes an unknown product key answer 400 |
| ViewProperties.DestroyPreservesValid | store/views.py:43-52 | both guarded destroys keep the store valid |
| ViewProperties.ReviewsForPartition | store/views.py:151-152 | every review is listed under its own product, and the listings of two different products share no review |
| ViewProperties.NoReviewsForMissingProduct | store/views.py:151-152 | after a product is destroyed its listing is empty (the reviews cascaded), and in a valid store an unknown product lists nothing |

## Left out

- Promotion and `Product.promotions` (a many-to-many link with no on_delete rule of its own): not among the modelled tables; deleting a product would also drop its link rows.
- Timestamps (`created_at`, `last_update`, `placed_at`, Review `date`) and `Customer.birth_date`: no rule depends on them.
- `slugify` itself: a parameter. Only two properties constrain it: `SaveTwiceIsSaveOnce` asks that its output be empty or slug characters, and `GeneratedSlugCanOverflow` uses the identity as its witness.
- Decimal arithmetic: prices are whole cents; only the bounds are modelled.
- Where validation happens: `SaveProduct` runs the product's field validators on the incoming row before the write; `Product.save()` itself runs none, and for products the API's `ProductSerializer` is what validates, on the fields it accepts. `sku` is not one of them, so its width is checked only by the database (DataError here). `CreateCustomer` runs none, as `Customer.objects.create()` does not. The serializer also checks slug uniqueness and the collection's existence (as 400 validation errors) before the database would; the model reports both as the database's IntegrityError.
- `validate_slug` is modelled on a given slug only: a slug that `save()` generates is not validated, as in the code.
- EmailField's EmailValidator (store/models.py:84): the shape of an email address is not checked; only its length and uniqueness are.
- SaveProduct: combines the slug rule of `save()` with the field validators, but not the serializer's required-field check. `ProductSerializer` refuses an empty slug with 400, so through the API the generate-from-title branch is never reached; only a direct `save()` reaches it, and that runs no validators. The model accepts an empty slug together with validated fields, a combination no single path of the code produces.
- SaveProduct: the DataError for a sku over 20 characters or a generated slug over 50 characters stands for a backend-dependent database error. PostgreSQL refuses the INSERT; SQLite stores the long value unchanged. The model follows the first.
- SaveTwiceIsSaveOnce: stated for a `slugify` whose output is empty or slug characters, as Django's is; for an arbitrary function a generated slug could fail `validate_slug` on the second save.
- CreateCustomer: the DataError for a field wider than its column stands for a backend-dependent database error. PostgreSQL refuses the INSERT; SQLite stores the value unchanged. The model follows the first.
- CreateCustomer, CreateOrder: `membership` and `payment_status` are `choices` fields that `create()` does not validate; the model's argument can only be one of the declared choices, so a call storing an undeclared code is not modelled.
- Key allocation: `CreateCustomer` and `CreateOrder` take a fresh key as a parameter, standing for the auto-incremented primary key.
- A URL key that is not a number (the router accepts any text) makes the count query raise before the guard can answer; keys here are natural numbers.
- The default destroy's lookup applies the view's filter, search and ordering backends; the model looks the key up in the whole table.
- Routing, serializers, pagination, filter configuration, permissions, admin registration, migrations, the signal handler and the tests: framework wiring with no store logic.
- Transactions and concurrent requests: every operation is one atomic step here.
- Creating carts, cart items, reviews, addresses and collections, and updates other than `Product.save`: the source adds no rule to the ORM's defaults for them.
