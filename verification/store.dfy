/**
 The database as a value: one finite map per table, the integrity the schema
 keeps (every foreign key names an existing row, the unique columns are
 unique, every column is within its declared bounds), and the result of a
 write, which either commits a new store or is refused and leaves the old one.
 */
module RecordStore {
  import opened Records

  datatype Store = Store(
    collections: map<Id, Collection>,
    products: map<Id, Product>,
    customers: map<Id, Customer>,
    orders: map<Id, Order>,
    orderItems: map<Id, OrderItem>,
    addresses: map<Id, Address>,
    carts: map<Id, Cart>,
    cartItems: map<Id, CartItem>,
    reviews: map<Id, Review>)

  const Empty := Store(map[], map[], map[], map[], map[], map[], map[], map[], map[])

  /** Why the ORM refuses a write. */
  datatype StoreError =
    | DoesNotExist            // the row to delete is not there
    | ProtectedError          // an on_delete=PROTECT reference still points at the row
    | IntegrityError          // a unique column would repeat, or a foreign key would dangle
    | ValidationError         // a field fails its validators
    | DataError               // a value the validators never saw does not fit its column

  datatype Status = Committed | Refused(error: StoreError)

  /** The store after a write, and whether the write happened. */
  datatype Change = Change(store: Store, status: Status)

  // Every foreign key of every row names an existing row.
  predicate ReferencesIntact(s: Store) {
    && (forall c :: c in s.collections ==> RefersInto(s.collections[c].featured, s.products))
    && (forall p :: p in s.products ==> RefersInto(s.products[p].collection, s.collections))
    && (forall o :: o in s.orders ==> s.orders[o].customer in s.customers)
    && (forall i :: i in s.orderItems ==> s.orderItems[i].order in s.orders)
    && (forall i :: i in s.orderItems ==> s.orderItems[i].product in s.products)
    && (forall a :: a in s.addresses ==> s.addresses[a].customer in s.customers)
    && (forall i :: i in s.cartItems ==> s.cartItems[i].cart in s.carts)
    && (forall i :: i in s.cartItems ==> s.cartItems[i].product in s.products)
    && (forall v :: v in s.reviews ==> s.reviews[v].product in s.products)
  }

  /** Product.slug is declared unique=True. */
  predicate SlugsUnique(products: map<Id, Product>) {
    forall p, q :: p in products && q in products && p != q ==> products[p].slug != products[q].slug
  }

  /** Customer.email is declared unique=True. */
  predicate EmailsUnique(customers: map<Id, Customer>) {
    forall c, d :: c in customers && d in customers && c != d ==> customers[c].email != customers[d].email
  }

  predicate FieldsInBounds(s: Store) {
    && (forall c :: c in s.collections ==> s.collections[c].InBounds())
    && (forall p :: p in s.products ==> s.products[p].InBounds())
    && (forall c :: c in s.customers ==> s.customers[c].InBounds())
    && (forall i :: i in s.orderItems ==> s.orderItems[i].InBounds())
    && (forall a :: a in s.addresses ==> s.addresses[a].InBounds())
    && (forall i :: i in s.cartItems ==> s.cartItems[i].InBounds())
    && (forall v :: v in s.reviews ==> s.reviews[v].InBounds())
  }

  predicate Valid(s: Store) {
    && ReferencesIntact(s)
    && SlugsUnique(s.products)
    && EmailsUnique(s.customers)
    && FieldsInBounds(s)
  }

  /** The empty database is valid: every later store is reached from it by writes. */
  lemma EmptyStoreIsValid()
    ensures Valid(Empty)
  {
  }

  /** What a valid store guarantees of its products: the price and
      inventory validators, the slug column width, unique slugs, and an
      existing collection. */
  lemma ValidProductRows(s: Store)
    requires Valid(s)
    ensures forall p :: p in s.products ==>
      && 100 <= s.products[p].unitPrice <= 999999
      && s.products[p].inventory >= 0
      && |s.products[p].slug| <= 50
      && (s.products[p].collection.Some? ==> s.products[p].collection.value in s.collections)
    ensures forall p, q :: p in s.products && q in s.products && s.products[p].slug == s.products[q].slug ==> p == q
  {
  }

  /** What a valid store guarantees of its customers and the rows that
      belong to them: unique emails, and orders and addresses whose customer
      exists. */
  lemma ValidCustomerRows(s: Store)
    requires Valid(s)
    ensures forall c, d :: c in s.customers && d in s.customers && s.customers[c].email == s.customers[d].email ==> c == d
    ensures forall o :: o in s.orders ==> s.orders[o].customer in s.customers
    ensures forall a :: a in s.addresses ==> s.addresses[a].customer in s.customers
  {
  }

  /** What a valid store guarantees of the rows that link to products:
      featured products, order items, cart items and reviews name existing
      rows, and quantities fit a PositiveSmallIntegerField. */
  lemma ValidLinkRows(s: Store)
    requires Valid(s)
    ensures forall c :: c in s.collections && s.collections[c].featured.Some? ==> s.collections[c].featured.value in s.products
    ensures forall i :: i in s.orderItems ==>
      && s.orderItems[i].order in s.orders && s.orderItems[i].product in s.products
      && 0 <= s.orderItems[i].quantity <= 32767
    ensures forall i :: i in s.cartItems ==>
      && s.cartItems[i].cart in s.carts && s.cartItems[i].product in s.products
      && 0 <= s.cartItems[i].quantity <= 32767
    ensures forall v :: v in s.reviews ==> s.reviews[v].product in s.products
  {
  }

  /** `m` with the rows keyed by `ks` deleted. */
  function Without<T>(m: map<Id, T>, ks: set<Id>): (r: map<Id, T>)
    ensures forall k :: k in r <==> k in m && k !in ks
    ensures forall k :: k in r ==> r[k] == m[k]
  {
    m - ks
  }

  // The rows that point at a given row, one function per foreign key that
  // matters on delete.

  function ProductsIn(s: Store, collection: Id): set<Id> {
    set p | p in s.products && s.products[p].collection == Some(collection)
  }

  function OrderItemsOfProduct(s: Store, product: Id): set<Id> {
    set i | i in s.orderItems && s.orderItems[i].product == product
  }

  function OrderItemsOfOrder(s: Store, order: Id): set<Id> {
    set i | i in s.orderItems && s.orderItems[i].order == order
  }

  function OrdersOf(s: Store, customer: Id): set<Id> {
    set o | o in s.orders && s.orders[o].customer == customer
  }

  function AddressesOf(s: Store, customer: Id): set<Id> {
    set a | a in s.addresses && s.addresses[a].customer == customer
  }

  function CartItemsOfCart(s: Store, cart: Id): set<Id> {
    set i | i in s.cartItems && s.cartItems[i].cart == cart
  }

  function CartItemsOfProduct(s: Store, product: Id): set<Id> {
    set i | i in s.cartItems && s.cartItems[i].product == product
  }

  function ReviewsOfProduct(s: Store, product: Id): set<Id> {
    set v | v in s.reviews && s.reviews[v].product == product
  }
}
