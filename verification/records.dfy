/**
 The records of the store application: one datatype per Django model of
 store/models.py, with the column bounds each model declares.

 Every primary key and foreign key is an `Id`. Decimal money columns with two
 decimal places are held as whole cents, so `numeric(6,2)` is the range
 -999999 .. 999999. Timestamps (`auto_now`, `auto_now_add`) are not modelled.
 */
module Records {

  type Id = nat

  datatype Option<+T> = None | Some(value: T)

  /** A nullable foreign key is satisfied when it is null or names a row of `table`. */
  predicate RefersInto<T>(ref: Option<Id>, table: map<Id, T>) {
    ref.None? || ref.value in table
  }

  // Column bounds declared by the models.
  const MaxTitleLength: nat := 250        // CharField(max_length=250) on Collection and Product
  const MaxSkuLength: nat := 20           // CharField(max_length=20)
  const MaxSlugLength: nat := 50          // SlugField's default max_length
  const MaxCharLength: nat := 255         // CharField(max_length=255) on Customer, Address, Review
  const MaxEmailLength: nat := 254        // EmailField's default max_length
  const MinUnitPriceCents: int := 100     // MinValueValidator(Decimal(1.0))
  const MaxMoneyCents: int := 999999      // DecimalField(max_digits=6, decimal_places=2)
  const MaxInteger: int := 2147483647     // IntegerField
  const MaxSmallInteger: int := 32767     // PositiveSmallIntegerField

  /** A character Django's validate_slug accepts: an ASCII letter, digit,
      underscore or hyphen. */
  predicate SlugChar(c: char) {
    'a' <= c <= 'z' || 'A' <= c <= 'Z' || '0' <= c <= '9' || c == '_' || c == '-'
  }

  predicate IsSlug(slug: string) {
    |slug| > 0 && forall i :: 0 <= i < |slug| ==> SlugChar(slug[i])
  }

  predicate Money(cents: int) {
    -MaxMoneyCents <= cents <= MaxMoneyCents
  }

  datatype Membership = Bronze | Silver | Gold

  datatype PaymentStatus = Pending | Complete | Failed

  datatype Collection = Collection(title: string, description: string, featured: Option<Id>)
  {
    predicate InBounds() {
      |title| <= MaxTitleLength
    }
  }

  datatype Product = Product(
    title: string,
    description: string,
    sku: string,
    slug: string,
    unitPrice: int,             // cents
    collection: Option<Id>,
    inventory: int)
  {
    predicate InBounds() {
      && |title| <= MaxTitleLength
      && |sku| <= MaxSkuLength
      && |slug| <= MaxSlugLength
      && MinUnitPriceCents <= unitPrice && Money(unitPrice)
      && 0 <= inventory <= MaxInteger
    }

    /** The field validators a product passes before it is saved: those of
        the fields the API accepts (title and slug lengths, the price and
        inventory ranges) and validate_slug on a slug that is given (an empty
        slug is left for save() to generate). The sku is not among them. */
    predicate PassesValidators() {
      && |title| <= MaxTitleLength
      && |slug| <= MaxSlugLength
      && MinUnitPriceCents <= unitPrice && Money(unitPrice)
      && 0 <= inventory <= MaxInteger
      && (slug == "" || IsSlug(slug))
    }
  }

  datatype Customer = Customer(
    firstName: string,
    lastName: string,
    email: string,
    phone: string,
    membership: Membership)
  {
    predicate InBounds() {
      && |firstName| <= MaxCharLength
      && |lastName| <= MaxCharLength
      && |email| <= MaxEmailLength
      && |phone| <= MaxCharLength
    }
  }

  datatype Order = Order(paymentStatus: PaymentStatus, customer: Id)

  datatype OrderItem = OrderItem(order: Id, product: Id, quantity: int, unitPrice: int)
  {
    predicate InBounds() {
      0 <= quantity <= MaxSmallInteger && Money(unitPrice)
    }
  }

  datatype Address = Address(houseNumber: string, street: string, city: string, customer: Id)
  {
    predicate InBounds() {
      |houseNumber| <= MaxCharLength && |street| <= MaxCharLength && |city| <= MaxCharLength
    }
  }

  /** A cart has no column besides its key and its creation time. */
  datatype Cart = Cart

  datatype CartItem = CartItem(cart: Id, product: Id, quantity: int)
  {
    predicate InBounds() {
      0 <= quantity <= MaxSmallInteger
    }
  }

  datatype Review = Review(product: Id, title: string, description: string)
  {
    predicate InBounds() {
      |title| <= MaxCharLength
    }
  }
}
