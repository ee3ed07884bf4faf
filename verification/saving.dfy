/**
 Writes that add or update rows: Product.save() with its slug rule, and the
 creation of Customers and Orders with their declared defaults.

 `slugify` is a parameter: the model says nothing about how a title becomes a
 slug, only when the conversion happens. New rows receive a key the table does
 not hold yet, as an auto-incremented primary key would.
 */
module Saving {
  import opened Records
  import opened RecordStore

  /** Product.save: the slug is generated from the title only when it is
      empty; every other field is kept. The result has a slug unless the
      title itself slugifies to the empty string, so generating again would
      give the same row. */
  function WithSlug(p: Product, slugify: string -> string): (r: Product)
    ensures r == p.(slug := r.slug)
    ensures p.slug != "" ==> r.slug == p.slug
    ensures p.slug == "" ==> r.slug == slugify(p.title)
    ensures r.slug != "" || slugify(r.title) == ""
  {
    if p.slug == "" then p.(slug := slugify(p.title)) else p
  }

  /** What django.utils.text.slugify guarantees of its output: empty, or made
      of characters validate_slug accepts. */
  ghost predicate SlugifyYieldsSlugs(slugify: string -> string) {
    forall t :: slugify(t) == "" || IsSlug(slugify(t))
  }

  /** A value no validator saw is wider than its column: the sku, or the
      slug save() generated. */
  predicate OverflowsColumns(q: Product) {
    |q.sku| > MaxSkuLength || |q.slug| > MaxSlugLength
  }

  /** Some other product already holds `slug`. */
  predicate SlugTaken(s: Store, id: Id, slug: string) {
    exists q :: q in s.products && q != id && s.products[q].slug == slug
  }

  /** Saving product `p` under key `id`: an insert when `id` is new, an update
      otherwise. The field validators run on `p` as given; save() then
      generates the slug, and the database refuses a sku or generated slug
      wider than its column, a repeated slug and a dangling collection. */
  function SaveProduct(s: Store, id: Id, p: Product, slugify: string -> string): (r: Change)
    ensures r.status.Refused? ==> r.store == s
    ensures r.status == Refused(ValidationError) <==> !p.PassesValidators()
    ensures r.status == Refused(DataError) <==>
      p.PassesValidators() && (|p.sku| > MaxSkuLength || |WithSlug(p, slugify).slug| > MaxSlugLength)
    ensures r.status == Refused(IntegrityError) <==>
      && p.PassesValidators() && |p.sku| <= MaxSkuLength && |WithSlug(p, slugify).slug| <= MaxSlugLength
      && (!RefersInto(p.collection, s.collections) || SlugTaken(s, id, WithSlug(p, slugify).slug))
    ensures r.status.Committed? <==>
      && p.PassesValidators() && |p.sku| <= MaxSkuLength && |WithSlug(p, slugify).slug| <= MaxSlugLength
      && RefersInto(p.collection, s.collections)
      && !SlugTaken(s, id, WithSlug(p, slugify).slug)
    ensures r.status.Committed? ==>
      && r.store == s.(products := r.store.products)
      && r.store.products.Keys == s.products.Keys + {id}
      && (forall q :: q in s.products && q != id ==> r.store.products[q] == s.products[q])
      && r.store.products[id] == p.(slug := r.store.products[id].slug)
      && (p.slug != "" ==> r.store.products[id].slug == p.slug)
      && (p.slug == "" ==> r.store.products[id].slug == slugify(p.title))
  {
    if !p.PassesValidators() then Change(s, Refused(ValidationError))
    else
      var q := WithSlug(p, slugify);
      if OverflowsColumns(q) then Change(s, Refused(DataError))
      else if !RefersInto(q.collection, s.collections) || SlugTaken(s, id, q.slug) then
        Change(s, Refused(IntegrityError))
      else Change(s.(products := s.products[id := q]), Committed)
  }

  /** The column widths of a new customer's fields. */
  predicate CustomerFieldsFit(firstName: string, lastName: string, email: string, phone: string) {
    |firstName| <= MaxCharLength && |lastName| <= MaxCharLength && |email| <= MaxEmailLength && |phone| <= MaxCharLength
  }

  /** Customer.objects.create: `membership` is the optional keyword argument,
      Bronze when it is omitted. No validator runs, so an over-long field
      reaches the database and is refused there, as is a repeated email
      (Customer.email is unique). */
  function CreateCustomer(s: Store, id: Id, firstName: string, lastName: string, email: string, phone: string,
                          membership: Option<Membership>): (r: Change)
    requires id !in s.customers
    ensures r.status.Refused? ==> r.store == s
    ensures r.status == Refused(DataError) <==> !CustomerFieldsFit(firstName, lastName, email, phone)
    ensures r.status == Refused(IntegrityError) <==>
      CustomerFieldsFit(firstName, lastName, email, phone) && exists d :: d in s.customers && s.customers[d].email == email
    ensures r.status.Committed? <==>
      && CustomerFieldsFit(firstName, lastName, email, phone)
      && (forall c :: c in s.customers ==> s.customers[c].email != email)
    ensures r.status.Committed? ==>
      && r.store == s.(customers := r.store.customers)
      && r.store.customers.Keys == s.customers.Keys + {id}
      && (forall c :: c in s.customers ==> r.store.customers[c] == s.customers[c])
      && r.store.customers[id] == Customer(firstName, lastName, email, phone, r.store.customers[id].membership)
      && (membership.None? ==> r.store.customers[id].membership == Bronze)
      && (membership.Some? ==> r.store.customers[id].membership == membership.value)
  {
    var tier := if membership.Some? then membership.value else Bronze;
    var c := Customer(firstName, lastName, email, phone, tier);
    if !c.InBounds() then Change(s, Refused(DataError))
    else if exists d :: d in s.customers && s.customers[d].email == email then Change(s, Refused(IntegrityError))
    else Change(s.(customers := s.customers[id := c]), Committed)
  }

  /** Order.objects.create: the order belongs to an existing Customer;
      `paymentStatus` is the optional keyword argument, Pending when it is
      omitted. */
  function CreateOrder(s: Store, id: Id, customer: Id, paymentStatus: Option<PaymentStatus>): (r: Change)
    requires id !in s.orders
    ensures r.status.Refused? ==> r.store == s && r.status.error == IntegrityError
    ensures r.status.Committed? <==> customer in s.customers
    ensures r.status.Committed? ==>
      && r.store == s.(orders := r.store.orders)
      && r.store.orders.Keys == s.orders.Keys + {id}
      && (forall o :: o in s.orders ==> r.store.orders[o] == s.orders[o])
      && r.store.orders[id].customer == customer
      && (paymentStatus.None? ==> r.store.orders[id].paymentStatus == Pending)
      && (paymentStatus.Some? ==> r.store.orders[id].paymentStatus == paymentStatus.value)
  {
    var status := if paymentStatus.Some? then paymentStatus.value else Pending;
    if customer !in s.customers then Change(s, Refused(IntegrityError))
    else Change(s.(orders := s.orders[id := Order(status, customer)]), Committed)
  }
}

/** What the writes of module Saving keep and what repeating them does. */
module SavingProperties {
  import opened Records
  import opened RecordStore
  import opened Saving

  lemma SaveProductPreservesValid(s: Store, id: Id, p: Product, slugify: string -> string)
    requires Valid(s)
    ensures Valid(SaveProduct(s, id, p, slugify).store)
  {
    var r := SaveProduct(s, id, p, slugify);
    if r.status.Committed? {
      var q := WithSlug(p, slugify);
      var t := s.(products := s.products[id := q]);
      assert r.store == t;
      assert q.InBounds() && RefersInto(q.collection, s.collections) && !SlugTaken(s, id, q.slug);
      assert ReferencesIntact(t);
      assert FieldsInBounds(t);
      assert SlugsUnique(t.products) by {
        forall a, b | a in t.products && b in t.products && a != b
          ensures t.products[a].slug != t.products[b].slug
        {
          if a == id {
            assert b in s.products && s.products[b].slug != q.slug;
          } else if b == id {
            assert a in s.products && s.products[a].slug != q.slug;
          }
        }
      }
    }
  }

  /** The slug is generated at most once: saving the stored product again
      changes nothing, so in particular never regenerates its slug. */
  lemma SaveTwiceIsSaveOnce(s: Store, id: Id, p: Product, slugify: string -> string)
    requires SlugifyYieldsSlugs(slugify)
    requires SaveProduct(s, id, p, slugify).status.Committed?
    ensures var t := SaveProduct(s, id, p, slugify).store;
      SaveProduct(t, id, t.products[id], slugify) == Change(t, Committed)
  {
    var q := WithSlug(p, slugify);
    var t := s.(products := s.products[id := q]);
    assert SaveProduct(s, id, p, slugify).store == t;
    assert t.products[id] == q;
    assert WithSlug(q, slugify) == q;
    assert !SlugTaken(t, id, q.slug) by {
      assert !SlugTaken(s, id, q.slug);
    }
    assert t.products[id := q] == t.products;
  }

  /** A committed save stores a price of at least 1.00 and at most 9999.99
      and a non-negative inventory; a price below 1.00 is refused. */
  lemma SaveProductBounds(s: Store, id: Id, p: Product, slugify: string -> string)
    ensures var r := SaveProduct(s, id, p, slugify);
      r.status.Committed? ==>
        && MinUnitPriceCents <= r.store.products[id].unitPrice <= MaxMoneyCents
        && 0 <= r.store.products[id].inventory
    ensures p.unitPrice < MinUnitPriceCents ==> SaveProduct(s, id, p, slugify).status == Refused(ValidationError)
  {
  }

  /** A title may hold 250 characters but a slug only 50: a product whose
      fields all pass their validators can still be refused by the database
      for the slug save() generates from its title. */
  lemma GeneratedSlugCanOverflow()
    ensures var p := Product(seq(51, _ => 'a'), "", "", "", 100, None, 0);
      p.PassesValidators() && SaveProduct(Empty, 1, p, t => t).status == Refused(DataError)
  {
    var title := seq(51, _ => 'a');
    assert |title| == 51;
  }

  lemma CreateCustomerPreservesValid(s: Store, id: Id, firstName: string, lastName: string, email: string, phone: string,
                                     membership: Option<Membership>)
    requires Valid(s) && id !in s.customers
    ensures Valid(CreateCustomer(s, id, firstName, lastName, email, phone, membership).store)
  {
  }

  lemma CreateOrderPreservesValid(s: Store, id: Id, customer: Id, paymentStatus: Option<PaymentStatus>)
    requires Valid(s) && id !in s.orders
    ensures Valid(CreateOrder(s, id, customer, paymentStatus).store)
  {
  }
}
