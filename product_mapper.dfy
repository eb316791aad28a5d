/** Conversions between the `Product` entity and its transfer shapes. */
module ProductMapper {
  import opened Wrappers
  import opened Model

  /** `toDTO`: a null entity gives a null view; otherwise all nine fields are copied. */
  function ToDTO(p: Product?): (r: Option<ProductDTO>)
    reads p
    ensures r.None? <==> p == null
    ensures p != null ==>
      && r.value.id == p.id && r.value.name == p.name && r.value.description == p.description
      && r.value.price == p.price && r.value.category == p.category && r.value.stock == p.stock
      && r.value.active == p.active && r.value.createdAt == p.createdAt
      && r.value.updatedAt == p.updatedAt
  {
    if p == null then None
    else Some(ProductDTO(p.id, p.name, p.description, p.price, p.category, p.stock,
                         p.active, p.createdAt, p.updatedAt))
  }

  /** The view loses nothing: two entities have the same view exactly when they hold the same value. */
  lemma ToDTOIsFaithful(p: Product, q: Product)
    ensures ToDTO(p) == ToDTO(q) <==> p.Snapshot() == q.Snapshot()
  {
  }

  /** `toDTOList`: element-wise `toDTO`, same length and order (null elements map to null). */
  function ToDTOList(products: seq<Product?>): (r: seq<Option<ProductDTO>>)
    reads products
    ensures |r| == |products|
    ensures forall i :: 0 <= i < |products| ==> r[i] == ToDTO(products[i])
  {
    if products == [] then []
    else [ToDTO(products[0])] + ToDTOList(products[1..])
  }

  /** Mapping a concatenation is concatenating the mapped parts. */
  lemma ToDTOListAppend(xs: seq<Product?>, ys: seq<Product?>)
    ensures ToDTOList(xs + ys) == ToDTOList(xs) + ToDTOList(ys)
  {
  }

  /**
   * `toEntity`: a null DTO gives null; otherwise a new entity carrying the DTO's five fields,
   * forced active, with identifier and timestamps left unset for the store to assign.
   */
  method ToEntity(dto: Option<CreateProductDTO>) returns (p: Product?)
    ensures p == null <==> dto.None?
    ensures p != null ==> fresh(p)
    ensures p != null ==>
      p.Snapshot() == ProductState(None, dto.value.name, dto.value.description, dto.value.price,
                                   dto.value.category, dto.value.stock, Some(true), None, None)
  {
    if dto.None? {
      return null;
    }
    var c := dto.value;
    p := new Product();
    p.name := c.name;
    p.description := c.description;
    p.price := c.price;
    p.category := c.category;
    p.stock := c.stock;
    p.active := Some(true);
  }

  /** One field under a patch: a present value wins, an absent one keeps the current value. */
  function Override<T>(current: Option<T>, patch: Option<T>): Option<T> {
    if patch.Some? then patch else current
  }

  /** The value `updateEntity` leaves behind when it applies `d` to an entity holding `s`. */
  function Patch(s: ProductState, d: UpdateProductDTO): ProductState {
    s.(name := Override(s.name, d.name),
       description := Override(s.description, d.description),
       price := Override(s.price, d.price),
       category := Override(s.category, d.category),
       stock := Override(s.stock, d.stock))
  }

  /**
   * `updateEntity`: nothing happens when either argument is null; otherwise each non-null
   * DTO field overwrites the entity's field and every other field is left alone.
   */
  method UpdateEntity(p: Product?, dto: Option<UpdateProductDTO>)
    modifies p
    ensures p != null && dto.None? ==> p.Snapshot() == old(p.Snapshot())
    ensures p != null && dto.Some? ==> p.Snapshot() == Patch(old(p.Snapshot()), dto.value)
  {
    if p == null || dto.None? {
      return;
    }
    var d := dto.value;
    if d.name.Some? {
      p.name := d.name;
    }
    if d.description.Some? {
      p.description := d.description;
    }
    if d.price.Some? {
      p.price := d.price;
    }
    if d.category.Some? {
      p.category := d.category;
    }
    if d.stock.Some? {
      p.stock := d.stock;
    }
  }

  /** Field by field: the patched value is the DTO's where present and the old one otherwise. */
  lemma PatchFields(s: ProductState, d: UpdateProductDTO)
    ensures Patch(s, d).name == (if d.name.Some? then d.name else s.name)
    ensures Patch(s, d).description == (if d.description.Some? then d.description else s.description)
    ensures Patch(s, d).price == (if d.price.Some? then d.price else s.price)
    ensures Patch(s, d).category == (if d.category.Some? then d.category else s.category)
    ensures Patch(s, d).stock == (if d.stock.Some? then d.stock else s.stock)
  {
  }

  /** Identifier, active flag and timestamps are never touched by a patch. */
  lemma PatchKeepsUnpatchableFields(s: ProductState, d: UpdateProductDTO)
    ensures Patch(s, d).id == s.id && Patch(s, d).active == s.active
    ensures Patch(s, d).createdAt == s.createdAt && Patch(s, d).updatedAt == s.updatedAt
  {
  }

  /** A field changes only when the DTO carries it, and a set field is never cleared by omission. */
  lemma PatchOnlyWritesPresentFields(s: ProductState, d: UpdateProductDTO)
    ensures Patch(s, d).name != s.name ==> d.name.Some?
    ensures Patch(s, d).description != s.description ==> d.description.Some?
    ensures Patch(s, d).price != s.price ==> d.price.Some?
    ensures Patch(s, d).category != s.category ==> d.category.Some?
    ensures Patch(s, d).stock != s.stock ==> d.stock.Some?
    ensures s.name.Some? ==> Patch(s, d).name.Some?
    ensures s.description.Some? ==> Patch(s, d).description.Some?
    ensures s.price.Some? ==> Patch(s, d).price.Some?
    ensures s.category.Some? ==> Patch(s, d).category.Some?
    ensures s.stock.Some? ==> Patch(s, d).stock.Some?
  {
  }

  /** An all-null DTO leaves the entity unchanged. */
  lemma PatchEmptyIsIdentity(s: ProductState)
    ensures Patch(s, EmptyUpdate) == s
  {
  }

  /** Applying the same DTO twice gives what applying it once gives. */
  lemma PatchIdempotent(s: ProductState, d: UpdateProductDTO)
    ensures Patch(Patch(s, d), d) == Patch(s, d)
  {
  }

  /** A DTO carrying only a name changes the name and nothing else. */
  lemma PatchNameOnly(s: ProductState, name: string)
    ensures Patch(s, EmptyUpdate.(name := Some(name))) == s.(name := Some(name))
  {
  }

  /** A DTO carrying only a price changes the price and nothing else. */
  lemma PatchPriceOnly(s: ProductState, price: Decimal)
    ensures Patch(s, EmptyUpdate.(price := Some(price))) == s.(price := Some(price))
  {
  }

  /** Two patches in a row equal one patch whose fields prefer the second DTO. */
  lemma PatchTwice(s: ProductState, d1: UpdateProductDTO, d2: UpdateProductDTO)
    ensures Patch(Patch(s, d1), d2) == Patch(s, UpdateProductDTO(
      Override(d1.name, d2.name), Override(d1.description, d2.description),
      Override(d1.price, d2.price), Override(d1.category, d2.category),
      Override(d1.stock, d2.stock)))
  {
  }
}
