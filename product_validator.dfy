/**
 * Business rules checked before a product is created, and the stock rule checked
 * against a category. Failures are values instead of exceptions.
 */
module ProductValidator {
  import opened Wrappers
  import opened Text
  import opened Model

  /** The outcome of a validation: success, a field-to-message map, or a single message. */
  datatype ValidationResult =
    | Ok
    | FieldErrors(errors: map<string, string>)
    | Message(message: string)

  const ForbiddenWords: seq<string> := ["test", "prueba", "demo", "temporal"]
  const MaxPrice: Decimal := 100000.00
  const MaxStock: int32 := 10000

  const ForbiddenNameMessage := "El nombre del producto no puede contener palabras prohibidas como 'test', 'demo', etc."
  const MaxPriceMessage := "El precio no puede exceder $100000.00"
  const MaxStockMessage := "El stock no puede exceder 10000 unidades"
  const ElectronicsPriceMessage := "Los productos electrónicos deben tener un precio mínimo de $50.00"
  const BookPriceMessage := "Los libros no pueden exceder $200.00"
  const ClothingPriceMessage := "La ropa debe tener un precio entre $10.00 y $1,000.00"
  const DigitalStockMessage := "Los productos digitales deberían tener stock alto (mínimo 1000)"
  const PerishableStockMessage := "Los productos perecederos no deberían tener stock mayor a 100"

  // ---------------------------------------------------------------------------
  // Forbidden words in the name

  /** The name is present and, once lowered, contains one of the forbidden words. */
  predicate HasForbiddenWord(lower: Lowering, name: Option<string>) {
    name.Some? && exists w :: w in ForbiddenWords && Contains(lower(name.value), w)
  }

  /** `containsForbiddenWords`: scans the word list and stops at the first hit. */
  method ContainsForbiddenWords(lower: Lowering, name: Option<string>) returns (found: bool)
    ensures found <==> HasForbiddenWord(lower, name)
  {
    if name.None? {
      return false;
    }
    var lowerName := lower(name.value);
    for k := 0 to |ForbiddenWords|
      invariant forall i :: 0 <= i < k ==> !Contains(lowerName, ForbiddenWords[i])
    {
      if Contains(lowerName, ForbiddenWords[k]) {
        return true;
      }
    }
    return false;
  }

  /** The word list spelled out. */
  lemma HasForbiddenWordIff(lower: Lowering, name: string)
    ensures HasForbiddenWord(lower, Some(name)) <==>
      var n := lower(name);
      Contains(n, "test") || Contains(n, "prueba") || Contains(n, "demo") || Contains(n, "temporal")
  {
  }

  // ---------------------------------------------------------------------------
  // Price and category coherence

  /** Electronics must cost at least 50.00. */
  predicate ElectronicsPriceRule(lowerCategory: string, price: Decimal) {
    Contains(lowerCategory, "electrón") && price < 50.00
  }

  /** Books may not cost more than 200.00. */
  predicate BookPriceRule(lowerCategory: string, price: Decimal) {
    Contains(lowerCategory, "libro") && price > 200.00
  }

  /** Clothing must cost between 10.00 and 1000.00. */
  predicate ClothingPriceRule(lowerCategory: string, price: Decimal) {
    (Contains(lowerCategory, "ropa") || Contains(lowerCategory, "vestimenta"))
    && (price < 10.00 || price > 1000.00)
  }

  /**
   * The message the coherence rules leave on the "price" key: the rules write in the order
   * electronics, books, clothing, so the last one that fires decides. Nothing when the price
   * or the category is null.
   */
  function CoherenceMessage(lower: Lowering, price: Option<Decimal>, category: Option<string>): Option<string> {
    if price.None? || category.None? then None
    else
      var c, p := lower(category.value), price.value;
      if ClothingPriceRule(c, p) then Some(ClothingPriceMessage)
      else if BookPriceRule(c, p) then Some(BookPriceMessage)
      else if ElectronicsPriceRule(c, p) then Some(ElectronicsPriceMessage)
      else None
  }

  /**
   * `validatePriceCategoryCoherence`: every rule that fires overwrites "price" in the map it is
   * given; every other entry is kept.
   */
  method ValidatePriceCategoryCoherence(lower: Lowering, price: Option<Decimal>, category: Option<string>,
                                        errors: map<string, string>)
    returns (updated: map<string, string>)
    ensures CoherenceMessage(lower, price, category).None? ==> updated == errors
    ensures CoherenceMessage(lower, price, category).Some? ==>
      updated == errors["price" := CoherenceMessage(lower, price, category).value]
  {
    updated := errors;
    if price.None? || category.None? {
      return;
    }
    var lowerCategory := lower(category.value);
    if Contains(lowerCategory, "electrón") && price.value < 50.00 {
      updated := updated["price" := ElectronicsPriceMessage];
    }
    if Contains(lowerCategory, "libro") && price.value > 200.00 {
      updated := updated["price" := BookPriceMessage];
    }
    if Contains(lowerCategory, "ropa") || Contains(lowerCategory, "vestimenta") {
      if price.value < 10.00 || price.value > 1000.00 {
        updated := updated["price" := ClothingPriceMessage];
      }
    }
  }

  // ---------------------------------------------------------------------------
  // Validation for creation

  /** The callers guarantee a price and a stock (the code dereferences both unconditionally). */
  predicate Checkable(dto: CreateProductDTO) {
    dto.price.Some? && dto.stock.Some?
  }

  /** The message finally stored under "price": the last coherence rule that fired, else the ceiling. */
  function PriceMessage(lower: Lowering, dto: CreateProductDTO): Option<string>
    requires Checkable(dto)
  {
    var coherence := CoherenceMessage(lower, dto.price, dto.category);
    if coherence.Some? then coherence
    else if dto.price.value > MaxPrice then Some(MaxPriceMessage)
    else None
  }

  /** A one-entry map when a message is present, the empty map otherwise. */
  function Entry(key: string, message: Option<string>): map<string, string> {
    if message.Some? then map[key := message.value] else map[]
  }

  /** The map holding exactly the present messages under "name", "price" and "stock". */
  function Entries(name: Option<string>, price: Option<string>, stock: Option<string>): map<string, string> {
    Entry("name", name) + Entry("price", price) + Entry("stock", stock)
  }

  /** Overwriting "price" in such a map replaces its price message and keeps the other two. */
  lemma EntriesPut(name: Option<string>, price: Option<string>, stock: Option<string>, message: string)
    ensures Entries(name, price, stock)["price" := message] == Entries(name, Some(message), stock)
  {
  }

  /** Every check contributes its own key, independently of the others. */
  function CreationErrors(lower: Lowering, dto: CreateProductDTO): map<string, string>
    requires Checkable(dto)
  {
    Entries(if HasForbiddenWord(lower, dto.name) then Some(ForbiddenNameMessage) else None,
            PriceMessage(lower, dto),
            if dto.stock.value > MaxStock then Some(MaxStockMessage) else None)
  }

  /** Success when no check wrote anything, otherwise one failure carrying the whole map. */
  function CreationOutcome(lower: Lowering, dto: CreateProductDTO): ValidationResult
    requires Checkable(dto)
  {
    var errors := CreationErrors(lower, dto);
    if errors == map[] then Ok else FieldErrors(errors)
  }

  /**
   * `validateForCreation`: all four checks run on one accumulating map; the method fails
   * once, with that map, when it is non-empty.
   */
  method ValidateForCreation(lower: Lowering, dto: CreateProductDTO) returns (r: ValidationResult)
    requires Checkable(dto)
    ensures r == CreationOutcome(lower, dto)
  {
    var errors: map<string, string> := map[];
    ghost var nameMessage, priceMessage, stockMessage: Option<string> := None, None, None;
    var forbidden := ContainsForbiddenWords(lower, dto.name);
    if forbidden {
      errors := errors["name" := ForbiddenNameMessage];
      nameMessage := Some(ForbiddenNameMessage);
    }
    assert errors == Entries(nameMessage, priceMessage, stockMessage);
    if dto.price.value > MaxPrice {
      EntriesPut(nameMessage, priceMessage, stockMessage, MaxPriceMessage);
      errors := errors["price" := MaxPriceMessage];
      priceMessage := Some(MaxPriceMessage);
    }
    if dto.stock.value > MaxStock {
      assert errors["stock" := MaxStockMessage] == Entries(nameMessage, priceMessage, Some(MaxStockMessage));
      errors := errors["stock" := MaxStockMessage];
      stockMessage := Some(MaxStockMessage);
    }
    var coherence := CoherenceMessage(lower, dto.price, dto.category);
    if coherence.Some? {
      EntriesPut(nameMessage, priceMessage, stockMessage, coherence.value);
    }
    errors := ValidatePriceCategoryCoherence(lower, dto.price, dto.category, errors);
    assert errors == CreationErrors(lower, dto);
    if errors != map[] {
      r := FieldErrors(errors);
    } else {
      r := Ok;
    }
  }

  // ---------------------------------------------------------------------------
  // Stock against category

  predicate IsDigital(lowerCategory: string) {
    Contains(lowerCategory, "digital") || Contains(lowerCategory, "software")
  }

  predicate IsPerishable(lowerCategory: string) {
    Contains(lowerCategory, "comida") || Contains(lowerCategory, "alimento")
  }

  /**
   * `validateStockForCategory`: a null category or stock is accepted; otherwise the digital
   * rule is checked first and the perishable rule only when the digital one did not fail.
   */
  function ValidateStockForCategory(lower: Lowering, category: Option<string>, stock: Option<int32>): (r: ValidationResult)
    ensures category.None? || stock.None? ==> r == Ok
    ensures r == Ok || r == Message(DigitalStockMessage) || r == Message(PerishableStockMessage)
    ensures r == Message(DigitalStockMessage) ==> stock.Some? && stock.value < 1000
    ensures r == Message(PerishableStockMessage) ==> stock.Some? && 100 < stock.value
  {
    if category.None? || stock.None? then Ok
    else
      var c := lower(category.value);
      if IsDigital(c) && stock.value < 1000 then Message(DigitalStockMessage)
      else if IsPerishable(c) && stock.value > 100 then Message(PerishableStockMessage)
      else Ok
  }

  // ---------------------------------------------------------------------------
  // Properties of validation for creation

  /** Reading the outcome per key: what each check leaves in the failure map. */
  lemma CreationErrorsByKey(lower: Lowering, dto: CreateProductDTO)
    requires Checkable(dto)
    ensures var errors := CreationErrors(lower, dto);
      && errors.Keys <= {"name", "price", "stock"}
      && ("name" in errors <==> HasForbiddenWord(lower, dto.name))
      && ("name" in errors ==> errors["name"] == ForbiddenNameMessage)
      && ("price" in errors <==> PriceMessage(lower, dto).Some?)
      && ("price" in errors ==> errors["price"] == PriceMessage(lower, dto).value)
      && ("stock" in errors <==> dto.stock.value > MaxStock)
      && ("stock" in errors ==> errors["stock"] == MaxStockMessage)
  {
  }

  /** Success exactly when none of the four checks fires; a failure never has an empty map. */
  lemma CreationOkIff(lower: Lowering, dto: CreateProductDTO)
    requires Checkable(dto)
    ensures CreationOutcome(lower, dto) == Ok <==>
      && !HasForbiddenWord(lower, dto.name)
      && dto.price.value <= MaxPrice
      && dto.stock.value <= MaxStock
      && CoherenceMessage(lower, dto.price, dto.category).None?
    ensures CreationOutcome(lower, dto).Ok? || CreationOutcome(lower, dto).FieldErrors?
    ensures CreationOutcome(lower, dto).FieldErrors? ==>
      CreationOutcome(lower, dto).errors == CreationErrors(lower, dto) != map[]
  {
    CreationErrorsByKey(lower, dto);
    var errors := CreationErrors(lower, dto);
    if errors == map[] {
      assert "name" !in errors && "price" !in errors && "stock" !in errors;
    }
  }

  /** A null name never produces a name error. */
  lemma NullNameIsAccepted(lower: Lowering, dto: CreateProductDTO)
    requires Checkable(dto) && dto.name.None?
    ensures "name" !in CreationErrors(lower, dto)
  {
  }

  /** The price ceiling is strict: 100000.00 itself passes, anything above writes "price". */
  lemma PriceCeilingIsStrict(lower: Lowering, dto: CreateProductDTO)
    requires Checkable(dto)
    ensures dto.price.value == MaxPrice ==>
      PriceMessage(lower, dto) == CoherenceMessage(lower, dto.price, dto.category)
    ensures dto.price.value > MaxPrice ==> "price" in CreationErrors(lower, dto)
    ensures dto.price.value <= MaxPrice && dto.category.None? ==> "price" !in CreationErrors(lower, dto)
  {
  }

  /** The stock ceiling is strict: 10000 passes, anything above writes "stock". */
  lemma StockCeilingIsStrict(lower: Lowering, dto: CreateProductDTO)
    requires Checkable(dto)
    ensures "stock" in CreationErrors(lower, dto) <==> dto.stock.value > 10000
  {
  }

  /**
   * Last write wins on "price": the clothing rule beats the book rule, which beats the
   * electronics rule, which beats the price ceiling.
   */
  lemma PriceLastWriteWins(lower: Lowering, dto: CreateProductDTO)
    requires Checkable(dto) && dto.category.Some?
    ensures var c, p, errors := lower(dto.category.value), dto.price.value, CreationErrors(lower, dto);
      && (ClothingPriceRule(c, p) ==> errors["price"] == ClothingPriceMessage)
      && (!ClothingPriceRule(c, p) && BookPriceRule(c, p) ==> errors["price"] == BookPriceMessage)
      && (!ClothingPriceRule(c, p) && !BookPriceRule(c, p) && ElectronicsPriceRule(c, p) ==>
            errors["price"] == ElectronicsPriceMessage)
      && (!ClothingPriceRule(c, p) && !BookPriceRule(c, p) && !ElectronicsPriceRule(c, p) ==>
            ("price" in errors <==> p > MaxPrice))
  {
  }

  /** Price 150000 in category "Ropa": the clothing message replaces the ceiling message. */
  lemma ClothingOverwritesCeiling(lower: Lowering, dto: CreateProductDTO)
    requires lower("Ropa") == "ropa"
    requires dto.price == Some(150000.00) && dto.category == Some("Ropa") && dto.stock.Some?
    ensures CreationOutcome(lower, dto).FieldErrors?
    ensures CreationOutcome(lower, dto).errors["price"] == ClothingPriceMessage
  {
  }

  /** The coherence rules add nothing when the category or the price is null. */
  lemma CoherenceIgnoresNull(lower: Lowering, price: Option<Decimal>, category: Option<string>)
    requires price.None? || category.None?
    ensures CoherenceMessage(lower, price, category).None?
  {
  }

  /** Names and categories that lower alike are validated alike. */
  lemma CreationIsCaseInsensitive(lower: Lowering, dto: CreateProductDTO, name: string, category: string)
    requires Checkable(dto) && dto.name.Some? && dto.category.Some?
    requires lower(name) == lower(dto.name.value) && lower(category) == lower(dto.category.value)
    ensures CreationOutcome(lower, dto.(name := Some(name), category := Some(category))) == CreationOutcome(lower, dto)
  {
    var other := dto.(name := Some(name), category := Some(category));
    assert HasForbiddenWord(lower, other.name) == HasForbiddenWord(lower, dto.name);
    assert CoherenceMessage(lower, other.price, other.category) == CoherenceMessage(lower, dto.price, dto.category);
    assert PriceMessage(lower, other) == PriceMessage(lower, dto);
  }

  /**
   * A name lowering to "test product", price 50000, a category lowering to "electrónicos",
   * stock 5 (as for "Test Product" and "Electrónicos"): only the name is rejected.
   */
  lemma ExampleForbiddenName(lower: Lowering, name: string, category: string, description: Option<string>)
    requires lower(name) == "test product" && lower(category) == "electrónicos"
    ensures CreationOutcome(lower, CreateProductDTO(Some(name), description, Some(50000.00), Some(category), Some(5)))
      == FieldErrors(map["name" := ForbiddenNameMessage])
  {
    var dto := CreateProductDTO(Some(name), description, Some(50000.00), Some(category), Some(5));
    HasForbiddenWordIff(lower, name);
    WitnessGivesContains(lower(name), "test", 0);
    MissingCharacter(lower(category), "libro", 'b');
    MissingCharacter(lower(category), "ropa", 'p');
    MissingCharacter(lower(category), "vestimenta", 'v');
    assert PriceMessage(lower, dto) == None;
    assert CreationErrors(lower, dto) == Entries(Some(ForbiddenNameMessage), None, None);
    assert Entries(Some(ForbiddenNameMessage), None, None) == map["name" := ForbiddenNameMessage];
    assert "name" in CreationErrors(lower, dto);
  }

  /**
   * A category lowering to "libros" (as "Libros" does) at 250.00, with an acceptable name and
   * stock: the only error is the book ceiling on "price".
   */
  lemma ExampleBookTooExpensive(lower: Lowering, name: string, category: string, stock: int32)
    requires lower(category) == "libros" && !HasForbiddenWord(lower, Some(name))
    requires stock <= MaxStock
    ensures CreationOutcome(lower, CreateProductDTO(Some(name), None, Some(250.00), Some(category), Some(stock)))
      == FieldErrors(map["price" := BookPriceMessage])
  {
    var dto := CreateProductDTO(Some(name), None, Some(250.00), Some(category), Some(stock));
    WitnessGivesContains(lower(category), "libro", 0);
    MissingCharacter(lower(category), "ropa", 'p');
    MissingCharacter(lower(category), "vestimenta", 'v');
    assert PriceMessage(lower, dto) == Some(BookPriceMessage);
    assert CreationErrors(lower, dto) == Entries(None, Some(BookPriceMessage), None);
    assert Entries(None, Some(BookPriceMessage), None) == map["price" := BookPriceMessage];
    assert "price" in CreationErrors(lower, dto);
  }

  /**
   * A category lowering to "ropa" (as "Ropa" does) at 5.00, with an acceptable name and stock:
   * the only error is the clothing floor on "price".
   */
  lemma ExampleClothingTooCheap(lower: Lowering, name: string, category: string, stock: int32)
    requires lower(category) == "ropa" && !HasForbiddenWord(lower, Some(name))
    requires stock <= MaxStock
    ensures CreationOutcome(lower, CreateProductDTO(Some(name), None, Some(5.00), Some(category), Some(stock)))
      == FieldErrors(map["price" := ClothingPriceMessage])
  {
    var dto := CreateProductDTO(Some(name), None, Some(5.00), Some(category), Some(stock));
    WitnessGivesContains(lower(category), "ropa", 0);
    assert PriceMessage(lower, dto) == Some(ClothingPriceMessage);
    assert CreationErrors(lower, dto) == Entries(None, Some(ClothingPriceMessage), None);
    assert Entries(None, Some(ClothingPriceMessage), None) == map["price" := ClothingPriceMessage];
    assert "price" in CreationErrors(lower, dto);
  }

  // ---------------------------------------------------------------------------
  // Properties of the stock rule

  /** A null category or a null stock is never a failure. */
  lemma StockRuleIgnoresNull(lower: Lowering, category: Option<string>, stock: Option<int32>)
    requires category.None? || stock.None?
    ensures ValidateStockForCategory(lower, category, stock) == Ok
  {
  }

  /**
   * The digital message comes exactly from a digital category below 1000 units; the perishable
   * message exactly from a perishable category above 100 units when the digital rule did not
   * fire; every other input succeeds.
   */
  lemma StockRuleCases(lower: Lowering, category: string, stock: int32)
    ensures var r, c := ValidateStockForCategory(lower, Some(category), Some(stock)), lower(category);
      && (r == Message(DigitalStockMessage) <==> IsDigital(c) && stock < 1000)
      && (r == Message(PerishableStockMessage) <==>
            !(IsDigital(c) && stock < 1000) && IsPerishable(c) && stock > 100)
      && (r == Ok <==> !(IsDigital(c) && stock < 1000) && !(IsPerishable(c) && stock > 100))
      && (r.Ok? || r.Message?)
  {
  }

  /** A category that is both digital and perishable, below 1000 units, gets the digital message. */
  lemma StockRuleFirstMatchWins(lower: Lowering, category: string, stock: int32)
    requires IsDigital(lower(category)) && IsPerishable(lower(category)) && stock < 1000
    ensures ValidateStockForCategory(lower, Some(category), Some(stock)) == Message(DigitalStockMessage)
  {
  }

  /** "Software": 500 units fail with the digital message, 1500 units pass. */
  lemma ExampleSoftwareStock(lower: Lowering)
    requires lower("Software") == "software"
    ensures ValidateStockForCategory(lower, Some("Software"), Some(500)) == Message(DigitalStockMessage)
    ensures ValidateStockForCategory(lower, Some("Software"), Some(1500)) == Ok
  {
    WitnessGivesContains(lower("Software"), "software", 0);
    MissingCharacter(lower("Software"), "comida", 'c');
    MissingCharacter(lower("Software"), "alimento", 'l');
  }

  /** "Comida": 150 units fail with the perishable message, 50 units pass. */
  lemma ExampleFoodStock(lower: Lowering)
    requires lower("Comida") == "comida"
    ensures ValidateStockForCategory(lower, Some("Comida"), Some(150)) == Message(PerishableStockMessage)
    ensures ValidateStockForCategory(lower, Some("Comida"), Some(50)) == Ok
  {
    WitnessGivesContains(lower("Comida"), "comida", 0);
    MissingCharacter(lower("Comida"), "digital", 'g');
    MissingCharacter(lower("Comida"), "software", 's');
  }


}
