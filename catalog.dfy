/** The admin catalog pages: creating a product (app/admin/add-product/page.tsx) and
    searching, editing, removing and stock-checking products (app/admin/view-products/page.tsx). */
module Catalog {
  import opened Wrappers
  import opened Seqs
  import opened Text
  import opened Entities
  import opened Storage

  /** Total profit and profit percentage, as shown while the form is filled in and stored on save. */
  datatype Profit = Profit(amount: real, percentage: real)

  /** Why a catalog write was refused. */
  datatype CatalogError = MissingField | DuplicateId | PriceNotAboveCost | NotEditing

  /** The profit derivation shared by the add and edit forms: per-unit margin times quantity,
      and the margin as a percentage of the buy price; both 0 unless both prices are positive. */
  function DeriveProfit(buyPrice: real, sellPrice: real, quantity: int): (p: Profit)
    ensures buyPrice > 0.0 && sellPrice > 0.0 ==>
      p.amount == quantity as real * (sellPrice - buyPrice) &&
      buyPrice + buyPrice * p.percentage / 100.0 == sellPrice
    ensures !(buyPrice > 0.0 && sellPrice > 0.0) ==> p == Profit(0.0, 0.0)
  {
    if buyPrice > 0.0 && sellPrice > 0.0 then
      var perUnit := sellPrice - buyPrice;
      Profit(perUnit * quantity as real, perUnit / buyPrice * 100.0)
    else
      Profit(0.0, 0.0)
  }

  /** A product that sells above a positive cost shows a positive percentage, and a
      non-negative total profit for a non-negative quantity. */
  lemma ProfitSign(buyPrice: real, sellPrice: real, quantity: int)
    requires 0.0 < buyPrice < sellPrice
    ensures DeriveProfit(buyPrice, sellPrice, quantity).percentage > 0.0
    ensures quantity >= 0 ==> DeriveProfit(buyPrice, sellPrice, quantity).amount >= 0.0
  {
    var p := DeriveProfit(buyPrice, sellPrice, quantity);
    assert buyPrice * p.percentage / 100.0 == sellPrice - buyPrice;
  }

  // ---------------------------------------------------------------------------
  // Create (add-product page)

  /** The add-product form after parsing: a numeric field is `None` when it was left empty. */
  datatype ProductForm = ProductForm(
    id: string,
    name: string,
    buyPrice: Option<real>,
    sellPrice: Option<real>,
    weight: string,
    quantity: Option<int>,
    lowQuantityAlert: Option<int>)

  predicate HasEmptyField(f: ProductForm) {
    f.id == "" || f.name == "" || f.buyPrice.None? || f.sellPrice.None? ||
    f.weight == "" || f.quantity.None? || f.lowQuantityAlert.None?
  }

  /** The live profit preview of the add form; an empty numeric field counts as 0. */
  function ProfitPreview(f: ProductForm): Profit {
    DeriveProfit(f.buyPrice.GetOr(0.0), f.sellPrice.GetOr(0.0), f.quantity.GetOr(0))
  }

  /** The record a complete form produces. */
  function NewProduct(f: ProductForm, dateAdded: string): (p: Product)
    requires !HasEmptyField(f)
    ensures p.id == f.id && p.name == f.name && p.weight == f.weight
    ensures p.buyPrice == f.buyPrice.value && p.sellPrice == f.sellPrice.value
    ensures p.quantity == f.quantity.value && p.lowQuantityAlert == f.lowQuantityAlert.value
    ensures p.profit == DeriveProfit(p.buyPrice, p.sellPrice, p.quantity).amount
    ensures p.profitPercentage == DeriveProfit(p.buyPrice, p.sellPrice, p.quantity).percentage
    ensures p.dateAdded == dateAdded
  {
    var profit := ProfitPreview(f);
    Product(f.id, f.name, f.buyPrice.value, f.sellPrice.value, f.weight,
            f.quantity.value, f.lowQuantityAlert.value, profit.amount, profit.percentage, dateAdded)
  }

  /** Submitting the add form: the checks run in the order empty field, duplicate
      identifier, price; the first that fails is reported and the catalog is kept;
      otherwise the new record is appended. */
  function Create(catalog: seq<Product>, f: ProductForm, dateAdded: string): (r: Result<seq<Product>, CatalogError>)
    ensures r == Failure(MissingField) <==> HasEmptyField(f)
    ensures r == Failure(DuplicateId) <==> !HasEmptyField(f) && HasId(catalog, f.id)
    ensures r == Failure(PriceNotAboveCost) <==>
      !HasEmptyField(f) && !HasId(catalog, f.id) && f.sellPrice.value <= f.buyPrice.value
    ensures r.Success? <==>
      !HasEmptyField(f) && !HasId(catalog, f.id) && f.sellPrice.value > f.buyPrice.value
    ensures r.Success? ==>
      |r.value| == |catalog| + 1 && r.value[..|catalog|] == catalog &&
      r.value[|catalog|] == NewProduct(f, dateAdded)
  {
    if HasEmptyField(f) then Failure(MissingField)
    else if HasId(catalog, f.id) then Failure(DuplicateId)
    else if f.sellPrice.value <= f.buyPrice.value then Failure(PriceNotAboveCost)
    else Success(catalog + [NewProduct(f, dateAdded)])
  }

  /** A successful create keeps identifiers unique. */
  lemma CreateKeepsIdsUnique(catalog: seq<Product>, f: ProductForm, dateAdded: string)
    requires UniqueIds(catalog)
    ensures Create(catalog, f, dateAdded).Success? ==> UniqueIds(Create(catalog, f, dateAdded).value)
  {
    var r := Create(catalog, f, dateAdded);
    if r.Success? {
      var c := r.value;
      forall i, j | 0 <= i < j < |c| ensures c[i].id != c[j].id {
        if j == |catalog| {
          assert c[i] == catalog[i];
        }
      }
    }
  }

  /** `handleSubmit`: validate, then append the new record to the stored catalog. */
  method HandleSubmit(s: Store, f: ProductForm, dateAdded: string) returns (error: Option<CatalogError>)
    modifies s`products
    ensures var r := Create(old(s.products), f, dateAdded);
      && (r.Success? ==> error == None && s.products == r.value)
      && (r.Failure? ==> error == Some(r.error) && s.products == old(s.products))
  {
    if HasEmptyField(f) {
      return Some(MissingField);
    }
    var existing := s.products;
    if HasId(existing, f.id) {
      return Some(DuplicateId);
    }
    var buyPrice, sellPrice := f.buyPrice.value, f.sellPrice.value;
    if sellPrice <= buyPrice {
      return Some(PriceNotAboveCost);
    }
    var product := NewProduct(f, dateAdded);
    existing := existing + [product];
    s.products := existing;
    error := None;
  }

  // ---------------------------------------------------------------------------
  // Search and low stock (view-products page)

  /** A product matches a search term when its lower-cased name or identifier contains the lower-cased term. */
  predicate Matches(p: Product, term: string) {
    Contains(Lower(p.name), Lower(term)) || Contains(Lower(p.id), Lower(term))
  }

  function Matching(term: string): Product -> bool {
    (p: Product) => Matches(p, term)
  }

  /** The search box: the products that match `term`, in catalog order. */
  function Search(products: seq<Product>, term: string): (r: seq<Product>)
    ensures forall i :: 0 <= i < |r| ==> r[i] in products && Matches(r[i], term)
    ensures forall i :: 0 <= i < |products| && Matches(products[i], term) ==> products[i] in r
  {
    FilterMembers(products, Matching(term));
    Filter(products, Matching(term))
  }

  /** An empty search term lists every product. */
  lemma SearchEmptyTerm(products: seq<Product>)
    ensures Search(products, "") == products
  {
    forall i | 0 <= i < |products| ensures Matching("")(products[i]) {
      ContainsEmpty(Lower(products[i].name));
    }
    FilterAll(products, Matching(""));
  }

  /** Search keeps catalog order: searching a concatenation concatenates the searches. */
  lemma SearchKeepsOrder(a: seq<Product>, b: seq<Product>, term: string)
    ensures Search(a + b, term) == Search(a, term) + Search(b, term)
  {
    FilterConcat(a, b, Matching(term));
  }

  /** Searching is insensitive to the case of the term. */
  lemma SearchIgnoresCase(products: seq<Product>, term: string)
    ensures Search(products, Lower(term)) == Search(products, term)
  {
    LowerIdempotent(term);
    FilterCongruent(products, Matching(Lower(term)), Matching(term));
  }

  predicate IsLowStock(p: Product) {
    p.quantity <= p.lowQuantityAlert
  }

  predicate IsOutOfStock(p: Product) {
    p.quantity == 0
  }

  /** The low-stock alert list: products at or below their alert threshold, in catalog order. */
  function LowStock(products: seq<Product>): (r: seq<Product>)
    ensures forall i :: 0 <= i < |r| ==> r[i] in products && r[i].quantity <= r[i].lowQuantityAlert
    ensures forall i :: 0 <= i < |products| && products[i].quantity <= products[i].lowQuantityAlert ==>
      products[i] in r
  {
    FilterMembers(products, IsLowStock);
    Filter(products, IsLowStock)
  }

  /** The low-stock list keeps catalog order: the list of a concatenation is the
      concatenation of the lists. */
  lemma LowStockKeepsOrder(a: seq<Product>, b: seq<Product>)
    ensures LowStock(a + b) == LowStock(a) + LowStock(b)
  {
    FilterConcat(a, b, IsLowStock);
  }

  /** With non-negative thresholds, every out-of-stock product is in the low-stock list:
      picking the out-of-stock products of that list gives all out-of-stock products. */
  lemma OutOfStockWithinLowStock(products: seq<Product>)
    requires forall i :: 0 <= i < |products| ==> products[i].lowQuantityAlert >= 0
    ensures Filter(LowStock(products), IsOutOfStock) == Filter(products, IsOutOfStock)
  {
    FilterFilter(products, IsOutOfStock, IsLowStock);
  }

  // ---------------------------------------------------------------------------
  // Remove (view-products page)

  function OtherThan(id: string): Product -> bool {
    (p: Product) => p.id != id
  }

  /** The catalog without any record carrying `id`, the others in their original order. */
  function WithoutProduct(products: seq<Product>, id: string): (r: seq<Product>)
    ensures forall i :: 0 <= i < |r| ==> r[i] in products && r[i].id != id
    ensures forall i :: 0 <= i < |products| && products[i].id != id ==> products[i] in r
  {
    FilterMembers(products, OtherThan(id));
    Filter(products, OtherThan(id))
  }

  /** Removing an identifier that is not in the catalog changes nothing. */
  lemma WithoutAbsentId(products: seq<Product>, id: string)
    requires !HasId(products, id)
    ensures WithoutProduct(products, id) == products
  {
    FilterAll(products, OtherThan(id));
  }

  /** Removal keeps the relative order of the remaining records. */
  lemma WithoutKeepsOrder(a: seq<Product>, b: seq<Product>, id: string)
    ensures WithoutProduct(a + b, id) == WithoutProduct(a, id) + WithoutProduct(b, id)
  {
    FilterConcat(a, b, OtherThan(id));
  }

  /** `removeProduct`: drop every record with the identifier and store the rest. */
  method RemoveProduct(s: Store, id: string)
    modifies s`products
    ensures s.products == WithoutProduct(old(s.products), id)
  {
    var updated := WithoutProduct(s.products, id);
    s.products := updated;
  }

  // ---------------------------------------------------------------------------
  // Edit (view-products page)

  /** The edit dialog after parsing. */
  datatype EditForm = EditForm(
    name: string,
    buyPrice: real,
    sellPrice: real,
    weight: string,
    quantity: int,
    lowQuantityAlert: int)

  /** The record being edited with the dialog's values; identifier and creation date are kept
      and the stored profit is derived again. */
  function EditedProduct(e: Product, f: EditForm): (p: Product)
    ensures p.id == e.id && p.dateAdded == e.dateAdded
    ensures p.name == f.name && p.weight == f.weight
    ensures p.buyPrice == f.buyPrice && p.sellPrice == f.sellPrice
    ensures p.quantity == f.quantity && p.lowQuantityAlert == f.lowQuantityAlert
    ensures p.profit == DeriveProfit(f.buyPrice, f.sellPrice, f.quantity).amount
    ensures p.profitPercentage == DeriveProfit(f.buyPrice, f.sellPrice, f.quantity).percentage
  {
    var profit := DeriveProfit(f.buyPrice, f.sellPrice, f.quantity);
    e.(name := f.name, buyPrice := f.buyPrice, sellPrice := f.sellPrice, weight := f.weight,
       quantity := f.quantity, lowQuantityAlert := f.lowQuantityAlert,
       profit := profit.amount, profitPercentage := profit.percentage)
  }

  /** Saving the edit dialog: refused with no change when nothing is being edited or the
      sell price does not exceed the buy price; otherwise every record with the edited
      identifier is replaced and all other records stay where and as they were. */
  function Edited(products: seq<Product>, editing: Option<Product>, f: EditForm): (r: Result<seq<Product>, CatalogError>)
    ensures editing.None? ==> r == Failure(NotEditing)
    ensures editing.Some? && f.sellPrice <= f.buyPrice ==> r == Failure(PriceNotAboveCost)
    ensures editing.Some? && f.sellPrice > f.buyPrice ==>
      r.Success? && |r.value| == |products| &&
      forall i :: 0 <= i < |products| ==>
        r.value[i] == if products[i].id == editing.value.id then EditedProduct(editing.value, f) else products[i]
  {
    if editing.None? then Failure(NotEditing)
    else if f.sellPrice <= f.buyPrice then Failure(PriceNotAboveCost)
    else
      var updated := EditedProduct(editing.value, f);
      Success(seq(|products|, i requires 0 <= i < |products| =>
        if products[i].id == editing.value.id then updated else products[i]))
  }

  /** An edit leaves every position's identifier as it was, so unique identifiers stay unique. */
  lemma EditKeepsIds(products: seq<Product>, editing: Option<Product>, f: EditForm)
    ensures Edited(products, editing, f).Success? ==>
      var r := Edited(products, editing, f).value;
      |r| == |products| && (forall i :: 0 <= i < |r| ==> r[i].id == products[i].id) &&
      (UniqueIds(products) ==> UniqueIds(r))
  {
  }

  /** Saving the same dialog twice has the effect of saving it once. */
  lemma EditIdempotent(products: seq<Product>, e: Product, f: EditForm)
    requires f.sellPrice > f.buyPrice
    ensures var once := Edited(products, Some(e), f).value;
      Edited(once, Some(e), f) == Edited(products, Some(e), f)
  {
    var once := Edited(products, Some(e), f).value;
    var twice := Edited(once, Some(e), f).value;
    assert forall i :: 0 <= i < |once| ==> twice[i] == once[i];
    assert twice == once;
  }

  /** `saveEdit`: check the prices, replace the edited record and store the catalog. */
  method SaveEdit(s: Store, editing: Option<Product>, f: EditForm) returns (error: Option<CatalogError>)
    modifies s`products
    ensures var r := Edited(old(s.products), editing, f);
      && (r.Success? ==> error == None && s.products == r.value)
      && (r.Failure? ==> error == Some(r.error) && s.products == old(s.products))
  {
    if editing.None? {
      return Some(NotEditing);
    }
    if f.sellPrice <= f.buyPrice {
      return Some(PriceNotAboveCost);
    }
    var updated := Edited(s.products, editing, f).value;
    s.products := updated;
    error := None;
  }
}
