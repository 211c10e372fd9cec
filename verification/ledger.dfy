/** The retail ledger: three append-only lists of stores, products and sales,
    and the three operations that change them. Ids are positions counted
    from 1; a sale copies the names and the price it was made with. */
module Ledger {
  import opened Wrappers
  import opened Text

  datatype Store = Store(id: int, name: string)

  /** Price and stock come from `parseFloat` and `parseInt`; neither is
      checked for sign, so both may be negative. */
  datatype Product = Product(id: int, name: string, price: real, stock: int)

  /** A sale is a snapshot: it keeps the store name, product name and unit
      price as they were, and `date` is the text of the sale's timestamp. */
  datatype Sale = Sale(
    storeId: int, storeName: string,
    productId: int, productName: string,
    price: real, quantity: int, total: real,
    date: string)

  /** Why an operation refused its input; each reason has its own alert:
      the store name is missing, a product field is missing, a sale field is
      missing or wrong, or the stock is too low. */
  datatype Rejection =
    | StoreNameRequired
    | ProductFieldsRequired
    | SaleFieldsInvalid
    | InsufficientStock

  datatype Outcome = Done | Rejected(reason: Rejection)

  /** The ids of a list of records, in list order. */
  function Ids<T>(xs: seq<T>, id: T -> int): seq<int> {
    seq(|xs|, i requires 0 <= i < |xs| => id(xs[i]))
  }

  /** `list.find(x => x.id === id)`, giving the position of the first match;
      an id that failed to parse (`NaN`) equals nothing. */
  function FindId(ids: seq<int>, id: Option<int>): (r: Option<nat>)
    ensures r.Some? ==> id.Some? && r.value < |ids| && ids[r.value] == id.value
    ensures r.Some? ==> forall j :: 0 <= j < r.value ==> ids[j] != id.value
    ensures r.None? ==> id.None? || forall j :: 0 <= j < |ids| ==> ids[j] != id.value
  {
    if id.None? || ids == [] then None
    else if ids[0] == id.value then Some(0)
    else match FindId(ids[1..], id) {
      case None => None
      case Some(k) => Some(k + 1)
    }
  }

  /** The ids the ledger hands out: element i carries id i + 1. */
  predicate SequentialIds(ids: seq<int>) {
    forall i :: 0 <= i < |ids| ==> ids[i] == i + 1
  }

  /** With sequential ids, looking up id k finds element k - 1, and finds
      something exactly when 1 <= k <= length. */
  lemma FindSequential(ids: seq<int>, id: Option<int>)
    requires SequentialIds(ids)
    ensures FindId(ids, id) == if id.Some? && 1 <= id.value <= |ids| then Some(id.value - 1) else None
  {
    var r := FindId(ids, id);
    if id.Some? && 1 <= id.value <= |ids| {
      assert ids[id.value - 1] == id.value;
    }
  }

  /** A recorded sale agrees with the store and product it names: those
      records never change name or price, so the snapshot stays exact. */
  predicate SaleConsistent(s: Sale, stores: seq<Store>, products: seq<Product>) {
    && 1 <= s.storeId <= |stores| && stores[s.storeId - 1].name == s.storeName
    && 1 <= s.productId <= |products|
    && products[s.productId - 1].name == s.productName
    && products[s.productId - 1].price == s.price
    && s.quantity > 0 && s.total == s.price * s.quantity as real
  }

  /** Changing a product's stock keeps every recorded sale consistent: a sale
      depends only on names and prices. */
  lemma StockChangeKeepsSales(sales: seq<Sale>, stores: seq<Store>, products: seq<Product>, k: nat, stock: int)
    requires k < |products|
    requires forall i :: 0 <= i < |sales| ==> SaleConsistent(sales[i], stores, products)
    ensures forall i :: 0 <= i < |sales| ==>
      SaleConsistent(sales[i], stores, products[k := products[k].(stock := stock)])
  {
    var products' := products[k := products[k].(stock := stock)];
    forall i | 0 <= i < |sales|
      ensures SaleConsistent(sales[i], stores, products')
    {
      var j := sales[i].productId - 1;
      assert products'[j].name == products[j].name && products'[j].price == products[j].price;
    }
  }

  /** The inputs `registerSale` accepts before looking at stock: both ids
      name existing records (so, with sequential ids, lie in range) and the
      quantity parsed to a positive integer. */
  predicate SaleFieldsValid(stores: seq<Store>, products: seq<Product>,
                            storeId: Option<int>, productId: Option<int>, quantity: Option<int>)
  {
    && storeId.Some? && 1 <= storeId.value <= |stores|
    && productId.Some? && 1 <= productId.value <= |products|
    && quantity.Some? && quantity.value > 0
  }

  /** The sale record `registerSale` appends for valid fields. */
  function NewSale(store: Store, product: Product, quantity: int, date: string): Sale {
    Sale(store.id, store.name, product.id, product.name, product.price,
         quantity, product.price * quantity as real, date)
  }

  /** A new sale for records the ledger holds agrees with them, so appending
      it keeps every recorded sale consistent. */
  lemma NewSaleConsistent(stores: seq<Store>, products: seq<Product>, j: nat, k: nat, q: int, date: string)
    requires j < |stores| && stores[j].id == j + 1
    requires k < |products| && products[k].id == k + 1
    requires q > 0
    ensures SaleConsistent(NewSale(stores[j], products[k], q, date), stores, products)
  {
  }

  /** The module-level `stores`, `products` and `sales` arrays. */
  class Ledger {
    var stores: seq<Store>
    var products: seq<Product>
    var sales: seq<Sale>

    /** Ids are positions from 1, and every sale agrees with its records. */
    predicate Valid()
      reads this
    {
      && (forall i :: 0 <= i < |stores| ==> stores[i].id == i + 1)
      && (forall i :: 0 <= i < |products| ==> products[i].id == i + 1)
      && forall i :: 0 <= i < |sales| ==> SaleConsistent(sales[i], stores, products)
    }

    /** An empty ledger: what the page starts with when nothing is stored. */
    constructor ()
      ensures Valid()
      ensures stores == [] && products == [] && sales == []
    {
      stores, products, sales := [], [], [];
    }

    /** `addStore`: trims the name; an empty name is refused and nothing
        changes; otherwise one store is appended with the next id. */
    method AddStore(nameInput: string) returns (o: Outcome)
      requires Valid()
      modifies this
      ensures Valid()
      ensures o == if Trim(nameInput) == [] then Rejected(StoreNameRequired) else Done
      ensures o.Rejected? ==> stores == old(stores)
      ensures o.Done? ==> stores == old(stores) + [Store(|old(stores)| + 1, Trim(nameInput))]
      ensures products == old(products) && sales == old(sales)
    {
      var name := Trim(nameInput);
      if name == [] {
        return Rejected(StoreNameRequired);
      }
      var store := Store(|stores| + 1, name);
      stores := stores + [store];
      o := Done;
    }

    /** `addProduct`: refused, with nothing changed, exactly when the trimmed
        name is empty or price or stock did not parse; negative numbers are
        accepted. Otherwise one product is appended with the next id. */
    method AddProduct(nameInput: string, price: Option<real>, stock: Option<int>) returns (o: Outcome)
      requires Valid()
      modifies this
      ensures Valid()
      ensures o == if Trim(nameInput) == [] || price.None? || stock.None?
                   then Rejected(ProductFieldsRequired) else Done
      ensures o.Rejected? ==> products == old(products)
      ensures o.Done? ==>
        products == old(products) + [Product(|old(products)| + 1, Trim(nameInput), price.value, stock.value)]
      ensures stores == old(stores) && sales == old(sales)
    {
      var name := Trim(nameInput);
      if name == [] || price.None? || stock.None? {
        return Rejected(ProductFieldsRequired);
      }
      var product := Product(|products| + 1, name, price.value, stock.value);
      products := products + [product];
      o := Done;
    }

    /** The changes `registerSale` makes once its checks pass: the product at
        position `k` loses `q` units of stock, and a sale of it at the store at
        position `j` is appended. */
    method CommitSale(j: nat, k: nat, q: int, now: string)
      requires Valid()
      requires j < |stores| && k < |products| && 0 < q <= products[k].stock
      modifies this
      ensures Valid()
      ensures stores == old(stores)
      ensures products == old(products)[k := old(products)[k].(stock := old(products)[k].stock - q)]
      ensures sales == old(sales) + [NewSale(old(stores)[j], old(products)[k], q, now)]
    {
      var store, product := stores[j], products[k];
      StockChangeKeepsSales(sales, stores, products, k, product.stock - q);
      products := products[k := product.(stock := product.stock - q)];
      var sale := NewSale(store, product, q, now);
      NewSaleConsistent(stores, products, j, k, q, now);
      sales := sales + [sale];
    }

    /** `registerSale`: every check comes before any change. Unknown ids or a
        missing or non-positive quantity are refused, then a quantity above
        the stock; a refusal changes nothing. Otherwise the product's stock
        drops by the quantity and stays non-negative, no other record
        changes, and one sale is appended that copies the records' names and
        price, with total price * quantity and the given timestamp. */
    method RegisterSale(storeId: Option<int>, productId: Option<int>, quantity: Option<int>, now: string)
      returns (o: Outcome)
      requires Valid()
      modifies this
      ensures Valid()
      ensures stores == old(stores)
      ensures !SaleFieldsValid(old(stores), old(products), storeId, productId, quantity) ==>
        o == Rejected(SaleFieldsInvalid)
      ensures SaleFieldsValid(old(stores), old(products), storeId, productId, quantity) ==>
        var p := old(products)[productId.value - 1];
        o == if p.stock < quantity.value then Rejected(InsufficientStock) else Done
      ensures o.Rejected? ==> products == old(products) && sales == old(sales)
      ensures o.Done? ==>
        && SaleFieldsValid(old(stores), old(products), storeId, productId, quantity)
        && var k, q := productId.value - 1, quantity.value;
           var p := old(products)[k];
           && products == old(products)[k := p.(stock := p.stock - q)]
           && 0 <= products[k].stock == p.stock - q
           && sales == old(sales) + [NewSale(old(stores)[storeId.value - 1], p, q, now)]
    {
      var storeIds := Ids(stores, (st: Store) => st.id);
      var productIds := Ids(products, (pr: Product) => pr.id);
      FindSequential(storeIds, storeId);
      FindSequential(productIds, productId);
      var si := FindId(storeIds, storeId);
      var pi := FindId(productIds, productId);
      if si.None? || pi.None? || quantity.None? || quantity.value <= 0 {
        assert !SaleFieldsValid(stores, products, storeId, productId, quantity);
        return Rejected(SaleFieldsInvalid);
      }
      assert SaleFieldsValid(stores, products, storeId, productId, quantity);
      assert si.value == storeId.value - 1 && pi.value == productId.value - 1;
      var q := quantity.value;
      if products[pi.value].stock < q {
        return Rejected(InsufficientStock);
      }
      CommitSale(si.value, pi.value, q, now);
      o := Done;
    }
  }
}
