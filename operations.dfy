/**
 * The public operations of the API client. Each one builds its forms and queries,
 * lists the requests it may send in the order it sends them, gives each request the
 * rule its reply must meet, and hands the list to the fallback loop together with the
 * failure text for when every request is refused.
 */
module Operations {
  import opened Wrappers
  import opened Text
  import opened Json
  import opened ApiModels
  import opened Decoder
  import opened Transport
  import opened Fallback
  import opened Categories

  // ---------------------------------------------------------------------------
  // Tiers of candidates

  /** REST1 posts of one form to each path in turn. */
  function Rest1Tier(cfg: Config, paths: seq<string>, form: Dict, rule: Rule): (r: seq<Candidate>)
    ensures |r| == |paths|
    ensures forall k | 0 <= k < |paths| :: r[k] == Candidate(Rest1(cfg, paths[k], form), rule)
  {
    seq(|paths|, k requires 0 <= k < |paths| => Candidate(Rest1(cfg, paths[k], form), rule))
  }

  /** V3 GETs with one query to each path in turn. */
  function V3GetTier(cfg: Config, paths: seq<string>, query: Dict, rule: Rule): (r: seq<Candidate>)
    ensures |r| == |paths|
    ensures forall k | 0 <= k < |paths| :: r[k] == Candidate(V3Get(cfg, paths[k], query), rule)
  {
    seq(|paths|, k requires 0 <= k < |paths| => Candidate(V3Get(cfg, paths[k], query), rule))
  }

  /** V3 POSTs of one JSON body to each path in turn. */
  function V3PostTier(cfg: Config, paths: seq<string>, body: Json, rule: Rule): (r: seq<Candidate>)
    ensures |r| == |paths|
    ensures forall k | 0 <= k < |paths| :: r[k] == Candidate(V3Post(cfg, paths[k], body), rule)
  {
    seq(|paths|, k requires 0 <= k < |paths| => Candidate(V3Post(cfg, paths[k], body), rule))
  }

  /** REST1 posts followed by V3 GETs: one rule throughout, and each tier's first request in its place. */
  lemma RestThenGet(cfg: Config, restPaths: seq<string>, form: Dict, getPaths: seq<string>, query: Dict, rule: Rule)
    ensures var cands := Rest1Tier(cfg, restPaths, form, rule) + V3GetTier(cfg, getPaths, query, rule);
      |cands| == |restPaths| + |getPaths|
      && (forall k | 0 <= k < |cands| :: cands[k].rule == rule)
      && (restPaths != [] ==> cands[0].request == Rest1(cfg, restPaths[0], form))
      && (getPaths != [] ==> cands[|restPaths|].request == V3Get(cfg, getPaths[0], query))
  {
    RuleOfAppend(Rest1Tier(cfg, restPaths, form, rule), V3GetTier(cfg, getPaths, query, rule), rule);
  }

  /** The transport reports the request of candidate k ok. */
  predicate OkAt(cands: seq<Candidate>, send: Transport, k: nat)
    requires k < |cands|
  {
    Call(send, cands[k].request).ok
  }

  /** The reply to candidate k parses to a success carrying data. */
  predicate FoundAt<T>(cands: seq<Candidate>, send: Transport, lib: JsonLib<T>, k: nat)
    requires k < |cands|
  {
    var reply := Call(send, cands[k].request);
    reply.ok && ParseResponse(reply.body, lib).success && ParseResponse(reply.body, lib).data.Some?
  }

  /** The reply to candidate k is non-empty and parses to a success carrying a non-empty list. */
  predicate ItemsAt<D>(cands: seq<Candidate>, send: Transport, lib: JsonLib<seq<D>>, k: nat)
    requires k < |cands|
  {
    var reply := Call(send, cands[k].request);
    var e := ParseResponse(reply.body, lib);
    reply.ok && reply.body != "" && e.success && e.data.Some? && |e.data.value| > 0
  }

  /** The parse of the reply to candidate k. */
  function ParsedAt<T>(cands: seq<Candidate>, send: Transport, lib: JsonLib<T>, k: nat): Envelope<T>
    requires k < |cands|
  {
    ParseResponse(Call(send, cands[k].request).body, lib)
  }

  /**
   * Where every candidate accepts any ok reply, the search ends at the first request the
   * transport reports ok, with that reply parsed whatever the parse says; it ends with
   * nothing only when no request is reported ok.
   */
  lemma FirstOkReplyWins<T>(cands: seq<Candidate>, send: Transport, lib: JsonLib<T>, size: T -> nat)
    requires forall k | 0 <= k < |cands| :: cands[k].rule == AnyOkReply
    ensures FirstAccepted(cands, send, lib, size).None? <==> forall k | 0 <= k < |cands| :: !OkAt(cands, send, k)
    ensures forall k | 0 <= k < |cands| && OkAt(cands, send, k) && (forall j | 0 <= j < k :: !OkAt(cands, send, j)) ::
      FirstAccepted(cands, send, lib, size) == Some(ParsedAt(cands, send, lib, k))
  {
    FirstAcceptedIsFirst(cands, send, lib, size);
    assert forall k | 0 <= k < |cands| :: Attempt(cands[k], send, lib, size).Some? == OkAt(cands, send, k);
  }

  /**
   * Where every candidate demands a successful parse with data, the search ends at the
   * first such reply; an ok reply that parses to a failure or to null data is passed over.
   */
  lemma FirstFoundWins<T>(cands: seq<Candidate>, send: Transport, lib: JsonLib<T>, size: T -> nat)
    requires forall k | 0 <= k < |cands| :: cands[k].rule == ParsedWithData
    ensures FirstAccepted(cands, send, lib, size).None? <==> forall k | 0 <= k < |cands| :: !FoundAt(cands, send, lib, k)
    ensures forall k | 0 <= k < |cands| && FoundAt(cands, send, lib, k) && (forall j | 0 <= j < k :: !FoundAt(cands, send, lib, j)) ::
      FirstAccepted(cands, send, lib, size) == Some(ParsedAt(cands, send, lib, k))
  {
    FirstAcceptedIsFirst(cands, send, lib, size);
    assert forall k | 0 <= k < |cands| :: Attempt(cands[k], send, lib, size).Some? == FoundAt(cands, send, lib, k);
  }

  /**
   * Where every candidate demands a non-empty list, the search ends at the first reply
   * carrying one; an ok reply with an empty body, a failed parse or an empty list is passed over.
   */
  lemma FirstItemsWin<D>(cands: seq<Candidate>, send: Transport, lib: JsonLib<seq<D>>)
    requires forall k | 0 <= k < |cands| :: cands[k].rule == NonEmptyData
    ensures FirstAccepted(cands, send, lib, ListSize).None? <==> forall k | 0 <= k < |cands| :: !ItemsAt(cands, send, lib, k)
    ensures forall k | 0 <= k < |cands| && ItemsAt(cands, send, lib, k) && (forall j | 0 <= j < k :: !ItemsAt(cands, send, lib, j)) ::
      FirstAccepted(cands, send, lib, ListSize) == Some(ParsedAt(cands, send, lib, k))
  {
    FirstAcceptedIsFirst(cands, send, lib, ListSize);
    assert forall k | 0 <= k < |cands| :: Attempt(cands[k], send, lib, ListSize).Some? == ItemsAt(cands, send, lib, k);
  }

  /** `limit.ToString()` and friends. */
  function Decimal(i: int): string {
    IntToDecimal(i)
  }

  // ---------------------------------------------------------------------------
  // Products

  const ProductListPaths: seq<string> := ["/product/getProducts", "/product/get", "/products/get"]
  const ProductCatalogPaths: seq<string> := ["/catalog/products", "/api/v3/catalog/products"]

  /** The form of the list operations: `limit`, then every filter, a filter named `limit` overriding it. */
  function LimitForm(limit: int, filters: Option<Dict>): Dict {
    PutAll([("limit", Decimal(limit))], filters.GetOr([]))
  }

  /** The V3 query: `page` and `limit`, `search` unless it is null or blank, then every filter. */
  function ProductsQuery(limit: int, page: int, search: Option<string>, filters: Option<Dict>): Dict {
    var paging: Dict := [("page", Decimal(page)), ("limit", Decimal(limit))];
    var searched := if IsNullOrWhiteSpace(search) then paging else Put(paging, "search", search.value);
    PutAll(searched, filters.GetOr([]))
  }

  function ProductsCandidates(cfg: Config, limit: int, page: int, search: Option<string>, filters: Option<Dict>): seq<Candidate> {
    Rest1Tier(cfg, ProductListPaths, LimitForm(limit, filters), AnyOkReply)
    + V3GetTier(cfg, ProductCatalogPaths, ProductsQuery(limit, page, search, filters), AnyOkReply)
  }

  /** `GetProductsAsync`. */
  method GetProducts(cfg: Config, send: Transport, lib: JsonLib<seq<Product>>,
                     limit: int, page: int, search: Option<string>, filters: Option<Dict>)
    returns (r: Envelope<seq<Product>>)
    ensures r == FirstAccepted(ProductsCandidates(cfg, limit, page, search, filters), send, lib, ListSize)
                   .GetOr(Failure("All product endpoints failed"))
  {
    r := ProbeOr(ProductsCandidates(cfg, limit, page, search, filters), send, lib, ListSize, "All product endpoints failed");
  }

  /**
   * The three REST1 paths are tried and then the two V3 paths; the first reply reported ok
   * is returned parsed, even when the parse failed, and when none is ok the result is
   * the failure "All product endpoints failed".
   */
  lemma ProductsFirstOkReplyWins(cfg: Config, send: Transport, lib: JsonLib<seq<Product>>,
                                 limit: int, page: int, search: Option<string>, filters: Option<Dict>)
    ensures var cands := ProductsCandidates(cfg, limit, page, search, filters);
      |cands| == 5
      && cands[0].request == Rest1(cfg, "/product/getProducts", LimitForm(limit, filters))
      && cands[3].request == V3Get(cfg, "/catalog/products", ProductsQuery(limit, page, search, filters))
      && ((forall k | 0 <= k < 5 :: !OkAt(cands, send, k)) ==>
            FirstAccepted(cands, send, lib, ListSize).GetOr(Failure("All product endpoints failed"))
              == Failure("All product endpoints failed"))
      && forall k | 0 <= k < 5 && OkAt(cands, send, k) && (forall j | 0 <= j < k :: !OkAt(cands, send, j)) ::
           FirstAccepted(cands, send, lib, ListSize) == Some(ParsedAt(cands, send, lib, k))
  {
    var cands := ProductsCandidates(cfg, limit, page, search, filters);
    RestThenGet(cfg, ProductListPaths, LimitForm(limit, filters), ProductCatalogPaths,
                ProductsQuery(limit, page, search, filters), AnyOkReply);
    FirstOkReplyWins(cands, send, lib, ListSize);
  }

  /**
   * The query carries `search` exactly when a filter sets it or the search text is
   * neither null nor blank; a filter named `limit` overrides the form's `limit`.
   */
  lemma ProductsQuerySearch(limit: int, page: int, search: Option<string>, filters: Option<Dict>)
    ensures Get(ProductsQuery(limit, page, search, filters), "search") ==
      match LastAssigned(filters.GetOr([]), "search")
      case Some(v) => Some(v)
      case None => if IsNullOrWhiteSpace(search) then None else search
    ensures Get(LimitForm(limit, filters), "limit") ==
      match LastAssigned(filters.GetOr([]), "limit")
      case Some(v) => Some(v)
      case None => Some(Decimal(limit))
  {
    var paging: Dict := [("page", Decimal(page)), ("limit", Decimal(limit))];
    assert UniqueKeys(paging);
    assert !HasKey(paging, "search");
    var searched := if IsNullOrWhiteSpace(search) then paging else Put(paging, "search", search.value);
    if !IsNullOrWhiteSpace(search) {
      PutKeepsUniqueKeys(paging, "search", search.value);
      GetAfterPut(paging, "search", search.value, "search");
    }
    GetAfterPutAll(searched, filters.GetOr([]), "search");
    GetAfterPutAll([("limit", Decimal(limit))], filters.GetOr([]), "limit");
  }

  // ---------------------------------------------------------------------------
  // Adding products

  predicate IsT(c: char) {
    c == 'T' || c == 't'
  }

  /** `int.TryParse(categoryCode.TrimStart('T', 't'), out id) ? id : 1`. */
  function CategoryId(categoryCode: string): (r: int)
    ensures Int32Min <= r <= Int32Max
    ensures ParseInt32(TrimStartWhere(categoryCode, IsT)).None? ==> r == 1
    ensures ParseInt32(TrimStartWhere(categoryCode, IsT)).Some? ==> Some(r) == ParseInt32(TrimStartWhere(categoryCode, IsT))
  {
    ParseInt32(TrimStartWhere(categoryCode, IsT)).GetOr(1)
  }

  /** A category code of a `T` followed by the digits of a number names that number. */
  lemma CategoryIdOfPrefixedCode(n: nat)
    requires n <= Int32Max
    ensures CategoryId("T" + NatToDecimal(n)) == n
  {
    var digits := NatToDecimal(n);
    assert IsDigit(digits[0]);
    TrimStartOne('T', digits, IsT);
    ParseInt32RoundTrip(n);
  }

  /**
   * The `vat` of the V3 body: 18 unless the extra fields hold `Vat`, whose text is then
   * read with `int.Parse` and throws when it is not a 32-bit integer.
   */
  function Vat(extra: Option<Dict>): (r: Outcome<int>)
    ensures r.Throws? <==> extra.Some? && Get(extra.value, "Vat").Some? && ParseInt32(Get(extra.value, "Vat").value).None?
    ensures extra.None? || Get(extra.value, "Vat").None? ==> r == Produced(18)
    ensures r.Produced? && extra.Some? && Get(extra.value, "Vat").Some? ==>
      Some(r.value) == ParseInt32(Get(extra.value, "Vat").value)
  {
    if extra.None? then Produced(18)
    else
      match Get(extra.value, "Vat")
      case None => Produced(18)
      case Some(text) =>
        match ParseInt32(text)
        case None => Throws
        case Some(v) => Produced(v)
  }

  /** An integer as the serializer writes it. */
  function IntToken(i: int): Json {
    JNumber(IntToDecimal(i), Some(i))
  }

  /** The value of an integer literal: optional `-` and one or more digits. */
  function IntegerLiteral(text: string): Option<int> {
    if |text| > 0 && AllDigits(text) then Some(DigitsValue(text))
    else if |text| > 1 && text[0] == '-' && AllDigits(text[1..]) then Some(0 - DigitsValue(text[1..]) as int)
    else None
  }

  /** A `decimal` as the serializer writes it: the digits of its invariant text. */
  function DecimalToken(price: string): Json {
    JNumber(price, IntegerLiteral(price))
  }

  /** The anonymous object `AddProductAsync` posts to V3, with camel-cased names. */
  function ProductBody(code: string, name: string, categoryCode: string, price: string, stock: int, vat: int): Json {
    JObject([
      ("name", JString(name)),
      ("wsProductCode", JString(code)),
      ("priceSale", DecimalToken(price)),
      ("stock", IntToken(stock)),
      ("vat", IntToken(vat)),
      ("visibility", JBool(true)),
      ("relation_hierarchy", JArray([JObject([("id", IntToken(CategoryId(categoryCode))), ("type", JString("category"))])]))])
  }

  /** The five product fields of the REST1 form, in the order they are assigned. */
  function ProductFields(code: string, name: string, categoryCode: string, price: string, stock: int): Dict {
    [("ProductCode", code), ("ProductName", name), ("CategoryCode", categoryCode), ("Price", price), ("Stock", Decimal(stock))]
  }

  lemma ProductFieldsUnique(code: string, name: string, categoryCode: string, price: string, stock: int)
    ensures UniqueKeys(ProductFields(code, name, categoryCode, price, stock))
  {
  }

  /** The REST1 form: the caller's extra fields with the five product fields assigned over them. */
  function AddForm(code: string, name: string, categoryCode: string, price: string, stock: int, extra: Option<Dict>): Dict {
    PutAll(extra.GetOr([]), ProductFields(code, name, categoryCode, price, stock))
  }

  const AddFailed: string := "All add product endpoints failed"
  const AddRest1Paths: seq<string> := ["/product/addProduct", "/product/add", "/products/create"]
  const AddV3Paths: seq<string> := ["/catalog/products", "/api/v3/catalog/products", "/products"]

  function AddCandidates(cfg: Config, code: string, name: string, categoryCode: string, price: string, stock: int,
                         extra: Option<Dict>, vat: int): seq<Candidate> {
    Rest1Tier(cfg, AddRest1Paths, AddForm(code, name, categoryCode, price, stock, extra), AnyOkReply)
    + V3PostTier(cfg, AddV3Paths, ProductBody(code, name, categoryCode, price, stock, vat), AnyOkReply)
  }

  /** What `AddProductAsync` returns, or Throws when the `Vat` text does not parse. */
  function AddOutcome(cfg: Config, send: Transport, lib: JsonLib<Product>,
                      code: string, name: string, categoryCode: string, price: string, stock: int,
                      extra: Option<Dict>): Outcome<Envelope<Product>> {
    match Vat(extra)
    case Throws => Throws
    case Produced(vat) =>
      Produced(FirstAccepted(AddCandidates(cfg, code, name, categoryCode, price, stock, extra, vat), send, lib, NoSize)
                 .GetOr(Failure(AddFailed)))
  }

  /**
   * `AddProductAsync`. `price` is the invariant-culture text of the `decimal`. The `Vat`
   * text is parsed before any request is sent, so a bad one throws with nothing sent.
   */
  method AddProduct(cfg: Config, send: Transport, lib: JsonLib<Product>,
                    code: string, name: string, categoryCode: string, price: string, stock: int,
                    extra: Option<Dict>)
    returns (r: Outcome<Envelope<Product>>, ghost tried: seq<Request>)
    ensures r == AddOutcome(cfg, send, lib, code, name, categoryCode, price, stock, extra)
    ensures r.Throws? <==> Vat(extra).Throws?
    ensures r.Throws? ==> tried == []
  {
    var vat := Vat(extra);
    if vat.Throws? {
      return Throws, [];
    }
    var cands := AddCandidates(cfg, code, name, categoryCode, price, stock, extra, vat.value);
    var found;
    found, tried := Probe(cands, send, lib, NoSize);
    r := Produced(found.GetOr(Failure(AddFailed)));
  }

  /** The form posted to REST1 holds the five product fields, whatever the extra fields say. */
  lemma AddFormCarriesProduct(code: string, name: string, categoryCode: string, price: string, stock: int, extra: Option<Dict>)
    requires extra.None? || UniqueKeys(extra.value)
    ensures var form := AddForm(code, name, categoryCode, price, stock, extra);
      UniqueKeys(form)
      && Get(form, "ProductCode") == Some(code) && Get(form, "ProductName") == Some(name)
      && Get(form, "CategoryCode") == Some(categoryCode) && Get(form, "Price") == Some(price)
      && Get(form, "Stock") == Some(Decimal(stock))
  {
    var fields := ProductFields(code, name, categoryCode, price, stock);
    var base := extra.GetOr([]);
    ProductFieldsUnique(code, name, categoryCode, price, stock);
    PutAllKeepsUniqueKeys(base, fields);
    GetPutAllAt(base, fields, 0);
    GetPutAllAt(base, fields, 1);
    GetPutAllAt(base, fields, 2);
    GetPutAllAt(base, fields, 3);
    GetPutAllAt(base, fields, 4);
  }

  /** Every extra field other than the five product fields reaches the form unchanged. */
  lemma AddFormKeepsExtraFields(code: string, name: string, categoryCode: string, price: string, stock: int, extra: Dict)
    requires UniqueKeys(extra)
    ensures forall k | k != "ProductCode" && k != "ProductName" && k != "CategoryCode" && k != "Price" && k != "Stock" ::
      Get(AddForm(code, name, categoryCode, price, stock, Some(extra)), k) == Get(extra, k)
  {
    var fields := ProductFields(code, name, categoryCode, price, stock);
    ProductFieldsUnique(code, name, categoryCode, price, stock);
    PutAllOfDistinct(extra, fields);
  }

  /** `decimal.TryParse(text, out p) ? p : 0`, the parse given as the invariant text of the value it reads. */
  function DecimalOrZero(text: Option<string>, parseDecimal: string -> Option<string>): string {
    if text.None? then "0" else parseDecimal(text.value).GetOr("0")
  }

  /** `int.TryParse(text, out s) ? s : 0`. */
  function IntOrZero(text: Option<string>): (r: int)
    ensures Int32Min <= r <= Int32Max
    ensures text.None? || ParseInt32(text.value).None? ==> r == 0
    ensures text.Some? && ParseInt32(text.value).Some? ==> Some(r) == ParseInt32(text.value)
  {
    if text.None? then 0 else ParseInt32(text.value).GetOr(0)
  }

  /** `AddProductAsync(Product)`: null code, name and category become "", an unreadable price or stock 0. */
  method AddProductFrom(cfg: Config, send: Transport, lib: JsonLib<Product>, parseDecimal: string -> Option<string>,
                        p: Product)
    returns (r: Envelope<Product>)
    ensures Produced(r) == AddOutcome(cfg, send, lib, p.productCode.GetOr(""), p.productName.GetOr(""),
                                      p.defaultCategoryCode.GetOr(""), DecimalOrZero(p.price, parseDecimal),
                                      IntOrZero(p.stock), None)
  {
    var outcome, _ := AddProduct(cfg, send, lib, p.productCode.GetOr(""), p.productName.GetOr(""),
                                 p.defaultCategoryCode.GetOr(""), DecimalOrZero(p.price, parseDecimal),
                                 IntOrZero(p.stock), None);
    r := outcome.value;
  }

  // ---------------------------------------------------------------------------
  // Adding products in bulk

  /** One failed product of a bulk add: its code and the failure's messages. */
  datatype Rejected = Rejected(productCode: Option<string>, message: Option<seq<Option<MessageItem>>>)

  /** The data of `CreateProductsAsync`'s result. */
  datatype BulkReport = BulkReport(succeeded: nat, failed: nat, ok: seq<Option<Product>>, fail: seq<Rejected>)

  /** The price a bulk add sends: `SellingPrice ?? Price`, 0 when unreadable. */
  function BulkPrice(p: Product, parseDecimal: string -> Option<string>): string {
    DecimalOrZero(if p.sellingPrice.Some? then p.sellingPrice else p.price, parseDecimal)
  }

  /** The envelope one product of the bulk add gets: category "T1" when null. */
  function BulkAdd(cfg: Config, send: Transport, lib: JsonLib<Product>, parseDecimal: string -> Option<string>,
                   p: Product): Envelope<Product> {
    FirstAccepted(AddCandidates(cfg, p.productCode.GetOr(""), p.productName.GetOr(""), p.defaultCategoryCode.GetOr("T1"),
                                BulkPrice(p, parseDecimal), IntOrZero(p.stock), None, 18), send, lib, NoSize)
      .GetOr(Failure(AddFailed))
  }

  /** With no extra fields the add cannot throw, and its envelope is the bulk add's. */
  lemma BulkAddIsAdd(cfg: Config, send: Transport, lib: JsonLib<Product>, parseDecimal: string -> Option<string>, p: Product)
    ensures AddOutcome(cfg, send, lib, p.productCode.GetOr(""), p.productName.GetOr(""), p.defaultCategoryCode.GetOr("T1"),
                       BulkPrice(p, parseDecimal), IntOrZero(p.stock), None)
            == Produced(BulkAdd(cfg, send, lib, parseDecimal, p))
  {
  }

  /** One product of the bulk add, sent through `AddProduct`. */
  method AddForBulk(cfg: Config, send: Transport, lib: JsonLib<Product>, parseDecimal: string -> Option<string>, p: Product)
    returns (e: Envelope<Product>)
    ensures e == BulkAdd(cfg, send, lib, parseDecimal, p)
  {
    var added, _ := AddProduct(cfg, send, lib, p.productCode.GetOr(""), p.productName.GetOr(""),
                               p.defaultCategoryCode.GetOr("T1"), BulkPrice(p, parseDecimal), IntOrZero(p.stock), None);
    BulkAddIsAdd(cfg, send, lib, parseDecimal, p);
    e := added.value;
  }

  /** The report after one more product's envelope. */
  function Record(t: BulkReport, p: Product, e: Envelope<Product>): BulkReport {
    if e.success then t.(succeeded := t.succeeded + 1, ok := t.ok + [e.data])
    else t.(failed := t.failed + 1, fail := t.fail + [Rejected(p.productCode, e.message)])
  }

  /** The report of a run of results, one per product, in order. */
  function Tally(products: seq<Product>, results: seq<Envelope<Product>>): BulkReport
    requires |products| == |results|
  {
    if products == [] then BulkReport(0, 0, [], [])
    else
      var last := |products| - 1;
      Record(Tally(products[..last], results[..last]), products[last], results[last])
  }

  lemma TallyStep(products: seq<Product>, results: seq<Envelope<Product>>, i: nat, before: BulkReport, e: Envelope<Product>)
    requires |products| == |results| && i < |products|
    requires before == Tally(products[..i], results[..i]) && e == results[i]
    ensures Tally(products[..i + 1], results[..i + 1]) == Record(before, products[i], e)
  {
    assert products[..i + 1][..i] == products[..i];
    assert results[..i + 1][..i] == results[..i];
  }

  lemma TallyAll(products: seq<Product>, results: seq<Envelope<Product>>)
    requires |products| == |results|
    ensures Tally(products[..|products|], results[..|results|]) == Tally(products, results)
  {
    assert products[..|products|] == products && results[..|results|] == results;
  }

  /**
   * Every product is counted once, as a success or as a failure; the ok list holds the data
   * of the successes and the fail list the code and messages of the failures, each in order.
   */
  lemma {:induction false} TallyAccounts(products: seq<Product>, results: seq<Envelope<Product>>)
    requires |products| == |results|
    ensures var t := Tally(products, results);
      t.succeeded + t.failed == |products|
      && t.succeeded == |t.ok| && t.failed == |t.fail|
      && (t.failed == 0 <==> forall i | 0 <= i < |results| :: results[i].success)
  {
    if products != [] {
      var last := |products| - 1;
      TallyAccounts(products[..last], results[..last]);
      assert forall i | 0 <= i < last :: results[..last][i] == results[i];
    }
  }

  /** The envelopes of a bulk add, one per product. */
  function BulkResults(cfg: Config, send: Transport, lib: JsonLib<Product>, parseDecimal: string -> Option<string>,
                       products: seq<Product>): (r: seq<Envelope<Product>>)
    ensures |r| == |products|
    ensures forall i | 0 <= i < |products| :: r[i] == BulkAdd(cfg, send, lib, parseDecimal, products[i])
  {
    seq(|products|, i requires 0 <= i < |products| => BulkAdd(cfg, send, lib, parseDecimal, products[i]))
  }

  /** One pass of the bulk loop: a success counts and keeps its data, a failure counts and keeps the code and messages. */
  method CountResult(succeeded: nat, failed: nat, ok: seq<Option<Product>>, fail: seq<Rejected>, p: Product, e: Envelope<Product>)
    returns (succeeded': nat, failed': nat, ok': seq<Option<Product>>, fail': seq<Rejected>)
    ensures BulkReport(succeeded', failed', ok', fail') == Record(BulkReport(succeeded, failed, ok, fail), p, e)
  {
    succeeded', failed', ok', fail' := succeeded, failed, ok, fail;
    if e.success {
      succeeded' := succeeded + 1;
      ok' := ok + [e.data];
    } else {
      failed' := failed + 1;
      fail' := fail + [Rejected(p.productCode, e.message)];
    }
  }

  /** `CreateProductsAsync`: adds the products one after another and reports success only when none failed. */
  method CreateProducts(cfg: Config, send: Transport, lib: JsonLib<Product>, parseDecimal: string -> Option<string>,
                        products: seq<Product>)
    returns (r: Envelope<BulkReport>)
    ensures var t := Tally(products, BulkResults(cfg, send, lib, parseDecimal, products));
      r == Envelope(t.failed == 0, Some(t), None)
  {
    ghost var results := BulkResults(cfg, send, lib, parseDecimal, products);
    var succeeded: nat, failed: nat := 0, 0;
    var ok: seq<Option<Product>> := [];
    var fail: seq<Rejected> := [];
    for i := 0 to |products|
      invariant BulkReport(succeeded, failed, ok, fail) == Tally(products[..i], results[..i])
    {
      var p := products[i];
      var e := AddForBulk(cfg, send, lib, parseDecimal, p);
      TallyStep(products, results, i, BulkReport(succeeded, failed, ok, fail), e);
      succeeded, failed, ok, fail := CountResult(succeeded, failed, ok, fail, p, e);
    }
    TallyAll(products, results);
    r := Envelope(failed == 0, Some(BulkReport(succeeded, failed, ok, fail)), None);
  }

  // ---------------------------------------------------------------------------
  // Updating and deleting products

  /** The form of `UpdateProductAsync`: code and id always, name, price and stock only when non-empty. */
  function UpdateForm(p: Product): Dict {
    var ids: Dict := [("ProductCode", p.productCode.GetOr("")), ("ProductId", p.productId.GetOr(""))];
    PutIfPresent(PutIfPresent(PutIfPresent(ids, "ProductName", p.productName), "Price", p.price), "Stock", p.stock)
  }

  /** `if (!string.IsNullOrEmpty(v)) form[k] = v`. */
  function PutIfPresent(d: Dict, k: string, v: Option<string>): Dict {
    if IsNullOrEmpty(v) then d else Put(d, k, v.value)
  }

  lemma GetAfterPutIfPresent(d: Dict, k: string, v: Option<string>, q: string)
    requires UniqueKeys(d)
    ensures UniqueKeys(PutIfPresent(d, k, v))
    ensures Get(PutIfPresent(d, k, v), q) == if q == k && !IsNullOrEmpty(v) then v else Get(d, q)
  {
    if !IsNullOrEmpty(v) {
      PutKeepsUniqueKeys(d, k, v.value);
      GetAfterPut(d, k, v.value, q);
    }
  }

  /** An optional field is sent exactly when it is non-empty, and then with its value. */
  lemma UpdateFormOptionalFields(p: Product, q: string)
    requires q in {"ProductName", "Price", "Stock"}
    ensures UniqueKeys(UpdateForm(p))
    ensures Get(UpdateForm(p), "ProductCode") == Some(p.productCode.GetOr(""))
    ensures var v := if q == "ProductName" then p.productName else if q == "Price" then p.price else p.stock;
      Get(UpdateForm(p), q) == if IsNullOrEmpty(v) then None else v
  {
    var ids: Dict := [("ProductCode", p.productCode.GetOr("")), ("ProductId", p.productId.GetOr(""))];
    assert UniqueKeys(ids) && Get(ids, q) == None;
    var named := PutIfPresent(ids, "ProductName", p.productName);
    var priced := PutIfPresent(named, "Price", p.price);
    GetAfterPutIfPresent(ids, "ProductName", p.productName, q);
    GetAfterPutIfPresent(named, "Price", p.price, q);
    GetAfterPutIfPresent(priced, "Stock", p.stock, q);
    GetAfterPutIfPresent(ids, "ProductName", p.productName, "ProductCode");
    GetAfterPutIfPresent(named, "Price", p.price, "ProductCode");
    GetAfterPutIfPresent(priced, "Stock", p.stock, "ProductCode");
  }

  /** `UpdateProductAsync`: one REST1 post; an ok reply is parsed, anything else fails. */
  method UpdateProduct(cfg: Config, send: Transport, lib: JsonLib<Product>, p: Product)
    returns (r: Envelope<Product>)
    ensures var reply := Call(send, Rest1(cfg, "/product/updateProduct", UpdateForm(p)));
      r == if reply.ok then ParseResponse(reply.body, lib) else Failure("Update product failed")
  {
    var reply := Call(send, Rest1(cfg, "/product/updateProduct", UpdateForm(p)));
    if reply.ok {
      r := ParseResponse(reply.body, lib);
    } else {
      r := Failure("Update product failed");
    }
  }

  /** `DeleteProductAsync`: Success is the transport's verdict; the body is not read. */
  method DeleteProduct<T>(cfg: Config, send: Transport, productCode: string) returns (r: Envelope<T>)
    ensures r.success <==> Call(send, Rest1(cfg, "/product/deleteProduct", [("ProductCode", productCode)])).ok
    ensures r.data.None? && r.message.None?
  {
    var reply := Call(send, Rest1(cfg, "/product/deleteProduct", [("ProductCode", productCode)]));
    r := Envelope(reply.ok, None, None);
  }

  /** `UpdateProductStockAsync`: Success is the transport's verdict; the body is not read. */
  method UpdateProductStock<T>(cfg: Config, send: Transport, productCode: string, newStock: int) returns (r: Envelope<T>)
    ensures r.success <==>
      Call(send, Rest1(cfg, "/product/updateStock", [("ProductCode", productCode), ("Stock", Decimal(newStock))])).ok
    ensures r.data.None? && r.message.None?
  {
    var reply := Call(send, Rest1(cfg, "/product/updateStock", [("ProductCode", productCode), ("Stock", Decimal(newStock))]));
    r := Envelope(reply.ok, None, None);
  }

  // ---------------------------------------------------------------------------
  // Looking a product up by code

  /** The code under all four names the REST1 lookup tries. */
  function ByCodeForm(code: string): Dict {
    [("ProductCode", code), ("productCode", code), ("ProductId", code), ("productId", code)]
  }

  const ByCodeRest1Paths: seq<string> := ["/product/getProduct", "/product/getProductByCode", "/product/get"]

  function ByCodeV3Paths(code: string): seq<string> {
    ["/catalog/products/" + code, "/products/" + code]
  }

  /** REST1 replies must parse to a success with data; a V3 reply only has to be ok. */
  function ByCodeCandidates(cfg: Config, code: string): seq<Candidate> {
    Rest1Tier(cfg, ByCodeRest1Paths, ByCodeForm(code), ParsedWithData)
    + V3GetTier(cfg, ByCodeV3Paths(code), [], AnyOkReply)
  }

  /** `GetProductByCodeAsync`. */
  method GetProductByCode(cfg: Config, send: Transport, lib: JsonLib<Product>, code: string)
    returns (r: Envelope<Product>)
    ensures r == FirstAccepted(ByCodeCandidates(cfg, code), send, lib, NoSize).GetOr(Failure("Product not found: " + code))
  {
    r := ProbeOr(ByCodeCandidates(cfg, code), send, lib, NoSize, "Product not found: " + code);
  }

  /**
   * The REST1 tier passes over ok replies that do not parse to a success with data;
   * once it has nothing, the first ok V3 reply is returned parsed, whatever the parse says.
   */
  lemma ByCodeTiersDiffer(cfg: Config, send: Transport, lib: JsonLib<Product>, code: string)
    ensures var rest1 := Rest1Tier(cfg, ByCodeRest1Paths, ByCodeForm(code), ParsedWithData);
            var v3 := V3GetTier(cfg, ByCodeV3Paths(code), [], AnyOkReply);
      FirstAccepted(ByCodeCandidates(cfg, code), send, lib, NoSize) ==
        (if exists k | 0 <= k < 3 :: FoundAt(rest1, send, lib, k) then FirstAccepted(rest1, send, lib, NoSize)
         else FirstAccepted(v3, send, lib, NoSize))
      && (forall k | 0 <= k < 3 && FoundAt(rest1, send, lib, k) && (forall j | 0 <= j < k :: !FoundAt(rest1, send, lib, j)) ::
            FirstAccepted(rest1, send, lib, NoSize) == Some(ParsedAt(rest1, send, lib, k)))
      && (forall k | 0 <= k < 2 && OkAt(v3, send, k) && (forall j | 0 <= j < k :: !OkAt(v3, send, j)) ::
            FirstAccepted(v3, send, lib, NoSize) == Some(ParsedAt(v3, send, lib, k)))
  {
    var rest1 := Rest1Tier(cfg, ByCodeRest1Paths, ByCodeForm(code), ParsedWithData);
    var v3 := V3GetTier(cfg, ByCodeV3Paths(code), [], AnyOkReply);
    FirstAcceptedAppend(rest1, v3, send, lib, NoSize);
    FirstFoundWins(rest1, send, lib, NoSize);
    FirstOkReplyWins(v3, send, lib, NoSize);
  }

  // ---------------------------------------------------------------------------
  // Product images

  /** `GetProductImagesAsync`: the parse of an ok reply, and an empty list, as a success, when the request fails. */
  method GetProductImages<I>(cfg: Config, send: Transport, lib: JsonLib<seq<I>>, productCode: string)
    returns (r: Envelope<seq<I>>)
    ensures var reply := Call(send, Rest1(cfg, "/product/getProductImages", [("ProductCode", productCode)]));
      r == if reply.ok then ParseResponse(reply.body, lib) else Envelope(true, Some([]), None)
    ensures !Call(send, Rest1(cfg, "/product/getProductImages", [("ProductCode", productCode)])).ok ==> r.success && r.data == Some([])
  {
    var reply := Call(send, Rest1(cfg, "/product/getProductImages", [("ProductCode", productCode)]));
    if reply.ok {
      r := ParseResponse(reply.body, lib);
    } else {
      r := Envelope(true, Some([]), None);
    }
  }

  // ---------------------------------------------------------------------------
  // Categories

  const CategoryRest1Paths: seq<string> := ["/category/getCategories", "/category/get", "/categories/get"]
  const CategoryV3Paths: seq<string> := ["/catalog/categories", "/api/v3/catalog/categories", "/categories"]

  function CategoriesCandidates(cfg: Config): seq<Candidate> {
    Rest1Tier(cfg, CategoryRest1Paths, [], AnyOkReply) + V3GetTier(cfg, CategoryV3Paths, [], AnyOkReply)
  }

  /** `GetCategoriesAsync`. */
  method GetCategories(cfg: Config, send: Transport, lib: JsonLib<seq<Category>>) returns (r: Envelope<seq<Category>>)
    ensures r == FirstAccepted(CategoriesCandidates(cfg), send, lib, ListSize).GetOr(Failure("All category endpoints failed"))
  {
    r := ProbeOr(CategoriesCandidates(cfg), send, lib, ListSize, "All category endpoints failed");
  }

  /** The three REST1 paths and then the three V3 paths, none with parameters; the first ok reply wins. */
  lemma CategoriesFirstOkReplyWins(cfg: Config, send: Transport, lib: JsonLib<seq<Category>>)
    ensures var cands := CategoriesCandidates(cfg);
      |cands| == 6
      && ((forall k | 0 <= k < 6 :: !OkAt(cands, send, k)) <==> FirstAccepted(cands, send, lib, ListSize).None?)
      && forall k | 0 <= k < 6 && OkAt(cands, send, k) && (forall j | 0 <= j < k :: !OkAt(cands, send, j)) ::
           FirstAccepted(cands, send, lib, ListSize) == Some(ParsedAt(cands, send, lib, k))
  {
    RestThenGet(cfg, CategoryRest1Paths, [], CategoryV3Paths, [], AnyOkReply);
    FirstOkReplyWins(CategoriesCandidates(cfg), send, lib, ListSize);
  }

  /** A parsed tree gets its paths when the parse succeeded with data, and is returned as it is otherwise. */
  function WithPaths(e: Envelope<seq<Category>>): (r: Envelope<seq<Category>>)
    ensures r.success == e.success && r.message == e.message && r.data.Some? == e.data.Some?
    ensures e.success && e.data.Some? ==> r.data == Some(BuildCategoryPaths(e.data.value, ""))
    ensures !(e.success && e.data.Some?) ==> r == e
  {
    if e.success && e.data.Some? then e.(data := Some(BuildCategoryPaths(e.data.value, ""))) else e
  }

  /** The tree built from a flat list whose keys are distinct: the roots' subtrees, with their paths. */
  function TreeOf(flat: seq<Category>): seq<Category>
    requires DistinctKeys(flat)
  {
    BuildCategoryPaths(Subtrees(flat, RootsIn(flat, |flat|)), "")
  }

  /**
   * `GetCategoryTreeAsync`. An ok reply from the tree endpoint is returned parsed, with paths
   * when it succeeded with data. Otherwise the flat list is fetched; when it succeeds with
   * data, the tree is built from it, which throws on a repeated category code, and returned
   * with paths as a success. Otherwise the result is the failure "Category tree failed".
   */
  method GetCategoryTree(cfg: Config, send: Transport, lib: JsonLib<seq<Category>>)
    returns (r: Outcome<Envelope<seq<Category>>>)
    ensures var reply := Call(send, Rest1(cfg, "/category/getCategoryTree", []));
      reply.ok ==> r == Produced(WithPaths(ParseResponse(reply.body, lib)))
    ensures var reply := Call(send, Rest1(cfg, "/category/getCategoryTree", []));
            var flat := FirstAccepted(CategoriesCandidates(cfg), send, lib, ListSize).GetOr(Failure("All category endpoints failed"));
      !reply.ok ==>
        if flat.success && flat.data.Some? then
          if DistinctKeys(flat.data.value) then r == Produced(Envelope(true, Some(TreeOf(flat.data.value)), None))
          else r.Throws?
        else r == Produced(Failure("Category tree failed"))
  {
    var reply := Call(send, Rest1(cfg, "/category/getCategoryTree", []));
    if reply.ok {
      return Produced(WithPaths(ParseResponse(reply.body, lib)));
    }
    var flat := GetCategories(cfg, send, lib);
    if flat.success && flat.data.Some? {
      var forest := BuildTreeFromFlatList(flat.data.value);
      if forest.Throws? {
        return Throws;
      }
      var tree := BuildCategoryPaths(Subtrees(flat.data.value, forest.value.roots), "");
      return Produced(Envelope(true, Some(tree), None));
    }
    return Produced(Failure("Category tree failed"));
  }

  // ---------------------------------------------------------------------------
  // Customers and orders

  const CustomerRest1Paths: seq<string> := ["/customer/getCustomers", "/customer/get", "/customers/get"]
  const CustomerV3Paths: seq<string> := ["/customers", "/api/v3/customers"]

  /** Both tiers send the same dictionary: the REST1 form doubles as the V3 query. */
  function CustomersCandidates(cfg: Config, limit: int, filters: Option<Dict>): seq<Candidate> {
    Rest1Tier(cfg, CustomerRest1Paths, LimitForm(limit, filters), AnyOkReply)
    + V3GetTier(cfg, CustomerV3Paths, LimitForm(limit, filters), AnyOkReply)
  }

  /** `GetCustomersAsync`. */
  method GetCustomers<C>(cfg: Config, send: Transport, lib: JsonLib<seq<C>>, limit: int, filters: Option<Dict>)
    returns (r: Envelope<seq<C>>)
    ensures r == FirstAccepted(CustomersCandidates(cfg, limit, filters), send, lib, ListSize)
                   .GetOr(Failure("All customer endpoints failed"))
  {
    r := ProbeOr(CustomersCandidates(cfg, limit, filters), send, lib, ListSize, "All customer endpoints failed");
  }

  const OrderRest1Paths: seq<string> := ["/order/getOrders", "/order/get", "/orders/get"]
  const OrderV3Paths: seq<string> := ["/orders", "/api/v3/orders"]

  function OrdersCandidates(cfg: Config, limit: int, filters: Option<Dict>): seq<Candidate> {
    Rest1Tier(cfg, OrderRest1Paths, LimitForm(limit, filters), AnyOkReply)
    + V3GetTier(cfg, OrderV3Paths, LimitForm(limit, filters), AnyOkReply)
  }

  /** `GetOrdersAsync`. */
  method GetOrders<O>(cfg: Config, send: Transport, lib: JsonLib<seq<O>>, limit: int, filters: Option<Dict>)
    returns (r: Envelope<seq<O>>)
    ensures r == FirstAccepted(OrdersCandidates(cfg, limit, filters), send, lib, ListSize)
                   .GetOr(Failure("All order endpoints failed"))
  {
    r := ProbeOr(OrdersCandidates(cfg, limit, filters), send, lib, ListSize, "All order endpoints failed");
  }

  /**
   * The customer list sends `limit` with the filters over it to three REST1 paths and then,
   * as the query string, to two V3 paths; the first ok reply wins.
   */
  lemma CustomersFirstOkReplyWins<C>(cfg: Config, send: Transport, lib: JsonLib<seq<C>>, limit: int, filters: Option<Dict>)
    ensures var cands := CustomersCandidates(cfg, limit, filters);
      |cands| == 5
      && cands[0].request == Rest1(cfg, "/customer/getCustomers", LimitForm(limit, filters))
      && cands[3].request == V3Get(cfg, "/customers", LimitForm(limit, filters))
      && ((forall k | 0 <= k < 5 :: !OkAt(cands, send, k)) <==> FirstAccepted(cands, send, lib, ListSize).None?)
      && forall k | 0 <= k < 5 && OkAt(cands, send, k) && (forall j | 0 <= j < k :: !OkAt(cands, send, j)) ::
           FirstAccepted(cands, send, lib, ListSize) == Some(ParsedAt(cands, send, lib, k))
  {
    RestThenGet(cfg, CustomerRest1Paths, LimitForm(limit, filters), CustomerV3Paths, LimitForm(limit, filters), AnyOkReply);
    FirstOkReplyWins(CustomersCandidates(cfg, limit, filters), send, lib, ListSize);
  }

  /** The order list, likewise, over its own three REST1 and two V3 paths. */
  lemma OrdersFirstOkReplyWins<O>(cfg: Config, send: Transport, lib: JsonLib<seq<O>>, limit: int, filters: Option<Dict>)
    ensures var cands := OrdersCandidates(cfg, limit, filters);
      |cands| == 5
      && cands[0].request == Rest1(cfg, "/order/getOrders", LimitForm(limit, filters))
      && cands[3].request == V3Get(cfg, "/orders", LimitForm(limit, filters))
      && ((forall k | 0 <= k < 5 :: !OkAt(cands, send, k)) <==> FirstAccepted(cands, send, lib, ListSize).None?)
      && forall k | 0 <= k < 5 && OkAt(cands, send, k) && (forall j | 0 <= j < k :: !OkAt(cands, send, j)) ::
           FirstAccepted(cands, send, lib, ListSize) == Some(ParsedAt(cands, send, lib, k))
  {
    RestThenGet(cfg, OrderRest1Paths, LimitForm(limit, filters), OrderV3Paths, LimitForm(limit, filters), AnyOkReply);
    FirstOkReplyWins(OrdersCandidates(cfg, limit, filters), send, lib, ListSize);
  }

  // ---------------------------------------------------------------------------
  // Order details

  /**
   * The order2 tier as the source writes it: an endpoint whose text contains `/` followed
   * by the key is posted an empty form, any other endpoint the form.
   */
  function Order2Tier(cfg: Config, paths: seq<string>, key: string, form: Dict): (r: seq<Candidate>)
    ensures |r| == |paths|
    ensures forall k | 0 <= k < |paths| ::
      r[k] == Candidate(Rest1(cfg, paths[k], if Contains(paths[k], "/" + key) then [] else form), NonEmptyData)
  {
    seq(|paths|, k requires 0 <= k < |paths| =>
      Candidate(Rest1(cfg, paths[k], if Contains(paths[k], "/" + key) then [] else form), NonEmptyData))
  }

  /** A path that ends in `/` and the key contains `/` followed by the key. */
  lemma KeyedPathContainsKey(prefix: string, key: string)
    ensures Contains(prefix + "/" + key, "/" + key)
  {
    var path := prefix + "/" + key;
    assert OccursAt(path, "/" + key, |prefix|) by {
      assert path[|prefix|..|prefix| + |"/" + key|] == "/" + key;
    }
  }

  predicate IsLetter(c: char) {
    ('a' <= c <= 'z') || ('A' <= c <= 'Z')
  }

  /** Every `/` of the path is followed by a letter. */
  predicate SlashesBeforeLetters(path: string) {
    forall i | 0 <= i < |path| - 1 :: path[i] == '/' ==> IsLetter(path[i + 1])
  }

  /** An integer's text never starts with a letter, so it never follows a `/` in such a path. */
  lemma NoNumberAfterSlash(path: string, id: int)
    requires SlashesBeforeLetters(path)
    ensures !Contains(path, "/" + Decimal(id))
  {
    var sub := "/" + Decimal(id);
    assert !IsLetter(sub[1]) by {
      if id < 0 {
        assert sub[1] == '-';
      } else {
        assert sub[1] == NatToDecimal(id)[0];
      }
    }
    forall i | 0 <= i <= |path| - |sub| ensures !OccursAt(path, sub, i) {
      var piece := path[i..i + |sub|];
      if path[i] == '/' {
        assert piece[1] == path[i + 1];
      } else {
        assert piece[0] == path[i];
      }
    }
  }

  function OrderIdForm(id: int): Dict {
    [("OrderId", Decimal(id)), ("orderId", Decimal(id)), ("id", Decimal(id))]
  }

  /** The path built with the id holds `/` and the id; the bare path does not. */
  lemma KeyedAndBare(prefix: string, id: int)
    requires SlashesBeforeLetters(prefix)
    ensures Contains(prefix + "/" + Decimal(id), "/" + Decimal(id)) && !Contains(prefix, "/" + Decimal(id))
  {
    KeyedPathContainsKey(prefix, Decimal(id));
    NoNumberAfterSlash(prefix, id);
  }

  const Order2Details: string := "/order2" + "/getOrderDetails"
  const Order2ByOrderId: string := Order2Details + "ByOrderId"

  function OrderIdOrder2Paths(id: int): seq<string> {
    [Order2ByOrderId + "/" + Decimal(id), Order2Details + "/" + Decimal(id), Order2ByOrderId, Order2Details]
  }

  const OrderIdRest1Paths: seq<string> :=
    ["/order/getOrderDetailsByOrderId", "/order/getOrderDetails", "/order/details", "/orders/details", "/orderdetails/get"]

  function OrderIdV3Paths(id: int): seq<string> {
    ["/orders/" + Decimal(id) + "/details", "/api/v3/orders/" + Decimal(id) + "/details", "/order/" + Decimal(id) + "/items"]
  }

  /** Four order2 posts, five REST1 posts and three V3 GETs, each accepted only with a non-empty list. */
  function OrderIdCandidates(cfg: Config, id: int): seq<Candidate> {
    Order2Tier(cfg, OrderIdOrder2Paths(id), Decimal(id), OrderIdForm(id))
    + Rest1Tier(cfg, OrderIdRest1Paths, OrderIdForm(id), NonEmptyData)
    + V3GetTier(cfg, OrderIdV3Paths(id), [], NonEmptyData)
  }

  /** `GetOrderDetailsByOrderIdAsync`. */
  method GetOrderDetailsByOrderId<D>(cfg: Config, send: Transport, lib: JsonLib<seq<D>>, id: int)
    returns (r: Envelope<seq<D>>)
    ensures r == FirstAccepted(OrderIdCandidates(cfg, id), send, lib, ListSize)
                   .GetOr(Failure("Order details not found for OrderId: " + Decimal(id)))
  {
    r := ProbeOr(OrderIdCandidates(cfg, id), send, lib, ListSize, "Order details not found for OrderId: " + Decimal(id));
  }

  /**
   * For every id the two order2 endpoints carrying it are posted an empty form and the two
   * without it the form; after them come the five REST1 posts and the three V3 GETs.
   */
  lemma OrderIdOrder2Forms(cfg: Config, id: int)
    ensures var cands := OrderIdCandidates(cfg, id);
      |cands| == 12
      && cands[0].request == Rest1(cfg, Order2ByOrderId + "/" + Decimal(id), [])
      && cands[1].request == Rest1(cfg, Order2Details + "/" + Decimal(id), [])
      && cands[2].request == Rest1(cfg, Order2ByOrderId, OrderIdForm(id))
      && cands[3].request == Rest1(cfg, Order2Details, OrderIdForm(id))
      && cands[4].request == Rest1(cfg, "/order/getOrderDetailsByOrderId", OrderIdForm(id))
      && cands[9].request == V3Get(cfg, "/orders/" + Decimal(id) + "/details", [])
  {
    OrderIdOrder2Keys(id);
    var o2 := Order2Tier(cfg, OrderIdOrder2Paths(id), Decimal(id), OrderIdForm(id));
    var r1 := Rest1Tier(cfg, OrderIdRest1Paths, OrderIdForm(id), NonEmptyData);
    var v3 := V3GetTier(cfg, OrderIdV3Paths(id), [], NonEmptyData);
    assert OrderIdCandidates(cfg, id) == o2 + r1 + v3;
    assert (o2 + r1 + v3)[4] == r1[0] && (o2 + r1 + v3)[9] == v3[0];
  }

  /** Which order2 paths hold `/` followed by the id: the two built with it, and not the other two. */
  lemma OrderIdOrder2Keys(id: int)
    ensures var paths := OrderIdOrder2Paths(id);
      Contains(paths[0], "/" + Decimal(id)) && Contains(paths[1], "/" + Decimal(id))
      && !Contains(paths[2], "/" + Decimal(id)) && !Contains(paths[3], "/" + Decimal(id))
  {
    Order2PathsSlashesBeforeLetters();
    var paths := OrderIdOrder2Paths(id);
    KeyedAndBare(Order2ByOrderId, id);
    KeyedAndBare(Order2Details, id);
    assert paths[0] == Order2ByOrderId + "/" + Decimal(id) && paths[2] == Order2ByOrderId;
    assert paths[1] == Order2Details + "/" + Decimal(id) && paths[3] == Order2Details;
  }

  /** Both fixed order2 detail paths have every `/` followed by a letter. */
  lemma Order2PathsSlashesBeforeLetters()
    ensures SlashesBeforeLetters(Order2ByOrderId) && SlashesBeforeLetters(Order2Details)
  {
    assert SlashesBeforeLetters("/order2");
    assert SlashesBeforeLetters("/getOrderDetails");
    assert SlashesBeforeLetters("ByOrderId");
    SlashesBeforeLettersAppend("/order2", "/getOrderDetails");
    SlashesBeforeLettersAppend(Order2Details, "ByOrderId");
  }

  /** Joining two such paths keeps the property when a trailing `/` of the first meets a letter. */
  lemma SlashesBeforeLettersAppend(a: string, b: string)
    requires SlashesBeforeLetters(a) && SlashesBeforeLetters(b)
    requires a != [] && a[|a| - 1] == '/' && b != [] ==> IsLetter(b[0])
    ensures SlashesBeforeLetters(a + b)
  {
    var ab := a + b;
    forall i | 0 <= i < |ab| - 1 && ab[i] == '/' ensures IsLetter(ab[i + 1]) {
      if i < |a| - 1 {
        assert ab[i] == a[i] && ab[i + 1] == a[i + 1];
      } else if i == |a| - 1 {
        assert ab[i + 1] == b[0];
      } else {
        assert ab[i] == b[i - |a|] && ab[i + 1] == b[i - |a| + 1];
      }
    }
  }

  /** An ok reply whose list is empty is passed over, in every tier. */
  lemma OrderIdEmptyListPassedOver<D>(cfg: Config, send: Transport, lib: JsonLib<seq<D>>, id: int, k: nat)
    requires k < |OrderIdCandidates(cfg, id)|
    requires ParsedAt(OrderIdCandidates(cfg, id), send, lib, k).data == Some([])
    ensures Attempt(OrderIdCandidates(cfg, id)[k], send, lib, ListSize).None?
  {
  }

  function OrderCodeForm(code: string): Dict {
    [("OrderCode", code), ("orderCode", code), ("code", code)]
  }

  const OrderCodeOrder2Path: string := "/order2/getOrderDetailsByOrderCode"

  /** The order2 tier of `GetOrderDetailsByOrderCodeAsync` as the source writes it. */
  function OrderCodeOrder2TierAsWritten(cfg: Config, code: string): seq<Candidate> {
    Order2Tier(cfg, [OrderCodeOrder2Path + "/" + code, OrderCodeOrder2Path], code, OrderCodeForm(code))
  }

  /**
   * As written, a code that follows some `/` in the fixed path, such as "order2" (or the
   * empty code), makes the path-less endpoint get an empty form, so the code is never sent.
   */
  lemma OrderCodeFormDroppedAsWritten(cfg: Config)
    ensures OrderCodeOrder2TierAsWritten(cfg, "order2")[1].request == Rest1(cfg, OrderCodeOrder2Path, [])
    ensures OrderCodeOrder2TierAsWritten(cfg, "")[1].request == Rest1(cfg, OrderCodeOrder2Path, [])
  {
    var marker := "/" + "order2";
    assert |marker| == 7 && forall i | 0 <= i < 7 :: OrderCodeOrder2Path[i] == marker[i];
    assert OrderCodeOrder2Path[0..7] == marker;
    assert OccursAt(OrderCodeOrder2Path, "/" + "order2", 0);
    assert OrderCodeOrder2Path[0..1] == "/" + "";
    assert OccursAt(OrderCodeOrder2Path, "/" + "", 0);
  }

  /** The order2 tier as intended: only the endpoint carrying the code in its path goes without the form. */
  function OrderCodeOrder2Tier(cfg: Config, code: string): (r: seq<Candidate>)
    ensures |r| == 2
    ensures r[0].request == Rest1(cfg, OrderCodeOrder2Path + "/" + code, [])
    ensures r[1].request == Rest1(cfg, OrderCodeOrder2Path, OrderCodeForm(code))
  {
    [Candidate(Rest1(cfg, OrderCodeOrder2Path + "/" + code, []), NonEmptyData),
     Candidate(Rest1(cfg, OrderCodeOrder2Path, OrderCodeForm(code)), NonEmptyData)]
  }

  /** The two agree on every code that does not follow a `/` in the fixed path. */
  lemma OrderCodeTiersAgree(cfg: Config, code: string)
    requires !Contains(OrderCodeOrder2Path, "/" + code)
    ensures OrderCodeOrder2TierAsWritten(cfg, code) == OrderCodeOrder2Tier(cfg, code)
  {
    KeyedPathContainsKey(OrderCodeOrder2Path, code);
  }

  const OrderCodeRest1Paths: seq<string> := ["/order/getOrderDetailsByOrderCode", "/order/getDetails"]

  function OrderCodeCandidates(cfg: Config, code: string): seq<Candidate> {
    OrderCodeOrder2Tier(cfg, code) + Rest1Tier(cfg, OrderCodeRest1Paths, OrderCodeForm(code), NonEmptyData)
  }

  /** `GetOrderDetailsByOrderCodeAsync`, with the order2 tier as intended. */
  method GetOrderDetailsByOrderCode<D>(cfg: Config, send: Transport, lib: JsonLib<seq<D>>, code: string)
    returns (r: Envelope<seq<D>>)
    ensures r == FirstAccepted(OrderCodeCandidates(cfg, code), send, lib, ListSize)
                   .GetOr(Failure("Order details not found for OrderCode: " + code))
  {
    r := ProbeOr(OrderCodeCandidates(cfg, code), send, lib, ListSize, "Order details not found for OrderCode: " + code);
  }

  /** The search by code ends at the first of its four posts whose reply carries a non-empty list. */
  lemma OrderCodeFirstItemsWin<D>(cfg: Config, send: Transport, lib: JsonLib<seq<D>>, code: string)
    ensures var cands := OrderCodeCandidates(cfg, code);
      |cands| == 4
      && cands[1].request == Rest1(cfg, OrderCodeOrder2Path, OrderCodeForm(code))
      && ((forall k | 0 <= k < 4 :: !ItemsAt(cands, send, lib, k)) <==> FirstAccepted(cands, send, lib, ListSize).None?)
      && forall k | 0 <= k < 4 && ItemsAt(cands, send, lib, k) && (forall j | 0 <= j < k :: !ItemsAt(cands, send, lib, j)) ::
           FirstAccepted(cands, send, lib, ListSize) == Some(ParsedAt(cands, send, lib, k))
  {
    FirstItemsWin(OrderCodeCandidates(cfg, code), send, lib);
  }

  // ---------------------------------------------------------------------------
  // Lookup lists and a customer by id

  const PaymentTypePaths: seq<string> := ["/order/getPaymentTypeList", "/payment/getTypes", "/paymenttype/get"]
  const CargoCompanyPaths: seq<string> := ["/order/getCargoCompanyList", "/cargo/getCompanies", "/cargocompany/get"]
  const OrderStatusPaths: seq<string> := ["/order/getOrderStatusList", "/orderstatus/get", "/order/statuses"]

  /** `GetPaymentTypesAsync`: three REST1 posts of an empty form; the first ok reply wins. */
  method GetPaymentTypes<P>(cfg: Config, send: Transport, lib: JsonLib<seq<P>>) returns (r: Envelope<seq<P>>)
    ensures r == FirstAccepted(Rest1Tier(cfg, PaymentTypePaths, [], AnyOkReply), send, lib, ListSize)
                   .GetOr(Failure("All payment type endpoints failed"))
  {
    r := ProbeOr(Rest1Tier(cfg, PaymentTypePaths, [], AnyOkReply), send, lib, ListSize, "All payment type endpoints failed");
  }

  /** `GetCargoCompaniesAsync`. */
  method GetCargoCompanies<K>(cfg: Config, send: Transport, lib: JsonLib<seq<K>>) returns (r: Envelope<seq<K>>)
    ensures r == FirstAccepted(Rest1Tier(cfg, CargoCompanyPaths, [], AnyOkReply), send, lib, ListSize)
                   .GetOr(Failure("All cargo company endpoints failed"))
  {
    r := ProbeOr(Rest1Tier(cfg, CargoCompanyPaths, [], AnyOkReply), send, lib, ListSize, "All cargo company endpoints failed");
  }

  /** `GetOrderStatusListAsync`. */
  method GetOrderStatusList<S>(cfg: Config, send: Transport, lib: JsonLib<seq<S>>) returns (r: Envelope<seq<S>>)
    ensures r == FirstAccepted(Rest1Tier(cfg, OrderStatusPaths, [], AnyOkReply), send, lib, ListSize)
                   .GetOr(Failure("All order status endpoints failed"))
  {
    r := ProbeOr(Rest1Tier(cfg, OrderStatusPaths, [], AnyOkReply), send, lib, ListSize, "All order status endpoints failed");
  }

  /**
   * A lookup list fails exactly when none of its three posts is reported ok, and otherwise
   * returns the parse of the first ok reply.
   */
  lemma LookupFirstOkReplyWins<D>(cfg: Config, send: Transport, lib: JsonLib<seq<D>>, paths: seq<string>, failure: string)
    requires paths == PaymentTypePaths || paths == CargoCompanyPaths || paths == OrderStatusPaths
    ensures var cands := Rest1Tier(cfg, paths, [], AnyOkReply);
            var r := FirstAccepted(cands, send, lib, ListSize).GetOr(Failure(failure));
      ((forall k | 0 <= k < 3 :: !OkAt(cands, send, k)) ==> r == Failure(failure))
      && forall k | 0 <= k < 3 && OkAt(cands, send, k) && (forall j | 0 <= j < k :: !OkAt(cands, send, j)) ::
           r == ParsedAt(cands, send, lib, k)
  {
    FirstOkReplyWins(Rest1Tier(cfg, paths, [], AnyOkReply), send, lib, ListSize);
  }

  function CustomerIdForm(id: int): Dict {
    [("CustomerId", Decimal(id)), ("customerId", Decimal(id)), ("Id", Decimal(id))]
  }

  const CustomerByIdPaths: seq<string> := ["/customer/getCustomerById", "/customer/get", "/customers/get"]

  /** `GetCustomerByIdAsync`. */
  method GetCustomerById<C>(cfg: Config, send: Transport, lib: JsonLib<C>, id: int) returns (r: Envelope<C>)
    ensures r == FirstAccepted(Rest1Tier(cfg, CustomerByIdPaths, CustomerIdForm(id), AnyOkReply), send, lib, NoSize)
                   .GetOr(Failure("All customer endpoints failed"))
  {
    r := ProbeOr(Rest1Tier(cfg, CustomerByIdPaths, CustomerIdForm(id), AnyOkReply), send, lib, NoSize, "All customer endpoints failed");
  }

  /** Every post carries the id under all three names; the first ok reply wins. */
  lemma CustomerByIdFirstOkReplyWins<C>(cfg: Config, send: Transport, lib: JsonLib<C>, id: int)
    ensures var cands := Rest1Tier(cfg, CustomerByIdPaths, CustomerIdForm(id), AnyOkReply);
      (forall k | 0 <= k < 3 :: cands[k].request == Rest1(cfg, CustomerByIdPaths[k], CustomerIdForm(id)))
      && ((forall k | 0 <= k < 3 :: !OkAt(cands, send, k)) <==> FirstAccepted(cands, send, lib, NoSize).None?)
      && forall k | 0 <= k < 3 && OkAt(cands, send, k) && (forall j | 0 <= j < k :: !OkAt(cands, send, j)) ::
           FirstAccepted(cands, send, lib, NoSize) == Some(ParsedAt(cands, send, lib, k))
  {
    FirstOkReplyWins(Rest1Tier(cfg, CustomerByIdPaths, CustomerIdForm(id), AnyOkReply), send, lib, NoSize);
  }

  // ---------------------------------------------------------------------------
  // A product with its variants

  /** `productCode.TrimStart('T', 't')`. */
  function NumericCode(code: string): string {
    TrimStartWhere(code, IsT)
  }

  /** The code as given, then its numeric form when that is non-empty and differs. */
  function CodesToTry(code: string): (r: seq<string>)
    ensures 1 <= |r| <= 2 && r[0] == code
    ensures |r| == 2 <==> NumericCode(code) != "" && NumericCode(code) != code
    ensures |r| == 2 ==> r[1] == NumericCode(code)
  {
    var numeric := NumericCode(code);
    [code] + (if numeric != "" && numeric != code then [numeric] else [])
  }

  /** A code of a `T` and the digits of a number is tried as given and then as the bare digits. */
  lemma CodesOfPrefixedNumber(n: nat)
    ensures CodesToTry("T" + NatToDecimal(n)) == ["T" + NatToDecimal(n), NatToDecimal(n)]
  {
    var s := "T" + NatToDecimal(n);
    var t := TrimStartWhere(s, IsT);
    assert s[1..] == NatToDecimal(n);
    assert !IsT(s[1]);
    assert |s| - |t| == 1;
    assert t == NatToDecimal(n);
    assert t != s by {
      assert |t| != |s|;
    }
  }

  /** A code with no leading `T` or `t` is tried once. */
  lemma CodeWithoutPrefixTriedOnce(code: string)
    requires code == [] || !IsT(code[0])
    ensures CodesToTry(code) == [code]
  {
  }

  /**
   * The REST1 form for one code to try: the code to try as the ids and `code`, the original
   * code as `ProductCode`, the variant flags, and the column list of a one-row page.
   */
  function VariantForm(tried: string, original: string): Dict {
    [("ProductId", tried), ("productId", tried), ("ProductCode", original), ("productCode", original),
     ("code", tried), ("Id", tried),
     ("FetchDetails", "1"), ("FetchSubProducts", "1"), ("WithSubProducts", "1"), ("WithVariants", "1"),
     ("IncludeSubProducts", "1"), ("includeVariants", "1"), ("includeSubProducts", "1"),
     ("withVariants", "true"), ("fetchDetails", "true"),
     ("columns", "ProductId,ProductName,Name,ProductCode,Barcode,Stock,ModelCode"), ("start", "0"), ("length", "1")]
  }

  /** The original code goes out as `ProductCode` and the code being tried as `ProductId`. */
  lemma VariantFormCodes(tried: string, original: string)
    ensures Get(VariantForm(tried, original), "ProductId") == Some(tried)
    ensures Get(VariantForm(tried, original), "ProductCode") == Some(original)
  {
    var form := VariantForm(tried, original);
    GetFirstAt(form, 0);
    assert form[1].0[0] != form[2].0[0];
    assert |form[0].0| != |form[2].0|;
    GetFirstAt(form, 2);
  }

  const VariantRest1Paths: seq<string> := ["/product/get", "/product/getProduct", "/product/getProductDetail", "/product/detail"]

  function VariantV3Paths(code: string): seq<string> {
    ["/catalog/products/" + code, "/api/v3/catalog/products/" + code, "/products/" + code]
  }

  const VariantQuery: Dict := [("includeVariants", "1"), ("includeSubProducts", "1"), ("expand", "variants,subProducts"),
                               ("FetchSubProducts", "1"), ("WithVariants", "1")]

  /** The REST1 posts for each code to try in turn, all four paths per code. */
  function VariantRest1Tiers(cfg: Config, codes: seq<string>, original: string): (r: seq<Candidate>)
    ensures |r| == 4 * |codes|
    ensures forall i | 0 <= i < |r| :: r[i].rule == ParsedWithData
    ensures codes != [] ==> r[..4] == Rest1Tier(cfg, VariantRest1Paths, VariantForm(codes[0], original), ParsedWithData)
  {
    if codes == [] then []
    else
      var first := Rest1Tier(cfg, VariantRest1Paths, VariantForm(codes[0], original), ParsedWithData);
      var rest := VariantRest1Tiers(cfg, codes[1..], original);
      assert (first + rest)[..4] == first;
      first + rest
  }

  function VariantCandidates(cfg: Config, code: string): seq<Candidate> {
    VariantRest1Tiers(cfg, CodesToTry(code), code) + V3GetTier(cfg, VariantV3Paths(code), VariantQuery, ParsedWithData)
  }

  /** `GetProductWithVariantsAsync`; every reply must parse to a success with data. */
  method GetProductWithVariants(cfg: Config, send: Transport, lib: JsonLib<Product>, code: string)
    returns (r: Envelope<Product>)
    ensures r == FirstAccepted(VariantCandidates(cfg, code), send, lib, NoSize).GetOr(Failure("Product not found: " + code))
  {
    r := ProbeOr(VariantCandidates(cfg, code), send, lib, NoSize, "Product not found: " + code);
  }

  /** Four REST1 posts per code to try, the first with the code as given, then the three V3 GETs. */
  lemma VariantCandidatesShape(cfg: Config, code: string)
    ensures var cands := VariantCandidates(cfg, code);
      |cands| == 4 * |CodesToTry(code)| + 3
      && cands[0].request == Rest1(cfg, "/product/get", VariantForm(code, code))
      && cands[|cands| - 3].request == V3Get(cfg, "/catalog/products/" + code, VariantQuery)
  {
    var rest1 := VariantRest1Tiers(cfg, CodesToTry(code), code);
    var v3 := V3GetTier(cfg, VariantV3Paths(code), VariantQuery, ParsedWithData);
    var cands := VariantCandidates(cfg, code);
    assert cands[0] == rest1[..4][0];
    assert cands[|cands| - 3] == v3[0];
  }

  /** Two tiers that share a rule make a list with that rule throughout. */
  lemma RuleOfAppend(a: seq<Candidate>, b: seq<Candidate>, rule: Rule)
    requires forall k | 0 <= k < |a| :: a[k].rule == rule
    requires forall k | 0 <= k < |b| :: b[k].rule == rule
    ensures forall k | 0 <= k < |a + b| :: (a + b)[k].rule == rule
  {
    forall k | 0 <= k < |a + b| ensures (a + b)[k].rule == rule {
      if k >= |a| {
        assert (a + b)[k] == b[k - |a|];
      }
    }
  }

  /**
   * The search ends at the first reply that parses to a success with data; an ok reply
   * without data sends it on to the next path, then the next code, then V3.
   */
  lemma VariantsFirstFoundWins(cfg: Config, send: Transport, lib: JsonLib<Product>, code: string)
    ensures var cands := VariantCandidates(cfg, code);
      ((forall k | 0 <= k < |cands| :: !FoundAt(cands, send, lib, k)) <==> FirstAccepted(cands, send, lib, NoSize).None?)
      && forall k | 0 <= k < |cands| && FoundAt(cands, send, lib, k) && (forall j | 0 <= j < k :: !FoundAt(cands, send, lib, j)) ::
           FirstAccepted(cands, send, lib, NoSize) == Some(ParsedAt(cands, send, lib, k))
  {
    var rest1 := VariantRest1Tiers(cfg, CodesToTry(code), code);
    var v3 := V3GetTier(cfg, VariantV3Paths(code), VariantQuery, ParsedWithData);
    RuleOfAppend(rest1, v3, ParsedWithData);
    FirstFoundWins(rest1 + v3, send, lib, NoSize);
  }

  // ---------------------------------------------------------------------------
  // Variant stock

  function VariantStockForm(productCode: string, variantCode: string, newStock: int): Dict {
    [("productCode", productCode), ("variantCode", variantCode),
     ("stock", Decimal(newStock)), ("stockQuantity", Decimal(newStock))]
  }

  const VariantStockPaths: seq<string> := ["/product/updateVariantStock", "/product/updateStock", "/stock/update"]

  /** `UpdateVariantStockAsync`: the body of an ok reply is not read. */
  method UpdateVariantStock<T>(cfg: Config, send: Transport, lib: JsonLib<T>, productCode: string, variantCode: string, newStock: int)
    returns (r: Envelope<T>)
    ensures r == FirstAccepted(Rest1Tier(cfg, VariantStockPaths, VariantStockForm(productCode, variantCode, newStock), OkWithoutParsing),
                               send, lib, NoSize).GetOr(Failure("Failed to update variant stock"))
  {
    r := ProbeOr(Rest1Tier(cfg, VariantStockPaths, VariantStockForm(productCode, variantCode, newStock), OkWithoutParsing),
                 send, lib, NoSize, "Failed to update variant stock");
  }

  /**
   * The update succeeds, with no data and no message, exactly when one of the three posts is
   * reported ok; otherwise it is the failure "Failed to update variant stock".
   */
  lemma VariantStockSucceedsWhenAnyPostIsOk<T>(cfg: Config, send: Transport, lib: JsonLib<T>,
                                              productCode: string, variantCode: string, newStock: int)
    ensures var cands := Rest1Tier(cfg, VariantStockPaths, VariantStockForm(productCode, variantCode, newStock), OkWithoutParsing);
            var r := FirstAccepted(cands, send, lib, NoSize).GetOr(Failure("Failed to update variant stock"));
      (r == Envelope(true, None, None) <==> exists k | 0 <= k < 3 :: OkAt(cands, send, k))
      && ((forall k | 0 <= k < 3 :: !OkAt(cands, send, k)) ==> r == Failure("Failed to update variant stock"))
  {
    var cands := Rest1Tier(cfg, VariantStockPaths, VariantStockForm(productCode, variantCode, newStock), OkWithoutParsing);
    BareSuccessIffSomeOk(cands, send, lib, NoSize);
  }

  /** In a tier whose replies are not read, the search ends with a bare success exactly when some call is ok. */
  lemma {:induction false} BareSuccessIffSomeOk<T>(cands: seq<Candidate>, send: Transport, lib: JsonLib<T>, size: T -> nat)
    requires forall k | 0 <= k < |cands| :: cands[k].rule.OkWithoutParsing?
    ensures FirstAccepted(cands, send, lib, size).Some? <==> exists k | 0 <= k < |cands| :: OkAt(cands, send, k)
    ensures FirstAccepted(cands, send, lib, size).Some? ==> FirstAccepted(cands, send, lib, size).value == Envelope(true, None, None)
  {
    if cands != [] {
      var tail := cands[1..];
      BareSuccessIffSomeOk(tail, send, lib, size);
      if !OkAt(cands, send, 0) {
        if exists k | 0 <= k < |cands| :: OkAt(cands, send, k) {
          var k :| 0 <= k < |cands| && OkAt(cands, send, k);
          assert OkAt(tail, send, k - 1);
        }
        if exists k | 0 <= k < |tail| :: OkAt(tail, send, k) {
          var k :| 0 <= k < |tail| && OkAt(tail, send, k);
          assert OkAt(cands, send, k + 1);
        }
      }
    }
  }
}
