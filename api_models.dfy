/**
 * The records the client decodes (`TSoftApiResponse<T>`, `Product`, `ProductVariant`,
 * `Category`, `Order`) and the derived read-only views on products and variants.
 * Every scalar property is an optional string, as upstream sends strings, numbers and
 * booleans interchangeably; only the properties the modelled logic reads are kept.
 */
module ApiModels {
  import opened Wrappers
  import opened Text

  /** `MessageItem`: an optional list of optional texts. */
  datatype MessageItem = MessageItem(text: Option<seq<Option<string>>>)

  /**
   * `TSoftApiResponse<T>`: nothing ties `success` to `data` being present.
   * `message` is an optional list whose elements may be null.
   */
  datatype Envelope<T> = Envelope(success: bool, data: Option<T>, message: Option<seq<Option<MessageItem>>>)

  /** The failure envelope every operation builds: one message item holding one text. */
  function Failure<T>(text: string): (r: Envelope<T>)
    ensures !r.success && r.data.None? && FirstMessageText(r) == Some(text)
  {
    Envelope(false, None, Some([Some(MessageItem(Some([Some(text)])))]))
  }

  /** `Message?.FirstOrDefault()?.Text?.FirstOrDefault()`. */
  function FirstMessageText<T>(e: Envelope<T>): (r: Option<string>)
    ensures r.Some? ==>
      e.message.Some? && |e.message.value| > 0 && e.message.value[0].Some?
      && e.message.value[0].value.text.Some? && |e.message.value[0].value.text.value| > 0
      && e.message.value[0].value.text.value[0] == r
    ensures e.message.None? || e.message.value == [] ==> r.None?
  {
    if e.message.None? || |e.message.value| == 0 then None
    else
      var item := e.message.value[0];
      if item.None? || item.value.text.None? || |item.value.text.value| == 0 then None
      else item.value.text.value[0]
  }

  // ---------------------------------------------------------------------------
  // Variants

  /** `ProductVariant`, with the identity, colour, size, stock and status properties. */
  datatype ProductVariant = ProductVariant(
    productCode: Option<string>, productName: Option<string>,
    variantCode: Option<string>, variantName: Option<string>,
    color: Option<string>, colour: Option<string>, colorCode: Option<string>, colorName: Option<string>,
    renk: Option<string>, property1: Option<string>, propertyValue1: Option<string>,
    variant1: Option<string>, attribute1: Option<string>, option1: Option<string>, nitelik1: Option<string>,
    size: Option<string>, sizeCode: Option<string>, sizeName: Option<string>, beden: Option<string>,
    property2: Option<string>, propertyValue2: Option<string>, variant2: Option<string>,
    attribute2: Option<string>, option2: Option<string>, nitelik2: Option<string>,
    stock: Option<string>, stockQuantity: Option<string>, availableStock: Option<string>,
    isActive: Option<string>, isAvailable: Option<string>)

  /** A variant whose every property is null, as the deserializer leaves a `{}` object. */
  const BlankVariant: ProductVariant := ProductVariant(
    None, None, None, None,
    None, None, None, None, None, None, None, None, None, None, None,
    None, None, None, None, None, None, None, None, None, None,
    None, None, None, None, None)

  /** A chain of `??`: the first non-null entry, else the default. An empty string is non-null and stops the chain. */
  function FirstPresent(chain: seq<Option<string>>, default: string): (r: string)
    ensures (forall i | 0 <= i < |chain| :: chain[i].None?) ==> r == default
    ensures forall i | 0 <= i < |chain| ::
      (chain[i].Some? && forall j | 0 <= j < i :: chain[j].None?) ==> r == chain[i].value
    ensures r != default ==> exists i | 0 <= i < |chain| :: chain[i] == Some(r)
  {
    if |chain| == 0 then default
    else if chain[0].Some? then chain[0].value
    else
      var rest := FirstPresent(chain[1..], default);
      assert rest != default ==> exists i | 1 <= i < |chain| :: chain[i] == chain[1..][i - 1] == Some(rest);
      rest
  }

  /** The colour properties in the order `GetColor` probes them. */
  function ColorChain(v: ProductVariant): seq<Option<string>> {
    [v.color, v.colour, v.colorName, v.colorCode, v.renk,
     v.property1, v.propertyValue1, v.variant1, v.attribute1, v.option1, v.nitelik1]
  }

  /** The size properties in the order `GetSize` probes them. */
  function SizeChain(v: ProductVariant): seq<Option<string>> {
    [v.size, v.sizeName, v.sizeCode, v.beden,
     v.property2, v.propertyValue2, v.variant2, v.attribute2, v.option2, v.nitelik2]
  }

  /** `GetColor()`. */
  function GetColor(v: ProductVariant): (r: string)
    ensures v.color.Some? ==> r == v.color.value
    ensures (forall k | 0 <= k < |ColorChain(v)| :: ColorChain(v)[k].None?) ==> r == ""
    ensures r != "" ==> exists k | 0 <= k < |ColorChain(v)| :: ColorChain(v)[k] == Some(r)
  {
    var chain := ColorChain(v);
    FirstPresent(chain, "")
  }

  /** `GetSize()`. */
  function GetSize(v: ProductVariant): (r: string)
    ensures v.size.Some? ==> r == v.size.value
    ensures (forall k | 0 <= k < |SizeChain(v)| :: SizeChain(v)[k].None?) ==> r == ""
    ensures r != "" ==> exists k | 0 <= k < |SizeChain(v)| :: SizeChain(v)[k] == Some(r)
  {
    var chain := SizeChain(v);
    FirstPresent(chain, "")
  }

  /** A variant whose only colour-like property is `Property1` takes its colour from it. */
  lemma ColorFromPropertyOne(v: ProductVariant, x: string)
    requires v.color.None? && v.colour.None? && v.colorName.None? && v.colorCode.None? && v.renk.None?
    requires v.property1 == Some(x)
    ensures GetColor(v) == x
  {
    assert ColorChain(v)[5] == Some(x);
  }

  /** An empty string in the first colour property hides every later one. */
  lemma EmptyColorStopsChain(v: ProductVariant)
    requires v.color == Some("")
    ensures GetColor(v) == ""
  {
    assert ColorChain(v)[0] == Some("");
  }

  /** `GetStockQuantity()`: the first non-null stock text, parsed as an `int`, 0 when it does not parse. */
  function GetStockQuantity(v: ProductVariant): (r: int)
    ensures Int32Min <= r <= Int32Max
    ensures v.stock.Some? ==> r == ParseInt32(v.stock.value).GetOr(0)
    ensures v.stock.None? && v.stockQuantity.Some? ==> r == ParseInt32(v.stockQuantity.value).GetOr(0)
    ensures v.stock.None? && v.stockQuantity.None? && v.availableStock.Some? ==>
      r == ParseInt32(v.availableStock.value).GetOr(0)
    ensures v.stock.None? && v.stockQuantity.None? && v.availableStock.None? ==> r == 0
  {
    var text := v.stock.GetOr(v.stockQuantity.GetOr(v.availableStock.GetOr("0")));
    ParseInt32(text).GetOr(0)
  }

  /** A stock written as the decimal text of a 32-bit number reads back as that number. */
  lemma StockQuantityOfDecimal(v: ProductVariant, n: int)
    requires Int32Min <= n <= Int32Max
    requires v.stock == Some(IntToDecimal(n))
    ensures GetStockQuantity(v) == n
  {
    ParseInt32RoundTrip(n);
  }

  /** The texts `IsActiveVariant` reads as active, after lower-casing and trimming. */
  predicate IsActiveText(s: string) {
    s == "1" || s == "true" || s == "yes" || s == "active"
  }

  /** `IsActiveVariant`: active unless a non-empty status says otherwise. */
  function IsActiveVariant(v: ProductVariant): (r: bool)
    ensures IsNullOrEmpty(v.isActive) && IsNullOrEmpty(v.isAvailable) ==> r
    ensures !IsNullOrEmpty(v.isActive) ==> (r <==> IsActiveText(Trim(AsciiLower(v.isActive.value))))
    ensures v.isActive.None? && !IsNullOrEmpty(v.isAvailable) ==>
      (r <==> IsActiveText(Trim(AsciiLower(v.isAvailable.value))))
    ensures v.isActive == Some("") && !IsNullOrEmpty(v.isAvailable) ==> !r
  {
    if IsNullOrEmpty(v.isActive) && IsNullOrEmpty(v.isAvailable) then true
    else IsActiveText(Trim(AsciiLower(v.isActive.GetOr(v.isAvailable.GetOr("1")))))
  }

  /** An empty (not null) `IsActive` hides a non-empty `IsAvailable`: the variant reads as inactive. */
  lemma EmptyIsActiveHidesIsAvailable(v: ProductVariant)
    requires v.isActive == Some("") && v.isAvailable == Some("1")
    ensures !IsActiveVariant(v)
  {
    var empty := v.isActive.value;
    assert AsciiLower(empty) == empty;
    assert Trim(empty) == empty;
    assert !IsActiveText(empty);
  }

  /** A status whose lower case is an unpadded word is read as that word. */
  lemma StatusWordReads(v: ProductVariant, status: string, word: string)
    requires v.isActive == Some(status) && status != [] && AsciiLower(status) == word
    requires !IsWhiteSpace(word[0]) && !IsWhiteSpace(word[|word| - 1])
    ensures IsActiveVariant(v) <==> IsActiveText(word)
  {
    TrimUnpadded(word);
  }

  /** Status texts are compared without regard to ASCII case. */
  lemma UpperCaseYesIsActive(v: ProductVariant)
    requires v.isActive == Some("YES")
    ensures IsActiveVariant(v)
  {
    var lower := "yes";
    assert AsciiLowerChar('Y') == lower[0] && AsciiLowerChar('E') == lower[1] && AsciiLowerChar('S') == lower[2];
    LowerCaseOf("YES", lower);
    StatusWordReads(v, "YES", lower);
  }

  /** A status outside the four active words reads as inactive, whatever `IsAvailable` says. */
  lemma ZeroIsInactive(v: ProductVariant)
    requires v.isActive == Some("0")
    ensures !IsActiveVariant(v)
  {
    LowerCaseUnchanged("0");
    StatusWordReads(v, "0", "0");
  }

  /** `DisplayName`: "colour - size", or whichever of the two resolved, or the first name present. */
  function DisplayName(v: ProductVariant): (r: string)
    ensures GetColor(v) != "" ==> StartsWith(r, GetColor(v))
    ensures GetSize(v) != "" ==> |GetSize(v)| <= |r| && r[|r| - |GetSize(v)|..] == GetSize(v)
    ensures GetColor(v) != "" && GetSize(v) != "" ==> |r| == |GetColor(v)| + 3 + |GetSize(v)|
    ensures GetColor(v) != "" && GetSize(v) == "" ==> r == GetColor(v)
    ensures GetColor(v) == "" && GetSize(v) != "" ==> r == GetSize(v)
    ensures GetColor(v) == "" && GetSize(v) == "" ==>
      r == FirstPresent([v.variantName, v.productName, v.variantCode, v.productCode], "Varyant")
  {
    var color := GetColor(v);
    var size := GetSize(v);
    if color != "" && size != "" then color + " - " + size
    else if color != "" then color
    else if size != "" then size
    else FirstPresent([v.variantName, v.productName, v.variantCode, v.productCode], "Varyant")
  }

  /** A variant with no colour, size or name property displays as "Varyant". */
  lemma BlankVariantDisplaysDefault()
    ensures DisplayName(BlankVariant) == "Varyant"
  {
    assert GetColor(BlankVariant) == "" && GetSize(BlankVariant) == "";
  }

  /** With both colour and size resolved the name is the two joined by " - ". */
  lemma DisplayNameJoinsColorAndSize(v: ProductVariant)
    requires GetColor(v) != "" && GetSize(v) != ""
    ensures DisplayName(v) == GetColor(v) + " - " + GetSize(v)
  {
  }

  // ---------------------------------------------------------------------------
  // Products

  /** `Product`, with the properties the modelled operations read. */
  datatype Product = Product(
    productId: Option<string>, productCode: Option<string>, productName: Option<string>,
    defaultCategoryCode: Option<string>, stock: Option<string>,
    price: Option<string>, sellingPrice: Option<string>,
    subProducts: Option<seq<ProductVariant>>,
    subProductList: Option<seq<ProductVariant>>,
    productVariants: Option<seq<ProductVariant>>)

  predicate NonEmptyList(l: Option<seq<ProductVariant>>) {
    l.Some? && |l.value| > 0
  }

  /** `Variants`: the first non-empty of the three variant lists; the lists are never merged. */
  function Variants(p: Product): (r: seq<ProductVariant>)
    ensures r == [] || Some(r) == p.subProducts || Some(r) == p.subProductList || Some(r) == p.productVariants
    ensures NonEmptyList(p.subProducts) ==> r == p.subProducts.value
    ensures NonEmptyList(p.subProductList) ==> r == p.subProductList.value || NonEmptyList(p.subProducts)
    ensures NonEmptyList(p.productVariants) ==> r != []
  {
    if NonEmptyList(p.subProducts) then p.subProducts.value
    else if NonEmptyList(p.subProductList) then p.subProductList.value
    else if NonEmptyList(p.productVariants) then p.productVariants.value
    else []
  }

  /** `HasVariants`: a product has variants exactly when one of its three lists is non-empty. */
  predicate HasVariants(p: Product)
    ensures HasVariants(p) <==>
      NonEmptyList(p.subProducts) || NonEmptyList(p.subProductList) || NonEmptyList(p.productVariants)
  {
    |Variants(p)| > 0
  }

  // ---------------------------------------------------------------------------
  // Categories and orders

  /** `Category`: a node of the category tree, nested or delivered flat with parent codes. */
  datatype Category = Category(
    code: Option<string>, name: Option<string>, parentCode: Option<string>,
    children: CategoryList, path: Option<string>)

  /**
   * `Children`, a nullable list. A datatype of its own rather than an `Option` of a
   * sequence, so that recursion over a subtree is seen to terminate.
   */
  datatype CategoryList = NullList | ListOf(items: seq<Category>)

  /** `Order`, with the property the orders page reads. */
  datatype Order = Order(orderId: Option<string>)
}
