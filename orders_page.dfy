/**
 * The orders page: one page of the order list, fetched with paging filters, and a latch
 * that switches the order-detail lookups off for good once a probe of the first order's
 * details fails, until it is reset.
 */
module OrdersPage {
  import opened Wrappers
  import opened Text
  import opened ApiModels
  import opened Transport
  import opened Decoder
  import opened Fallback
  import opened Operations

  /** C#'s unchecked 32-bit `int` arithmetic: the two's-complement wrap of an exact result. */
  function Wrap32(x: int): (r: int)
    ensures Int32Min <= r <= Int32Max
    ensures (r - x) % 0x1_0000_0000 == 0
    ensures Int32Min <= x <= Int32Max ==> r == x
  {
    (x - Int32Min) % 0x1_0000_0000 + Int32Min
  }

  /** `(page - 1) * limit` on 32-bit integers. */
  function Offset(page: int, limit: int): int {
    Wrap32(Wrap32(page - 1) * limit)
  }

  /** Within range the offset is the number of orders on the earlier pages. */
  lemma OffsetCountsEarlierPages(page: int, limit: int)
    requires 1 <= page <= Int32Max && 0 <= limit <= Int32Max && (page - 1) * limit <= Int32Max
    ensures Offset(page, limit) == (page - 1) * limit
  {
    var earlier := page - 1;
    assert Wrap32(earlier) == earlier;
    NonNegativeProduct(earlier, limit);
  }

  lemma NonNegativeProduct(a: int, b: int)
    requires 0 <= a && 0 <= b
    ensures 0 <= a * b
  {
  }

  /** Far pages wrap around: page 2^30 of four orders asks for offset -4. */
  lemma FarPageOffsetWraps()
    ensures Offset(0x4000_0000, 4) == -4
  {
    assert Wrap32(0x4000_0000 - 1) == 0x3FFF_FFFF;
    assert Wrap32(0x3FFF_FFFF * 4) == -4;
  }

  /** The filters of one page: the page number, and the offset under two names. */
  function PagingFilters(page: int, limit: int): (r: Dict)
    ensures UniqueKeys(r)
  {
    [("page", Decimal(page)), ("offset", Decimal(Offset(page, limit))), ("start", Decimal(Offset(page, limit)))]
  }

  /** The order list call sends the limit, then the page, offset and start of the page. */
  lemma PagingFiltersSent(page: int, limit: int)
    ensures var form := LimitForm(limit, Some(PagingFilters(page, limit)));
      Get(form, "limit") == Some(Decimal(limit)) && Get(form, "page") == Some(Decimal(page))
      && Get(form, "offset") == Some(Decimal(Offset(page, limit)))
      && Get(form, "start") == Some(Decimal(Offset(page, limit)))
  {
    var offset := Decimal(Offset(page, limit));
    PagingFormFields(Decimal(limit), Decimal(page), offset);
  }

  /** The limit form with the three paging filters over it reads back each of the four fields. */
  lemma PagingFormFields(limit: string, page: string, offset: string)
    ensures var form := PutAll([("limit", limit)], [("page", page), ("offset", offset), ("start", offset)]);
      Get(form, "limit") == Some(limit) && Get(form, "page") == Some(page)
      && Get(form, "offset") == Some(offset) && Get(form, "start") == Some(offset)
  {
    var d: Dict := [("limit", limit)];
    var f: Dict := [("page", page), ("offset", offset), ("start", offset)];
    assert UniqueKeys(d) && UniqueKeys(f) && !HasKey(f, "limit");
    GetPutAllAt(d, f, 0);
    GetPutAllAt(d, f, 1);
    GetPutAllAt(d, f, 2);
    LastAssignedOfAbsent(f, "limit");
    GetAfterPutAll(d, f, "limit");
  }

  /** The list envelope `GetOrdersAsync` yields for a page. */
  function Listed(cfg: Config, send: Transport, lib: JsonLib<seq<Order>>, page: int, limit: int): Envelope<seq<Order>> {
    FirstAccepted(OrdersCandidates(cfg, limit, Some(PagingFilters(page, limit))), send, lib, ListSize)
      .GetOr(Failure("All order endpoints failed"))
  }

  /** The details envelope `GetOrderDetailsByOrderIdAsync` yields for an id. */
  function Details<D>(cfg: Config, send: Transport, lib: JsonLib<seq<D>>, id: int): Envelope<seq<D>> {
    FirstAccepted(OrderIdCandidates(cfg, id), send, lib, ListSize)
      .GetOr(Failure("Order details not found for OrderId: " + Decimal(id)))
  }

  /** The id of the first order, when there is one and its id parses as an `int`. */
  function ProbeId(orders: seq<Order>): (r: Option<int>)
    ensures r.Some? ==> |orders| > 0 && orders[0].orderId.Some? && ParseInt32(orders[0].orderId.value) == r
  {
    if |orders| > 0 && orders[0].orderId.Some? then ParseInt32(orders[0].orderId.value) else None
  }

  /** Whether this request's probe of the first order's details fails. */
  predicate ProbeFails<D>(cfg: Config, send: Transport, detailsLib: JsonLib<seq<D>>, orders: seq<Order>) {
    ProbeId(orders).Some? && !Details(cfg, send, detailsLib, ProbeId(orders).value).success
  }

  datatype Paging = Paging(currentPage: int, pageSize: int, hasMore: bool)

  /** What the page shows: the orders, an error or a warning, and the paging. */
  datatype OrdersView = OrdersView(orders: seq<Order>, error: Option<string>, warning: Option<string>, paging: Option<Paging>)

  const DetailsUnavailable: string :=
    "Sipariş detayları API'sine erişim yok. Ürün sayısı ve paketleme durumu görüntülenemiyor."
  const DetailsDisabled: string := "Sipariş detayları gösterilemiyor (API yetki sorunu)."

  /** The orders controller's shared state: whether order details are still worth asking for. */
  class DetailsLatch {
    var detailsApiWorking: bool

    /** The latch starts enabled. */
    constructor()
      ensures detailsApiWorking
    {
      detailsApiWorking := true;
    }

    /** `ResetApiFlag`: enables the latch whatever its state. */
    method ResetApiFlag()
      modifies this
      ensures detailsApiWorking
    {
      detailsApiWorking := true;
    }

    /**
     * `Index`: lists one page of orders. A failed list gives an error and no orders. While
     * the latch is enabled and the page has orders, the first order's details are probed and
     * a failed probe disables the latch with a warning; while it is disabled the page says so.
     * More pages are announced when the page came back full.
     */
    method Index<D>(cfg: Config, send: Transport, ordersLib: JsonLib<seq<Order>>, detailsLib: JsonLib<seq<D>>,
                    page: int, limit: int)
      returns (v: OrdersView)
      modifies this
      ensures var listed := Listed(cfg, send, ordersLib, page, limit);
              var orders := listed.data.GetOr([]);
              var disabledNow := listed.success && old(detailsApiWorking) && ProbeFails(cfg, send, detailsLib, orders);
        detailsApiWorking == (old(detailsApiWorking) && !disabledNow)
        && (!listed.success ==>
              v == OrdersView([], Some("Siparişler yüklenemedi: " + FirstMessageText(listed).GetOr("Bilinmeyen hata")), None, None))
        && (listed.success ==>
              v.orders == orders && v.error.None? && v.paging == Some(Paging(page, limit, |orders| >= limit)))
        && (listed.success && disabledNow ==> v.warning == Some(DetailsUnavailable))
        && (listed.success && !old(detailsApiWorking) ==> v.warning == Some(DetailsDisabled))
        && (listed.success && old(detailsApiWorking) && !disabledNow ==> v.warning.None?)
    {
      var listed := GetOrders(cfg, send, ordersLib, limit, Some(PagingFilters(page, limit)));
      if !listed.success {
        return OrdersView([], Some("Siparişler yüklenemedi: " + FirstMessageText(listed).GetOr("Bilinmeyen hata")), None, None);
      }
      var orders := listed.data.GetOr([]);
      var warning: Option<string> := None;
      if detailsApiWorking && |orders| > 0 {
        var id := ProbeId(orders);
        if id.Some? {
          var probe := GetOrderDetailsByOrderId(cfg, send, detailsLib, id.value);
          if !probe.success {
            detailsApiWorking := false;
            warning := Some(DetailsUnavailable);
          }
        }
      } else if !detailsApiWorking {
        warning := Some(DetailsDisabled);
      }
      return OrdersView(orders, None, warning, Some(Paging(page, limit, |orders| >= limit)));
    }
  }

  /**
   * The latch only falls on a failed probe: a page whose list fails, which is empty, whose
   * first order has no numeric id, or whose probe succeeds leaves an enabled latch enabled.
   */
  lemma LatchFallsOnlyOnFailedProbe<D>(cfg: Config, send: Transport, detailsLib: JsonLib<seq<D>>, orders: seq<Order>)
    ensures ProbeFails(cfg, send, detailsLib, orders) ==>
      |orders| > 0 && orders[0].orderId.Some? && ParseInt32(orders[0].orderId.value).Some?
    ensures ProbeFails(cfg, send, detailsLib, orders) ==>
      var id := ParseInt32(orders[0].orderId.value).value;
      FirstAccepted(OrderIdCandidates(cfg, id), send, detailsLib, ListSize).None?
      || !FirstAccepted(OrderIdCandidates(cfg, id), send, detailsLib, ListSize).value.success
  {
  }

  /** A page whose first order's id is the text of an `int` probes that very id. */
  lemma NumericFirstOrderIsProbed(orders: seq<Order>, id: int)
    requires |orders| > 0 && orders[0].orderId == Some(IntToDecimal(id)) && Int32Min <= id <= Int32Max
    ensures ProbeId(orders) == Some(id)
  {
    ParseInt32RoundTrip(id);
  }
}
