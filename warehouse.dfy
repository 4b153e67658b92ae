/**
 * The in-memory warehouse ledger: a list of warehouses, a list of stock rows (one per
 * warehouse and barcode) and the two id counters. The list operations are stated first as
 * functions on values, with the ledger's invariants proved about them; the class then
 * updates its fields by exactly those functions.
 */
module Warehouses {
  import opened Wrappers
  import opened Text

  /** A warehouse. Times are ticks; `createdAt` of a fresh record is 0. */
  datatype Warehouse = Warehouse(id: int, code: string, name: string, location: string, isActive: bool, createdAt: int)

  /** A stock row: a quantity of one barcode in one warehouse, named by its id only. */
  datatype WarehouseStock = WarehouseStock(
    id: int, warehouseId: int, barcode: string, quantity: int, createdAt: int, lastUpdated: int)

  /** One line of `GetProductStocksInAllWarehouses`. */
  datatype WarehouseStockInfo = WarehouseStockInfo(warehouseName: string, quantity: int)

  /** `new Warehouse()`: active, with empty code, name and location. */
  function FreshWarehouse(): (w: Warehouse)
    ensures w.isActive && w.code == "" && w.name == "" && w.location == ""
  {
    Warehouse(0, "", "", "", true, 0)
  }

  // ---------------------------------------------------------------------------
  // Lookups

  /** `FirstOrDefault(w => w.Id == id)`, as a position. */
  function FindWarehouse(ws: seq<Warehouse>, id: int): (r: Option<nat>)
    ensures r.Some? ==> r.value < |ws| && ws[r.value].id == id && forall j | 0 <= j < r.value :: ws[j].id != id
    ensures r.None? ==> forall j | 0 <= j < |ws| :: ws[j].id != id
  {
    if ws == [] then None
    else if ws[0].id == id then Some(0)
    else
      match FindWarehouse(ws[1..], id)
      case None => None
      case Some(i) => Some(i + 1)
  }

  predicate Holds(s: WarehouseStock, warehouseId: int, barcode: string) {
    s.warehouseId == warehouseId && s.barcode == barcode
  }

  /** `FirstOrDefault(s => s.WarehouseId == warehouseId && s.Barcode == barcode)`, as a position. */
  function FindStock(ss: seq<WarehouseStock>, warehouseId: int, barcode: string): (r: Option<nat>)
    ensures r.Some? ==> r.value < |ss| && Holds(ss[r.value], warehouseId, barcode)
    ensures r.Some? ==> forall j | 0 <= j < r.value :: !Holds(ss[j], warehouseId, barcode)
    ensures r.None? ==> forall j | 0 <= j < |ss| :: !Holds(ss[j], warehouseId, barcode)
  {
    if ss == [] then None
    else if Holds(ss[0], warehouseId, barcode) then Some(0)
    else
      match FindStock(ss[1..], warehouseId, barcode)
      case None => None
      case Some(i) => Some(i + 1)
  }

  /** The quantity of a barcode summed over every row. */
  function Total(ss: seq<WarehouseStock>, barcode: string): int {
    if ss == [] then 0
    else Total(ss[..|ss| - 1], barcode) + (if ss[|ss| - 1].barcode == barcode then ss[|ss| - 1].quantity else 0)
  }

  lemma TotalAppend(ss: seq<WarehouseStock>, s: WarehouseStock, barcode: string)
    ensures Total(ss + [s], barcode) == Total(ss, barcode) + (if s.barcode == barcode then s.quantity else 0)
  {
    assert (ss + [s])[..|ss|] == ss;
  }

  /** Replacing a row by one of the same barcode moves that barcode's total by the change in quantity. */
  lemma {:induction false} TotalUpdate(ss: seq<WarehouseStock>, i: nat, s: WarehouseStock, barcode: string)
    requires i < |ss| && s.barcode == ss[i].barcode
    ensures Total(ss[i := s], barcode) ==
      Total(ss, barcode) + (if s.barcode == barcode then s.quantity - ss[i].quantity else 0)
  {
    var n := |ss| - 1;
    if i < n {
      assert ss[i := s][..n] == ss[..n][i := s];
      TotalUpdate(ss[..n], i, s, barcode);
    } else {
      assert ss[i := s][..n] == ss[..n];
    }
  }

  // ---------------------------------------------------------------------------
  // Invariants of the ledger

  /** At most one row per (warehouse, barcode). */
  predicate OneRowPerPair(ss: seq<WarehouseStock>) {
    forall i, j | 0 <= i < j < |ss| :: !Holds(ss[j], ss[i].warehouseId, ss[i].barcode)
  }

  /** Every row names a warehouse of the list. */
  predicate RowsNameWarehouses(ws: seq<Warehouse>, ss: seq<WarehouseStock>) {
    forall i | 0 <= i < |ss| :: FindWarehouse(ws, ss[i].warehouseId).Some?
  }

  /** Ids are distinct and below the next id to hand out. */
  predicate IdsBelow(ids: seq<int>, next: int) {
    (forall i | 0 <= i < |ids| :: ids[i] < next) && (forall i, j | 0 <= i < j < |ids| :: ids[i] != ids[j])
  }

  function WarehouseIds(ws: seq<Warehouse>): (r: seq<int>)
    ensures |r| == |ws| && forall i | 0 <= i < |ws| :: r[i] == ws[i].id
  {
    seq(|ws|, i requires 0 <= i < |ws| => ws[i].id)
  }

  function StockIds(ss: seq<WarehouseStock>): (r: seq<int>)
    ensures |r| == |ss| && forall i | 0 <= i < |ss| :: r[i] == ss[i].id
  {
    seq(|ss|, i requires 0 <= i < |ss| => ss[i].id)
  }

  // ---------------------------------------------------------------------------
  // Adding and moving stock, on values

  /**
   * The rows after `AddStockByBarcode` for a warehouse that exists: the quantity is added
   * to the pair's row, or a new row with the next stock id is appended.
   */
  function StockAdded(ss: seq<WarehouseStock>, warehouseId: int, barcode: string, quantity: int, nextId: int, now: int)
    : seq<WarehouseStock>
  {
    match FindStock(ss, warehouseId, barcode)
    case Some(i) => ss[i := ss[i].(quantity := ss[i].quantity + quantity, lastUpdated := now)]
    case None => ss + [WarehouseStock(nextId, warehouseId, barcode, quantity, now, now)]
  }

  /** Adding stock raises the barcode's total by the quantity and leaves every other barcode's total alone. */
  lemma StockAddedTotals(ss: seq<WarehouseStock>, warehouseId: int, barcode: string, quantity: int, nextId: int, now: int, b: string)
    ensures Total(StockAdded(ss, warehouseId, barcode, quantity, nextId, now), b) ==
      Total(ss, b) + (if b == barcode then quantity else 0)
  {
    match FindStock(ss, warehouseId, barcode)
    case Some(i) => TotalUpdate(ss, i, ss[i].(quantity := ss[i].quantity + quantity, lastUpdated := now), b);
    case None => TotalAppend(ss, WarehouseStock(nextId, warehouseId, barcode, quantity, now, now), b);
  }

  /** Adding stock keeps one row per pair, and every row naming a warehouse, when the warehouse exists. */
  lemma StockAddedKeepsInvariants(ws: seq<Warehouse>, ss: seq<WarehouseStock>, warehouseId: int, barcode: string,
                                  quantity: int, nextId: int, now: int)
    requires OneRowPerPair(ss) && RowsNameWarehouses(ws, ss) && IdsBelow(StockIds(ss), nextId)
    requires FindWarehouse(ws, warehouseId).Some?
    ensures var r := StockAdded(ss, warehouseId, barcode, quantity, nextId, now);
      OneRowPerPair(r) && RowsNameWarehouses(ws, r)
      && IdsBelow(StockIds(r), if FindStock(ss, warehouseId, barcode).Some? then nextId else nextId + 1)
  {
    match FindStock(ss, warehouseId, barcode)
    case Some(i) =>
      SameKeysKeepInvariants(ws, ss, i, ss[i].(quantity := ss[i].quantity + quantity, lastUpdated := now), nextId);
    case None =>
      AppendRowKeepsInvariants(ws, ss, WarehouseStock(nextId, warehouseId, barcode, quantity, now, now), nextId);
  }

  /** Appending a row for a new pair of an existing warehouse, with the next id. */
  lemma AppendRowKeepsInvariants(ws: seq<Warehouse>, ss: seq<WarehouseStock>, s: WarehouseStock, nextId: int)
    requires OneRowPerPair(ss) && RowsNameWarehouses(ws, ss) && IdsBelow(StockIds(ss), nextId)
    requires FindWarehouse(ws, s.warehouseId).Some? && FindStock(ss, s.warehouseId, s.barcode).None? && s.id == nextId
    ensures OneRowPerPair(ss + [s]) && RowsNameWarehouses(ws, ss + [s]) && IdsBelow(StockIds(ss + [s]), nextId + 1)
  {
    var r := ss + [s];
    forall i, j | 0 <= i < j < |r| ensures !Holds(r[j], r[i].warehouseId, r[i].barcode) {
      assert r[i] == ss[i];
      if j < |ss| {
        assert r[j] == ss[j];
      }
    }
    forall i | 0 <= i < |r| ensures FindWarehouse(ws, r[i].warehouseId).Some? {
      if i < |ss| {
        assert r[i] == ss[i];
      }
    }
    assert StockIds(r) == StockIds(ss) + [nextId];
  }

  /** Whether `TransferStock` goes ahead: both warehouses exist and the source row holds enough. */
  predicate TransferAllowed(ws: seq<Warehouse>, ss: seq<WarehouseStock>, from: int, to: int, barcode: string, quantity: int) {
    FindWarehouse(ws, from).Some? && FindWarehouse(ws, to).Some?
    && FindStock(ss, from, barcode).Some? && ss[FindStock(ss, from, barcode).value].quantity >= quantity
  }

  /**
   * The rows after an allowed transfer: the quantity leaves the source row and is added to
   * the destination row, which is looked up after the source is debited and appended with
   * the next stock id when missing.
   */
  function Transferred(ss: seq<WarehouseStock>, from: int, to: int, barcode: string, quantity: int, nextId: int, now: int)
    : seq<WarehouseStock>
    requires FindStock(ss, from, barcode).Some?
  {
    StockAdded(Debit(ss, FindStock(ss, from, barcode).value, quantity, now), to, barcode, quantity, nextId, now)
  }

  /** The rows with the quantity taken from row `i`, which keeps its id, warehouse and barcode. */
  function Debit(ss: seq<WarehouseStock>, i: nat, quantity: int, now: int): (r: seq<WarehouseStock>)
    requires i < |ss|
    ensures |r| == |ss| && r[i].quantity == ss[i].quantity - quantity
    ensures forall j | 0 <= j < |ss| :: r[j].id == ss[j].id && Holds(r[j], ss[j].warehouseId, ss[j].barcode)
  {
    ss[i := ss[i].(quantity := ss[i].quantity - quantity, lastUpdated := now)]
  }

  /** A transfer conserves the total of every barcode, the moved one included, also when `from == to`. */
  lemma TransferConserves(ss: seq<WarehouseStock>, from: int, to: int, barcode: string, quantity: int, nextId: int, now: int, b: string)
    requires FindStock(ss, from, barcode).Some?
    ensures Total(Transferred(ss, from, to, barcode, quantity, nextId, now), b) == Total(ss, b)
  {
    var i := FindStock(ss, from, barcode).value;
    var debited := Debit(ss, i, quantity, now);
    DebitTotal(ss, i, quantity, now, b);
    StockAddedTotals(debited, to, barcode, quantity, nextId, now, b);
    assert ss[i].barcode == barcode;
  }

  /** Taking stock from a row lowers its barcode's total by that much. */
  lemma DebitTotal(ss: seq<WarehouseStock>, i: nat, quantity: int, now: int, b: string)
    requires i < |ss|
    ensures Total(Debit(ss, i, quantity, now), b) == Total(ss, b) - (if ss[i].barcode == b then quantity else 0)
  {
    TotalUpdate(ss, i, Debit(ss, i, quantity, now)[i], b);
  }

  /** Between two warehouses the source row loses the quantity and the destination row gains it. */
  lemma TransferMovesQuantity(ss: seq<WarehouseStock>, from: int, to: int, barcode: string, quantity: int, nextId: int, now: int)
    requires FindStock(ss, from, barcode).Some? && from != to
    ensures var r := Transferred(ss, from, to, barcode, quantity, nextId, now);
            var i := FindStock(ss, from, barcode).value;
      |r| >= |ss| && r[i].quantity == ss[i].quantity - quantity
      && FindStock(r, to, barcode).Some?
      && r[FindStock(r, to, barcode).value].quantity ==
           (match FindStock(ss, to, barcode) case Some(j) => ss[j].quantity case None => 0) + quantity
  {
    var i := FindStock(ss, from, barcode).value;
    var debited := ss[i := ss[i].(quantity := ss[i].quantity - quantity, lastUpdated := now)];
    var r := Transferred(ss, from, to, barcode, quantity, nextId, now);
    assert FindStock(debited, to, barcode) == FindStock(ss, to, barcode) by {
      SameFindAfterUpdate(ss, i, debited[i], to, barcode);
    }
    match FindStock(ss, to, barcode)
    case Some(j) => {
      assert r == debited[j := debited[j].(quantity := debited[j].quantity + quantity, lastUpdated := now)];
      SameFindAfterUpdate(debited, j, r[j], to, barcode);
    }
    case None => {
      assert r == debited + [WarehouseStock(nextId, to, barcode, quantity, now, now)];
      FindStockAt(r, to, barcode, |debited|);
    }
  }

  /** Changing a row's quantity does not change which row a lookup finds. */
  lemma SameFindAfterUpdate(ss: seq<WarehouseStock>, i: nat, s: WarehouseStock, warehouseId: int, barcode: string)
    requires i < |ss| && s.warehouseId == ss[i].warehouseId && s.barcode == ss[i].barcode
    ensures FindStock(ss[i := s], warehouseId, barcode) == FindStock(ss, warehouseId, barcode)
  {
    var r := ss[i := s];
    assert forall j | 0 <= j < |ss| :: Holds(r[j], warehouseId, barcode) == Holds(ss[j], warehouseId, barcode);
    FindStockDeterminedByHolds(ss, r, warehouseId, barcode);
  }

  lemma {:induction false} FindStockDeterminedByHolds(a: seq<WarehouseStock>, b: seq<WarehouseStock>, warehouseId: int, barcode: string)
    requires |a| == |b| && forall j | 0 <= j < |a| :: Holds(a[j], warehouseId, barcode) == Holds(b[j], warehouseId, barcode)
    ensures FindStock(a, warehouseId, barcode) == FindStock(b, warehouseId, barcode)
  {
    if a != [] {
      assert forall j | 0 <= j < |a| - 1 :: a[1..][j] == a[j + 1] && b[1..][j] == b[j + 1];
      FindStockDeterminedByHolds(a[1..], b[1..], warehouseId, barcode);
    }
  }

  /** The first row holding a pair is the one a lookup finds. */
  lemma FindStockAt(ss: seq<WarehouseStock>, warehouseId: int, barcode: string, k: nat)
    requires k < |ss| && Holds(ss[k], warehouseId, barcode)
    requires forall j | 0 <= j < k :: !Holds(ss[j], warehouseId, barcode)
    ensures FindStock(ss, warehouseId, barcode) == Some(k)
  {
  }

  /** Changing a row's quantity or times keeps the ledger's invariants. */
  lemma SameKeysKeepInvariants(ws: seq<Warehouse>, ss: seq<WarehouseStock>, i: nat, s: WarehouseStock, nextId: int)
    requires i < |ss| && s.id == ss[i].id && s.warehouseId == ss[i].warehouseId && s.barcode == ss[i].barcode
    requires OneRowPerPair(ss) && RowsNameWarehouses(ws, ss) && IdsBelow(StockIds(ss), nextId)
    ensures OneRowPerPair(ss[i := s]) && RowsNameWarehouses(ws, ss[i := s]) && IdsBelow(StockIds(ss[i := s]), nextId)
  {
    assert StockIds(ss[i := s]) == StockIds(ss);
  }

  /** An allowed transfer keeps one row per pair and every row naming a warehouse. */
  lemma TransferKeepsInvariants(ws: seq<Warehouse>, ss: seq<WarehouseStock>, from: int, to: int, barcode: string,
                                quantity: int, nextId: int, now: int)
    requires OneRowPerPair(ss) && RowsNameWarehouses(ws, ss) && IdsBelow(StockIds(ss), nextId)
    requires TransferAllowed(ws, ss, from, to, barcode, quantity)
    ensures var r := Transferred(ss, from, to, barcode, quantity, nextId, now);
      OneRowPerPair(r) && RowsNameWarehouses(ws, r)
      && IdsBelow(StockIds(r), if FindStock(ss, to, barcode).Some? then nextId else nextId + 1)
  {
    var i := FindStock(ss, from, barcode).value;
    var debited := Debit(ss, i, quantity, now);
    SameKeysKeepInvariants(ws, ss, i, debited[i], nextId);
    SameFindAfterUpdate(ss, i, debited[i], to, barcode);
    StockAddedKeepsInvariants(ws, debited, to, barcode, quantity, nextId, now);
  }

  // ---------------------------------------------------------------------------
  // The service

  class WarehouseService {
    var warehouses: seq<Warehouse>
    var stocks: seq<WarehouseStock>
    var nextWarehouseId: int
    var nextStockId: int

    /** The ledger's invariants: distinct ids below the counters, one row per pair, rows naming warehouses. */
    predicate Valid()
      reads this
    {
      IdsBelow(WarehouseIds(warehouses), nextWarehouseId) && IdsBelow(StockIds(stocks), nextStockId)
      && OneRowPerPair(stocks) && RowsNameWarehouses(warehouses, stocks)
    }

    /** The service over empty lists, seeded with the two default warehouses. */
    constructor(now: int)
      ensures Valid()
      ensures warehouses == [Warehouse(1, "DEPO-01", "Ana Depo", "İstanbul", true, now),
                             Warehouse(2, "DEPO-02", "Yedek Depo", "Ankara", true, now)]
      ensures stocks == [] && nextWarehouseId == 3 && nextStockId == 1
    {
      warehouses := [];
      stocks := [];
      nextWarehouseId := 1;
      nextStockId := 1;
      new;
      InitializeDefaultWarehouses(now);
    }

    /** Seeds the two default warehouses when there are none; otherwise changes nothing. */
    method InitializeDefaultWarehouses(now: int)
      requires Valid()
      modifies this
      ensures Valid()
      ensures old(warehouses) == [] ==>
        warehouses == [Warehouse(old(nextWarehouseId), "DEPO-01", "Ana Depo", "İstanbul", true, now),
                       Warehouse(old(nextWarehouseId) + 1, "DEPO-02", "Yedek Depo", "Ankara", true, now)]
        && nextWarehouseId == old(nextWarehouseId) + 2
      ensures old(warehouses) != [] ==> warehouses == old(warehouses) && nextWarehouseId == old(nextWarehouseId)
      ensures stocks == old(stocks) && nextStockId == old(nextStockId)
    {
      if |warehouses| == 0 {
        warehouses := [Warehouse(nextWarehouseId, "DEPO-01", "Ana Depo", "İstanbul", true, now),
                       Warehouse(nextWarehouseId + 1, "DEPO-02", "Yedek Depo", "Ankara", true, now)];
        nextWarehouseId := nextWarehouseId + 2;
      }
    }

    /** The active warehouses, in the order they were created. */
    function GetAllWarehouses(): (r: seq<Warehouse>)
      reads this
      ensures forall w | w in r :: w in warehouses && w.isActive
      ensures forall w | w in warehouses && w.isActive :: w in r
    {
      Active(warehouses)
    }

    /** The first warehouse with the id, active or not. */
    function GetWarehouseById(id: int): (r: Option<Warehouse>)
      reads this
      ensures r.Some? <==> exists i | 0 <= i < |warehouses| :: warehouses[i].id == id
      ensures r.Some? ==> r.value in warehouses && r.value.id == id
    {
      match FindWarehouse(warehouses, id)
      case Some(i) => Some(warehouses[i])
      case None => None
    }

    /** The rows of one warehouse, in ledger order. */
    function GetWarehouseStocks(warehouseId: int): (r: seq<WarehouseStock>)
      reads this
      ensures forall s | s in r :: s in stocks && s.warehouseId == warehouseId
      ensures forall s | s in stocks && s.warehouseId == warehouseId :: s in r
    {
      RowsOf(stocks, warehouseId)
    }

    /** Appends the warehouse with the next id, active, created now. */
    method CreateWarehouse(w: Warehouse, now: int)
      requires Valid()
      modifies this
      ensures Valid()
      ensures warehouses == old(warehouses) + [w.(id := old(nextWarehouseId), createdAt := now, isActive := true)]
      ensures nextWarehouseId == old(nextWarehouseId) + 1
      ensures stocks == old(stocks) && nextStockId == old(nextStockId)
    {
      var created := w.(id := nextWarehouseId, createdAt := now, isActive := true);
      warehouses := warehouses + [created];
      nextWarehouseId := nextWarehouseId + 1;
      assert forall i | 0 <= i < |stocks| :: FindWarehouse(warehouses, stocks[i].warehouseId).Some? by {
        forall i | 0 <= i < |stocks| ensures FindWarehouse(warehouses, stocks[i].warehouseId).Some? {
          var k := FindWarehouse(old(warehouses), stocks[i].warehouseId).value;
          assert warehouses[k].id == stocks[i].warehouseId;
        }
      }
    }

    /** Replaces code, name and location of the warehouse with the id; false, changing nothing, when there is none. */
    method UpdateWarehouse(id: int, w: Warehouse) returns (ok: bool)
      requires Valid()
      modifies this
      ensures Valid()
      ensures ok <==> FindWarehouse(old(warehouses), id).Some?
      ensures ok ==> var i := FindWarehouse(old(warehouses), id).value;
        warehouses == old(warehouses)[i := old(warehouses)[i].(code := w.code, name := w.name, location := w.location)]
      ensures !ok ==> warehouses == old(warehouses)
      ensures stocks == old(stocks) && nextWarehouseId == old(nextWarehouseId) && nextStockId == old(nextStockId)
    {
      var at := FindWarehouse(warehouses, id);
      if at.None? {
        return false;
      }
      var i := at.value;
      warehouses := warehouses[i := warehouses[i].(code := w.code, name := w.name, location := w.location)];
      assert WarehouseIds(warehouses) == WarehouseIds(old(warehouses));
      KeepIdsKeepsRows(old(warehouses), warehouses, stocks);
      return true;
    }

    /** Marks the warehouse with the id inactive and keeps it; false, changing nothing, when there is none. */
    method DeleteWarehouse(id: int) returns (ok: bool)
      requires Valid()
      modifies this
      ensures Valid()
      ensures ok <==> FindWarehouse(old(warehouses), id).Some?
      ensures ok ==> var i := FindWarehouse(old(warehouses), id).value;
        warehouses == old(warehouses)[i := old(warehouses)[i].(isActive := false)]
      ensures !ok ==> warehouses == old(warehouses)
      ensures stocks == old(stocks) && nextWarehouseId == old(nextWarehouseId) && nextStockId == old(nextStockId)
    {
      var at := FindWarehouse(warehouses, id);
      if at.None? {
        return false;
      }
      var i := at.value;
      warehouses := warehouses[i := warehouses[i].(isActive := false)];
      assert WarehouseIds(warehouses) == WarehouseIds(old(warehouses));
      KeepIdsKeepsRows(old(warehouses), warehouses, stocks);
      return true;
    }

    /**
     * Adds stock of a barcode to a warehouse: fails with "Depo bulunamadı", changing nothing,
     * when no warehouse has the id; otherwise the rows become `StockAdded` of the old rows
     * and the row touched is returned.
     */
    method AddStockByBarcode(warehouseId: int, barcode: string, quantity: int, now: int)
      returns (success: bool, message: string, stock: Option<WarehouseStock>)
      requires Valid()
      modifies this
      ensures Valid()
      ensures success <==> FindWarehouse(warehouses, warehouseId).Some?
      ensures !success ==> message == "Depo bulunamadı" && stock.None? && stocks == old(stocks) && nextStockId == old(nextStockId)
      ensures success ==>
        stocks == StockAdded(old(stocks), warehouseId, barcode, quantity, old(nextStockId), now)
        && nextStockId == old(nextStockId) + (if FindStock(old(stocks), warehouseId, barcode).Some? then 0 else 1)
        && FindStock(stocks, warehouseId, barcode).Some?
        && stock == Some(stocks[FindStock(stocks, warehouseId, barcode).value])
        && message == (if FindStock(old(stocks), warehouseId, barcode).Some?
                       then "Stok güncellendi: " + IntToDecimal(stock.value.quantity) + " adet"
                       else "Yeni stok eklendi: " + IntToDecimal(quantity) + " adet")
      ensures warehouses == old(warehouses) && nextWarehouseId == old(nextWarehouseId)
    {
      if FindWarehouse(warehouses, warehouseId).None? {
        return false, "Depo bulunamadı", None;
      }
      StockAddedKeepsInvariants(warehouses, stocks, warehouseId, barcode, quantity, nextStockId, now);
      var existing := FindStock(stocks, warehouseId, barcode);
      if existing.Some? {
        var i := existing.value;
        SameFindAfterUpdate(stocks, i, stocks[i].(quantity := stocks[i].quantity + quantity, lastUpdated := now), warehouseId, barcode);
        stocks := stocks[i := stocks[i].(quantity := stocks[i].quantity + quantity, lastUpdated := now)];
        return true, "Stok güncellendi: " + IntToDecimal(stocks[i].quantity) + " adet", Some(stocks[i]);
      }
      var created := WarehouseStock(nextStockId, warehouseId, barcode, quantity, now, now);
      stocks := stocks + [created];
      FindStockAt(stocks, warehouseId, barcode, |stocks| - 1);
      nextStockId := nextStockId + 1;
      return true, "Yeni stok eklendi: " + IntToDecimal(quantity) + " adet", Some(created);
    }

    /**
     * Moves a quantity of a barcode between warehouses. It fails with "Depo bulunamadı" when
     * either warehouse is missing and with "Yetersiz stok" when the source has no row or too
     * little, in both cases changing nothing; otherwise the rows become `Transferred`.
     */
    method TransferStock(from: int, to: int, barcode: string, quantity: int, now: int)
      returns (success: bool, message: string)
      requires Valid()
      modifies this
      ensures Valid()
      ensures success <==> TransferAllowed(warehouses, old(stocks), from, to, barcode, quantity)
      ensures (FindWarehouse(warehouses, from).None? || FindWarehouse(warehouses, to).None?) ==> message == "Depo bulunamadı"
      ensures FindWarehouse(warehouses, from).Some? && FindWarehouse(warehouses, to).Some? && !success ==> message == "Yetersiz stok"
      ensures !success ==> stocks == old(stocks) && nextStockId == old(nextStockId)
      ensures success ==>
        stocks == Transferred(old(stocks), from, to, barcode, quantity, old(nextStockId), now)
        && nextStockId == old(nextStockId) + (if FindStock(old(stocks), to, barcode).Some? then 0 else 1)
        && message == IntToDecimal(quantity) + " adet başarıyla transfer edildi"
      ensures warehouses == old(warehouses) && nextWarehouseId == old(nextWarehouseId)
    {
      if FindWarehouse(warehouses, from).None? || FindWarehouse(warehouses, to).None? {
        return false, "Depo bulunamadı";
      }
      var source := FindStock(stocks, from, barcode);
      if source.None? || stocks[source.value].quantity < quantity {
        return false, "Yetersiz stok";
      }
      TransferKeepsInvariants(warehouses, stocks, from, to, barcode, quantity, nextStockId, now);
      ghost var expected := Transferred(stocks, from, to, barcode, quantity, nextStockId, now);
      var i := source.value;
      stocks := Debit(stocks, i, quantity, now);
      SameFindAfterUpdate(old(stocks), i, stocks[i], to, barcode);
      Deposit(to, barcode, quantity, now);
      assert stocks == expected;
      return true, IntToDecimal(quantity) + " adet başarıyla transfer edildi";
    }

    /** The credit half of a transfer: the rows become `StockAdded` of the rows before. */
    method Deposit(warehouseId: int, barcode: string, quantity: int, now: int)
      modifies this
      ensures stocks == StockAdded(old(stocks), warehouseId, barcode, quantity, old(nextStockId), now)
      ensures nextStockId == old(nextStockId) + (if FindStock(old(stocks), warehouseId, barcode).Some? then 0 else 1)
      ensures warehouses == old(warehouses) && nextWarehouseId == old(nextWarehouseId)
    {
      var target := FindStock(stocks, warehouseId, barcode);
      if target.Some? {
        var j := target.value;
        stocks := stocks[j := stocks[j].(quantity := stocks[j].quantity + quantity, lastUpdated := now)];
      } else {
        stocks := stocks + [WarehouseStock(nextStockId, warehouseId, barcode, quantity, now, now)];
        nextStockId := nextStockId + 1;
      }
    }

    /** One line per row of the barcode, with its warehouse's name, or "Bilinmeyen" for an unknown warehouse. */
    function GetProductStocksInAllWarehouses(barcode: string): (r: seq<WarehouseStockInfo>)
      reads this
      ensures |r| == |RowsWithBarcode(stocks, barcode)|
      ensures forall i | 0 <= i < |r| ::
        r[i].quantity == RowsWithBarcode(stocks, barcode)[i].quantity && r[i].warehouseName == NameOrUnknown(warehouses, RowsWithBarcode(stocks, barcode)[i].warehouseId)
    {
      var rows := RowsWithBarcode(stocks, barcode);
      seq(|rows|, i requires 0 <= i < |rows| reads this =>
        WarehouseStockInfo(NameOrUnknown(warehouses, rows[i].warehouseId), rows[i].quantity))
    }
  }

  /** Warehouse ids unchanged keep every row naming a warehouse. */
  lemma KeepIdsKeepsRows(before: seq<Warehouse>, after: seq<Warehouse>, ss: seq<WarehouseStock>)
    requires WarehouseIds(before) == WarehouseIds(after) && RowsNameWarehouses(before, ss)
    ensures RowsNameWarehouses(after, ss)
  {
    forall i | 0 <= i < |ss| ensures FindWarehouse(after, ss[i].warehouseId).Some? {
      var k := FindWarehouse(before, ss[i].warehouseId).value;
      assert WarehouseIds(after)[k] == after[k].id;
    }
  }

  /** `Where(w => w.IsActive)`. */
  function Active(ws: seq<Warehouse>): (r: seq<Warehouse>)
    ensures forall w | w in r :: w in ws && w.isActive
    ensures forall w | w in ws && w.isActive :: w in r
  {
    if ws == [] then []
    else (if ws[0].isActive then [ws[0]] else []) + Active(ws[1..])
  }

  /** `Where(s => s.WarehouseId == warehouseId)`. */
  function RowsOf(ss: seq<WarehouseStock>, warehouseId: int): (r: seq<WarehouseStock>)
    ensures forall s | s in r :: s in ss && s.warehouseId == warehouseId
    ensures forall s | s in ss && s.warehouseId == warehouseId :: s in r
  {
    if ss == [] then []
    else (if ss[0].warehouseId == warehouseId then [ss[0]] else []) + RowsOf(ss[1..], warehouseId)
  }

  /** `Where(s => s.Barcode == barcode)`. */
  function RowsWithBarcode(ss: seq<WarehouseStock>, barcode: string): (r: seq<WarehouseStock>)
    ensures forall s | s in r :: s in ss && s.barcode == barcode
    ensures forall s | s in ss && s.barcode == barcode :: s in r
  {
    if ss == [] then []
    else (if ss[0].barcode == barcode then [ss[0]] else []) + RowsWithBarcode(ss[1..], barcode)
  }

  /** The filter keeps order and multiplicity: it splits over concatenation. */
  lemma {:induction false} ActiveAppend(a: seq<Warehouse>, b: seq<Warehouse>)
    ensures Active(a + b) == Active(a) + Active(b)
  {
    if a == [] {
      assert a + b == b;
    } else {
      assert (a + b)[1..] == a[1..] + b;
      ActiveAppend(a[1..], b);
    }
  }

  /** Creating a warehouse appends it to the active list, after every older one. */
  lemma ActiveSnoc(ws: seq<Warehouse>, w: Warehouse)
    ensures Active(ws + [w]) == Active(ws) + (if w.isActive then [w] else [])
  {
    ActiveAppend(ws, [w]);
    assert Active([w]) == (if w.isActive then [w] else []) + Active([w][1..]);
  }

  lemma {:induction false} RowsOfAppend(a: seq<WarehouseStock>, b: seq<WarehouseStock>, warehouseId: int)
    ensures RowsOf(a + b, warehouseId) == RowsOf(a, warehouseId) + RowsOf(b, warehouseId)
  {
    if a == [] {
      assert a + b == b;
    } else {
      assert (a + b)[1..] == a[1..] + b;
      RowsOfAppend(a[1..], b, warehouseId);
    }
  }

  /** A new ledger row of the warehouse comes last among its rows. */
  lemma RowsOfSnoc(ss: seq<WarehouseStock>, s: WarehouseStock, warehouseId: int)
    ensures RowsOf(ss + [s], warehouseId) == RowsOf(ss, warehouseId) + (if s.warehouseId == warehouseId then [s] else [])
  {
    RowsOfAppend(ss, [s], warehouseId);
    assert RowsOf([s], warehouseId) == (if s.warehouseId == warehouseId then [s] else []) + RowsOf([s][1..], warehouseId);
  }

  lemma {:induction false} RowsWithBarcodeAppend(a: seq<WarehouseStock>, b: seq<WarehouseStock>, barcode: string)
    ensures RowsWithBarcode(a + b, barcode) == RowsWithBarcode(a, barcode) + RowsWithBarcode(b, barcode)
  {
    if a == [] {
      assert a + b == b;
    } else {
      assert (a + b)[1..] == a[1..] + b;
      RowsWithBarcodeAppend(a[1..], b, barcode);
    }
  }

  /** A new ledger row of the barcode comes last among its rows. */
  lemma RowsWithBarcodeSnoc(ss: seq<WarehouseStock>, s: WarehouseStock, barcode: string)
    ensures RowsWithBarcode(ss + [s], barcode) == RowsWithBarcode(ss, barcode) + (if s.barcode == barcode then [s] else [])
  {
    RowsWithBarcodeAppend(ss, [s], barcode);
    assert RowsWithBarcode([s], barcode) == (if s.barcode == barcode then [s] else []) + RowsWithBarcode([s][1..], barcode);
  }

  /** `GetWarehouseById(id)?.Name ?? "Bilinmeyen"`. */
  function NameOrUnknown(ws: seq<Warehouse>, id: int): string {
    match FindWarehouse(ws, id)
    case Some(i) => ws[i].name
    case None => "Bilinmeyen"
  }

  /** In a valid ledger every line names the row's own warehouse: the fallback name is never used. */
  lemma StockLinesNameTheirWarehouse(ws: seq<Warehouse>, ss: seq<WarehouseStock>, barcode: string, s: WarehouseStock)
    requires RowsNameWarehouses(ws, ss) && s in RowsWithBarcode(ss, barcode)
    ensures NameOrUnknown(ws, s.warehouseId) == ws[FindWarehouse(ws, s.warehouseId).value].name
  {
    var i :| 0 <= i < |ss| && ss[i] == s;
  }
}
