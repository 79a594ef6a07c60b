/**
 * The records of the order engine and the specification of its two
 * stock-ledger passes: reserving the requested lines at placement and
 * restoring an order's lines at cancellation.
 *
 * Prices, quantities and stock are integers (smallest currency unit).
 * A requested quantity is NOT required to be positive: the route that
 * places orders never checks it, and neither does this model.
 */
module Orders {
  import opened Wrappers

  type ItemId = nat
  type ShopId = nat
  type UserId = nat
  type OrderId = nat

  /** The status every new order starts with. */
  const Pending: string := "pending"
  /** The status a cancelled order ends with. */
  const Cancelled: string := "cancelled"

  /** An item offered by a shop; `stock` is what is still available. */
  datatype Item = Item(name: string, price: int, shop: ShopId, stock: int)

  /** The item collection, keyed by item id. */
  type Inventory = map<ItemId, Item>

  /** One line of a placement request: which item, and how many. */
  datatype LineRequest = LineRequest(item: ItemId, quantity: int)

  /** One line of a stored order: the item, its name and price when the order was placed, the quantity. */
  datatype OrderLine = OrderLine(item: ItemId, name: string, price: int, quantity: int)

  /** A stored order; `status` is an open string, as in the source. */
  datatype Order = Order(customer: UserId, shop: ShopId, lines: seq<OrderLine>, totalAmount: int, status: string)

  /** The text of a status notification, kept abstract: it names the order and the new status. */
  datatype Message = StatusChanged(order: OrderId, status: string)

  /** A notification record; `read` starts false. */
  datatype Notification = Notification(user: UserId, message: Message, read: bool, order: OrderId)

  /** Every way an order operation can fail. */
  datatype OrderError =
    | MissingData
    | ItemNotFound(item: ItemId)
    | InsufficientStock(name: string, available: int, requested: int)
    | OrderNotFound
    | ShopNotFound
    | Forbidden
    | NotPending(status: string)

  /**
   * The order store is consistent: every order id was handed out before
   * `nextOrderId`, every order has at least one line and a total equal to
   * the sum of its lines, and every notification refers to a stored order.
   */
  ghost predicate OrdersValid(orders: map<OrderId, Order>, nextOrderId: OrderId, notifications: seq<Notification>)
  {
    && (forall id :: id in orders ==> id < nextOrderId)
    && (forall id :: id in orders ==> orders[id].lines != [])
    && (forall id :: id in orders ==> orders[id].totalAmount == LinesTotal(orders[id].lines))
    && (forall k :: 0 <= k < |notifications| ==> notifications[k].order in orders)
  }

  lemma AddOrderKeepsValid(orders: map<OrderId, Order>, next: OrderId, notes: seq<Notification>, order: Order)
    requires OrdersValid(orders, next, notes)
    requires order.lines != [] && order.totalAmount == LinesTotal(order.lines)
    ensures next !in orders && OrdersValid(orders[next := order], next + 1, notes)
  {
  }

  lemma SetStatusKeepsValid(orders: map<OrderId, Order>, next: OrderId, notes: seq<Notification>, id: OrderId, status: string)
    requires OrdersValid(orders, next, notes) && id in orders
    ensures OrdersValid(orders[id := orders[id].(status := status)], next, notes)
  {
  }

  lemma NotifyKeepsValid(orders: map<OrderId, Order>, next: OrderId, notes: seq<Notification>, n: Notification)
    requires OrdersValid(orders, next, notes) && n.order in orders
    ensures OrdersValid(orders, next, notes + [n])
  {
  }

  /** What a successful reservation pass produces: the new inventory, the line snapshots and the total. */
  datatype Reservation = Reservation(items: Inventory, lines: seq<OrderLine>, total: int)

  ghost predicate StockNonNegative(items: Inventory)
  {
    forall id :: id in items ==> items[id].stock >= 0
  }

  function Amount(line: OrderLine): int
  {
    line.price * line.quantity
  }

  /** Sum of price * quantity over the line snapshots. */
  function LinesTotal(lines: seq<OrderLine>): int
  {
    if lines == [] then 0 else LinesTotal(lines[..|lines| - 1]) + Amount(lines[|lines| - 1])
  }

  /** Total quantity that `lines` request of item `id`. */
  function SumQty(lines: seq<LineRequest>, id: ItemId): int
  {
    if lines == [] then 0
    else SumQty(lines[..|lines| - 1], id) + (if lines[|lines| - 1].item == id then lines[|lines| - 1].quantity else 0)
  }

  /** The (item, quantity) pairs an order's lines were placed with. */
  function Requests(lines: seq<OrderLine>): (r: seq<LineRequest>)
    ensures |r| == |lines|
  {
    seq(|lines|, k requires 0 <= k < |lines| => LineRequest(lines[k].item, lines[k].quantity))
  }

  /** The snapshot a line records of the item it was placed against. */
  function Snapshot(line: LineRequest, it: Item): OrderLine
  {
    OrderLine(line.item, it.name, it.price, line.quantity)
  }

  /**
   * One step of the placement loop: the line's item must exist and have at
   * least the requested stock; it is decremented, the snapshot appended and
   * the total raised.
   */
  function ReserveLine(res: Reservation, line: LineRequest): Result<Reservation, OrderError>
  {
    if line.item !in res.items then Err(ItemNotFound(line.item))
    else
      var it := res.items[line.item];
      if it.stock < line.quantity then Err(InsufficientStock(it.name, it.stock, line.quantity))
      else Ok(Reservation(res.items[line.item := it.(stock := it.stock - line.quantity)],
                          res.lines + [Snapshot(line, it)],
                          res.total + it.price * line.quantity))
  }

  /**
   * The placement loop over `lines`, in input order, against the stock as
   * already decremented by the earlier lines: the first line whose item is
   * missing or whose stock is short decides the error.
   */
  function ReserveAll(items: Inventory, lines: seq<LineRequest>): Result<Reservation, OrderError>
  {
    if lines == [] then Ok(Reservation(items, [], 0))
    else
      match ReserveAll(items, lines[..|lines| - 1])
      case Err(e) => Err(e)
      case Ok(res) => ReserveLine(res, lines[|lines| - 1])
  }

  /** Extending the processed prefix by one line is one more loop step. */
  lemma ReserveAllPrefix(items: Inventory, lines: seq<LineRequest>, i: nat)
    requires i < |lines|
    ensures ReserveAll(items, lines[..i + 1]) ==
      match ReserveAll(items, lines[..i])
      case Err(e) => Err(e)
      case Ok(res) => ReserveLine(res, lines[i])
  {
    assert lines[..i + 1][..i] == lines[..i];
  }

  /** Whole placement: a missing shop or a missing or empty line list is refused before any item is read. */
  function Place(items: Inventory, shop: Option<ShopId>, lines: Option<seq<LineRequest>>): Result<Reservation, OrderError>
  {
    if shop.None? || lines.None? || lines.value == [] then Err(MissingData)
    else ReserveAll(items, lines.value)
  }

  /** The cancellation loop: each line's quantity goes back to its item; an item that no longer exists is skipped. */
  function Restore(items: Inventory, lines: seq<OrderLine>): Inventory
  {
    if lines == [] then items
    else
      var prev := Restore(items, lines[..|lines| - 1]);
      var line := lines[|lines| - 1];
      if line.item in prev then prev[line.item := prev[line.item].(stock := prev[line.item].stock + line.quantity)]
      else prev
  }

  /** Line `k` finds its item and enough stock left after the lines before it. */
  ghost predicate Fits(items: Inventory, lines: seq<LineRequest>, k: nat)
    requires k < |lines|
  {
    && lines[k].item in items
    && items[lines[k].item].stock - SumQty(lines[..k], lines[k].item) >= lines[k].quantity
  }

  /** Reservation changes only stock, and each item's stock drops by exactly what the lines request of it. */
  lemma {:induction false} ReserveAllStock(items: Inventory, lines: seq<LineRequest>)
    requires ReserveAll(items, lines).Ok?
    ensures ReserveAll(items, lines).value.items.Keys == items.Keys
    ensures forall id :: id in items ==>
      ReserveAll(items, lines).value.items[id] == items[id].(stock := items[id].stock - SumQty(lines, id))
  {
    if lines != [] {
      var init := lines[..|lines| - 1];
      ReserveAllStock(items, init);
    }
  }

  /** An item that no line names keeps its record unchanged. */
  lemma {:induction false} SumQtyAbsent(lines: seq<LineRequest>, id: ItemId)
    requires forall k :: 0 <= k < |lines| ==> lines[k].item != id
    ensures SumQty(lines, id) == 0
  {
    if lines != [] {
      SumQtyAbsent(lines[..|lines| - 1], id);
    }
  }

  /** Placement succeeds exactly when every line, in order, finds its item and enough remaining stock. */
  lemma {:induction false} ReserveAllOkIff(items: Inventory, lines: seq<LineRequest>)
    ensures ReserveAll(items, lines).Ok? <==> forall k :: 0 <= k < |lines| ==> Fits(items, lines, k)
  {
    if lines != [] {
      var n := |lines|;
      var init := lines[..n - 1];
      ReserveAllOkIff(items, init);
      forall k | 0 <= k < n - 1
        ensures Fits(items, init, k) == Fits(items, lines, k)
      {
        assert init[..k] == lines[..k];
      }
      if ReserveAll(items, init).Ok? {
        ReserveAllStock(items, init);
        var res := ReserveAll(items, init).value;
        var line := lines[n - 1];
        assert lines[..n - 1] == init;
        if line.item in items {
          assert res.items[line.item].stock == items[line.item].stock - SumQty(init, line.item);
        }
        assert ReserveAll(items, lines).Ok? <==> Fits(items, lines, n - 1);
      }
    }
  }

  /** A placement that names a missing item fails. */
  lemma MissingItemFails(items: Inventory, lines: seq<LineRequest>, k: nat)
    requires k < |lines| && lines[k].item !in items
    ensures ReserveAll(items, lines).Err?
  {
    ReserveAllOkIff(items, lines);
    assert !Fits(items, lines, k);
  }

  /** A line asking for more than what is left of its item after the earlier lines makes placement fail. */
  lemma OversellFails(items: Inventory, lines: seq<LineRequest>, k: nat)
    requires k < |lines| && lines[k].item in items
    requires items[lines[k].item].stock - SumQty(lines[..k], lines[k].item) < lines[k].quantity
    ensures ReserveAll(items, lines).Err?
  {
    ReserveAllOkIff(items, lines);
    assert !Fits(items, lines, k);
  }

  /** The only item reported missing is one that some line names and the inventory lacks. */
  lemma {:induction false} ReserveAllNotFound(items: Inventory, lines: seq<LineRequest>, id: ItemId)
    requires ReserveAll(items, lines) == Err(ItemNotFound(id))
    ensures id !in items
    ensures exists k :: 0 <= k < |lines| && lines[k].item == id
  {
    var n := |lines|;
    var init := lines[..n - 1];
    if ReserveAll(items, init).Err? {
      ReserveAllNotFound(items, init, id);
      var k :| 0 <= k < |init| && init[k].item == id;
      assert lines[k].item == id;
    } else {
      ReserveAllStock(items, init);
      assert lines[n - 1].item == id;
    }
  }

  /**
   * Once a prefix of the lines fails, placement of all the lines fails with
   * the same error: the first failing line decides.
   */
  lemma {:induction false} FirstFailureDecides(items: Inventory, lines: seq<LineRequest>, n: nat)
    requires n <= |lines|
    requires ReserveAll(items, lines[..n]).Err?
    ensures ReserveAll(items, lines) == ReserveAll(items, lines[..n])
    decreases |lines| - n
  {
    if n < |lines| {
      assert lines[..n + 1][..n] == lines[..n];
      FirstFailureDecides(items, lines, n + 1);
    } else {
      assert lines[..n] == lines;
    }
  }

  /**
   * The error of a failed placement is that of its first unfit line `k`:
   * the missing item, or the item's name, the stock left after the lines
   * before `k`, and the quantity line `k` asked for.
   */
  lemma ReserveAllFirstError(items: Inventory, lines: seq<LineRequest>, k: nat)
    requires k < |lines|
    requires forall j :: 0 <= j < k ==> Fits(items, lines, j)
    requires !Fits(items, lines, k)
    ensures ReserveAll(items, lines) ==
      var id := lines[k].item;
      if id !in items then Err(ItemNotFound(id))
      else Err(InsufficientStock(items[id].name, items[id].stock - SumQty(lines[..k], id), lines[k].quantity))
  {
    var pre := lines[..k];
    forall j | 0 <= j < k
      ensures Fits(items, pre, j)
    {
      assert pre[..j] == lines[..j] && pre[j] == lines[j];
      assert Fits(items, lines, j);
    }
    ReserveAllOkIff(items, pre);
    ReserveAllStock(items, pre);
    ReserveAllPrefix(items, lines, k);
    FirstFailureDecides(items, lines, k + 1);
  }

  /** A successful placement never takes an item's stock below zero. */
  lemma {:induction false} ReserveAllNonNegative(items: Inventory, lines: seq<LineRequest>)
    requires StockNonNegative(items)
    requires ReserveAll(items, lines).Ok?
    ensures StockNonNegative(ReserveAll(items, lines).value.items)
  {
    if lines != [] {
      ReserveAllNonNegative(items, lines[..|lines| - 1]);
    }
  }

  /** Line snapshots follow the input order and record each item's name and price before placement. */
  lemma {:induction false} ReserveAllSnapshots(items: Inventory, lines: seq<LineRequest>)
    requires ReserveAll(items, lines).Ok?
    ensures |ReserveAll(items, lines).value.lines| == |lines|
    ensures forall k :: 0 <= k < |lines| ==>
      lines[k].item in items && ReserveAll(items, lines).value.lines[k] == Snapshot(lines[k], items[lines[k].item])
  {
    if lines != [] {
      var n := |lines|;
      var init := lines[..n - 1];
      ReserveAllSnapshots(items, init);
      ReserveAllStock(items, init);
      var res := ReserveAll(items, lines).value;
      forall k | 0 <= k < n
        ensures lines[k].item in items && res.lines[k] == Snapshot(lines[k], items[lines[k].item])
      {
        if k < n - 1 {
          assert lines[k] == init[k];
        }
      }
    }
  }

  /** A successful placement records one line per requested line. */
  lemma {:induction false} ReserveAllLength(items: Inventory, lines: seq<LineRequest>)
    requires ReserveAll(items, lines).Ok?
    ensures |ReserveAll(items, lines).value.lines| == |lines|
  {
    if lines != [] {
      ReserveAllLength(items, lines[..|lines| - 1]);
    }
  }

  /** The accumulated total is the sum of price * quantity over the snapshots. */
  lemma {:induction false} ReserveAllTotal(items: Inventory, lines: seq<LineRequest>)
    requires ReserveAll(items, lines).Ok?
    ensures ReserveAll(items, lines).value.total == LinesTotal(ReserveAll(items, lines).value.lines)
  {
    if lines != [] {
      var init := lines[..|lines| - 1];
      ReserveAllTotal(items, init);
      var prev := ReserveAll(items, init).value;
      var res := ReserveAll(items, lines).value;
      assert res.lines[..|res.lines| - 1] == prev.lines;
    }
  }

  /** The stored lines give back exactly the requested (item, quantity) pairs. */
  lemma RequestsOfSnapshots(items: Inventory, lines: seq<LineRequest>)
    requires ReserveAll(items, lines).Ok?
    ensures Requests(ReserveAll(items, lines).value.lines) == lines
  {
    ReserveAllSnapshots(items, lines);
  }

  /** Restoring changes only stock, and each item present gains exactly the quantities its lines carry. */
  lemma {:induction false} RestoreStock(items: Inventory, lines: seq<OrderLine>)
    ensures Restore(items, lines).Keys == items.Keys
    ensures forall id :: id in items ==>
      Restore(items, lines)[id] == items[id].(stock := items[id].stock + SumQty(Requests(lines), id))
  {
    if lines != [] {
      var init := lines[..|lines| - 1];
      RestoreStock(items, init);
      assert Requests(lines)[..|lines| - 1] == Requests(init);
    }
  }

  /** Restoring lines whose quantities are non-negative keeps every stock non-negative. */
  lemma {:induction false} RestoreNonNegative(items: Inventory, lines: seq<OrderLine>)
    requires StockNonNegative(items)
    requires forall k :: 0 <= k < |lines| ==> lines[k].quantity >= 0
    ensures StockNonNegative(Restore(items, lines))
  {
    if lines != [] {
      RestoreNonNegative(items, lines[..|lines| - 1]);
    }
  }

  /** Cancelling right after placing gives back the inventory as it was before placement. */
  lemma PlaceThenRestore(items: Inventory, lines: seq<LineRequest>)
    requires ReserveAll(items, lines).Ok?
    ensures Restore(ReserveAll(items, lines).value.items, ReserveAll(items, lines).value.lines) == items
  {
    var res := ReserveAll(items, lines).value;
    ReserveAllStock(items, lines);
    RequestsOfSnapshots(items, lines);
    RestoreStock(res.items, res.lines);
    var back := Restore(res.items, res.lines);
    assert back.Keys == items.Keys;
    forall id | id in items
      ensures back[id] == items[id]
    {
    }
  }

  /**
   * Because quantities are not checked, a line of -5 is accepted and raises
   * stock; once that stock is sold, cancelling the first order leaves -5.
   */
  lemma NegativeQuantityUnderflow()
    ensures var items := map[0 := Item("tea", 10, 0, 0)];
      && ReserveAll(items, [LineRequest(0, -5)]).Ok?
      && var first := ReserveAll(items, [LineRequest(0, -5)]).value;
      && ReserveAll(first.items, [LineRequest(0, 5)]).Ok?
      && var second := ReserveAll(first.items, [LineRequest(0, 5)]).value;
      && 0 in Restore(second.items, first.lines)
      && Restore(second.items, first.lines)[0].stock == -5
  {
    var items := map[0 := Item("tea", 10, 0, 0)];
    var l1 := [LineRequest(0, -5)];
    assert l1[..0] == [];
    assert ReserveAll(items, l1[..0]) == Ok(Reservation(items, [], 0));
    var raised := map[0 := Item("tea", 10, 0, 5)];
    var snap := [OrderLine(0, "tea", 10, -5)];
    assert 0 in items && items[0].stock >= -5;
    assert items[0 := items[0].(stock := 5)] == raised;
    assert [] + [Snapshot(l1[0], items[0])] == snap;
    assert ReserveAll(items, l1) == Ok(Reservation(raised, snap, -50));
    var l2 := [LineRequest(0, 5)];
    assert l2[..0] == [];
    assert ReserveAll(raised, l2[..0]) == Ok(Reservation(raised, [], 0));
    var sold := map[0 := Item("tea", 10, 0, 0)];
    assert raised[0 := raised[0].(stock := 0)] == sold;
    assert [] + [Snapshot(l2[0], raised[0])] == [OrderLine(0, "tea", 10, 5)];
    assert ReserveAll(raised, l2) == Ok(Reservation(sold, [OrderLine(0, "tea", 10, 5)], 50));
    assert snap[..0] == [];
    assert Restore(sold, snap) == map[0 := Item("tea", 10, 0, -5)];
  }

  /**
   * One item with stock 5 and price 100: ordering 3 leaves 2 and totals
   * 300, and restoring the order gives back 5. Ordering 3 against a stock
   * of 2 fails, naming the item, what is available and what was requested.
   */
  lemma PlaceThenCancelExample()
    ensures var lamp := Item("lamp", 100, 1, 5);
      var snap := [OrderLine(7, "lamp", 100, 3)];
      && Place(map[7 := lamp], Some(1), Some([LineRequest(7, 3)]))
         == Ok(Reservation(map[7 := lamp.(stock := 2)], snap, 300))
      && Restore(map[7 := lamp.(stock := 2)], snap) == map[7 := lamp]
      && Place(map[7 := lamp.(stock := 2)], Some(1), Some([LineRequest(7, 3)]))
         == Err(InsufficientStock("lamp", 2, 3))
  {
    var lamp := Item("lamp", 100, 1, 5);
    var lines := [LineRequest(7, 3)];
    var snap := [OrderLine(7, "lamp", 100, 3)];
    assert lines[..0] == [] && snap[..0] == [];
    assert ReserveAll(map[7 := lamp], lines[..0]) == Ok(Reservation(map[7 := lamp], [], 0));
    assert map[7 := lamp][7 := lamp.(stock := 2)] == map[7 := lamp.(stock := 2)];
    assert [] + [Snapshot(lines[0], lamp)] == snap;
    assert map[7 := lamp.(stock := 2)][7 := lamp] == map[7 := lamp];
    assert ReserveAll(map[7 := lamp.(stock := 2)], lines[..0]) == Ok(Reservation(map[7 := lamp.(stock := 2)], [], 0));
  }
}
