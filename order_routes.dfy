/**
 * The order routes as operations of one object holding the item, shop,
 * order and notification collections. Placement and cancellation work on
 * a copy of the item collection and commit it, with the order, only when
 * every line has gone through; a failure leaves every field as it was.
 */
module OrderRoutes {
  import opened Wrappers
  import opened Orders

  class Marketplace {
    var items: Inventory
    /** The owner of each shop (an order's shop is looked up to find it). */
    var shopOwner: map<ShopId, UserId>
    var orders: map<OrderId, Order>
    var notifications: seq<Notification>
    /** The id the next placed order receives. */
    var nextOrderId: OrderId

    ghost predicate Valid()
      reads this
    {
      OrdersValid(orders, nextOrderId, notifications)
    }

    constructor (stock: Inventory, owners: map<ShopId, UserId>)
      ensures Valid()
      ensures items == stock && shopOwner == owners
      ensures orders == map[] && notifications == [] && nextOrderId == 0
    {
      items := stock;
      shopOwner := owners;
      orders := map[];
      notifications := [];
      nextOrderId := 0;
    }

    /**
     * Place an order for `customer` at `shop`: reserve every line in input
     * order, snapshot name and price, accumulate the total, and store the
     * order as pending. Any failure aborts: nothing changes.
     */
    method PlaceOrder(customer: UserId, shop: Option<ShopId>, lines: Option<seq<LineRequest>>)
      returns (r: Result<OrderId, OrderError>)
      requires Valid()
      modifies this`items, this`orders, this`nextOrderId
      ensures Valid()
      ensures StockNonNegative(old(items)) ==> StockNonNegative(items)
      ensures r.Err? ==> unchanged(this)
      ensures match Place(old(items), shop, lines)
        case Err(e) =>
          && r == Err(e)
          && items == old(items) && orders == old(orders) && nextOrderId == old(nextOrderId)
        case Ok(res) =>
          && r == Ok(old(nextOrderId))
          && old(nextOrderId) !in old(orders)
          && items == res.items
          && orders == old(orders)[old(nextOrderId) := Order(customer, shop.value, res.lines, res.total, Pending)]
          && nextOrderId == old(nextOrderId) + 1
    {
      if shop.None? || lines.None? || lines.value == [] {
        return Err(MissingData);
      }
      var requested := lines.value;
      var reserved := ReserveLines(requested);
      if reserved.Err? {
        return Err(reserved.error);
      }
      var res := reserved.value;
      var id := nextOrderId;
      var order := Order(customer, shop.value, res.lines, res.total, Pending);
      assert order.lines != [] && order.totalAmount == LinesTotal(order.lines) by {
        ReserveAllTotal(items, requested);
        ReserveAllLength(items, requested);
      }
      assert StockNonNegative(items) ==> StockNonNegative(res.items) by {
        if StockNonNegative(items) {
          ReserveAllNonNegative(items, requested);
        }
      }
      AddOrderKeepsValid(orders, id, notifications, order);
      items := res.items;
      orders := orders[id := order];
      nextOrderId := nextOrderId + 1;
      r := Ok(id);
    }

    /**
     * The placement loop, on a copy of the items: each line in turn must
     * find its item with enough stock, which is then decremented; the
     * snapshot is appended and the total raised. The first failing line
     * ends the loop with its error. Nothing is written back.
     */
    method ReserveLines(requested: seq<LineRequest>) returns (r: Result<Reservation, OrderError>)
      ensures r == ReserveAll(items, requested)
    {
      var working: Inventory := items;
      var totalAmount := 0;
      var itemsForOrder: seq<OrderLine> := [];
      var i := 0;
      while i < |requested|
        invariant 0 <= i <= |requested|
        invariant ReserveAll(items, requested[..i]) == Ok(Reservation(working, itemsForOrder, totalAmount))
      {
        var line := requested[i];
        ReserveAllPrefix(items, requested, i);
        if line.item !in working {
          r := Err(ItemNotFound(line.item));
          assert ReserveAll(items, requested[..i + 1]) == r;
          FirstFailureDecides(items, requested, i + 1);
          return;
        }
        var it := working[line.item];
        if it.stock < line.quantity {
          r := Err(InsufficientStock(it.name, it.stock, line.quantity));
          assert ReserveAll(items, requested[..i + 1]) == r;
          FirstFailureDecides(items, requested, i + 1);
          return;
        }
        working := working[line.item := it.(stock := it.stock - line.quantity)];
        totalAmount := totalAmount + it.price * line.quantity;
        itemsForOrder := itemsForOrder + [Snapshot(line, it)];
        i := i + 1;
      }
      assert requested[..i] == requested;
      r := Ok(Reservation(working, itemsForOrder, totalAmount));
    }

    /**
     * Set an order's status to `status`, which is not checked against the
     * current one, when `actor` owns the order's shop, and notify the
     * order's customer.
     */
    method UpdateStatus(orderId: OrderId, actor: UserId, status: string)
      returns (r: Result<Order, OrderError>)
      requires Valid()
      modifies this`orders, this`notifications
      ensures Valid()
      ensures orderId !in old(orders) ==> r == Err(OrderNotFound)
      ensures orderId in old(orders) && old(orders)[orderId].shop !in shopOwner ==> r == Err(ShopNotFound)
      ensures (orderId in old(orders) && old(orders)[orderId].shop in shopOwner
               && shopOwner[old(orders)[orderId].shop] != actor) ==> r == Err(Forbidden)
      ensures r.Ok? <==> (orderId in old(orders) && old(orders)[orderId].shop in shopOwner
                          && shopOwner[old(orders)[orderId].shop] == actor)
      ensures r.Err? ==> unchanged(this)
      ensures r.Ok? ==>
        && orderId in old(orders)
        && r.value == old(orders)[orderId].(status := status)
        && orders == old(orders)[orderId := r.value]
        && notifications == old(notifications) + [Notification(r.value.customer, StatusChanged(orderId, status), false, orderId)]
    {
      if orderId !in orders {
        return Err(OrderNotFound);
      }
      var order := orders[orderId];
      if order.shop !in shopOwner {
        return Err(ShopNotFound);
      }
      if shopOwner[order.shop] != actor {
        return Err(Forbidden);
      }
      SetStatusKeepsValid(orders, nextOrderId, notifications, orderId, status);
      order := order.(status := status);
      orders := orders[orderId := order];
      NotifyKeepsValid(orders, nextOrderId, notifications, Notification(order.customer, StatusChanged(orderId, status), false, orderId));
      notifications := notifications + [Notification(order.customer, StatusChanged(orderId, status), false, orderId)];
      r := Ok(order);
    }

    /**
     * Cancel a pending order on behalf of its customer: give every line's
     * quantity back to its item (skipping items that no longer exist) and
     * mark the order cancelled, both or neither.
     */
    method Cancel(orderId: OrderId, actor: UserId) returns (r: Result<Order, OrderError>)
      requires Valid()
      modifies this`items, this`orders
      ensures Valid()
      ensures orderId !in old(orders) ==> r == Err(OrderNotFound)
      ensures orderId in old(orders) && old(orders)[orderId].customer != actor ==> r == Err(Forbidden)
      ensures (orderId in old(orders) && old(orders)[orderId].customer == actor
               && old(orders)[orderId].status != Pending) ==> r == Err(NotPending(old(orders)[orderId].status))
      ensures r.Ok? <==> (orderId in old(orders) && old(orders)[orderId].customer == actor
                          && old(orders)[orderId].status == Pending)
      ensures r.Err? ==> unchanged(this)
      ensures r.Ok? ==>
        && orderId in old(orders)
        && r.value == old(orders)[orderId].(status := Cancelled)
        && items == Restore(old(items), old(orders)[orderId].lines)
        && orders == old(orders)[orderId := r.value]
      ensures (StockNonNegative(old(items)) && orderId in old(orders)
               && forall k :: 0 <= k < |old(orders)[orderId].lines| ==> old(orders)[orderId].lines[k].quantity >= 0)
              ==> StockNonNegative(items)
    {
      if orderId !in orders {
        return Err(OrderNotFound);
      }
      var order := orders[orderId];
      if order.customer != actor {
        return Err(Forbidden);
      }
      if order.status != Pending {
        return Err(NotPending(order.status));
      }
      var restored := RestoreLines(order.lines);
      if StockNonNegative(items) && forall k :: 0 <= k < |order.lines| ==> order.lines[k].quantity >= 0 {
        RestoreNonNegative(items, order.lines);
      }
      SetStatusKeepsValid(orders, nextOrderId, notifications, orderId, Cancelled);
      order := order.(status := Cancelled);
      items := restored;
      orders := orders[orderId := order];
      r := Ok(order);
    }

    /**
     * The cancellation loop, on a copy of the items: each line's quantity is
     * added back to its item, and a line whose item no longer exists is
     * skipped. Nothing is written back.
     */
    method RestoreLines(lines: seq<OrderLine>) returns (restored: Inventory)
      ensures restored == Restore(items, lines)
    {
      restored := items;
      var i := 0;
      while i < |lines|
        invariant 0 <= i <= |lines|
        invariant restored == Restore(items, lines[..i])
      {
        var line := lines[i];
        assert lines[..i + 1][..i] == lines[..i];
        if line.item in restored {
          restored := restored[line.item := restored[line.item].(stock := restored[line.item].stock + line.quantity)];
        }
        i := i + 1;
      }
      assert lines[..i] == lines;
    }
  }

  /** Placing an order and then cancelling it as its customer gives every item back its stock. */
  method PlaceThenCancel(m: Marketplace, customer: UserId, shop: ShopId, lines: seq<LineRequest>)
    returns (placed: Result<OrderId, OrderError>, cancelled: Result<Order, OrderError>)
    requires m.Valid()
    modifies m
    ensures m.Valid()
    ensures placed.Ok? <==> Place(old(m.items), Some(shop), Some(lines)).Ok?
    ensures placed.Ok? ==> cancelled.Ok? && cancelled.value.status == Cancelled && m.items == old(m.items)
    ensures placed.Err? ==> unchanged(m)
  {
    placed := m.PlaceOrder(customer, Some(shop), Some(lines));
    if placed.Err? {
      return placed, Err(placed.error);
    }
    cancelled := m.Cancel(placed.value, customer);
    PlaceThenRestore(old(m.items), lines);
  }

  /** A successful cancel cannot be repeated: the second attempt finds the order no longer pending. */
  method CancelTwice(m: Marketplace, orderId: OrderId, actor: UserId)
    returns (first: Result<Order, OrderError>, second: Result<Order, OrderError>)
    requires m.Valid()
    modifies m
    ensures m.Valid()
    ensures first.Ok? ==> second == Err(NotPending(Cancelled))
  {
    first := m.Cancel(orderId, actor);
    second := m.Cancel(orderId, actor);
  }

  /**
   * Status updates are not checked against the current status: the shop's
   * owner can set a cancelled order back to pending, and its customer can
   * then cancel it again, which gives its stock back a second time.
   */
  method ReopenAndCancelAgain(m: Marketplace, orderId: OrderId)
    returns (reopened: Result<Order, OrderError>, cancelled: Result<Order, OrderError>)
    requires m.Valid()
    requires orderId in m.orders && m.orders[orderId].status == Cancelled
    requires m.orders[orderId].shop in m.shopOwner
    modifies m
    ensures m.Valid()
    ensures reopened.Ok? && cancelled.Ok?
    ensures m.items == Restore(old(m.items), old(m.orders[orderId].lines))
    ensures orderId in m.orders && m.orders[orderId].status == Cancelled
  {
    var order := m.orders[orderId];
    reopened := m.UpdateStatus(orderId, m.shopOwner[order.shop], Pending);
    cancelled := m.Cancel(orderId, order.customer);
  }
}
