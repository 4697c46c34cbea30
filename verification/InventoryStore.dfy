/** The inventory store as the service keeps it: records in maps, changed in place
    (services/inventory-service/cmd/main.go, lines 54-187 and 246-270). Each method is proved to change the
    store exactly as its namesake in Inventory does. */
module InventoryStores {
  import opened Inventory

  class ProductRecord {
    const id: string
    var stock: int
    var reserved: int
    var available: int

    constructor (id: string, stock: int, reserved: int)
      ensures this.id == id && this.stock == stock && this.reserved == reserved
    {
      this.id, this.stock, this.reserved, available := id, stock, reserved, 0;
    }

    function View(): Product
      reads this
    {
      Product(stock, reserved, available)
    }
  }

  class ReservationRecord {
    const id: string
    const orderID: string
    const productID: string
    const quantity: int
    const expiresAt: real
    var status: Status

    constructor (id: string, r: Reservation)
      ensures this.id == id && View() == r
    {
      this.id, orderID, productID, quantity := id, r.orderID, r.productID, r.quantity;
      expiresAt, status := r.expiresAt, r.status;
    }

    function View(): Reservation
      reads this
    {
      Reservation(orderID, productID, quantity, status, expiresAt)
    }
  }

  class InventoryStore {
    var products: map<string, ProductRecord>
    var reservations: map<string, ReservationRecord>

    constructor ()
      ensures Valid() && View() == EMPTY
    {
      products, reservations := map[], map[];
    }

    ghost predicate Valid()
      reads this
    {
      && (forall p | p in products :: products[p].id == p)
      && (forall r | r in reservations :: reservations[r].id == r && reservations[r].quantity > 0)
    }

    ghost function Products(): map<string, Product>
      reads this`products, products.Values
    {
      map p | p in products :: products[p].View()
    }

    ghost function Reservations(): map<string, Reservation>
      reads this`reservations, reservations.Values
    {
      map r | r in reservations :: reservations[r].View()
    }

    ghost function View(): Store
      reads this, products.Values, reservations.Values
    {
      Store(Products(), Reservations())
    }

    method AddProduct(p: ProductRecord)
      requires Valid()
      modifies this`products, p`available
      ensures Valid()
      ensures View() == Inventory.AddProduct(old(View()), p.id, p.stock, p.reserved)
    {
      p.available := p.stock - p.reserved;
      products := products[p.id := p];
      assert Products() == old(Products())[p.id := p.View()];
    }

    /** Every operation that moves stock leaves available at stock - reserved. */
    method SetStock(product: ProductRecord, stock: int, reserved: int)
      requires Valid() && product.id in products && products[product.id] == product
      modifies product
      ensures Products() == old(Products())[product.id := Product(stock, reserved, stock - reserved)]
    {
      product.stock := stock;
      product.reserved := reserved;
      product.available := product.stock - product.reserved;
    }

    method SetStatus(res: ReservationRecord, status: Status)
      requires Valid() && res.id in reservations && reservations[res.id] == res
      modifies res`status
      ensures Reservations() == old(Reservations())[res.id := old(res.View()).(status := status)]
    {
      res.status := status;
    }

    /** What a released or expired reservation held goes back to its product, if there is one. */
    method GiveBack(res: ReservationRecord)
      requires Valid()
      modifies products.Values
      ensures var was := old(Products());
              Products() == if res.productID in was
                            then was[res.productID := GivenBack(was[res.productID], res.quantity)] else was
    {
      if res.productID in products {
        var product := products[res.productID];
        var reserved := product.reserved - res.quantity;
        if reserved < 0 {
          reserved := 0;
        }
        SetStock(product, product.stock, reserved);
      }
    }

    method Reserve(id: string, orderID: string, productID: string, quantity: int, now: real) returns (result: Outcome)
      requires Valid()
      modifies this`reservations, products.Values
      ensures Valid()
      ensures (View(), result) == Inventory.Reserve(old(View()), id, orderID, productID, quantity, now)
    {
      if orderID == "" {
        return OrderIdRequired;
      }
      if productID == "" {
        return ProductIdRequired;
      }
      if quantity <= 0 {
        return QuantityNotPositive;
      }
      if productID !in products {
        return ProductNotFound;
      }
      var product := products[productID];
      if product.available < quantity {
        return InsufficientStock;
      }
      SetStock(product, product.stock, product.reserved + quantity);
      var r := Reservation(orderID, productID, quantity, Active, now + RESERVATION_TTL);
      var reservation := new ReservationRecord(id, r);
      reservations := reservations[id := reservation];
      assert Reservations() == old(Reservations())[id := r];
      return Done;
    }

    method ConfirmReservation(id: string) returns (result: Outcome)
      requires Valid()
      modifies products.Values, reservations.Values
      ensures Valid()
      ensures (View(), result) == Inventory.Confirm(old(View()), id)
    {
      if id !in reservations {
        return ReservationNotFound;
      }
      var res := reservations[id];
      if res.status != Active {
        return NotActive;
      }
      if res.productID !in products {
        return ProductNotFound;
      }
      var product := products[res.productID];
      SetStock(product, product.stock - res.quantity, product.reserved - res.quantity);
      SetStatus(res, Confirmed);
      return Done;
    }

    method ReleaseReservation(id: string) returns (result: Outcome)
      requires Valid()
      modifies products.Values, reservations.Values
      ensures Valid()
      ensures (View(), result) == Inventory.Release(old(View()), id)
    {
      if id !in reservations {
        return ReservationNotFound;
      }
      var res := reservations[id];
      if res.status == Released || res.status == Confirmed {
        return Done;
      }
      GiveBack(res);
      SetStatus(res, Released);
      return Done;
    }

    /** One turn of ExpireStale's loop. */
    method ExpireReservation(res: ReservationRecord, now: real) returns (expired: bool)
      requires Valid() && res.id in reservations && reservations[res.id] == res
      modifies products.Values, reservations.Values
      ensures Valid()
      ensures View() == ExpireOne(old(View()), res.id, now)
      ensures expired == IsStale(old(res.View()), now)
    {
      expired := res.status == Active && now > res.expiresAt;
      if expired {
        GiveBack(res);
        SetStatus(res, Expired);
      }
    }

    /** The next turn of a sweep that started from `was` and has `rest` still to visit. */
    method ExpireNext(rest: set<string>, now: real, ghost was: Store) returns (left: set<string>, expired: bool)
      requires Valid() && PositiveQuantities(was) && reservations.Keys == was.reservations.Keys
      requires rest != {} && rest <= reservations.Keys
      requires View() == ExpireAmong(was, was.reservations.Keys - rest, now)
      modifies products.Values, reservations.Values
      ensures Valid() && left < rest
      ensures View() == ExpireAmong(was, was.reservations.Keys - left, now)
      ensures |StaleAmong(was, was.reservations.Keys - left, now)|
           == |StaleAmong(was, was.reservations.Keys - rest, now)| + (if expired then 1 else 0)
    {
      hide ExpireAmong, ExpireOne, StaleAmong;
      var id :| id in rest;
      left := rest - {id};
      ghost var visited := was.reservations.Keys - rest;
      assert was.reservations.Keys - left == visited + {id};
      ExpireAmongNext(was, visited, id, now);
      StaleAmongNext(was, visited, id, now);
      ExpiredEntries(was, visited, now);
      assert reservations[id].View() == View().reservations[id] == was.reservations[id];
      expired := ExpireReservation(reservations[id], now);
    }

    /** The loop visits the reservations in any order it likes; what it leaves, and its count, do not depend on it. */
    method ExpireStale(now: real) returns (count: nat)
      requires Valid()
      modifies products.Values, reservations.Values
      ensures Valid()
      ensures (View(), count) == Inventory.ExpireStale(old(View()), now)
    {
      ghost var was := View();
      assert was.reservations.Keys == reservations.Keys && PositiveQuantities(was);
      var rest := reservations.Keys;
      count := 0;
      SweepEnds(was, now);
      hide *;
      while rest != {}
        invariant Valid() && rest <= reservations.Keys == was.reservations.Keys && PositiveQuantities(was)
        invariant View() == ExpireAmong(was, was.reservations.Keys - rest, now)
        invariant count == |StaleAmong(was, was.reservations.Keys - rest, now)|
        decreases rest
      {
        var left, expired := ExpireNext(rest, now, was);
        rest := left;
        if expired {
          count := count + 1;
        }
      }
    }
  }
}
