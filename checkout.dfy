/**
 * The Customer and Cashbox objects of src/Customer.php and src/Cashbox.php. A customer keeps a
 * back-reference to the cashbox it queues at and a cashbox keeps its queue of customer objects,
 * so both classes live in one module. Every method is proved to change the objects exactly as
 * the value model in QueueModel says.
 */
module Checkout {
  import opened Wrappers
  import opened QueueModel

  class Customer {
    /** The number of goods, fixed at construction. */
    const goods: int
    var state: CustomerState
    /** The cashbox this customer queues at; null until assigned. */
    var cashbox: Cashbox?
    /** When service started; null until then. */
    var buyStart: Option<int>

    /** Customer::__construct. */
    constructor (goods: int)
      ensures View() == NewBuyer(goods) && cashbox == null
    {
      this.goods := goods;
      state := Shopping;
      cashbox := null;
      buyStart := None;
    }

    function View(): Buyer
      reads this
    {
      Buyer(goods, state, buyStart)
    }

    /** Customer::getNewCustomer with the `max_goods` setting and the goods draw supplied from outside. */
    static method GetNewCustomer(maxGoods: Option<int>, draw: nat) returns (r: Result<Customer, string>)
      ensures r.Err? ==> NewCustomer(maxGoods, draw) == Err(r.error)
      ensures r.Ok? ==> fresh(r.value) && r.value.cashbox == null && NewCustomer(maxGoods, draw) == Ok(r.value.View())
    {
      if maxGoods.None? {
        return Err(MaxGoodsMissing);
      }
      if maxGoods.value < 1 {
        return Err(MaxGoodsNotPositive);
      }
      var goods := Uniform(1, maxGoods.value, draw);
      var c := new Customer(goods);
      return Ok(c);
    }

    /**
     * Customer::assignToCashbox: a closed cashbox is refused with an error and nothing changes;
     * otherwise this customer starts queuing, remembers the cashbox and joins the back of its queue.
     */
    method AssignToCashbox(cb: Cashbox) returns (r: Result<bool, string>)
      requires cb.Valid() && this !in cb.customers
      modifies this, cb
      ensures cb.Valid()
      ensures r.Err? ==> Assign(old(cb.View()), old(View())) == Err(r.error) && unchanged(this, cb)
      ensures r.Ok? ==> r.value && Assign(old(cb.View()), old(View())) == Ok(cb.View())
      ensures r.Ok? ==> cashbox == cb && cb.customers == old(cb.customers) + [this]
      ensures View() == if r.Ok? then old(View()).(state := Queue) else old(View())
    {
      if cb.state == Closed {
        return Err(ClosedMessage(cb.id));
      }
      state := Queue;
      cashbox := cb;
      cb.AddCustomer(this);
      return Ok(true);
    }

    /** Customer::startServe: service starts at `tm` exactly when the cashbox has nobody being served. */
    method StartServe(tm: int)
      requires cashbox != null
      modifies this
      ensures cashbox == old(cashbox)
      ensures old(cashbox.IsFree()) ==> View() == old(View()).(state := Buys, buyStart := Some(tm))
      ensures !old(cashbox.IsFree()) ==> View() == old(View())
    {
      var free := cashbox.IsFree();
      if free {
        state := Buys;
        buyStart := Some(tm);
      }
    }
  }

  /** The values of the given customer objects, in queue order. */
  function Buyers(cs: seq<Customer>): (r: seq<Buyer>)
    reads cs
    ensures |r| == |cs| && forall k :: 0 <= k < |cs| ==> r[k] == cs[k].View()
  {
    seq(|cs|, k requires 0 <= k < |cs| reads cs => cs[k].View())
  }

  class Cashbox {
    const id: nat
    const settings: CashboxSettings
    var state: CashboxState
    /** The queue, front first. */
    var customers: seq<Customer>
    var standbyStart: Option<int>

    /** Every queued customer is a different object and points back at this cashbox. */
    ghost predicate Valid()
      reads this, customers
    {
      (forall k :: 0 <= k < |customers| ==> customers[k].cashbox == this) &&
      (forall j, k :: 0 <= j < k < |customers| ==> customers[j] != customers[k])
    }

    function View(): Till
      reads this, customers
    {
      Till(id, state, Buyers(customers), standbyStart)
    }

    /** Cashbox::__construct: a closed cashbox with an empty queue. */
    constructor (id: nat, settings: CashboxSettings)
      ensures Valid() && View() == Till(id, Closed, [], None) && this.settings == settings
    {
      this.id := id;
      this.settings := settings;
      state := Closed;
      customers := [];
      standbyStart := None;
    }

    /** Cashbox::isFree: the `foreach` finds no customer being served. */
    function IsFree(): (r: bool)
      reads this, customers
      ensures r <==> QueueModel.IsFree(View().queue)
    {
      forall k :: 0 <= k < |customers| ==> customers[k].state != Buys
    }

    /** Cashbox::getQueueLength. */
    function QueueLength(): (n: nat)
      reads this, customers
      ensures n == |View().queue|
    {
      |customers|
    }

    /** Cashbox::printState. */
    function PrintState(): (s: string)
      reads this, customers
      ensures s == Render(View())
    {
      Text.NatToString(id) + ":" + (if state == Closed then "X" else Text.NatToString(|customers|))
    }

    /** Cashbox::open. */
    method Open()
      requires Valid()
      modifies this`state
      ensures Valid() && View() == QueueModel.Open(old(View()))
    {
      if state == Closed {
        state := Opened;
      }
    }

    /** The private Cashbox::close: a STANDBY cashbox whose idle time has run out closes. */
    method Close(tm: int) returns (closed: bool)
      modifies this`state
      ensures closed == ShouldClose(old(View()), settings, tm)
      ensures View() == if closed then old(View()).(state := Closed) else old(View())
    {
      if state == Standby && tm - NullAsZero(standbyStart) >= settings.offTime {
        state := Closed;
        return true;
      }
      return false;
    }

    /** Cashbox::addCustomer. */
    method AddCustomer(c: Customer)
      requires Valid() && c !in customers && c.cashbox == this
      modifies this`customers, this`standbyStart
      ensures Valid() && customers == old(customers) + [c]
      ensures View() == QueueModel.AddCustomer(old(View()), c.View())
    {
      customers := customers + [c];
      if state == Standby {
        standbyStart := None;
      }
    }

    /** `unset($this->_customers[$key])`: the customer at `key` leaves the queue, the others keep their order. */
    method Unset(key: nat)
      requires Valid() && key < |customers|
      modifies this
      ensures Valid() && customers == old(customers[..key] + customers[key + 1..])
      ensures state == old(state) && standbyStart == old(standbyStart)
      ensures Buyers(customers) == old(Buyers(customers)[..key] + Buyers(customers)[key + 1..])
    {
      ghost var was := customers;
      customers := customers[..key] + customers[key + 1..];
      assert forall j :: 0 <= j < |customers| ==> customers[j] == was[if j < key then j else j + 1];
    }

    /** The private Cashbox::freeCustomer: the customer at `key` leaves the queue. */
    method FreeCustomer(key: nat, tm: int)
      requires Valid() && key < |customers|
      modifies this, customers
      ensures Valid() && customers == old(customers[..key] + customers[key + 1..])
      ensures View() == Release(old(View()), key, tm)
    {
      Unset(key);
      if |customers| == 0 {
        state := Standby;
        standbyStart := Some(tm);
      } else {
        ghost var rest := Buyers(customers);
        customers[0].StartServe(tm);
        forall j | 0 < j < |customers| ensures customers[j].View() == rest[j] {
          assert customers[j] != customers[0];
        }
        assert Buyers(customers) == StartServe(rest, 0, tm);
      }
    }

    /**
     * Cashbox::doWork: nothing when closed; a STANDBY cashbox whose idle time has run out
     * closes and does nothing else; otherwise the first customer being served leaves once due.
     */
    method DoWork(tm: int)
      requires Valid()
      modifies this, customers
      ensures Valid()
      ensures View() == Work(old(View()), settings, tm)
      ensures var k := FirstBuyer(old(View()).queue);
        customers == old(customers) ||
        (k.Some? && k.value < |old(customers)| && customers == old(customers)[..k.value] + old(customers)[k.value + 1..])
    {
      if state == Closed {
        return;
      }
      var closed := Close(tm);
      if closed {
        return;
      }
      var key := 0;
      while key < |customers|
        invariant 0 <= key <= |customers|
        invariant forall j :: 0 <= j < key ==> customers[j].state != Buys
      {
        var customer := customers[key];
        if customer.state == Buys {
          assert FirstBuyer(View().queue) == Some(key);
          if tm - NullAsZero(customer.buyStart) >= customer.goods * settings.checkTime + settings.payTime {
            FreeCustomer(key, tm);
          }
          return;
        }
        key := key + 1;
      }
    }
  }
}
