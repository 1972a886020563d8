/**
 * The Supermarket object of src/Supermarket.php: its cashboxes, created once, and the tick
 * loop that updates them in place. Every method is proved to change the cashboxes exactly as
 * the value model in DriverModel says, so what DriverProperties proves about that model holds
 * of the objects.
 */
module Market {
  import opened Wrappers
  import opened Text
  import opened QueueModel
  import opened DriverModel
  import opened Checkout

  class Supermarket {
    /** The settings array, fixed at construction. */
    const config: Config
    /** The cashboxes, in the order generateCashboxes made them. */
    var cashboxes: seq<Cashbox>
    /** Every object the supermarket may change: itself, its cashboxes and every customer ever queued. */
    ghost var Repr: set<object>

    /**
     * Each cashbox, numbered by its position (so no cashbox appears twice), is well formed, uses
     * the shared cashbox settings, and belongs with its customers to this supermarket. Since each
     * customer points back at its own cashbox, no customer stands in two queues.
     */
    ghost predicate Valid()
      reads this, Repr
    {
      this in Repr &&
      forall i :: 0 <= i < |cashboxes| ==>
        cashboxes[i] in Repr && cashboxes[i].id == i && cashboxes[i].settings == config.cashboxSettings &&
        (forall k :: 0 <= k < |cashboxes[i].customers| ==> cashboxes[i].customers[k] in Repr) &&
        cashboxes[i].Valid()
    }

    /** The first `n` cashboxes as values. */
    ghost function ViewsOf(n: nat): (ts: seq<Till>)
      requires Valid() && n <= |cashboxes|
      reads this, Repr
      ensures |ts| == n && forall i :: 0 <= i < n ==> ts[i] == cashboxes[i].View()
    {
      if n == 0 then [] else ViewsOf(n - 1) + [cashboxes[n - 1].View()]
    }

    /** The cashboxes as values. */
    ghost function Views(): (ts: seq<Till>)
      requires Valid()
      reads this, Repr
      ensures |ts| == |cashboxes| && forall i :: 0 <= i < |cashboxes| ==> ts[i] == cashboxes[i].View()
    {
      ViewsOf(|cashboxes|)
    }

    /** Supermarket::__construct and generateCashboxes: `cashbox_quantity` closed cashboxes numbered from 0. */
    constructor (config: Config)
      ensures Valid() && fresh(Repr) && this.config == config
      ensures Views() == Initial(config.cashboxQuantity)
    {
      this.config := config;
      cashboxes := [];
      Repr := {this};
      new;
      var i := 0;
      while i < config.cashboxQuantity
        invariant i <= if config.cashboxQuantity < 0 then 0 else config.cashboxQuantity
        invariant Valid() && fresh(Repr) && |cashboxes| == i
        invariant forall j :: 0 <= j < i ==>
          cashboxes[j].state == Closed && cashboxes[j].customers == [] && cashboxes[j].standbyStart == None
      {
        var cb := new Cashbox(i, config.cashboxSettings);
        cashboxes := cashboxes + [cb];
        Repr := Repr + {cb};
        i := i + 1;
      }
    }

    /** Supermarket::printState: the snapshot line on the hour, nothing otherwise. */
    method PrintState(tm: nat) returns (res: string)
      requires Valid()
      ensures res == Snapshot(Views(), tm)
    {
      res := "";
      if tm % HourSeconds == 0 {
        ghost var ts := Views();
        var cells := "";
        var i := 0;
        while i < |cashboxes|
          invariant 0 <= i <= |cashboxes|
          invariant cells == Cells(ts, i)
        {
          var cell := cashboxes[i].PrintState();
          assert cell == Render(ts[i]);
          cells := cells + cell + Separator;
          i := i + 1;
        }
        res := "Час " + NatToString(tm / HourSeconds) + ": " + cells + "\n";
      }
    }

    /**
     * The scan of getEligibleCashbox: the first closed cashbox, and the open one with the
     * shortest queue, where a later cashbox replaces the candidate only when its queue is
     * strictly shorter.
     */
    method Scan() returns (closed: Option<nat>, eligible: Option<nat>)
      requires Valid()
      ensures closed == FirstClosedIn(Views(), |cashboxes|)
      ensures eligible == BestOpenIn(Views(), |cashboxes|)
    {
      ghost var ts := Views();
      closed := None;
      eligible := None;
      var i := 0;
      while i < |cashboxes|
        invariant 0 <= i <= |cashboxes|
        invariant closed == FirstClosedIn(ts, i)
        invariant eligible == BestOpenIn(ts, i)
      {
        var cb := cashboxes[i];
        assert cb.View() == ts[i];
        if closed.None? && cb.state == Closed {
          closed := Some(i);
        }
        if (cb.state == Opened || cb.state == Standby) &&
           (eligible.None? || cashboxes[eligible.value].QueueLength() > cb.QueueLength()) {
          eligible := Some(i);
        }
        i := i + 1;
      }
    }

    /** `$closedCashbox->open()` on the `i`-th cashbox: it alone changes, as Cashbox::open says. */
    method OpenAt(i: nat)
      requires Valid() && i < |cashboxes|
      modifies cashboxes[i]
      ensures Valid()
      ensures Views() == old(Views())[i := Open(old(Views())[i])]
    {
      ghost var ts := Views();
      cashboxes[i].Open();
      assert forall j :: 0 <= j < |cashboxes| && j != i ==> cashboxes[j].View() == ts[j];
    }

    /**
     * Supermarket::getEligibleCashbox: the closed cashbox found by the scan is opened and handed
     * out when nothing is open or the best queue has reached `open_cashbox_queue_size`; the best
     * open one otherwise. With no cashbox at all the source calls `open()` on null, which is the
     * NoCashbox failure.
     */
    method GetEligibleCashbox() returns (r: Result<Cashbox, Failure>)
      requires Valid()
      modifies cashboxes
      ensures Valid()
      ensures r.Err? <==> Route(old(Views()), config.openQueueSize).None?
      ensures r.Err? ==> r.error == NoCashbox && Views() == old(Views())
      ensures r.Ok? ==> var i := Route(old(Views()), config.openQueueSize).value;
        r.value == cashboxes[i] && Views() == old(Views())[i := Open(old(Views())[i])]
    {
      ghost var ts := Views();
      var closed, eligible := Scan();
      assert eligible.Some? ==> cashboxes[eligible.value].QueueLength() == |ts[eligible.value].queue|;
      ghost var route := Route(ts, config.openQueueSize);
      if eligible.None? || (cashboxes[eligible.value].QueueLength() >= config.openQueueSize && closed.Some?) {
        assert route == closed;
        if closed.Some? {
          OpenAt(closed.value);
        }
        eligible := closed;
      } else {
        assert route == eligible;
        BestOpenInFinds(ts, |ts|);
        assert ts[eligible.value := Open(ts[eligible.value])] == ts;
      }
      if eligible.None? {
        r := Err(NoCashbox);
      } else {
        r := Ok(cashboxes[eligible.value]);
      }
    }

    /**
     * Customer::assignToCashbox for a new customer, not yet queued anywhere, and the cashbox
     * `cb`, the `i`-th, open by now: the customer joins the back of its queue. The cashbox is
     * not closed, so the CustomerException for a closed cashbox cannot arise.
     */
    method AssignAt(customer: Customer, cb: Cashbox, ghost i: nat)
      requires Valid() && i < |cashboxes| && cb == cashboxes[i] && cb.state != Closed && customer !in Repr
      modifies this, cb, customer
      ensures Valid() && Repr == old(Repr) + {customer} && cashboxes == old(cashboxes)
      ensures |cb.customers| > 0 && cb.customers[|cb.customers| - 1] == customer
      ensures Views() == old(Views())[i := Assign(old(Views())[i], old(customer.View())).value]
    {
      ghost var ts := Views();
      var joined := customer.AssignToCashbox(cb);
      assert joined.Ok?;
      Repr := Repr + {customer};
      forall j | 0 <= j < |cashboxes| && j != i
        ensures cashboxes[j].Valid() && cashboxes[j].View() == ts[j]
      {
        assert cashboxes[j].id != cb.id;
        assert customer !in cashboxes[j].customers;
      }
      assert forall k :: 0 <= k < |cb.customers| ==> cb.customers[k] in Repr;
    }

    /**
     * Customer::startServe for the customer at the back of the `i`-th cashbox's queue: served
     * from `tm` exactly when nobody in that queue is being served.
     */
    method ServeAt(customer: Customer, cb: Cashbox, ghost i: nat, tm: int)
      requires Valid() && i < |cashboxes| && cb == cashboxes[i]
      requires |cb.customers| > 0 && cb.customers[|cb.customers| - 1] == customer
      modifies customer
      ensures Valid()
      ensures var t := old(Views())[i];
        Views() == old(Views())[i := t.(queue := StartServe(t.queue, |t.queue| - 1, tm))]
    {
      ghost var ts := Views();
      ghost var q := cb.View().queue;
      customer.StartServe(tm);
      assert forall k :: 0 <= k < |q| - 1 ==> cb.customers[k] != customer;
      assert cb.View().queue == StartServe(q, |q| - 1, tm);
      forall j | 0 <= j < |cashboxes| && j != i
        ensures cashboxes[j].Valid() && cashboxes[j].View() == ts[j]
      {
        assert cashboxes[j].id != cb.id;
        assert customer !in cashboxes[j].customers;
      }
    }

    /**
     * Supermarket::generateNewCustomer: every `new_customer_interval` seconds, a roll not above
     * the hour's percentage brings a customer, who is created, routed, queued and offered
     * service. What it throws leaves the cashboxes as they were.
     */
    method GenerateNewCustomer(tm: nat, d: Draws) returns (failure: Option<Failure>)
      requires Valid()
      modifies Repr
      ensures Valid() && fresh(Repr - old(Repr)) && cashboxes == old(cashboxes)
      ensures var a := Arrival(old(Views()), config, tm, d);
        (a.Err? ==> failure == Some(a.error) && Views() == old(Views())) &&
        (a.Ok? ==> failure == None && Views() == a.value)
    {
      if config.newCustomerInterval == 0 {
        return Some(ModuloByZero);
      }
      if tm % config.newCustomerInterval != 0 {
        return None;
      }
      var hour := tm / HourSeconds;
      var prob := Uniform(1, 100, d.roll(tm));
      if prob > ArrivalPercent(config.arrivalPercent, hour) {
        return None;
      }
      failure := Arrive(tm, d);
    }

    /**
     * Customer::assignToCashbox then Customer::startServe for a new customer and the `i`-th
     * cashbox, open by now: the customer joins the back of its queue and is served at once
     * exactly when nobody there is being served.
     */
    method JoinAt(customer: Customer, cb: Cashbox, ghost i: nat, tm: nat)
      requires Valid() && i < |cashboxes| && cb == cashboxes[i] && cb.state != Closed && customer !in Repr
      modifies this, cb, customer
      ensures Valid() && Repr == old(Repr) + {customer} && cashboxes == old(cashboxes)
      ensures Views() == old(Views())[i := Join(old(Views())[i], old(customer.View()), tm)]
    {
      ghost var ts := Views();
      ghost var b := customer.View();
      AssignAt(customer, cb, i);
      ghost var t := Assign(ts[i], b).value;
      ghost var queued := Views();
      assert queued == ts[i := t];
      ServeAt(customer, cb, i, tm);
      ghost var served := t.(queue := StartServe(t.queue, |t.queue| - 1, tm));
      assert served == Join(ts[i], b, tm);
      UpdateTwice(ts, i, t, served);
    }

    /**
     * getEligibleCashbox, then assignToCashbox and startServe for a new customer: it joins the
     * routed cashbox, opened first if it was closed. With no cashbox at all the source calls
     * `open()` on null, which is the NoCashbox failure, and nothing changes.
     */
    method Place(customer: Customer, tm: nat) returns (failure: Option<Failure>)
      requires Valid() && customer !in Repr
      modifies Repr, customer
      ensures Valid() && Repr <= old(Repr) + {customer} && cashboxes == old(cashboxes)
      ensures var p := Placement(old(Views()), config.openQueueSize, old(customer.View()), tm);
        (p.Err? ==> failure == Some(p.error) && Views() == old(Views())) &&
        (p.Ok? ==> failure == None && Views() == p.value)
    {
      ghost var ts := Views();
      ghost var b := customer.View();
      PlacementJoinsRoutedTill(ts, config.openQueueSize, b, tm);
      var chosen := GetEligibleCashbox();
      if chosen.Err? {
        return Some(chosen.error);
      }
      ghost var i := Route(ts, config.openQueueSize).value;
      ghost var ready := Views();
      assert ready[i] == Open(ts[i]);
      JoinAt(customer, chosen.value, i, tm);
      ghost var joined := Join(Open(ts[i]), b, tm);
      UpdateTwice(ts, i, Open(ts[i]), joined);
      return None;
    }

    /**
     * The arrival itself, once the roll has brought a customer: the customer is created, routed,
     * queued at the (opened) cashbox and offered service. With a bad `max_goods` or no cashbox
     * at all it throws, and the cashboxes are as they were.
     */
    method Arrive(tm: nat, d: Draws) returns (failure: Option<Failure>)
      requires Valid()
      modifies Repr
      ensures Valid() && fresh(Repr - old(Repr)) && cashboxes == old(cashboxes)
      ensures var a := Admit(old(Views()), config, tm, d);
        (a.Err? ==> failure == Some(a.error) && Views() == old(Views())) &&
        (a.Ok? ==> failure == None && Views() == a.value)
    {
      ghost var ts := Views();
      var made := Customer.GetNewCustomer(config.maxGoods, d.goods(tm));
      assert Views() == ts;
      if made.Err? {
        return Some(CustomerError(made.error));
      }
      var customer := made.value;
      assert fresh(customer);
      failure := Place(customer, tm);
      assert Repr - old(Repr) <= {customer};
    }

    /** One cashbox's Cashbox::doWork: it alone changes, as doWork says. */
    method WorkAt(i: nat, tm: int)
      requires Valid() && i < |cashboxes|
      modifies Repr
      ensures Valid() && Repr == old(Repr) && cashboxes == old(cashboxes)
      ensures Views() == old(Views())[i := Work(old(Views())[i], config.cashboxSettings, tm)]
    {
      ghost var ts := Views();
      var cb := cashboxes[i];
      forall j, k | 0 <= j < |cashboxes| && j != i && 0 <= k < |cashboxes[j].customers|
        ensures cashboxes[j].customers[k] !in cb.customers
      {
        assert cashboxes[j].customers[k].cashbox == cashboxes[j] != cb;
      }
      cb.DoWork(tm);
      forall k | 0 <= k < |cb.customers| ensures cb.customers[k] in Repr {
        assert cb.customers[k] in old(cb.customers);
      }
      assert forall j :: 0 <= j < |cashboxes| && j != i ==> cashboxes[j].Valid() && cashboxes[j].View() == ts[j];
    }

    /** Supermarket::processCashboxes: doWork on every cashbox that is not closed, in order. */
    method ProcessCashboxes(tm: nat)
      requires Valid()
      modifies Repr
      ensures Valid() && Repr == old(Repr) && cashboxes == old(cashboxes)
      ensures Views() == Process(old(Views()), config.cashboxSettings, tm)
    {
      ghost var ts := Views();
      ghost var done := Process(ts, config.cashboxSettings, tm);
      var i := 0;
      while i < |cashboxes|
        invariant 0 <= i <= |cashboxes|
        invariant Valid() && Repr == old(Repr) && cashboxes == old(cashboxes)
        invariant forall j :: 0 <= j < |cashboxes| ==> Views()[j] == if j < i then done[j] else ts[j]
      {
        if cashboxes[i].state != Closed {
          WorkAt(i, tm);
        }
        i := i + 1;
      }
      assert Views() == done;
    }

    /**
     * Supermarket::tick: the snapshot of the cashboxes as the second begins, then the arrival
     * and the work of that second.
     */
    method Tick(tm: nat, d: Draws) returns (res: string, failure: Option<Failure>)
      requires Valid()
      modifies Repr
      ensures Valid() && fresh(Repr - old(Repr)) && cashboxes == old(cashboxes)
      ensures res == Snapshot(old(Views()), tm)
      ensures var n := Next(old(Views()), config, tm, d);
        (n.Err? ==> failure == Some(n.error) && Views() == old(Views())) &&
        (n.Ok? ==> failure == None && Views() == n.value)
    {
      res := PrintState(tm);
      failure := GenerateNewCustomer(tm, d);
      if failure.Some? {
        return;
      }
      ProcessCashboxes(tm);
    }

    /**
     * Where a run over the cashboxes `ts` from second `start` has got to before the tick at `tm`:
     * the objects hold the cashboxes it has reached, `failure` is what it threw, and while
     * nothing was thrown `text` is what it printed.
     */
    ghost predicate Reached(ts: seq<Till>, d: Draws, start: nat, tm: nat, failure: Option<Failure>, text: string)
      reads this, Repr
    {
      Valid() && start <= tm &&
      Fold(ts, config, d, start, tm) == Run(Views(), failure) &&
      (failure.None? ==> text == Transcript(ts, config, d, start, tm))
    }

    /**
     * One tick of the loop of calculateModel, at second `tm` of a run from `start` that has not
     * failed yet: its snapshot is appended to the text so far, and the run goes one second on.
     * It hands back `next == tm + 1` so that the caller's loop takes the next second from this
     * contract rather than re-deriving `tm + 1` against `Fold` and `Transcript`, which keeps the
     * verification of the loop small.
     */
    method TickOfRun(tm: nat, d: Draws, ghost ts: seq<Till>, ghost start: nat, text: string)
      returns (res: string, failure: Option<Failure>, next: nat)
      requires Reached(ts, d, start, tm, None, text)
      modifies Repr
      ensures fresh(Repr - old(Repr)) && next == tm + 1
      ensures Reached(ts, d, start, next, failure, res)
    {
      next := tm + 1;
      ghost var before := Views();
      var snapshot;
      snapshot, failure := Tick(tm, d);
      TickExtendsRun(ts, config, d, start, tm, before, failure, Views());
      TickExtendsText(ts, config, d, start, tm, before, text, snapshot);
      res := text + snapshot;
    }

    /** Where the loop of calculateModel stops, it has run the day over the working hours `w`. */
    lemma DayEnds(ts: seq<Till>, d: Draws, w: Window, start: nat, end: nat, tm: nat,
                  failure: Option<Failure>, text: string, r: Result<string, Failure>)
      requires start == FirstSecond(w) && end == EndSecond(w)
      requires Reached(ts, d, start, tm, failure, text) && tm <= end && !(tm < end && failure.None?)
      requires r == if failure.Some? then Err(failure.value) else Ok(text)
      ensures Valid() && Outcome(r, Views()) == Day(ts, config, d, w)
    {
      DayStops(ts, config, d, w, start, end, tm, Views(), failure, text, r);
    }

    /**
     * Supermarket::calculateModel: the settings checks, then one tick per second from
     * `work_start * 3600` to `work_end * 3600` inclusive; the snapshots are returned, or what a
     * tick throws.
     */
    method CalculateModel(d: Draws) returns (r: Result<string, Failure>)
      requires Valid()
      modifies Repr
      ensures Valid() && fresh(Repr - old(Repr))
      ensures Outcome(r, Views()) == Calculate(old(Views()), config, d)
    {
      if config.workStart.None? {
        return Err(SupermarketError(WorkStartMissing));
      }
      if config.workStart.value < 0 {
        return Err(SupermarketError(WorkStartNegative));
      }
      if config.workEnd.None? {
        return Err(SupermarketError(WorkEndMissing));
      }
      if config.workEnd.value < 0 {
        return Err(SupermarketError(WorkEndNegative));
      }
      if config.workStart.value > config.workEnd.value {
        return Err(SupermarketError(StartAfterEnd));
      }
      var w := Window(config.workStart.value, config.workEnd.value);
      assert Validate(config) == Ok(w);
      r := RunDay(w, d);
    }

    /**
     * The loop of Supermarket::calculateModel: one tick per second from `work_start * 3600` to
     * `work_end * 3600` inclusive, appending each snapshot, until a tick throws.
     */
    method RunDay(w: Window, d: Draws) returns (r: Result<string, Failure>)
      requires Valid() && w.start <= w.end
      modifies Repr
      ensures Valid() && fresh(Repr - old(Repr))
      ensures Outcome(r, Views()) == Day(old(Views()), config, d, w)
    {
      var startTime := FirstSecond(w);
      var endTime := EndSecond(w);
      ghost var ts := Views();
      var res := "";
      var tm := startTime;
      var failure: Option<Failure> := None;
      while tm < endTime && failure.None?
        invariant fresh(Repr - old(Repr))
        invariant tm <= endTime && Reached(ts, d, startTime, tm, failure, res)
        decreases endTime - tm
      {
        res, failure, tm := TickOfRun(tm, d, ts, startTime, res);
      }
      r := if failure.Some? then Err(failure.value) else Ok(res);
      DayEnds(ts, d, w, startTime, endTime, tm, failure, res, r);
    }
  }
}
