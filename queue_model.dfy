/**
 * Value model of one checkout station (src/Cashbox.php) and of the customers in its queue
 * (src/Customer.php). The classes in module Checkout are proved to change their state exactly
 * as the functions here say; the lemmas here state what those changes promise.
 */
module QueueModel {
  import opened Wrappers
  import opened Text

  /** Customer::STATE_SHOPPING (0), STATE_QUEUE (1), STATE_BUYS (2). */
  datatype CustomerState = Shopping | Queue | Buys

  /** Cashbox::STATE_CLOSED (1), STATE_OPENED (2), STATE_STANDBY (3). */
  datatype CashboxState = Closed | Opened | Standby

  /** The `cashbox_settings` array: seconds per item, seconds to pay, idle seconds before closing. */
  datatype CashboxSettings = CashboxSettings(checkTime: int, payTime: int, offTime: int)

  /** What a Customer object holds, apart from the back-reference to its cashbox. */
  datatype Buyer = Buyer(goods: int, state: CustomerState, buyStart: Option<int>)

  /** What a Cashbox object holds: its number, state, queue (front first) and idle timestamp. */
  datatype Till = Till(id: nat, state: CashboxState, queue: seq<Buyer>, standbyStart: Option<int>)

  /** PHP arithmetic reads a `null` timestamp as 0. */
  function NullAsZero(t: Option<int>): int {
    if t.Some? then t.value else 0
  }

  /** A customer fresh from `new Customer($goods)`. */
  function NewBuyer(goods: int): (b: Buyer)
    ensures b.goods == goods && b.state == Shopping && b.buyStart == None
  {
    Buyer(goods, Shopping, None)
  }

  /** Position of the first customer at or after `i` that is being served, as the `foreach` scans find it. */
  function FirstBuyerFrom(q: seq<Buyer>, i: nat): (r: Option<nat>)
    requires i <= |q|
    ensures r.Some? ==> i <= r.value < |q| && q[r.value].state == Buys
    ensures r.Some? ==> forall k :: i <= k < r.value ==> q[k].state != Buys
    ensures r.None? <==> forall k :: i <= k < |q| ==> q[k].state != Buys
    decreases |q| - i
  {
    if i == |q| then None
    else if q[i].state == Buys then Some(i)
    else FirstBuyerFrom(q, i + 1)
  }

  function FirstBuyer(q: seq<Buyer>): Option<nat> {
    FirstBuyerFrom(q, 0)
  }

  /** Cashbox::isFree: nobody in the queue is being served. */
  function IsFree(q: seq<Buyer>): (r: bool)
    ensures r <==> forall k :: 0 <= k < |q| ==> q[k].state != Buys
  {
    FirstBuyer(q).None?
  }

  /** `mt_rand(lo, hi)` for a draw `n` supplied from outside: some integer of `[lo, hi]`, each reachable. */
  function Uniform(lo: int, hi: int, n: nat): (r: int)
    requires lo <= hi
    ensures lo <= r <= hi
    ensures 0 <= n <= hi - lo ==> r == lo + n
  {
    lo + n % (hi - lo + 1)
  }

  /** The two CustomerException messages of Customer::getNewCustomer. */
  const MaxGoodsMissing := "Ошибка при создании покупателя. Ожидается параметр max_goods"
  const MaxGoodsNotPositive := "Ошибка при создании покупателя. Параметр max_goods должен быть больше 0"

  /**
   * Customer::getNewCustomer with `max_goods` (absent when the setting is missing) and the
   * goods draw `draw`: the two CustomerException messages, otherwise a shopping customer
   * with between 1 and `max_goods` goods.
   */
  function NewCustomer(maxGoods: Option<int>, draw: nat): (r: Result<Buyer, string>)
    ensures maxGoods.None? ==> r == Err(MaxGoodsMissing)
    ensures maxGoods.Some? && maxGoods.value < 1 ==> r == Err(MaxGoodsNotPositive)
    ensures r.Ok? <==> maxGoods.Some? && maxGoods.value >= 1
    ensures r.Ok? ==> 1 <= r.value.goods <= maxGoods.value && r.value == NewBuyer(r.value.goods)
  {
    if maxGoods.None? then Err(MaxGoodsMissing)
    else if maxGoods.value < 1 then Err(MaxGoodsNotPositive)
    else Ok(NewBuyer(Uniform(1, maxGoods.value, draw)))
  }

  /** Seconds a customer needs at the till: `goods * check_time + pay_time`. */
  function ServiceTime(b: Buyer, s: CashboxSettings): int {
    b.goods * s.checkTime + s.payTime
  }

  /** The served customer may leave at `tm`. */
  predicate Due(b: Buyer, s: CashboxSettings, tm: int) {
    tm - NullAsZero(b.buyStart) >= ServiceTime(b, s)
  }

  /**
   * Customer::startServe for the customer at position `k` of the queue it stands in: it starts
   * being served, from `tm`, exactly when nobody in that queue is being served; otherwise nothing changes.
   */
  function StartServe(q: seq<Buyer>, k: nat, tm: int): (r: seq<Buyer>)
    requires k < |q|
    ensures |r| == |q| && r[k].goods == q[k].goods
    ensures forall j :: 0 <= j < |q| && j != k ==> r[j] == q[j]
    ensures IsFree(q) ==> r[k].state == Buys && r[k].buyStart == Some(tm)
    ensures !IsFree(q) ==> r == q
  {
    if IsFree(q) then q[k := q[k].(state := Buys, buyStart := Some(tm))] else q
  }

  /** Cashbox::open: a closed cashbox opens; any other state is left as it is. */
  function Open(t: Till): (r: Till)
    ensures r.state != Closed
    ensures t.state == Closed ==> r.state == Opened
    ensures t.state != Closed ==> r == t
    ensures r == t.(state := r.state)
  {
    if t.state == Closed then t.(state := Opened) else t
  }

  /** Opening twice is opening once. */
  lemma OpenIdempotent(t: Till)
    ensures Open(Open(t)) == Open(t)
  {
  }

  /**
   * Cashbox::addCustomer: the customer goes to the back of the queue; in STANDBY the idle
   * timestamp is cleared (to PHP null) but the state stays STANDBY.
   */
  function AddCustomer(t: Till, b: Buyer): (r: Till)
    ensures r.queue == t.queue + [b]
    ensures r.id == t.id && r.state == t.state
    ensures r.standbyStart == if t.state == Standby then None else t.standbyStart
  {
    t.(queue := t.queue + [b], standbyStart := if t.state == Standby then None else t.standbyStart)
  }

  /** The message of the CustomerException thrown for a closed cashbox. */
  function ClosedMessage(id: nat): string {
    "Невозможно поставить покупателя в очередь. Касса " + NatToString(id) + " закрыта."
  }

  /**
   * Customer::assignToCashbox, seen from the cashbox: a closed cashbox refuses the customer
   * with an error naming it; otherwise the customer, now queuing, is appended.
   */
  function Assign(t: Till, b: Buyer): (r: Result<Till, string>)
    ensures r.Err? <==> t.state == Closed
    ensures r.Err? ==> r.error == ClosedMessage(t.id)
    ensures r.Ok? ==> r.value.queue == t.queue + [b.(state := Queue)] && r.value.state == t.state
  {
    if t.state == Closed then Err(ClosedMessage(t.id)) else Ok(AddCustomer(t, b.(state := Queue)))
  }

  /** The test in the private Cashbox::close. */
  predicate ShouldClose(t: Till, s: CashboxSettings, tm: int) {
    t.state == Standby && tm - NullAsZero(t.standbyStart) >= s.offTime
  }

  /** Cashbox::freeCustomer: the customer at `k` leaves; the cashbox idles or serves the next front customer. */
  function Release(t: Till, k: nat, tm: int): (r: Till)
    requires k < |t.queue|
    ensures |r.queue| + 1 == |t.queue| && r.id == t.id
    ensures r.queue == [] ==> r.state == Standby && r.standbyStart == Some(tm)
    ensures r.queue != [] ==> r.state == t.state && r.standbyStart == t.standbyStart
  {
    var q := t.queue[..k] + t.queue[k + 1..];
    if |q| == 0 then t.(state := Standby, queue := [], standbyStart := Some(tm))
    else t.(queue := StartServe(q, 0, tm))
  }

  /**
   * Cashbox::doWork at time `tm`: nothing when closed; close a STANDBY cashbox whose idle time
   * ran out (and do nothing else); otherwise release the first served customer if it is due.
   */
  function Work(t: Till, s: CashboxSettings, tm: int): (r: Till)
    ensures r.id == t.id
    ensures t.state == Closed ==> r == t
    ensures ShouldClose(t, s, tm) ==> r == t.(state := Closed)
    ensures |r.queue| == |t.queue| || |r.queue| + 1 == |t.queue|
  {
    if t.state == Closed then t
    else if ShouldClose(t, s, tm) then t.(state := Closed)
    else match FirstBuyer(t.queue)
      case None => t
      case Some(k) => if Due(t.queue[k], s, tm) then Release(t, k, tm) else t
  }

  /**
   * Cashbox::printState: `<id>:X` when closed, `<id>:<queue length>` otherwise. The cell reads
   * back: the digits before the colon are the number, and what follows is `X` exactly when the
   * cashbox is closed and otherwise the digits of the queue length.
   */
  function Render(t: Till): (r: string)
    ensures var n := |NatToString(t.id)|;
      n < |r| && r[n] == ':' && AllDigits(r[..n]) && ParseNat(r[..n]) == t.id
    ensures var rest := r[|NatToString(t.id)| + 1..];
      (t.state == Closed <==> rest == "X") &&
      (t.state != Closed ==> AllDigits(rest) && ParseNat(rest) == |t.queue|)
  {
    var id := NatToString(t.id);
    var rest := if t.state == Closed then "X" else NatToString(|t.queue|);
    ParseNatToString(t.id);
    ParseNatToString(|t.queue|);
    NatToStringDigits(|t.queue|);
    assert (id + ":" + rest)[..|id|] == id;
    assert (id + ":" + rest)[|id| + 1..] == rest;
    id + ":" + rest
  }

  /** A cashbox's state fits on one line. */
  lemma RenderHasNoLineBreak(t: Till)
    ensures '\n' !in Render(t)
  {
    NatToStringHasNoLineBreak(t.id);
    NatToStringHasNoLineBreak(|t.queue|);
  }

  // ----- What the operations promise -----

  /** Only the front customer may be served: at most one server per cashbox. */
  predicate SingleServer(q: seq<Buyer>) {
    forall k :: 0 < k < |q| ==> q[k].state != Buys
  }

  /**
   * The settled shape of a queue between ticks: the front customer is being served and
   * everybody behind it is queuing.
   */
  predicate HeadServing(q: seq<Buyer>) {
    (|q| > 0 ==> q[0].state == Buys) && forall k :: 0 < k < |q| ==> q[k].state == Queue
  }

  /**
   * The queue loses some customers at its front and nothing else: everyone behind the new front
   * is exactly as before, in the same order, and the new front is the same customer (whose
   * service may have started).
   */
  predicate FifoStep(before: seq<Buyer>, after: seq<Buyer>) {
    |after| <= |before| &&
    (forall j :: 0 < j < |after| ==> after[j] == before[j + |before| - |after|]) &&
    (|after| > 0 ==> after[0].goods == before[|before| - |after|].goods)
  }

  /** Releasing the served front customer of a settled queue starts serving the next one and keeps the rest in order. */
  lemma ReleaseFrontKeepsHeadServing(t: Till, tm: int)
    requires HeadServing(t.queue) && |t.queue| > 0
    ensures HeadServing(Release(t, 0, tm).queue)
    ensures FifoStep(t.queue, Release(t, 0, tm).queue)
    ensures |t.queue| > 1 ==> Release(t, 0, tm).queue[0] == t.queue[1].(state := Buys, buyStart := Some(tm))
  {
    var q := t.queue[..0] + t.queue[1..];
    assert q == t.queue[1..];
    if |q| > 0 {
      assert IsFree(q) by {
        forall k | 0 <= k < |q| ensures q[k].state != Buys {
          assert q[k] == t.queue[k + 1];
        }
      }
      var r := StartServe(q, 0, tm);
      assert Release(t, 0, tm).queue == r;
      forall k | 0 < k < |r| ensures r[k].state == Queue {
        assert r[k] == t.queue[k + 1];
      }
    }
  }

  /** With its queue settled, a working cashbox releases (if anyone) its front customer, keeps the settled shape and the order of the rest. */
  lemma WorkKeepsHeadServing(t: Till, s: CashboxSettings, tm: int)
    requires HeadServing(t.queue)
    ensures HeadServing(Work(t, s, tm).queue)
    ensures FifoStep(t.queue, Work(t, s, tm).queue)
    ensures |Work(t, s, tm).queue| == |t.queue| ==> Work(t, s, tm).queue == t.queue
    ensures |Work(t, s, tm).queue| < |t.queue| && |t.queue| > 1 ==>
      Work(t, s, tm).queue[0] == t.queue[1].(state := Buys, buyStart := Some(tm))
  {
    if t.state != Closed && !ShouldClose(t, s, tm) && |t.queue| > 0 {
      assert FirstBuyer(t.queue) == Some(0);
      if Due(t.queue[0], s, tm) {
        ReleaseFrontKeepsHeadServing(t, tm);
      }
    }
  }

  /** Only the front customer may ever be served, whatever state the cashbox is in. */
  lemma WorkKeepsSingleServer(t: Till, s: CashboxSettings, tm: int)
    requires SingleServer(t.queue)
    ensures SingleServer(Work(t, s, tm).queue)
  {
    var r := Work(t, s, tm);
    if t.state != Closed && !ShouldClose(t, s, tm) && FirstBuyer(t.queue).Some? {
      var k := FirstBuyer(t.queue).value;
      if Due(t.queue[k], s, tm) {
        var q := t.queue[..k] + t.queue[k + 1..];
        if |q| > 0 {
          assert r.queue == StartServe(q, 0, tm);
          forall j | 0 < j < |r.queue| ensures r.queue[j].state != Buys {
            assert r.queue[j] == q[j];
            assert q[j] == t.queue[if j < k then j else j + 1];
          }
        }
      }
    }
  }

  /** A customer joins a cashbox that is not closed and immediately tries to start being served. */
  function Join(t: Till, b: Buyer, tm: int): (r: Till)
    requires t.state != Closed
    ensures |r.queue| == |t.queue| + 1 && r.queue[..|t.queue|] == t.queue
    ensures r.queue[|t.queue|].goods == b.goods
    ensures r.id == t.id && r.state == t.state
  {
    var joined := Assign(t, b).value;
    joined.(queue := StartServe(joined.queue, |joined.queue| - 1, tm))
  }

  /** A newcomer is served at once exactly when the queue it joins was empty; either way the queue stays settled. */
  lemma JoinKeepsHeadServing(t: Till, b: Buyer, tm: int)
    requires t.state != Closed && HeadServing(t.queue)
    ensures HeadServing(Join(t, b, tm).queue)
    ensures Join(t, b, tm).queue[|t.queue|].state == (if t.queue == [] then Buys else Queue)
    ensures t.queue == [] ==> Join(t, b, tm).queue[0].buyStart == Some(tm)
  {
    var q := t.queue + [b.(state := Queue)];
    if t.queue != [] {
      assert q[0].state == Buys;
      assert !IsFree(q);
    } else {
      assert IsFree(q);
    }
  }

  /** A served customer is released exactly when its service time has passed, and then only it leaves. */
  lemma ReleaseExactlyWhenDue(t: Till, s: CashboxSettings, tm: int)
    requires t.state != Closed && !ShouldClose(t, s, tm)
    requires HeadServing(t.queue) && |t.queue| > 0
    ensures |Work(t, s, tm).queue| < |t.queue| <==> Due(t.queue[0], s, tm)
    ensures !Due(t.queue[0], s, tm) ==> Work(t, s, tm) == t
  {
    assert FirstBuyer(t.queue) == Some(0);
  }

  /** A STANDBY cashbox closes exactly when its idle time has run out, and closing serves nobody. */
  lemma StandbyClosesExactly(t: Till, s: CashboxSettings, tm: int)
    requires t.state == Standby
    ensures Work(t, s, tm).state == Closed <==> tm - NullAsZero(t.standbyStart) >= s.offTime
    ensures Work(t, s, tm).state == Closed ==> Work(t, s, tm).queue == t.queue
  {
  }

  /**
   * The PHP code as written: a customer who joins a STANDBY cashbox clears its idle timestamp
   * to null, which reads as 0, so at any `tm >= off_time` the next doWork closes the cashbox
   * with that customer still in its queue.
   */
  lemma StandbyArrivalIsClosedOn(t: Till, b: Buyer, s: CashboxSettings, tm: int)
    requires t.state == Standby && tm >= s.offTime
    ensures Work(Join(t, b, tm), s, tm).state == Closed
    ensures Work(Join(t, b, tm), s, tm).queue == Join(t, b, tm).queue != []
  {
  }

  /** `n` consecutive doWork calls at `from`, `from + 1`, ..., `from + n - 1`. */
  function WorkRun(t: Till, s: CashboxSettings, from: int, n: nat): (r: Till)
    ensures r.id == t.id
  {
    if n == 0 then t else Work(WorkRun(t, s, from, n - 1), s, from + n - 1)
  }

  /**
   * Service takes exactly `goods * check_time + pay_time` seconds: a front customer who starts
   * being served at `b` is still at the till after the doWork calls of ticks `b` .. `b + D - 1`
   * and leaves on the doWork of tick `b + D`.
   */
  lemma {:induction false} ServiceLastsExactly(t: Till, s: CashboxSettings, b: int, n: nat)
    requires t.state == Opened && HeadServing(t.queue) && |t.queue| > 0
    requires t.queue[0].buyStart == Some(b) && 0 <= ServiceTime(t.queue[0], s)
    requires n <= ServiceTime(t.queue[0], s)
    ensures WorkRun(t, s, b, n) == t
    ensures n == ServiceTime(t.queue[0], s) ==> |Work(WorkRun(t, s, b, n), s, b + n).queue| + 1 == |t.queue|
  {
    if n > 0 {
      ServiceLastsExactly(t, s, b, n - 1);
      ReleaseExactlyWhenDue(t, s, b + n - 1);
    }
    ReleaseExactlyWhenDue(t, s, b + n);
  }

  /**
   * An idle cashbox closes exactly `off_time` seconds after it became idle at `b`: the doWork
   * calls of ticks `b + 1` .. `b + off_time - 1` leave it alone, the one at `b + off_time` closes it.
   */
  lemma {:induction false} StandbyLastsExactly(t: Till, s: CashboxSettings, b: int, n: nat)
    requires t.state == Standby && t.queue == [] && t.standbyStart == Some(b)
    requires n < s.offTime
    ensures WorkRun(t, s, b + 1, n) == t
    ensures n + 1 == s.offTime ==> Work(WorkRun(t, s, b + 1, n), s, b + 1 + n).state == Closed
  {
    if n > 0 {
      StandbyLastsExactly(t, s, b, n - 1);
    }
  }
}
