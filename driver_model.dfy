/**
 * Value model of the simulation driver (src/Supermarket.php): settings and their validation,
 * the routing of a new customer, the hourly snapshot, one tick and a whole run. The class in
 * module Market is proved to follow these functions; the lemmas here state what they promise.
 */
module DriverModel {
  import opened Wrappers
  import opened Text
  import opened QueueModel

  /** Supermarket::HOUR_SECONDS. */
  const HourSeconds: nat := 3600

  /**
   * The settings array. `workStart`, `workEnd` and `maxGoods` are absent (None) when the key is
   * missing, since only those three are tested with `isset`. `arrivalPercent` maps an hour to
   * `customer_probability_map[hour] * 100`.
   */
  datatype Config = Config(
    cashboxQuantity: int,
    openQueueSize: int,
    cashboxSettings: CashboxSettings,
    workStart: Option<int>,
    workEnd: Option<int>,
    arrivalPercent: map<int, int>,
    maxGoods: Option<int>,
    newCustomerInterval: int)

  /**
   * The two `mt_rand` draws, supplied from outside and indexed by the second they are made in
   * (at most one of each per second): the arrival roll and the goods count.
   */
  datatype Draws = Draws(roll: nat -> nat, goods: nat -> nat)

  /** What makes calculateModel throw. */
  datatype Failure =
    | SupermarketError(message: string)  // SupermarketException from the settings checks
    | CustomerError(message: string)     // CustomerException while creating or queuing a customer
    | NoCashbox                          // `$closedCashbox->open()` on null: there is no cashbox at all
    | ModuloByZero                       // `$tm % new_customer_interval` with a zero interval

  const WorkStartMissing := "Ошибка: ожидается параметр work_start"
  const WorkStartNegative := "Ошибка: Параметр work_start должен быть целым положительным числом"
  const WorkEndMissing := "Ошибка: ожидается параметр work_end"
  const WorkEndNegative := "Ошибка: Параметр work_end должен быть целым положительным числом"
  /** Literally as in the source, although the check it reports is "work_start exceeds work_end". */
  const StartAfterEnd := "Ошибка: Параметр work_start должен быть больше параметра work_end"

  /** The working hours, first and last. */
  datatype Window = Window(start: nat, end: nat)

  /** The second the run starts at: `work_start * 3600`. */
  function FirstSecond(w: Window): nat {
    w.start * HourSeconds
  }

  /** The second after the last one the run ticks through, `work_end * 3600` being the last. */
  function EndSecond(w: Window): nat {
    w.end * HourSeconds + 1
  }

  /**
   * The checks at the top of calculateModel. They run in a fixed order and the first that
   * fails decides the message: missing work_start, negative work_start, missing work_end,
   * negative work_end, work_start after work_end.
   */
  function Validate(c: Config): (r: Result<Window, string>)
    ensures r.Ok? <==> c.workStart.Some? && c.workEnd.Some? && 0 <= c.workStart.value <= c.workEnd.value
    ensures r.Ok? ==> r.value.start == c.workStart.value && r.value.end == c.workEnd.value
    ensures c.workStart.None? ==> r == Err(WorkStartMissing)
    ensures c.workStart.Some? && c.workStart.value < 0 ==> r == Err(WorkStartNegative)
    ensures c.workStart.Some? && c.workStart.value >= 0 && c.workEnd.None? ==> r == Err(WorkEndMissing)
    ensures c.workStart.Some? && c.workStart.value >= 0 && c.workEnd.Some? && c.workEnd.value < 0 ==>
      r == Err(WorkEndNegative)
    ensures c.workStart.Some? && c.workEnd.Some? && 0 <= c.workEnd.value < c.workStart.value ==>
      r == Err(StartAfterEnd)
  {
    if c.workStart.None? then Err(WorkStartMissing)
    else if c.workStart.value < 0 then Err(WorkStartNegative)
    else if c.workEnd.None? then Err(WorkEndMissing)
    else if c.workEnd.value < 0 then Err(WorkEndNegative)
    else if c.workStart.value > c.workEnd.value then Err(StartAfterEnd)
    else Ok(Window(c.workStart.value, c.workEnd.value))
  }

  /** The cashboxes made by generateCashboxes: `cashbox_quantity` of them, numbered from 0, all closed and empty. */
  function Initial(quantity: int): (ts: seq<Till>)
    ensures |ts| == if quantity < 0 then 0 else quantity
    ensures forall i :: 0 <= i < |ts| ==> ts[i] == Till(i, Closed, [], None)
  {
    seq(if quantity < 0 then 0 else quantity, i requires 0 <= i => Till(i, Closed, [], None))
  }

  // ----- Routing: getEligibleCashbox -----

  /** OPENED or STANDBY: a cashbox a customer may be sent to without opening it. */
  predicate IsOpen(t: Till) {
    t.state == Opened || t.state == Standby
  }

  /** The first closed cashbox among the first `n`, as the scan remembers it. */
  function FirstClosedIn(ts: seq<Till>, n: nat): (r: Option<nat>)
    requires n <= |ts|
    ensures r.Some? ==> r.value < n
  {
    if n == 0 then None
    else
      var p := FirstClosedIn(ts, n - 1);
      if p.None? && ts[n - 1].state == Closed then Some(n - 1) else p
  }

  /** The scan finds a closed cashbox, the first one, exactly when there is one. */
  lemma {:induction false} FirstClosedInFinds(ts: seq<Till>, n: nat)
    requires n <= |ts|
    ensures var r := FirstClosedIn(ts, n);
      (r.Some? ==> ts[r.value].state == Closed && forall k :: 0 <= k < r.value ==> ts[k].state != Closed) &&
      (r.None? <==> forall k :: 0 <= k < n ==> ts[k].state != Closed)
    decreases n
  {
    if n > 0 {
      FirstClosedInFinds(ts, n - 1);
    }
  }

  /**
   * The open cashbox with the shortest queue among the first `n`: a later one replaces the
   * candidate only when its queue is strictly shorter, so ties go to the lower index.
   */
  function BestOpenIn(ts: seq<Till>, n: nat): (r: Option<nat>)
    requires n <= |ts|
    ensures r.Some? ==> r.value < n
  {
    if n == 0 then None
    else
      var p := BestOpenIn(ts, n - 1);
      if IsOpen(ts[n - 1]) && (p.None? || |ts[p.value].queue| > |ts[n - 1].queue|) then Some(n - 1) else p
  }

  /**
   * The scan finds an open cashbox exactly when there is one; its queue is strictly shorter than
   * every earlier open queue and no longer than every later one.
   */
  lemma {:induction false} BestOpenInFinds(ts: seq<Till>, n: nat)
    requires n <= |ts|
    ensures var r := BestOpenIn(ts, n);
      (r.Some? ==> IsOpen(ts[r.value])) &&
      (r.Some? ==> forall k :: 0 <= k < r.value && IsOpen(ts[k]) ==> |ts[k].queue| > |ts[r.value].queue|) &&
      (r.Some? ==> forall k :: r.value < k < n && IsOpen(ts[k]) ==> |ts[k].queue| >= |ts[r.value].queue|) &&
      (r.None? <==> forall k :: 0 <= k < n ==> !IsOpen(ts[k]))
    decreases n
  {
    if n > 0 {
      BestOpenInFinds(ts, n - 1);
    }
  }

  /**
   * The cashbox getEligibleCashbox hands out (the caller opens it): the first closed one when
   * nothing is open, or when the best open queue has reached `threshold` and a closed one
   * exists; the best open one otherwise. None when there is no cashbox at all.
   */
  function Route(ts: seq<Till>, threshold: int): (r: Option<nat>)
    ensures r.None? <==> |ts| == 0
    ensures r.Some? ==> r.value < |ts|
  {
    var best := BestOpenIn(ts, |ts|);
    var closed := FirstClosedIn(ts, |ts|);
    BestOpenInFinds(ts, |ts|);
    FirstClosedInFinds(ts, |ts|);
    if best.None? || (|ts[best.value].queue| >= threshold && closed.Some?) then closed else best
  }

  /** An open cashbox is chosen only when no open queue is shorter and no earlier open queue is as short. */
  lemma RouteToOpen(ts: seq<Till>, threshold: int)
    requires Route(ts, threshold).Some? && IsOpen(ts[Route(ts, threshold).value])
    ensures var r := Route(ts, threshold).value;
      (forall k :: 0 <= k < |ts| && IsOpen(ts[k]) ==> |ts[k].queue| >= |ts[r].queue|) &&
      (forall k :: 0 <= k < r && IsOpen(ts[k]) ==> |ts[k].queue| > |ts[r].queue|)
    ensures var r := Route(ts, threshold).value;
      |ts[r].queue| < threshold || forall k :: 0 <= k < |ts| ==> ts[k].state != Closed
  {
    BestOpenInFinds(ts, |ts|);
    FirstClosedInFinds(ts, |ts|);
  }

  /** A closed cashbox is chosen only when it is the first closed one and every open queue has reached the threshold. */
  lemma RouteToClosed(ts: seq<Till>, threshold: int)
    requires Route(ts, threshold).Some? && ts[Route(ts, threshold).value].state == Closed
    ensures Route(ts, threshold) == FirstClosedIn(ts, |ts|)
    ensures forall k :: 0 <= k < |ts| && IsOpen(ts[k]) ==> |ts[k].queue| >= threshold
  {
    BestOpenInFinds(ts, |ts|);
    FirstClosedInFinds(ts, |ts|);
    var best := BestOpenIn(ts, |ts|);
    if best.Some? {
      forall k | 0 <= k < |ts| && IsOpen(ts[k]) ensures |ts[k].queue| >= threshold {
        if k < best.value {
          assert |ts[k].queue| > |ts[best.value].queue|;
        }
      }
    }
  }

  /** Of two open cashboxes with equally short queues, the later one is never chosen. */
  lemma RouteTieBreak(ts: seq<Till>, threshold: int, i: nat, j: nat)
    requires i < j < |ts| && IsOpen(ts[i]) && IsOpen(ts[j]) && |ts[i].queue| == |ts[j].queue|
    ensures Route(ts, threshold) != Some(j)
  {
    BestOpenInFinds(ts, |ts|);
    FirstClosedInFinds(ts, |ts|);
  }

  // ----- One tick -----

  /** `customer_probability_map[hour] * 100`; a missing hour is PHP null, which multiplies to 0. */
  function ArrivalPercent(m: map<int, int>, hour: int): int {
    if hour in m then m[hour] else 0
  }

  /**
   * The customer `b`, just created, routed, queued at the (opened) cashbox and then offered
   * service. The absence of any cashbox throws; the closed-cashbox refusal is modelled too,
   * though it cannot arise.
   */
  function Placement(ts: seq<Till>, threshold: int, b: Buyer, tm: nat): (r: Result<seq<Till>, Failure>)
    ensures r.Ok? ==> |r.value| == |ts|
  {
    match Route(ts, threshold)
    case None => Err(NoCashbox)
    case Some(i) =>
      match Assign(Open(ts[i]), b)
      case Err(m) => Err(CustomerError(m))
      case Ok(t) => Ok(ts[i := t.(queue := StartServe(t.queue, |t.queue| - 1, tm))])
  }

  /** A customer brought by the roll at second `tm`: created with the goods draw, then placed. */
  function Admit(ts: seq<Till>, c: Config, tm: nat, d: Draws): (r: Result<seq<Till>, Failure>)
    ensures r.Ok? ==> |r.value| == |ts|
  {
    match NewCustomer(c.maxGoods, d.goods(tm))
    case Err(m) => Err(CustomerError(m))
    case Ok(b) => Placement(ts, c.openQueueSize, b, tm)
  }

  /**
   * generateNewCustomer at second `tm`: every `new_customer_interval` seconds, a roll of
   * `mt_rand(1, 100)` not above the hour's percentage brings a customer.
   */
  function Arrival(ts: seq<Till>, c: Config, tm: nat, d: Draws): (r: Result<seq<Till>, Failure>)
    ensures r.Ok? ==> |r.value| == |ts|
    ensures c.newCustomerInterval == 0 ==> r == Err(ModuloByZero)
    ensures c.newCustomerInterval != 0 && tm % c.newCustomerInterval != 0 ==> r == Ok(ts)
    ensures c.newCustomerInterval != 0 && tm % c.newCustomerInterval == 0 ==>
      if Uniform(1, 100, d.roll(tm)) <= ArrivalPercent(c.arrivalPercent, tm / HourSeconds)
      then r == Admit(ts, c, tm, d) else r == Ok(ts)
  {
    if c.newCustomerInterval == 0 then Err(ModuloByZero)
    else if tm % c.newCustomerInterval != 0 then Ok(ts)
    else if Uniform(1, 100, d.roll(tm)) > ArrivalPercent(c.arrivalPercent, tm / HourSeconds) then Ok(ts)
    else Admit(ts, c, tm, d)
  }

  /**
   * Routing always hands out a cashbox that is open or has just been opened, so the
   * closed-cashbox CustomerException never escapes: an admission fails only for a bad
   * `max_goods` or no cashbox at all; otherwise exactly the routed cashbox gains the new
   * customer at the back of its queue.
   */
  lemma AdmitJoinsRoutedTill(ts: seq<Till>, c: Config, tm: nat, d: Draws)
    ensures var r := Admit(ts, c, tm, d);
      match NewCustomer(c.maxGoods, d.goods(tm))
      case Err(m) => r == Err(CustomerError(m))
      case Ok(b) =>
        if |ts| == 0 then r == Err(NoCashbox)
        else var i := Route(ts, c.openQueueSize).value;
          r == Ok(ts[i := Join(Open(ts[i]), b, tm)])
  {
    if NewCustomer(c.maxGoods, d.goods(tm)).Ok? {
      PlacementJoinsRoutedTill(ts, c.openQueueSize, NewCustomer(c.maxGoods, d.goods(tm)).value, tm);
    }
  }

  /** Placing a customer fails only when there is no cashbox; otherwise the routed cashbox gains it. */
  lemma PlacementJoinsRoutedTill(ts: seq<Till>, threshold: int, b: Buyer, tm: nat)
    ensures |ts| == 0 ==> Placement(ts, threshold, b, tm) == Err(NoCashbox)
    ensures |ts| > 0 ==> var i := Route(ts, threshold).value;
      Placement(ts, threshold, b, tm) == Ok(ts[i := Join(Open(ts[i]), b, tm)])
  {
  }

  /** The error Arrival reports is never the closed-cashbox one. */
  lemma ArrivalNeverRefused(ts: seq<Till>, c: Config, tm: nat, d: Draws)
    ensures Arrival(ts, c, tm, d).Err? ==>
      Arrival(ts, c, tm, d).error in {ModuloByZero, NoCashbox} ||
      NewCustomer(c.maxGoods, d.goods(tm)) == Err(Arrival(ts, c, tm, d).error.message)
  {
  }

  /** processCashboxes: doWork on every cashbox that is not closed, in index order. */
  function Process(ts: seq<Till>, s: CashboxSettings, tm: int): (r: seq<Till>)
    ensures |r| == |ts|
  {
    seq(|ts|, i requires 0 <= i < |ts| => if ts[i].state != Closed then Work(ts[i], s, tm) else ts[i])
  }

  /** Skipping closed cashboxes changes nothing, since doWork itself leaves a closed cashbox alone. */
  lemma ProcessWorksEveryTill(ts: seq<Till>, s: CashboxSettings, tm: int)
    ensures forall i :: 0 <= i < |ts| ==> Process(ts, s, tm)[i] == Work(ts[i], s, tm)
  {
  }

  const Separator := "  |  "

  /** The printState of each of the first `n` cashboxes, each followed by the separator; all on one line. */
  function Cells(ts: seq<Till>, n: nat): string
    requires n <= |ts|
  {
    if n == 0 then "" else Cells(ts, n - 1) + Render(ts[n - 1]) + Separator
  }

  lemma {:induction false} CellsHaveNoLineBreak(ts: seq<Till>, n: nat)
    requires n <= |ts|
    ensures '\n' !in Cells(ts, n)
    decreases n
  {
    if n > 0 {
      var front := Cells(ts, n - 1);
      var cell := Render(ts[n - 1]);
      CellsHaveNoLineBreak(ts, n - 1);
      RenderHasNoLineBreak(ts[n - 1]);
      NoLineBreakConcat(front, cell);
      NoLineBreakConcat(front + cell, Separator);
    }
  }

  /** Joining two texts without a line break gives a text without one. */
  lemma NoLineBreakConcat(a: string, b: string)
    requires '\n' !in a && '\n' !in b
    ensures '\n' !in a + b
  {
  }

  /** Whether second `tm` falls on the hour: 1 if so, 0 otherwise. */
  function HourMark(tm: nat): nat {
    if tm % HourSeconds == 0 then 1 else 0
  }

  /** How many of the seconds `start` .. `end - 1` fall on the hour. */
  function HourMarks(start: nat, end: nat): nat {
    if end <= start then 0 else HourMarks(start, end - 1) + HourMark(end - 1)
  }

  /**
   * printState of the supermarket: on the hour, `Час H: ` then every cell, then a line break;
   * nothing otherwise. So it prints exactly one line on the hour and none at any other second.
   */
  function Snapshot(ts: seq<Till>, tm: nat): (r: string)
    ensures r == "" <==> tm % HourSeconds != 0
    ensures r != "" ==> r[|r| - 1] == '\n' && '\n' !in r[..|r| - 1]
  {
    NatToStringHasNoLineBreak(tm / HourSeconds);
    CellsHaveNoLineBreak(ts, |ts|);
    var line := "Час " + NatToString(tm / HourSeconds) + ": " + Cells(ts, |ts|);
    assert (line + "\n")[..|line|] == line;
    if tm % HourSeconds == 0 then line + "\n" else ""
  }

  /** A snapshot is one line on the hour and nothing at any other second. */
  lemma SnapshotLines(ts: seq<Till>, tm: nat)
    ensures Count('\n', Snapshot(ts, tm)) == HourMark(tm)
  {
    var r := Snapshot(ts, tm);
    if r != "" {
      var head := r[..|r| - 1];
      CountAbsent('\n', head);
      CountConcat('\n', head, "\n");
      assert r == head + "\n";
    }
  }

  /**
   * The cashboxes after the arrival and the work of second `tm` (the part of tick after the
   * snapshot), or what the arrival throws; a throw leaves the cashboxes as they were.
   */
  function Next(ts: seq<Till>, c: Config, tm: nat, d: Draws): (r: Result<seq<Till>, Failure>)
    ensures r.Ok? ==> |r.value| == |ts|
    ensures r.Err? <==> Arrival(ts, c, tm, d).Err?
    ensures r.Err? ==> r.error == Arrival(ts, c, tm, d).error
    ensures r.Ok? ==> r.value == Process(Arrival(ts, c, tm, d).value, c.cashboxSettings, tm)
  {
    match Arrival(ts, c, tm, d)
    case Err(f) => Err(f)
    case Ok(arrived) => Ok(Process(arrived, c.cashboxSettings, tm))
  }

  /** The cashboxes after some seconds of simulation, and what was thrown, if anything. */
  datatype Run = Run(tills: seq<Till>, failure: Option<Failure>)

  /**
   * The arrivals and work of seconds `start` .. `end - 1` in order, stopping at the first one
   * that throws; a second that throws leaves the cashboxes as they were.
   */
  function Fold(ts: seq<Till>, c: Config, d: Draws, start: nat, end: nat): (r: Run)
    ensures |r.tills| == |ts|
  {
    if end <= start then Run(ts, None)
    else
      var prev := Fold(ts, c, d, start, end - 1);
      if prev.failure.Some? then prev
      else match Next(prev.tills, c, end - 1, d)
        case Err(f) => Run(prev.tills, Some(f))
        case Ok(after) => Run(after, None)
  }

  /**
   * The text of a run: each tick prints its snapshot of the cashboxes before its arrival and
   * work, so the text holds one line per second of the run that falls on the hour. (Once a
   * second has thrown, the text is never returned.)
   */
  function Transcript(ts: seq<Till>, c: Config, d: Draws, start: nat, end: nat): string
  {
    if end <= start then ""
    else Transcript(ts, c, d, start, end - 1) + Snapshot(Fold(ts, c, d, start, end - 1).tills, end - 1)
  }

  /**
   * The text of a run holds exactly one line break per second of the run that falls on the hour.
   * The induction runs forwards, second by second, as a loop over `TranscriptStepLines`: unfolding
   * `Transcript` and `Fold` together in a recursive lemma gives the solver far more to consider.
   */
  lemma TranscriptLines(ts: seq<Till>, c: Config, d: Draws, start: nat, end: nat)
    ensures Count('\n', Transcript(ts, c, d, start, end)) == HourMarks(start, end)
  {
    if start < end {
      var tm := start;
      while tm != end
        invariant start <= tm <= end
        invariant Count('\n', Transcript(ts, c, d, start, tm)) == HourMarks(start, tm)
        decreases end - tm
      {
        tm := TranscriptStepLines(ts, c, d, start, tm);
      }
    }
  }

  /** Second `tm` of a run adds its hour mark to the line count of the text. */
  lemma TranscriptStepLines(ts: seq<Till>, c: Config, d: Draws, start: nat, tm: nat) returns (next: nat)
    requires start <= tm
    requires Count('\n', Transcript(ts, c, d, start, tm)) == HourMarks(start, tm)
    ensures next == tm + 1
    ensures Count('\n', Transcript(ts, c, d, start, next)) == HourMarks(start, next)
  {
    next := tm + 1;
    var text := Transcript(ts, c, d, start, tm);
    var tills := Fold(ts, c, d, start, tm).tills;
    TickExtendsText(ts, c, d, start, tm, tills, text, Snapshot(tills, tm));
    AppendSnapshotLines(text, tills, tm);
  }

  /** Appending a snapshot adds its hour mark to the line count of a text. */
  lemma AppendSnapshotLines(text: string, ts: seq<Till>, tm: nat)
    ensures Count('\n', text + Snapshot(ts, tm)) == Count('\n', text) + HourMark(tm)
  {
    SnapshotLines(ts, tm);
    CountConcat('\n', text, Snapshot(ts, tm));
  }

  /**
   * The tick at second `tm` of a run that has not failed yet: given what it leaves behind or
   * throws, the run is extended by that second.
   */
  lemma TickExtendsRun(ts: seq<Till>, c: Config, d: Draws, start: nat, tm: nat,
                       before: seq<Till>, failure: Option<Failure>, after: seq<Till>)
    requires start <= tm && Fold(ts, c, d, start, tm) == Run(before, None)
    requires Next(before, c, tm, d).Err? ==> failure == Some(Next(before, c, tm, d).error) && after == before
    requires Next(before, c, tm, d).Ok? ==> failure == None && after == Next(before, c, tm, d).value
    ensures Fold(ts, c, d, start, tm + 1) == Run(after, failure)
  {
  }

  /** One more second of a run: a run that has failed stays as it is; otherwise the tick at `tm` either fails or moves the cashboxes on. */
  lemma FoldStep(ts: seq<Till>, c: Config, d: Draws, start: nat, tm: nat, prev: Run)
    requires start <= tm && prev == Fold(ts, c, d, start, tm)
    ensures prev.failure.Some? ==> Fold(ts, c, d, start, tm + 1) == prev
    ensures prev.failure.None? && Next(prev.tills, c, tm, d).Err? ==>
      Fold(ts, c, d, start, tm + 1) == Run(prev.tills, Some(Next(prev.tills, c, tm, d).error))
    ensures prev.failure.None? && Next(prev.tills, c, tm, d).Ok? ==>
      Fold(ts, c, d, start, tm + 1) == Run(Next(prev.tills, c, tm, d).value, None)
  {
  }

  /** The tick at second `tm` prints the snapshot of the cashboxes it starts from after the text so far. */
  lemma TickExtendsText(ts: seq<Till>, c: Config, d: Draws, start: nat, tm: nat,
                        before: seq<Till>, text: string, snapshot: string)
    requires start <= tm && Fold(ts, c, d, start, tm).tills == before
    requires text == Transcript(ts, c, d, start, tm)
    requires snapshot == Snapshot(before, tm)
    ensures text + snapshot == Transcript(ts, c, d, start, tm + 1)
  {
  }

  /** Once a second has thrown, further seconds change nothing: the run stays as it stopped. */
  lemma {:induction false} FoldStopsAtFailure(ts: seq<Till>, c: Config, d: Draws, start: nat, stop: nat, end: nat)
    requires start <= stop <= end && Fold(ts, c, d, start, stop).failure.Some?
    ensures Fold(ts, c, d, start, end) == Fold(ts, c, d, start, stop)
    decreases end
  {
    if end > stop {
      FoldStopsAtFailure(ts, c, d, start, stop, end - 1);
    }
  }

  /**
   * Where the loop of a run stops, at second `tm`: either a tick has thrown or every second
   * before `end` has ticked. Either way the run up to `end` is the run up to `tm`.
   */
  lemma RunStops(ts: seq<Till>, c: Config, d: Draws, start: nat, tm: nat, end: nat,
                 tills: seq<Till>, failure: Option<Failure>, text: string)
    requires start <= tm <= end && !(tm < end && failure.None?)
    requires Fold(ts, c, d, start, tm) == Run(tills, failure)
    requires failure.None? ==> text == Transcript(ts, c, d, start, tm)
    ensures Fold(ts, c, d, start, end) == Run(tills, failure)
    ensures failure.None? ==> text == Transcript(ts, c, d, start, end)
  {
    if failure.Some? {
      FoldStopsAtFailure(ts, c, d, start, tm, end);
    }
  }

  /** What calculateModel returns or throws, and the cashboxes it leaves behind. */
  datatype Outcome = Outcome(result: Result<string, Failure>, tills: seq<Till>)

  /**
   * The loop of calculateModel over the working hours `w`: one tick per second from
   * `work_start * 3600` to `work_end * 3600` inclusive, concatenating their snapshots, unless
   * a tick throws.
   */
  function Day(ts: seq<Till>, c: Config, d: Draws, w: Window): (r: Outcome)
    ensures |r.tills| == |ts|
    ensures r.result.Err? <==> Fold(ts, c, d, FirstSecond(w), EndSecond(w)).failure.Some?
  {
    var run := Fold(ts, c, d, FirstSecond(w), EndSecond(w));
    Outcome(if run.failure.Some? then Err(run.failure.value) else Ok(Transcript(ts, c, d, FirstSecond(w), EndSecond(w))), run.tills)
  }

  /**
   * Where the loop over the seconds `start` .. `end - 1` of `w` stops, at second `tm`: either a
   * tick has thrown or every second has ticked. Either way it ends as the day does.
   */
  lemma DayStops(ts: seq<Till>, c: Config, d: Draws, w: Window, start: nat, end: nat, tm: nat,
                 tills: seq<Till>, failure: Option<Failure>, text: string, r: Result<string, Failure>)
    requires start == FirstSecond(w) && end == EndSecond(w)
    requires start <= tm <= end && !(tm < end && failure.None?)
    requires Fold(ts, c, d, start, tm) == Run(tills, failure)
    requires failure.None? ==> text == Transcript(ts, c, d, start, tm)
    requires r == if failure.Some? then Err(failure.value) else Ok(text)
    ensures Outcome(r, tills) == Day(ts, c, d, w)
  {
    RunStops(ts, c, d, start, tm, end, tills, failure, text);
  }

  /** calculateModel: the settings checks, then the day. */
  function Calculate(ts: seq<Till>, c: Config, d: Draws): (r: Outcome)
    ensures Validate(c).Err? ==> r == Outcome(Err(SupermarketError(Validate(c).error)), ts)
  {
    match Validate(c)
    case Err(m) => Outcome(Err(SupermarketError(m)), ts)
    case Ok(w) => Day(ts, c, d, w)
  }

  /** Writing the same position twice keeps only the second write. */
  lemma UpdateTwice(ts: seq<Till>, i: nat, a: Till, b: Till)
    requires i < |ts|
    ensures ts[i := a][i := b] == ts[i := b]
  {
  }
}
