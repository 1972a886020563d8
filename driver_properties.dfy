/**
 * What a whole run of the driver promises: one snapshot line per working hour, the queue shape
 * kept by every tick, and the scenarios of tests/SupermarketTest.php.
 */
module DriverProperties {
  import opened Wrappers
  import opened Text
  import opened QueueModel
  import opened DriverModel

  // ----- Snapshot lines -----

  /** The hour marks of adjoining stretches of seconds add up. */
  lemma {:induction false} HourMarksSplit(start: nat, mid: nat, end: nat)
    requires start <= mid <= end
    ensures HourMarks(start, end) == HourMarks(start, mid) + HourMarks(mid, end)
    decreases end
  {
    if end > mid {
      HourMarksSplit(start, mid, end - 1);
    }
  }

  /** The second `j` of hour `h` is on the hour only when `j` is 0. */
  lemma SecondOfHour(h: nat, j: nat)
    requires j < HourSeconds
    ensures (h * HourSeconds + j) % HourSeconds == j
  {
    assert h * 3600 + j == 3600 * h + j;
  }

  /** No second of an hour after its first is on the hour. */
  lemma {:induction false} NoMarkWithinHour(h: nat, j: nat)
    requires j < HourSeconds
    ensures HourMarks(h * HourSeconds + 1, h * HourSeconds + 1 + j) == 0
    decreases j
  {
    if j > 0 {
      NoMarkWithinHour(h, j - 1);
      SecondOfHour(h, j);
    }
  }

  /** Each hour, second 0 to second 3599, holds exactly one mark. */
  lemma OneMarkPerHour(h: nat)
    ensures HourMarks(h * HourSeconds, h * HourSeconds + HourSeconds) == 1
  {
    HourMarksSplit(h * HourSeconds, h * HourSeconds + 1, h * HourSeconds + HourSeconds);
    SecondOfHour(h, 0);
    assert HourMarks(h * HourSeconds, h * HourSeconds + 1) == 1;
    NoMarkWithinHour(h, HourSeconds - 1);
  }

  /** The seconds from hour `a` to hour `a + k` inclusive hold `k + 1` full hours. */
  lemma {:induction false} HourMarksOfHours(a: nat, k: nat)
    ensures HourMarks(a * HourSeconds, (a + k) * HourSeconds + 1) == k + 1
    decreases k
  {
    if k == 0 {
      SecondOfHour(a, 0);
      assert HourMarks(a * HourSeconds, a * HourSeconds + 1) == HourMarks(a * HourSeconds, a * HourSeconds) + 1;
    } else {
      OneMarkPerHour(a);
      HourMarksOfHours(a + 1, k - 1);
      assert a * HourSeconds + HourSeconds == (a + 1) * HourSeconds;
      assert (a + 1 + (k - 1)) * HourSeconds == (a + k) * HourSeconds;
      HourMarksSplit(a * HourSeconds, (a + 1) * HourSeconds, (a + k) * HourSeconds + 1);
    }
  }

  /** The seconds of the working hours hold one hour mark per working hour. */
  lemma HourMarksOfWindow(w: Window)
    requires w.start <= w.end
    ensures HourMarks(FirstSecond(w), EndSecond(w)) == w.end - w.start + 1
  {
    HourMarksOfHours(w.start, w.end - w.start);
    assert w.start + (w.end - w.start) == w.end;
  }

  /** A run that returns text has exactly `work_end - work_start + 1` snapshot lines. */
  lemma CalculateLineCount(ts: seq<Till>, c: Config, d: Draws)
    requires Calculate(ts, c, d).result.Ok?
    ensures Validate(c).Ok?
    ensures Count('\n', Calculate(ts, c, d).result.value) == Validate(c).value.end - Validate(c).value.start + 1
  {
    var w := Validate(c).value;
    HourMarksOfWindow(w);
    TranscriptLines(ts, c, d, FirstSecond(w), EndSecond(w));
  }

  // ----- The queue shape across ticks -----

  predicate AllHeadServing(ts: seq<Till>) {
    forall i :: 0 <= i < |ts| ==> HeadServing(ts[i].queue)
  }

  lemma ArrivalKeepsHeadServing(ts: seq<Till>, c: Config, tm: nat, d: Draws)
    requires AllHeadServing(ts)
    ensures Arrival(ts, c, tm, d).Ok? ==> AllHeadServing(Arrival(ts, c, tm, d).value)
  {
    var r := Arrival(ts, c, tm, d);
    if r.Ok? && r.value != ts {
      AdmitJoinsRoutedTill(ts, c, tm, d);
      var b := NewCustomer(c.maxGoods, d.goods(tm)).value;
      var i := Route(ts, c.openQueueSize).value;
      JoinKeepsHeadServing(Open(ts[i]), b, tm);
    }
  }

  lemma ProcessKeepsHeadServing(ts: seq<Till>, s: CashboxSettings, tm: int)
    requires AllHeadServing(ts)
    ensures AllHeadServing(Process(ts, s, tm))
  {
    ProcessWorksEveryTill(ts, s, tm);
    forall i | 0 <= i < |ts| ensures HeadServing(Process(ts, s, tm)[i].queue) {
      WorkKeepsHeadServing(ts[i], s, tm);
    }
  }

  lemma NextKeepsHeadServing(ts: seq<Till>, c: Config, tm: nat, d: Draws)
    requires AllHeadServing(ts)
    ensures Next(ts, c, tm, d).Ok? ==> AllHeadServing(Next(ts, c, tm, d).value)
  {
    ArrivalKeepsHeadServing(ts, c, tm, d);
    var a := Arrival(ts, c, tm, d);
    if a.Ok? {
      ProcessKeepsHeadServing(a.value, c.cashboxSettings, tm);
    }
  }

  /**
   * A roll within the hour's percentage at a multiple of the interval, with a valid `max_goods`
   * and at least one cashbox, does bring a customer: the routed cashbox is open and one longer,
   * and no other cashbox changes.
   */
  lemma ArrivalBringsCustomer(ts: seq<Till>, c: Config, tm: nat, d: Draws)
    requires |ts| > 0 && c.newCustomerInterval != 0 && tm % c.newCustomerInterval == 0
    requires Uniform(1, 100, d.roll(tm)) <= ArrivalPercent(c.arrivalPercent, tm / HourSeconds)
    requires c.maxGoods.Some? && c.maxGoods.value >= 1
    ensures Arrival(ts, c, tm, d).Ok?
    ensures var i := Route(ts, c.openQueueSize).value;
      var r := Arrival(ts, c, tm, d).value;
      r[i].state != Closed && |r[i].queue| == |ts[i].queue| + 1 &&
      forall j :: 0 <= j < |ts| && j != i ==> r[j] == ts[j]
    ensures var i := Route(ts, c.openQueueSize).value;
      ts[i].state == Closed ==> Arrival(ts, c, tm, d).value[i].state == Opened
  {
    AdmitJoinsRoutedTill(ts, c, tm, d);
  }

  /**
   * The work part of a tick: an OPENED cashbox the arrival left alone, whose served head is due,
   * releases that head during the same tick, and the next customer takes its place.
   */
  lemma TickReleasesDueHead(ts: seq<Till>, c: Config, tm: nat, d: Draws, i: nat)
    requires i < |ts| && ts[i].state == Opened && HeadServing(ts[i].queue) && |ts[i].queue| > 0
    requires Due(ts[i].queue[0], c.cashboxSettings, tm)
    requires Arrival(ts, c, tm, d) == Ok(ts) || Route(ts, c.openQueueSize) != Some(i)
    requires Next(ts, c, tm, d).Ok?
    ensures Next(ts, c, tm, d).value[i] == Release(ts[i], 0, tm)
    ensures FifoStep(ts[i].queue, Next(ts, c, tm, d).value[i].queue)
    ensures |Next(ts, c, tm, d).value[i].queue| + 1 == |ts[i].queue|
  {
    var a := Arrival(ts, c, tm, d);
    AdmitJoinsRoutedTill(ts, c, tm, d);
    assert a.value[i] == ts[i];
    ProcessWorksEveryTill(a.value, c.cashboxSettings, tm);
    assert FirstBuyer(ts[i].queue) == Some(0);
    ReleaseFrontKeepsHeadServing(ts[i], tm);
  }

  /** A run whose every second keeps every queue settled ends with every queue settled. */
  lemma {:induction false} RunKeepsHeadServing(ts: seq<Till>, c: Config, d: Draws, start: nat, end: nat)
    requires AllHeadServing(ts)
    ensures AllHeadServing(Fold(ts, c, d, start, end).tills)
    decreases end
  {
    if end > start {
      var tm := end - 1;
      RunKeepsHeadServing(ts, c, d, start, tm);
      var prev := Fold(ts, c, d, start, tm);
      NextKeepsHeadServing(prev.tills, c, tm, d);
      FoldStep(ts, c, d, start, tm, prev);
    }
  }

  /**
   * Between ticks every queue is settled: its front customer is the only one being served and
   * everybody else queues. From the freshly built cashboxes, calculateModel keeps it so.
   */
  lemma CalculateKeepsHeadServing(c: Config, d: Draws)
    ensures AllHeadServing(Calculate(Initial(c.cashboxQuantity), c, d).tills)
  {
    var w := Validate(c);
    if w.Ok? {
      RunKeepsHeadServing(Initial(c.cashboxQuantity), c, d, FirstSecond(w.value), EndSecond(w.value));
    }
  }

  // ----- The scenarios of tests/SupermarketTest.php -----

  /** The settings every test shares, with the working hours given. */
  function TestConfig(quantity: int, workStart: Option<int>, workEnd: Option<int>): Config {
    Config(quantity, 5, CashboxSettings(10, 20, 60), workStart, workEnd, map[8 := 10], Some(20), 10)
  }

  lemma ValidationScenarios()
    ensures Validate(TestConfig(5, None, Some(23))) == Err(WorkStartMissing)
    ensures Validate(TestConfig(5, Some(-1), Some(23))) == Err(WorkStartNegative)
    ensures Validate(TestConfig(5, Some(8), None)) == Err(WorkEndMissing)
    ensures Validate(TestConfig(5, Some(8), Some(-1))) == Err(WorkEndNegative)
    ensures Validate(TestConfig(5, Some(23), Some(8))) == Err(StartAfterEnd)
  {
  }

  /** In that one-cashbox test, the arrival at 28800 (if the roll brings one) succeeds: the closed cashbox is opened for it. */
  lemma SingleSecondArrival(d: Draws)
    ensures Arrival(Initial(1), TestConfig(1, Some(8), Some(8)), 8 * HourSeconds, d).Ok?
    ensures Uniform(1, 100, d.roll(8 * HourSeconds)) <= 10 ==>
      var r := Arrival(Initial(1), TestConfig(1, Some(8), Some(8)), 8 * HourSeconds, d).value;
      r[0].state == Opened && |r[0].queue| == 1
  {
    var c := TestConfig(1, Some(8), Some(8));
    var ts := Initial(1);
    var tm := 8 * HourSeconds;
    assert ts == [Till(0, Closed, [], None)];
    assert tm % c.newCustomerInterval == 0;
    assert NewCustomer(c.maxGoods, d.goods(tm)).Ok?;
    assert BestOpenIn(ts, 1) == None;
    assert FirstClosedIn(ts, 1) == Some(0);
    assert Route(ts, c.openQueueSize) == Some(0);
    assert Assign(Open(ts[0]), NewCustomer(c.maxGoods, d.goods(tm)).value).Ok?;
  }

  /** The text of that test's snapshot at 28800, while the cashbox is still closed. */
  lemma SingleSecondSnapshot()
    ensures Snapshot(Initial(1), 8 * HourSeconds) == "Час 8: 0:X  |  \n"
  {
    var ts := Initial(1);
    assert ts == [Till(0, Closed, [], None)];
    assert Render(ts[0]) == "0:X";
    assert Cells(ts, 1) == Cells(ts, 0) + "0:X" + Separator;
    assert NatToString(8) == "8";
  }

  /**
   * One cashbox, working hours 8 to 8: the single tick at 28800 takes its snapshot before the
   * arrival, while the cashbox is still closed, so whatever the draws the text is
   * `Час 8: 0:X  |  ` and a line break (`Час 8: 0:X  |` once trimmed).
   */
  lemma SingleSecondRun(d: Draws)
    ensures Calculate(Initial(1), TestConfig(1, Some(8), Some(8)), d).result == Ok("Час 8: 0:X  |  \n")
  {
    var c := TestConfig(1, Some(8), Some(8));
    var ts := Initial(1);
    var tm := 8 * HourSeconds;
    assert Validate(c) == Ok(Window(8, 8));
    SingleSecondArrival(d);
    SingleSecondSnapshot();
    assert Next(ts, c, tm, d).Ok?;
    assert Fold(ts, c, d, tm, tm) == Run(ts, None);
    assert Fold(ts, c, d, tm, tm + 1).failure == None;
    assert Transcript(ts, c, d, tm, tm + 1) == "" + Snapshot(ts, tm);
    assert FirstSecond(Window(8, 8)) == tm && EndSecond(Window(8, 8)) == tm + 1;
    assert "" + Snapshot(ts, tm) == Snapshot(ts, tm);
    assert Day(ts, c, d, Window(8, 8)).result == Ok(Snapshot(ts, tm));
    assert Calculate(ts, c, d) == Day(ts, c, d, Window(8, 8));
  }
}
