/** The whole run: the orchestrator starts the factories, the factories
    claim batches in any order the scheduler picks until every one has
    stopped, their messages reach the queue in any interleaving that keeps
    each factory's own order, and the supervisor drains the queue and
    reports. */
module Protocol {
  import opened Messages
  import opened Factory
  import opened Supervisor
  import opened Decimal
  import opened Sales

  /** A factory process as it starts: it reads its id, capacity and
      duration back from its argument strings and enters its loop. */
  function Boot(a: FactoryArgs): Line {
    Launch(ReadInt(a.id), ReadInt(a.capacity), ReadInt(a.duration))
  }

  /** The plant once the orchestrator has started every factory: the shared
      record's stock and the booted factories, in launch order. */
  function Opening(s: Startup): Plant
    requires s.Started?
  {
    Plant(s.record.remain, seq(|s.factories|, k requires 0 <= k < |s.factories| => Boot(s.factories[k])))
  }

  /** The command lines the orchestrator accepts and for which the run is
      well defined: at least one factory, and an order that is not
      negative, both as read into an `int`, so the order is at most
      IntMax. */
  predicate Valid(argv: seq<string>) {
    |argv| >= 3 && 1 <= ReadInt(argv[1]) <= MaxFactories && 0 <= ReadInt(argv[2])
  }

  /** A plant as the orchestrator leaves it for an order of `size` with
      `n` factories: the plant invariant holds and the lines carry ids
      1..n in launch order. */
  predicate Opened(p: Plant, size: int, n: int) {
    && PlantInv(p, size)
    && |p.lines| == n
    && (forall k :: 0 <= k < |p.lines| ==> p.lines[k].id == k + 1)
  }

  /** Such a plant once every line has stopped. */
  predicate AllStopped(p: Plant, size: int, n: int) {
    && Opened(p, size, n)
    && (forall k :: 0 <= k < |p.lines| ==> !p.lines[k].working)
  }

  /** For a valid command line every factory starts with exactly the id,
      capacity and duration the orchestrator chose for it, so ids run
      1..n in launch order; the shared stock is the whole order, the plant
      invariant holds, and the supervisor is told n. */
  lemma {:induction false} OpeningIsSound(argv: seq<string>, random: nat -> nat)
    requires Valid(argv)
    ensures Start(argv, random).Started?
    ensures var s := Start(argv, random);
      var p := Opening(s);
      var settings := Settings(ReadInt(argv[1]), random);
      && Opened(p, ReadInt(argv[2]), ReadInt(argv[1]))
      && ReadInt(s.numlines) == ReadInt(argv[1])
      && s.record.orderSize == ReadInt(argv[2])
      && (forall k :: 0 <= k < |p.lines| ==>
            p.lines[k].id == settings[k].id && p.lines[k].capacity == settings[k].capacity
            && p.lines[k].duration == settings[k].duration)
  {
    var n := ReadInt(argv[1]);
    var s := Start(argv, random);
    var settings := Settings(n, random);
    assert |settings| == n;
    ArgumentsReadBack(argv, random);
    assert s.record.remain == ReadInt(argv[2]);
    BootedLines(s, settings, ReadInt(argv[2]));
  }

  /** Factories booted from arguments that read back as `settings` run with
      exactly those settings, and start a plant that satisfies the plant
      invariant. */
  lemma {:induction false} BootedLines(s: Startup, settings: seq<Setting>, size: int)
    requires s.Started? && s.record.remain == size && 0 <= size
    requires |s.factories| == |settings|
    requires forall k :: 0 <= k < |settings| ==>
      && ReadInt(s.factories[k].id) == settings[k].id
      && ReadInt(s.factories[k].capacity) == settings[k].capacity
      && ReadInt(s.factories[k].duration) == settings[k].duration
    requires forall k :: 0 <= k < |settings| ==> 1 <= settings[k].capacity
    ensures var p := Opening(s);
      && PlantInv(p, size)
      && |p.lines| == |settings|
      && forall k :: 0 <= k < |p.lines| ==>
           && p.lines[k].id == settings[k].id
           && p.lines[k].capacity == settings[k].capacity
           && p.lines[k].duration == settings[k].duration
  {
    var p := Opening(s);
    forall k | 0 <= k < |p.lines|
      ensures p.lines[k] == Launch(settings[k].id, settings[k].capacity, settings[k].duration)
    {
      assert p.lines[k] == Boot(s.factories[k]);
    }
    FreshPlantInv(p, size);
  }

  /** A command line asking for no factories starts none; the supervisor,
      told 0, takes no message and reports no line and a grand total of 0
      against the order size. */
  lemma {:induction false} NoFactoriesMakeNothing(argv: seq<string>, random: nat -> nat)
    requires |argv| >= 3 && ReadInt(argv[1]) == 0
    ensures Start(argv, random).Started?
    ensures var s := Start(argv, random);
      && s.factories == []
      && ReadInt(s.numlines) == 0
      && Supervise(0, []) == Done(Init(0), 0)
      && FinalReport(Init(0), 0, s.record.orderSize) == Report([], 0, ReadInt(argv[2]))
  {
    ArgumentsReadBack(argv, random);
    assert Explains(0, [], Supervise(0, []));
  }

  /** `queue` is an interleaving of the lines' messages: every message comes
      from one of the lines 1..|lines|, and each line's messages appear in
      the order that line sent them. */
  predicate Interleaves(queue: seq<Msg>, lines: seq<Line>) {
    && (forall i :: 0 <= i < |queue| ==> 1 <= queue[i].facID <= |lines|)
    && (forall id :: 1 <= id <= |lines| ==> Project(queue, id) == lines[id - 1].sent)
  }

  /** All the lines' messages, one line after another. */
  function Concat(lines: seq<Line>): seq<Msg> {
    if lines == [] then [] else Concat(lines[..|lines| - 1]) + lines[|lines| - 1].sent
  }

  /** Every line at position k sent only messages tagged k + 1. */
  predicate TaggedByPosition(lines: seq<Line>) {
    forall k, j :: 0 <= k < |lines| && 0 <= j < |lines[k].sent| ==> lines[k].sent[j].facID == k + 1
  }

  /** Interleavings exist: the lines' messages one line after another are
      one. */
  lemma {:induction false} ConcatInterleaves(lines: seq<Line>)
    requires TaggedByPosition(lines)
    ensures Interleaves(Concat(lines), lines)
  {
    if lines != [] {
      var n := |lines|;
      var front := lines[..n - 1];
      var last := lines[n - 1];
      assert TaggedByPosition(front);
      ConcatInterleaves(front);
      var q := Concat(lines);
      assert q == Concat(front) + last.sent;
      forall i | 0 <= i < |q|
        ensures 1 <= q[i].facID <= n
      {
        if i >= |Concat(front)| {
          assert q[i] == last.sent[i - |Concat(front)|];
        }
      }
      forall id | 1 <= id <= n
        ensures Project(q, id) == lines[id - 1].sent
      {
        ProjectConcat(Concat(front), last.sent, id);
        if id == n {
          ProjectOther(Concat(front), id);
          ProjectOwn(last.sent, id);
        } else {
          ProjectOther(last.sent, id);
          assert front[id - 1] == lines[id - 1];
        }
      }
    }
  }

  lemma {:induction false} SumIsMade(xs: seq<int>, lines: seq<Line>)
    requires |xs| == |lines|
    requires forall k :: 0 <= k < |xs| ==> xs[k] == lines[k].partsMade
    ensures Sum(xs) == Made(lines)
  {
    if xs != [] {
      SumIsMade(xs[..|xs| - 1], lines[..|lines| - 1]);
    }
  }

  /** Once every line has stopped, the supervisor reading any interleaving
      of their messages takes the whole queue, finds every line finished,
      credits each line with exactly the parts and iterations that line
      counted itself, and arrives at a grand total equal to the order. */
  lemma {:induction false} StoppedLinesReportOrder(p: Plant, size: int, queue: seq<Msg>)
    requires AllStopped(p, size, |p.lines|) && 1 <= |p.lines|
    requires Interleaves(queue, p.lines)
    ensures var n := |p.lines|;
      var t := Tallied(n, queue);
      && Supervise(n, queue) == Done(t, |queue|)
      && t.finished == n
      && t.reportedMade == size
      && (forall k :: 0 <= k < n ==>
            t.produced[k + 1] == p.lines[k].partsMade && t.iterations[k + 1] == p.lines[k].iterations)
  {
    var n := |p.lines|;
    StoppedPlantFilledOrder(p, size);
    StoppedStreams(p, size, queue);
    EveryProductionCounted(n, queue);
    assert Addressed(queue, n);
    TalliedAccounts(n, queue);
    var t := Tallied(n, queue);
    GrandTotalIsLineTotals(t, n, queue);
    forall k | 0 <= k < n
      ensures t.produced[1..][k] == p.lines[k].partsMade
    {
      assert Project(queue, k + 1) == p.lines[k].sent;
    }
    SumIsMade(t.produced[1..], p.lines);
  }

  /** In any interleaving of stopped lines' messages, each line's own
      messages end with its only Completion. */
  lemma {:induction false} StoppedStreams(p: Plant, size: int, queue: seq<Msg>)
    requires AllStopped(p, size, |p.lines|) && 1 <= |p.lines|
    requires Interleaves(queue, p.lines)
    ensures forall id :: 1 <= id <= |p.lines| ==> EndsWithSoleCompletion(Project(queue, id))
  {
    StoppedPlantFilledOrder(p, size);
    forall id | 1 <= id <= |p.lines|
      ensures EndsWithSoleCompletion(Project(queue, id))
    {
      StreamHasSoleCompletion(p.lines[id - 1].sent, id);
    }
  }

  /** What the run promises once the lines `lines` have stopped and their
      messages reach the supervisor as `queue`: the supervisor takes the
      whole queue and exits; its report has one row per line, in id order,
      with that line's own parts and iterations; its grand total is the
      order `size`, printed next to the `requested` size. */
  predicate ReportsOrder(lines: seq<Line>, queue: seq<Msg>, size: int, requested: int) {
    var n := |lines|;
    && (forall k :: 0 <= k < n ==> !lines[k].working)
    && Addressed(queue, n)
    && Supervise(n, queue) == Done(Tallied(n, queue), |queue|)
    && var report := FinalReport(Tallied(n, queue), n, requested);
       && report.grandTotal == size
       && report.requested == requested
       && (forall k :: 0 <= k < n ==>
             report.rows[k] == Row(k + 1, lines[k].partsMade, lines[k].iterations))
  }

  /** The supervisor's final report after a run in which every line stopped
      is the one the order calls for. */
  lemma {:induction false} StoppedLinesFinalReport(p: Plant, size: int, queue: seq<Msg>, requested: int)
    requires AllStopped(p, size, |p.lines|) && 1 <= |p.lines|
    requires Interleaves(queue, p.lines)
    ensures ReportsOrder(p.lines, queue, size, requested)
  {
    var n := |p.lines|;
    StoppedLinesReportOrder(p, size, queue);
    var report := FinalReport(Tallied(n, queue), n, requested);
    forall k | 0 <= k < n
      ensures report.rows[k].id == k + 1
    {
      RowIds(report.rows, n, k);
    }
  }

  /** The parts left in a plant's shared record, as a count. */
  function Stock(p: Plant): nat {
    if p.remain < 0 then 0 else p.remain
  }

  /** The plant after the factories have taken the turns of `schedule` and
      then a sweep that lets each finish. */
  function Finished(argv: seq<string>, random: nat -> nat, schedule: seq<int>): Plant
    requires Valid(argv)
  {
    var p := Opening(Start(argv, random));
    Run(p, schedule + Sweep(|p.lines|, Stock(p)))
  }

  /** The end-to-end property: for every valid command line, every draw of
      random numbers, every schedule of the factories' claims and every
      interleaving of their messages, all factories stop, the supervisor
      is told the number of factories and exits exactly after the last
      message, and its final report lists each factory in id order with
      the parts that factory made, and a grand total equal to the order
      size it reads from shared memory. */
  lemma {:induction false} OrderFilledExactly(argv: seq<string>, random: nat -> nat,
                                              schedule: seq<int>, queue: seq<Msg>)
    requires Valid(argv)
    ensures ReadInt(Start(argv, random).numlines) == ReadInt(argv[1]) == |Finished(argv, random, schedule).lines|
    ensures var lines := Finished(argv, random, schedule).lines;
      Interleaves(queue, lines) ==> ReportsOrder(lines, queue, ReadInt(argv[2]), ReadInt(argv[2]))
  {
    OpeningIsSound(argv, random);
    EveryFactoryStops(argv, random, schedule);
    if Interleaves(queue, Finished(argv, random, schedule).lines) {
      StoppedLinesFinalReport(Finished(argv, random, schedule), ReadInt(argv[2]), queue, ReadInt(argv[2]));
    }
  }

  /** The messages of the run can always reach the supervisor: the
      factories' messages one factory after another form an interleaving, so
      the hypothesis of OrderFilledExactly is met by some queue. */
  lemma {:induction false} SomeInterleavingExists(argv: seq<string>, random: nat -> nat, schedule: seq<int>)
    requires Valid(argv)
    ensures var lines := Finished(argv, random, schedule).lines;
      Interleaves(Concat(lines), lines)
  {
    EveryFactoryStops(argv, random, schedule);
    var p := Finished(argv, random, schedule);
    SentTagged(p, ReadInt(argv[2]));
    ConcatInterleaves(p.lines);
  }

  lemma {:induction false} SentTagged(p: Plant, size: int)
    requires AllStopped(p, size, |p.lines|) && 1 <= |p.lines|
    ensures TaggedByPosition(p.lines)
  {
    StoppedPlantFilledOrder(p, size);
    forall k | 0 <= k < |p.lines|
      ensures forall j :: 0 <= j < |p.lines[k].sent| ==> p.lines[k].sent[j].facID == k + 1
    {
      StreamTagged(p.lines[k].sent, k + 1);
    }
  }

  /** After any schedule and the sweep, every factory of a valid command
      line has stopped, still with its id 1..n in launch order, and the
      plant invariant holds. */
  lemma {:induction false} EveryFactoryStops(argv: seq<string>, random: nat -> nat, schedule: seq<int>)
    requires Valid(argv)
    ensures AllStopped(Finished(argv, random, schedule), ReadInt(argv[2]), ReadInt(argv[1]))
  {
    OpeningIsSound(argv, random);
    OpeningFinishes(Opening(Start(argv, random)), ReadInt(argv[2]), ReadInt(argv[1]), schedule);
  }

  /** From an opening plant, after any schedule followed by the sweep, every
      line has stopped and keeps its id. */
  lemma {:induction false} OpeningFinishes(p0: Plant, size: int, n: int, schedule: seq<int>)
    requires Opened(p0, size, n) && 1 <= n
    ensures AllStopped(Run(p0, schedule + Sweep(|p0.lines|, Stock(p0))), size, n)
  {
    var sweep := Sweep(|p0.lines|, p0.remain);
    EveryScheduleCanFinish(p0, size, schedule);
    RunKeepsInv(p0, size, schedule + sweep);
  }

  /** Rows whose ids are strictly increasing within 1..n, n of them, are
      exactly the ids 1..n in order. */
  lemma {:induction false} RowIds(rows: seq<Row>, n: nat, k: nat)
    requires |rows| == n && k < n
    requires forall i :: 0 <= i < |rows| ==> 1 <= rows[i].id <= n
    requires forall i, j :: 0 <= i < j < |rows| ==> rows[i].id < rows[j].id
    ensures rows[k].id == k + 1
  {
    AtLeastPosition(rows, k);
    AtMostPosition(rows, n, k);
  }

  lemma {:induction false} AtLeastPosition(rows: seq<Row>, k: nat)
    requires k < |rows|
    requires forall i :: 0 <= i < |rows| ==> 1 <= rows[i].id
    requires forall i, j :: 0 <= i < j < |rows| ==> rows[i].id < rows[j].id
    ensures rows[k].id >= k + 1
  {
    if k > 0 {
      AtLeastPosition(rows, k - 1);
    }
  }

  lemma {:induction false} AtMostPosition(rows: seq<Row>, n: nat, k: nat)
    requires k < |rows| == n
    requires forall i :: 0 <= i < |rows| ==> rows[i].id <= n
    requires forall i, j :: 0 <= i < j < |rows| ==> rows[i].id < rows[j].id
    ensures rows[k].id <= k + 1
    decreases n - k
  {
    if k < n - 1 {
      AtMostPosition(rows, n, k + 1);
    }
  }
}
