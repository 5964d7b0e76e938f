/** The orchestrator (sales.c) up to the point where its children run:
    checking the command line, setting up the shared record, and choosing
    and formatting each factory's id, capacity and duration.

    The random number generator is a parameter: `random(j)` is the j-th
    value `random()` returns after seeding, any non-negative number. The
    factory with id i uses draws 2(i-1) for its capacity and 2(i-1)+1 for
    its duration, the order in which the loop calls `random()`. */
module Sales {
  import opened Decimal

  /** The most factories the orchestrator accepts. */
  const MaxFactories := 40

  /** Capacities are 10 plus a draw modulo 41; durations 500 plus a draw
      modulo 701 (milliseconds). */
  const CapacityBase := 10
  const CapacitySpread := 41
  const DurationBase := 500
  const DurationSpread := 701

  /** Sizes of the character buffers the arguments are formatted into. */
  const IdBuffer := 3
  const CapacityBuffer := 3
  const DurationBuffer := 5
  const NumlinesBuffer := 3

  /** Why the orchestrator refuses to start. */
  datatype Refusal = TooFewArguments | TooManyFactories

  /** The record in shared memory the factories draw their batches from. */
  datatype SharedRecord = SharedRecord(orderSize: int, made: int, remain: int)

  /** An operating-system resource the orchestrator creates; a semaphore
      with its name and initial count. */
  datatype Resource =
    | MessageQueue
    | SharedMemory
    | Semaphore(name: string, initial: int)

  /** The launch parameters of one factory. */
  datatype Setting = Setting(id: int, capacity: int, duration: int)

  /** The argument strings a factory process is started with. */
  datatype FactoryArgs = FactoryArgs(id: string, capacity: string, duration: string)

  /** The result of starting up: a refusal, made before anything is created,
      or the resources in creation order, the initial shared record, the
      factories' arguments in launch order and the supervisor's argument. */
  datatype Startup =
    | Refused(reason: Refusal)
    | Started(resources: seq<Resource>, record: SharedRecord,
              factories: seq<FactoryArgs>, numlines: string)

  /** The capacity drawn from one random value. */
  function CapacityOf(r: nat): (c: int)
    ensures CapacityBase <= c <= CapacityBase + CapacitySpread - 1
  {
    r % CapacitySpread + CapacityBase
  }

  /** The duration drawn from one random value. */
  function DurationOf(r: nat): (d: int)
    ensures DurationBase <= d <= DurationBase + DurationSpread - 1
  {
    r % DurationSpread + DurationBase
  }

  /** The settings of the factories the loop creates: one per id 1..n, none
      when n is not positive. */
  function Settings(n: int, random: nat -> nat): (s: seq<Setting>)
    ensures |s| == (if n < 0 then 0 else n)
    ensures forall k :: 0 <= k < |s| ==> s[k].id == k + 1
    ensures forall k :: 0 <= k < |s| ==> 1 <= s[k].id <= n
    ensures forall i, j :: 0 <= i < j < |s| ==> s[i].id < s[j].id
    ensures forall k :: 0 <= k < |s| ==>
      10 <= s[k].capacity <= 50 && 500 <= s[k].duration <= 1200
    ensures forall k :: 0 <= k < |s| ==>
      s[k].capacity == CapacityOf(random(2 * k)) && s[k].duration == DurationOf(random(2 * k + 1))
  {
    seq(if n < 0 then 0 else n, k requires 0 <= k => SettingFor(k, random))
  }

  /** The setting of the factory created in pass `k` of the launch loop. */
  function SettingFor(k: nat, random: nat -> nat): (s: Setting)
    ensures s.id == k + 1
    ensures 10 <= s.capacity <= 50 && 500 <= s.duration <= 1200
  {
    Setting(k + 1, CapacityOf(random(2 * k)), DurationOf(random(2 * k + 1)))
  }

  /** Every id 1..n is given to exactly one factory. */
  lemma {:induction false} EachIdOnce(n: int, random: nat -> nat, id: int)
    requires 1 <= id <= n
    ensures exists k :: 0 <= k < |Settings(n, random)| && Settings(n, random)[k].id == id
    ensures forall i, j ::
      (0 <= i < |Settings(n, random)| && 0 <= j < |Settings(n, random)|
       && Settings(n, random)[i].id == id && Settings(n, random)[j].id == id) ==> i == j
  {
    var s := Settings(n, random);
    assert s[id - 1].id == id;
  }

  /** The strings a factory is started with: each number printed into its
      fixed-size buffer. A number that fits its buffer reads back as
      itself. */
  function ArgsOf(s: Setting): (a: FactoryArgs)
    ensures 0 <= s.id < 100 ==> ReadInt(a.id) == s.id
    ensures 0 <= s.capacity < 100 ==> ReadInt(a.capacity) == s.capacity
    ensures 0 <= s.duration < 10000 ==> ReadInt(a.duration) == s.duration
  {
    assert Pow10(2) == 100 && Pow10(4) == 10000 by {
      assert Pow10(1) == 10;
      assert Pow10(3) == 1000;
    }
    assert 0 <= s.id < 100 ==> ReadInt(Format(IdBuffer, s.id)) == s.id by {
      if 0 <= s.id < 100 {
        BufferRoundTrip(IdBuffer, s.id);
      }
    }
    assert 0 <= s.capacity < 100 ==> ReadInt(Format(CapacityBuffer, s.capacity)) == s.capacity by {
      if 0 <= s.capacity < 100 {
        BufferRoundTrip(CapacityBuffer, s.capacity);
      }
    }
    assert 0 <= s.duration < 10000 ==> ReadInt(Format(DurationBuffer, s.duration)) == s.duration by {
      if 0 <= s.duration < 10000 {
        BufferRoundTrip(DurationBuffer, s.duration);
      }
    }
    FactoryArgs(Format(IdBuffer, s.id), Format(CapacityBuffer, s.capacity), Format(DurationBuffer, s.duration))
  }

  /** The resources created before any process is started, in order: the
      message queue, the shared memory, then the output mutex, the
      shared-memory mutex and the two barriers, which start closed. */
  const Resources: seq<Resource> := [
    MessageQueue,
    SharedMemory,
    Semaphore("leachjr_factory.log", 1),
    Semaphore("leachjr_shm_mutex", 1),
    Semaphore("leachjr_factories_done", 0),
    Semaphore("leachjr_print_report", 0)
  ]

  /** Start-up from the command line `argv` (program name first). Fewer
      than three words, or more than MaxFactories factories, is refused
      before anything is created; otherwise the shared record holds the
      whole order and nothing made. */
  function Start(argv: seq<string>, random: nat -> nat): (r: Startup)
    ensures r.Refused? <==> |argv| < 3 || ReadInt(argv[1]) > MaxFactories
    ensures r.Refused? ==> (r.reason == TooFewArguments <==> |argv| < 3)
    ensures r.Started? ==>
      && r.resources == Resources
      && r.record == SharedRecord(ReadInt(argv[2]), 0, ReadInt(argv[2]))
      && |r.factories| == |Settings(ReadInt(argv[1]), random)|
      && (forall k :: 0 <= k < |r.factories| ==>
            r.factories[k] == ArgsOf(Settings(ReadInt(argv[1]), random)[k]))
      && r.numlines == Format(NumlinesBuffer, ReadInt(argv[1]))
  {
    if |argv| < 3 then Refused(TooFewArguments)
    else
      var n := ReadInt(argv[1]);
      var size := ReadInt(argv[2]);
      if n > MaxFactories then Refused(TooManyFactories)
      else
        var settings := Settings(n, random);
        Started(Resources, SharedRecord(size, 0, size),
                seq(|settings|, k requires 0 <= k < |settings| => ArgsOf(settings[k])),
                Format(NumlinesBuffer, n))
  }

  /** With at most MaxFactories factories, no argument is cut short by its
      buffer: each factory reads back exactly the id, capacity and duration
      chosen for it, and the supervisor reads back the number of factories. */
  lemma {:induction false} ArgumentsReadBack(argv: seq<string>, random: nat -> nat)
    requires Start(argv, random).Started? && 0 <= ReadInt(argv[1])
    ensures var r := Start(argv, random);
      var settings := Settings(ReadInt(argv[1]), random);
      && ReadInt(r.numlines) == ReadInt(argv[1])
      && forall k :: 0 <= k < |r.factories| ==>
           && ReadInt(r.factories[k].id) == settings[k].id
           && ReadInt(r.factories[k].capacity) == settings[k].capacity
           && ReadInt(r.factories[k].duration) == settings[k].duration
  {
    var r := Start(argv, random);
    var n := ReadInt(argv[1]);
    var settings := Settings(n, random);
    assert Pow10(2) == 100 by {
      assert Pow10(1) == 10;
    }
    BufferRoundTrip(NumlinesBuffer, n);
    forall k | 0 <= k < |r.factories|
      ensures ReadInt(r.factories[k].id) == settings[k].id
      ensures ReadInt(r.factories[k].capacity) == settings[k].capacity
      ensures ReadInt(r.factories[k].duration) == settings[k].duration
    {
      assert r.factories[k] == ArgsOf(settings[k]);
    }
  }

  /** The id buffer holds two digits: an id of 100 or more loses its last
      digit and is read back as a tenth of itself, so the 100th factory
      would be told it is the 10th. */
  lemma {:induction false} LongIdCut(id: int)
    requires 100 <= id <= 999
    ensures Format(IdBuffer, id) == Printed(id / 10)
    ensures ReadInt(Format(IdBuffer, id)) == id / 10
  {
    var q := id / 10;
    assert Pow10(1) == 10 && Pow10(2) == 100 && Pow10(3) == 1000;
    Width(id, 2);
    Width(id, 3);
    Width(q, 1);
    Width(q, 2);
    assert DecimalString(id) == DecimalString(q) + [DigitChar(id % 10)];
    assert Format(IdBuffer, id) == DecimalString(id)[..2];
    assert DecimalString(id)[..2] == DecimalString(q);
    ReadIntPrinted(q);
  }

  /** Numbers past the `int` range are narrowed before they are checked:
      asking for 4294967297 factories starts one, and an order of
      3000000000 parts is recorded as -1294967296. */
  lemma {:induction false} WideArgumentsWrap(random: nat -> nat)
    ensures var r := Start(["sales", Printed(4_294_967_297), Printed(3_000_000_000)], random);
      && r.Started?
      && |r.factories| == 1
      && r.record.orderSize == -1_294_967_296
  {
    WideNumberWraps(4_294_967_297);
    WideNumberWraps(3_000_000_000);
  }
}
