/** A production line (factory.c) and the shared inventory it draws from.

    The lock around the shared `remain` counter is modelled by making one
    claim a single step; the concurrency of the lines is modelled by a
    schedule, a sequence of line positions saying whose turn comes next.
    One turn of a line is one pass of its production loop: claim a batch
    under the lock, then either report the batch or, if the claim came back
    empty, stop and send the Completion. */
module Factory {
  import opened Messages

  /** The outcome of one claim: the batch granted and the inventory left. */
  datatype Claim = Claim(batch: int, remain: int)

  /** The claim made under the shared-memory lock: take up to `capacity`
      units, or nothing once the inventory is exhausted. */
  function ClaimBatch(remain: int, capacity: int): (c: Claim)
    ensures c.batch + c.remain == remain
    ensures remain <= 0 ==> c.batch == 0 && c.remain == remain
    ensures remain > 0 ==>
      c.batch <= capacity && c.batch <= remain && (c.batch == capacity || c.batch == remain)
    ensures 0 <= capacity && 0 <= remain ==> 0 <= c.batch <= capacity && 0 <= c.remain <= remain
    ensures 1 <= capacity ==> (c.batch == 0 <==> remain <= 0)
  {
    var batch := if remain > 0 then (if remain < capacity then remain else capacity) else 0;
    Claim(batch, remain - batch)
  }

  /** A production line: its launch parameters, whether its loop is still
      running, its local counters, and the messages it has sent so far. */
  datatype Line = Line(
    id: int,
    capacity: int,
    duration: int,
    working: bool,
    partsMade: int,
    iterations: int,
    sent: seq<Msg>)

  /** What a line's counters and messages always satisfy: the counters
      agree with the Production messages, a running line has only reported
      positive batches, and a stopped line ended with its one Completion. */
  predicate LineInv(l: Line) {
    && l.partsMade == Parts(l.sent)
    && l.iterations == Productions(l.sent)
    && (l.working ==> Producing(l.sent, l.id))
    && (!l.working ==> IsStream(l.sent, l.id))
  }

  /** A line as it enters its production loop. */
  function Launch(id: int, capacity: int, duration: int): (l: Line)
    ensures l.id == id && l.capacity == capacity && l.duration == duration
    ensures l.working && l.sent == []
    ensures LineInv(l)
  {
    Line(id, capacity, duration, true, 0, 0, [])
  }

  /** One turn of a line: the new line and the inventory it left. */
  datatype Turn = Turn(line: Line, remain: int)

  /** One pass of the production loop. An empty claim ends the loop and the
      Completion is sent; any other claim is reported as a Production and
      added to the local counters. */
  function Cycle(l: Line, remain: int): (r: Turn)
    requires l.working
    ensures r.line.id == l.id && r.line.capacity == l.capacity && r.line.duration == l.duration
    ensures r.remain == ClaimBatch(remain, l.capacity).remain
    ensures !r.line.working <==> ClaimBatch(remain, l.capacity).batch == 0
    ensures |r.line.sent| == |l.sent| + 1 && r.line.sent[..|l.sent|] == l.sent
    ensures !r.line.working ==> r.line.sent[|l.sent|] == Completion(l.id)
    ensures r.line.working ==>
      r.line.sent[|l.sent|] == Production(l.id, remain - r.remain, l.duration)
  {
    var c := ClaimBatch(remain, l.capacity);
    if c.batch == 0 then
      Turn(l.(working := false, sent := l.sent + [Completion(l.id)]), c.remain)
    else
      Turn(l.(partsMade := l.partsMade + c.batch,
              iterations := l.iterations + 1,
              sent := l.sent + [Production(l.id, c.batch, l.duration)]),
           c.remain)
  }

  /** A turn keeps the line's counters equal to the sum of its reported
      batches and to the number of its Production messages, and keeps its
      messages in the shape Productions-then-one-Completion. */
  lemma {:induction false} CycleKeepsLineInv(l: Line, remain: int)
    requires l.working && LineInv(l)
    requires 1 <= l.capacity && 0 <= remain
    ensures LineInv(Cycle(l, remain).line)
  {
    var r := Cycle(l, remain);
    var c := ClaimBatch(remain, l.capacity);
    AppendOne(l.sent, r.line.sent[|l.sent|]);
    assert r.line.sent == l.sent + [r.line.sent[|l.sent|]];
    if c.batch == 0 {
      assert r.line.sent[..|r.line.sent| - 1] == l.sent;
    }
  }

  /** A line whose very first claim finds the inventory empty sends one
      Completion and nothing else. */
  lemma FirstClaimEmpty(id: int, capacity: int, duration: int, remain: int)
    requires 1 <= capacity && remain <= 0
    ensures var r := Cycle(Launch(id, capacity, duration), remain);
      !r.line.working && r.line.sent == [Completion(id)] && r.line.partsMade == 0 && r.remain == remain
  {
  }

  /** The shared inventory and all the lines. */
  datatype Plant = Plant(remain: int, lines: seq<Line>)

  /** Parts made by the lines, summed. */
  function Made(lines: seq<Line>): int {
    if lines == [] then 0 else Made(lines[..|lines| - 1]) + lines[|lines| - 1].partsMade
  }

  /** Number of lines whose loop is still running. */
  function Running(lines: seq<Line>): nat {
    if lines == [] then 0
    else Running(lines[..|lines| - 1]) + (if lines[|lines| - 1].working then 1 else 0)
  }

  /** The invariant of the plant for an order of `size` units: the
      inventory is never negative, every claimed unit is accounted for by
      exactly one line, every line has positive capacity and keeps its own
      invariant, and a stopped line means the inventory is exhausted. */
  predicate PlantInv(p: Plant, size: int) {
    && 0 <= p.remain
    && p.remain + Made(p.lines) == size
    && (forall k :: 0 <= k < |p.lines| ==> 1 <= p.lines[k].capacity && LineInv(p.lines[k]))
    && (forall k :: 0 <= k < |p.lines| ==> !p.lines[k].working ==> p.remain == 0)
  }

  /** The plant as the orchestrator sets it up: the whole order in stock,
      every line launched. */
  predicate Fresh(p: Plant, size: int) {
    p.remain == size &&
    forall k :: 0 <= k < |p.lines| ==>
      p.lines[k] == Launch(p.lines[k].id, p.lines[k].capacity, p.lines[k].duration)
  }

  /** Both plants have the same lines, with the same launch parameters. */
  predicate SameLines(p: Plant, q: Plant) {
    |q.lines| == |p.lines| &&
    forall k :: 0 <= k < |p.lines| ==>
      q.lines[k].id == p.lines[k].id && q.lines[k].capacity == p.lines[k].capacity
      && q.lines[k].duration == p.lines[k].duration
  }

  /** Line `k` takes a turn. A line whose loop has ended, or a position with
      no line, leaves the plant as it is. */
  function Tick(p: Plant, k: int): (q: Plant)
    ensures SameLines(p, q)
    ensures forall j :: 0 <= j < |p.lines| && j != k ==> q.lines[j] == p.lines[j]
    ensures forall j :: 0 <= j < |p.lines| && !p.lines[j].working ==> q.lines[j] == p.lines[j]
  {
    if 0 <= k < |p.lines| && p.lines[k].working then
      var r := Cycle(p.lines[k], p.remain);
      Plant(r.remain, p.lines[k := r.line])
    else
      p
  }

  /** The plant after the turns of `schedule`, in order. */
  function Run(p: Plant, schedule: seq<int>): (q: Plant)
    ensures SameLines(p, q)
    ensures forall j :: 0 <= j < |p.lines| && !p.lines[j].working ==> q.lines[j] == p.lines[j]
  {
    if schedule == [] then p
    else Tick(Run(p, schedule[..|schedule| - 1]), schedule[|schedule| - 1])
  }

  lemma {:induction false} MadeUpdate(lines: seq<Line>, k: nat, l: Line)
    requires k < |lines|
    ensures Made(lines[k := l]) == Made(lines) - lines[k].partsMade + l.partsMade
    ensures Running(lines[k := l]) == Running(lines) - (if lines[k].working then 1 else 0) + (if l.working then 1 else 0)
  {
    var last := |lines| - 1;
    if k < last {
      assert lines[k := l][..last] == lines[..last][k := l];
      MadeUpdate(lines[..last], k, l);
    } else {
      assert lines[k := l][..last] == lines[..last];
    }
  }

  /** A turn keeps the plant invariant and never raises the inventory. */
  lemma {:induction false} TickKeepsInv(p: Plant, size: int, k: int)
    requires PlantInv(p, size)
    ensures PlantInv(Tick(p, k), size)
    ensures Tick(p, k).remain <= p.remain
  {
    if 0 <= k < |p.lines| && p.lines[k].working {
      var r := Cycle(p.lines[k], p.remain);
      CycleKeepsLineInv(p.lines[k], p.remain);
      MadeUpdate(p.lines, k, r.line);
      assert r.line.partsMade == p.lines[k].partsMade + (p.remain - r.remain) by {
        AppendOne(p.lines[k].sent, r.line.sent[|p.lines[k].sent|]);
        assert r.line.sent == p.lines[k].sent + [r.line.sent[|p.lines[k].sent|]];
      }
    }
  }

  /** Running any schedule keeps the plant invariant, and the inventory only
      goes down. */
  lemma {:induction false} RunKeepsInv(p: Plant, size: int, schedule: seq<int>)
    requires PlantInv(p, size)
    ensures PlantInv(Run(p, schedule), size)
    ensures Run(p, schedule).remain <= p.remain
    decreases |schedule|
  {
    if schedule != [] {
      var prefix := schedule[..|schedule| - 1];
      RunKeepsInv(p, size, prefix);
      TickKeepsInv(Run(p, prefix), size, schedule[|schedule| - 1]);
    }
  }

  /** Running two schedules one after the other is running their
      concatenation. */
  lemma {:induction false} RunConcat(p: Plant, a: seq<int>, b: seq<int>)
    ensures Run(p, a + b) == Run(Run(p, a), b)
    decreases |b|
  {
    if b == [] {
      assert a + b == a;
    } else {
      assert (a + b)[..|a + b| - 1] == a + b[..|b| - 1];
      RunConcat(p, a, b[..|b| - 1]);
    }
  }

  /** A freshly set-up plant satisfies the invariant. */
  lemma {:induction false} FreshPlantInv(p: Plant, size: int)
    requires Fresh(p, size) && 0 <= size
    requires forall k :: 0 <= k < |p.lines| ==> 1 <= p.lines[k].capacity
    ensures PlantInv(p, size)
  {
    FreshMadeNothing(p.lines);
  }

  lemma {:induction false} FreshMadeNothing(lines: seq<Line>)
    requires forall k :: 0 <= k < |lines| ==> lines[k].working && lines[k].partsMade == 0
    ensures Made(lines) == 0
    ensures Running(lines) == |lines|
  {
    if lines != [] {
      FreshMadeNothing(lines[..|lines| - 1]);
    }
  }

  // ---------------------------------------------------------------------
  // Termination

  /** Whether the turn given to `k` finds a running line. */
  predicate Effective(p: Plant, k: int) {
    0 <= k < |p.lines| && p.lines[k].working
  }

  /** Number of turns in `schedule` that found a running line. */
  function EffectiveTurns(p: Plant, schedule: seq<int>): nat {
    if schedule == [] then 0
    else
      var prefix := schedule[..|schedule| - 1];
      EffectiveTurns(p, prefix) + (if Effective(Run(p, prefix), schedule[|schedule| - 1]) then 1 else 0)
  }

  /** Every turn that finds a running line either takes at least one unit
      from the inventory or stops that line. */
  lemma {:induction false} EffectiveTurnProgress(p: Plant, size: int, k: int)
    requires PlantInv(p, size) && Effective(p, k)
    ensures Tick(p, k).remain + Running(Tick(p, k).lines) < p.remain + Running(p.lines)
  {
    var r := Cycle(p.lines[k], p.remain);
    MadeUpdate(p.lines, k, r.line);
  }

  /** However the lines are scheduled, at most `remain` plus the number of
      running lines turns find a line still running: the plant reaches the
      state where every line has stopped after a bounded amount of work. */
  lemma {:induction false} EffectiveTurnsBounded(p: Plant, size: int, schedule: seq<int>)
    requires PlantInv(p, size)
    ensures EffectiveTurns(p, schedule) + Run(p, schedule).remain + Running(Run(p, schedule).lines)
         <= p.remain + Running(p.lines)
    decreases |schedule|
  {
    if schedule != [] {
      var prefix := schedule[..|schedule| - 1];
      var k := schedule[|schedule| - 1];
      EffectiveTurnsBounded(p, size, prefix);
      RunKeepsInv(p, size, prefix);
      if Effective(Run(p, prefix), k) {
        EffectiveTurnProgress(Run(p, prefix), size, k);
      }
    }
  }

  /** `t` turns in a row for line `k`. */
  function Repeat(k: int, t: nat): (s: seq<int>)
    ensures |s| == t
    ensures forall j :: 0 <= j < t ==> s[j] == k
  {
    if t == 0 then [] else Repeat(k, t - 1) + [k]
  }

  /** A line left to run on its own either stops or takes a unit per turn. */
  lemma {:induction false} SoloProgress(p: Plant, size: int, k: nat, t: nat)
    requires PlantInv(p, size) && k < |p.lines|
    ensures var q := Run(p, Repeat(k, t));
      !q.lines[k].working || q.remain <= p.remain - t
  {
    if t > 0 {
      SoloProgress(p, size, k, t - 1);
      var q' := Run(p, Repeat(k, t - 1));
      assert Repeat(k, t)[..t - 1] == Repeat(k, t - 1);
      RunKeepsInv(p, size, Repeat(k, t - 1));
      if q'.lines[k].working {
        EffectiveTurnProgress(q', size, k);
        var r := Cycle(q'.lines[k], q'.remain);
        assert ClaimBatch(q'.remain, q'.lines[k].capacity).batch >= 0;
      }
    }
  }

  /** Giving a line more turns than there are units left stops it. */
  lemma {:induction false} SoloRunStops(p: Plant, size: int, k: nat, t: nat)
    requires PlantInv(p, size) && k < |p.lines| && p.remain < t
    ensures !Run(p, Repeat(k, t)).lines[k].working
  {
    SoloProgress(p, size, k, t);
    RunKeepsInv(p, size, Repeat(k, t));
  }

  /** Turns for lines 0..n-1 in order, each given `stock + 1` turns. */
  function Sweep(n: nat, stock: nat): (s: seq<int>)
    ensures forall j :: 0 <= j < |s| ==> 0 <= s[j] < n
  {
    if n == 0 then [] else Sweep(n - 1, stock) + Repeat(n - 1, stock + 1)
  }

  /** Lines 0..n-1 have all stopped. */
  predicate StoppedBelow(p: Plant, n: nat) {
    n <= |p.lines| && forall k :: 0 <= k < n ==> !p.lines[k].working
  }

  lemma {:induction false} SweepStops(p: Plant, size: int, n: nat, stock: nat)
    requires PlantInv(p, size) && p.remain <= stock && n <= |p.lines|
    ensures StoppedBelow(Run(p, Sweep(n, stock)), n)
  {
    if n > 0 {
      SweepStops(p, size, n - 1, stock);
      SweepStep(p, size, n, stock);
    }
  }

  /** Once lines 0..n-2 have stopped, line n-1's solo turns stop it too. */
  lemma {:induction false} SweepStep(p: Plant, size: int, n: nat, stock: nat)
    requires PlantInv(p, size) && p.remain <= stock && 0 < n <= |p.lines|
    requires StoppedBelow(Run(p, Sweep(n - 1, stock)), n - 1)
    ensures StoppedBelow(Run(p, Sweep(n, stock)), n)
  {
    var first := Sweep(n - 1, stock);
    var solo := Repeat(n - 1, stock + 1);
    RunKeepsInv(p, size, first);
    SoloStops(Run(p, first), size, n, stock);
    assert Sweep(n, stock) == first + solo;
    RunConcat(p, first, solo);
  }

  /** With lines 0..n-2 stopped, giving line n-1 more turns than there are
      units left stops lines 0..n-1. */
  lemma {:induction false} SoloStops(q: Plant, size: int, n: nat, stock: nat)
    requires PlantInv(q, size) && q.remain <= stock && 0 < n <= |q.lines|
    requires StoppedBelow(q, n - 1)
    ensures StoppedBelow(Run(q, Repeat(n - 1, stock + 1)), n)
  {
    var r := Run(q, Repeat(n - 1, stock + 1));
    SoloRunStops(q, size, n - 1, stock + 1);
    assert forall k :: 0 <= k < n - 1 ==> r.lines[k] == q.lines[k];
  }

  /** Whatever turns the lines have taken so far, a sweep that gives each
      line in turn more turns than there were units left stops every line;
      at that point the inventory is exactly exhausted and the lines' made
      parts add up to the order. */
  lemma {:induction false} EveryScheduleCanFinish(p: Plant, size: int, schedule: seq<int>)
    requires PlantInv(p, size) && 1 <= |p.lines|
    ensures var q := Run(p, schedule + Sweep(|p.lines|, p.remain));
      && (forall k :: 0 <= k < |q.lines| ==> !q.lines[k].working)
      && q.remain == 0
      && Made(q.lines) == size
  {
    var sweep := Sweep(|p.lines|, p.remain);
    RunConcat(p, schedule, sweep);
    RunKeepsInv(p, size, schedule);
    var mid := Run(p, schedule);
    SweepStops(mid, size, |p.lines|, p.remain);
    RunKeepsInv(mid, size, sweep);
    StoppedPlantFilledOrder(Run(mid, sweep), size);
  }

  /** Once every line has stopped, the inventory is exhausted, the order is
      made exactly, and every line's messages are its Productions followed
      by its one Completion. */
  lemma {:induction false} StoppedPlantFilledOrder(p: Plant, size: int)
    requires PlantInv(p, size) && 1 <= |p.lines|
    requires forall k :: 0 <= k < |p.lines| ==> !p.lines[k].working
    ensures p.remain == 0 && Made(p.lines) == size
    ensures forall k :: 0 <= k < |p.lines| ==> IsStream(p.lines[k].sent, p.lines[k].id)
  {
    assert !p.lines[0].working;
  }

  // ---------------------------------------------------------------------
  // An empty order

  lemma {:induction false} MadeNothingEach(lines: seq<Line>)
    requires forall k :: 0 <= k < |lines| ==> lines[k].partsMade >= 0
    requires Made(lines) == 0
    ensures forall k :: 0 <= k < |lines| ==> lines[k].partsMade == 0
  {
    if lines != [] {
      var prefix := lines[..|lines| - 1];
      MadeNonNegative(prefix);
      MadeNothingEach(prefix);
      assert forall k :: 0 <= k < |prefix| ==> lines[k] == prefix[k];
    }
  }

  lemma {:induction false} MadeNonNegative(lines: seq<Line>)
    requires forall k :: 0 <= k < |lines| ==> lines[k].partsMade >= 0
    ensures Made(lines) >= 0
  {
    if lines != [] {
      MadeNonNegative(lines[..|lines| - 1]);
    }
  }

  /** With an order of size zero, no line ever reports a Production: each
      line has sent nothing yet, or only its Completion. */
  lemma {:induction false} EmptyOrderOnlyCompletes(p: Plant)
    requires PlantInv(p, 0)
    ensures forall k :: 0 <= k < |p.lines| ==>
      p.lines[k].sent == [] || p.lines[k].sent == [Completion(p.lines[k].id)]
  {
    forall k | 0 <= k < |p.lines|
      ensures p.lines[k].partsMade >= 0
    {
      var l := p.lines[k];
      if l.working {
        ProducingParts(l.sent, l.id);
      } else {
        ProducingParts(l.sent[..|l.sent| - 1], l.id);
        AppendOne(l.sent[..|l.sent| - 1], l.sent[|l.sent| - 1]);
        assert l.sent == l.sent[..|l.sent| - 1] + [l.sent[|l.sent| - 1]];
      }
    }
    MadeNonNegative(p.lines);
    MadeNothingEach(p.lines);
    forall k | 0 <= k < |p.lines|
      ensures p.lines[k].sent == [] || p.lines[k].sent == [Completion(p.lines[k].id)]
    {
      var l := p.lines[k];
      if l.working {
        ProducingParts(l.sent, l.id);
      } else {
        var body := l.sent[..|l.sent| - 1];
        ProducingParts(body, l.id);
        AppendOne(body, l.sent[|l.sent| - 1]);
        assert l.sent == body + [l.sent[|l.sent| - 1]];
        assert body == [];
      }
    }
  }
}
