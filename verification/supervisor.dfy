/** The supervisor (supervisor.c): it drains the message queue, keeping
    per-line totals and iteration counts, a grand total and a count of
    finished lines, until every line has reported completion; then it
    prints the final report in line order.

    A receive always succeeds here; the queue is the sequence of messages
    in the order the supervisor would receive them. */
module Supervisor {
  import opened Messages

  /** Sum of a sequence of integers. */
  function Sum(s: seq<int>): int {
    if s == [] then 0 else Sum(s[..|s| - 1]) + s[|s| - 1]
  }

  lemma {:induction false} SumUpdate(s: seq<int>, i: nat, v: int)
    requires i < |s|
    ensures Sum(s[i := v]) == Sum(s) - s[i] + v
  {
    var last := |s| - 1;
    if i < last {
      assert s[i := v][..last] == s[..last][i := v];
      SumUpdate(s[..last], i, v);
    } else {
      assert s[i := v][..last] == s[..last];
    }
  }

  lemma {:induction false} SumConcat(a: seq<int>, b: seq<int>)
    ensures Sum(a + b) == Sum(a) + Sum(b)
    decreases |b|
  {
    if b == [] {
      assert a + b == a;
    } else {
      assert (a + b)[..|a + b| - 1] == a + b[..|b| - 1];
      SumConcat(a, b[..|b| - 1]);
    }
  }

  /** The supervisor's bookkeeping: `produced[id]` and `iterations[id]` for
      every index 0..numlines of its arrays, the grand total it has been
      told about, and how many lines have finished. */
  datatype Tally = Tally(
    produced: seq<int>,
    iterations: seq<int>,
    reportedMade: int,
    finished: int)

  /** The arrays hold one slot per index 0..numlines. */
  predicate Sized(t: Tally, numlines: nat) {
    |t.produced| == numlines + 1 && |t.iterations| == numlines + 1
  }

  /** The bookkeeping before the first message: everything zero. */
  function Init(numlines: nat): (t: Tally)
    ensures Sized(t, numlines)
    ensures forall id :: 0 <= id <= numlines ==> t.produced[id] == 0 && t.iterations[id] == 0
    ensures t.reportedMade == 0 && t.finished == 0
  {
    Tally(seq(numlines + 1, _ => 0), seq(numlines + 1, _ => 0), 0, 0)
  }

  /** A message the supervisor can take without writing outside its arrays:
      a Production must name an index 0..numlines. */
  predicate Deliverable(m: Msg, numlines: nat) {
    m.Production? ==> 0 <= m.facID <= numlines
  }

  predicate Addressed(log: seq<Msg>, numlines: nat) {
    forall i :: 0 <= i < |log| ==> Deliverable(log[i], numlines)
  }

  /** The bookkeeping for one received message. A Production adds its batch
      to its line's total and to the grand total and counts one iteration of
      that line; a Completion counts one more finished line. Nothing else
      changes. */
  function Receive(t: Tally, m: Msg): (r: Tally)
    requires |t.iterations| == |t.produced|
    requires m.Production? ==> 0 <= m.facID < |t.produced|
    ensures |r.produced| == |t.produced| && |r.iterations| == |t.iterations|
    ensures m.Completion? ==>
      r.finished == t.finished + 1 && r.produced == t.produced && r.iterations == t.iterations
      && r.reportedMade == t.reportedMade
    ensures m.Production? ==>
      && r.finished == t.finished
      && r.reportedMade == t.reportedMade + m.partsMade
      && r.produced[m.facID] == t.produced[m.facID] + m.partsMade
      && r.iterations[m.facID] == t.iterations[m.facID] + 1
      && (forall id :: 0 <= id < |t.produced| && id != m.facID ==>
            r.produced[id] == t.produced[id] && r.iterations[id] == t.iterations[id])
  {
    match m
    case Completion(_) => t.(finished := t.finished + 1)
    case Production(id, made, _) =>
      t.(produced := t.produced[id := t.produced[id] + made],
         iterations := t.iterations[id := t.iterations[id] + 1],
         reportedMade := t.reportedMade + made)
  }

  /** The bookkeeping after receiving every message of `log`, in order. */
  function Tallied(numlines: nat, log: seq<Msg>): (t: Tally)
    requires Addressed(log, numlines)
    ensures Sized(t, numlines)
  {
    if log == [] then Init(numlines)
    else Receive(Tallied(numlines, log[..|log| - 1]), log[|log| - 1])
  }

  /** The invariant of the receive loop after consuming `log`: each line's
      total and iteration count are those of its own Production messages;
      the grand total is the sum of the line totals and of all reported
      batches; the iteration counts add up to the number of Productions;
      and the finished count is the number of Completions. */
  predicate Accounts(t: Tally, numlines: nat, log: seq<Msg>) {
    && Sized(t, numlines)
    && (forall id :: 0 <= id <= numlines ==>
          t.produced[id] == Parts(Project(log, id)) && t.iterations[id] == Productions(Project(log, id)))
    && t.reportedMade == Parts(log)
    && t.reportedMade == Sum(t.produced)
    && Sum(t.iterations) == Productions(log)
    && t.finished == Completions(log)
  }

  lemma {:induction false} InitSums(n: nat)
    ensures Sum(seq(n, _ => 0)) == 0
  {
    if n > 0 {
      assert seq(n, _ => 0)[..n - 1] == seq(n - 1, _ => 0);
      InitSums(n - 1);
    }
  }

  /** Every receive keeps the loop invariant. */
  lemma {:induction false} TalliedAccounts(numlines: nat, log: seq<Msg>)
    requires Addressed(log, numlines)
    ensures Accounts(Tallied(numlines, log), numlines, log)
    decreases |log|
  {
    if log == [] {
      InitSums(numlines + 1);
    } else {
      var log' := log[..|log| - 1];
      var m := log[|log| - 1];
      assert log == log' + [m];
      assert Addressed(log', numlines);
      TalliedAccounts(numlines, log');
      ReceiveKeepsAccounts(Tallied(numlines, log'), numlines, log', m);
    }
  }

  /** One receive extends the invariant by one message. */
  lemma {:induction false} ReceiveKeepsAccounts(t: Tally, numlines: nat, log: seq<Msg>, m: Msg)
    requires Accounts(t, numlines, log) && Deliverable(m, numlines)
    ensures Accounts(Receive(t, m), numlines, log + [m])
  {
    AppendOne(log, m);
    forall id | 0 <= id <= numlines
      ensures Receive(t, m).produced[id] == Parts(Project(log + [m], id))
      ensures Receive(t, m).iterations[id] == Productions(Project(log + [m], id))
    {
      ReceiveKeepsLine(t, numlines, log, m, id);
    }
    ReceiveKeepsSums(t, m);
  }

  /** A receive moves the sums of the arrays with the grand total and the
      number of Productions. */
  lemma {:induction false} ReceiveKeepsSums(t: Tally, m: Msg)
    requires |t.iterations| == |t.produced|
    requires m.Production? ==> 0 <= m.facID < |t.produced|
    ensures Sum(Receive(t, m).produced) - Receive(t, m).reportedMade == Sum(t.produced) - t.reportedMade
    ensures Sum(Receive(t, m).iterations) == Sum(t.iterations) + (if m.Production? then 1 else 0)
  {
    if m.Production? {
      SumUpdate(t.produced, m.facID, t.produced[m.facID] + m.partsMade);
      SumUpdate(t.iterations, m.facID, t.iterations[m.facID] + 1);
    }
  }

  /** One receive keeps one line's total and iteration count equal to those
      of its own messages. */
  lemma {:induction false} ReceiveKeepsLine(t: Tally, numlines: nat, log: seq<Msg>, m: Msg, id: nat)
    requires Sized(t, numlines) && Deliverable(m, numlines) && id <= numlines
    requires t.produced[id] == Parts(Project(log, id)) && t.iterations[id] == Productions(Project(log, id))
    ensures Receive(t, m).produced[id] == Parts(Project(log + [m], id))
    ensures Receive(t, m).iterations[id] == Productions(Project(log + [m], id))
  {
    ProjectAppend(log, m, id);
    ReceiveKeepsSlot(t, m, id, Project(log, id), Project(log + [m], id));
  }

  /** The slot of line `id` moves with the messages of that line: a receive
      adds the message to them exactly when it comes from that line. */
  lemma {:induction false} ReceiveKeepsSlot(t: Tally, m: Msg, id: nat, before: seq<Msg>, after: seq<Msg>)
    requires |t.iterations| == |t.produced| && id < |t.produced|
    requires m.Production? ==> 0 <= m.facID < |t.produced|
    requires after == before + (if m.facID == id then [m] else [])
    requires t.produced[id] == Parts(before) && t.iterations[id] == Productions(before)
    ensures Receive(t, m).produced[id] == Parts(after)
    ensures Receive(t, m).iterations[id] == Productions(after)
  {
    var r := Receive(t, m);
    if m.facID == id {
      AppendOne(before, m);
      if m.Production? {
        assert r.produced[id] == t.produced[id] + m.partsMade;
      } else {
        assert r.produced == t.produced && r.iterations == t.iterations;
      }
    } else {
      assert after == before;
      if m.Production? {
        assert r.produced[id] == t.produced[id] && r.iterations[id] == t.iterations[id];
      } else {
        assert r.produced == t.produced && r.iterations == t.iterations;
      }
    }
  }

  /** When no Production comes from index 0 — every message comes from a line
      1..numlines — the grand total is the sum of the totals of lines
      1..numlines, the ones the final report lists. */
  lemma {:induction false} GrandTotalIsLineTotals(t: Tally, numlines: nat, log: seq<Msg>)
    requires Accounts(t, numlines, log)
    requires forall i :: 0 <= i < |log| ==> 1 <= log[i].facID <= numlines
    ensures t.reportedMade == Sum(t.produced[1..])
    ensures Sum(t.iterations[1..]) == Productions(log)
  {
    ProjectOther(log, 0);
    assert t.produced == [t.produced[0]] + t.produced[1..];
    assert t.iterations == [t.iterations[0]] + t.iterations[1..];
    SumConcat([t.produced[0]], t.produced[1..]);
    SumConcat([t.iterations[0]], t.iterations[1..]);
    assert [t.produced[0]][..0] == [];
    assert [t.iterations[0]][..0] == [];
  }

  /** How the receive loop ends: all lines reported completion after
      `consumed` messages, the queue ran dry first (the real supervisor
      would then block for ever), or a Production named an index outside the
      arrays (undefined behaviour in the source). */
  datatype Outcome =
    | Done(tally: Tally, consumed: nat)
    | Starved(tally: Tally)
    | Fault(tally: Tally, consumed: nat)

  /** The receive loop from position `k` of the queue. */
  function Loop(numlines: nat, queue: seq<Msg>, k: nat, t: Tally): Outcome
    requires k <= |queue| && Sized(t, numlines)
    decreases |queue| - k
  {
    if t.finished >= numlines then Done(t, k)
    else if k == |queue| then Starved(t)
    else if !Deliverable(queue[k], numlines) then Fault(t, k)
    else Loop(numlines, queue, k + 1, Receive(t, queue[k]))
  }

  /** What an outcome of the loop says about the queue: it stopped at the
      first point where the Completions seen reached `numlines`, and the
      bookkeeping is that of the messages taken up to there. */
  predicate Explains(numlines: nat, queue: seq<Msg>, o: Outcome) {
    match o
    case Done(t, k) =>
      && k <= |queue|
      && Addressed(queue[..k], numlines)
      && Completions(queue[..k]) == numlines
      && (forall j :: 0 <= j < k ==> Completions(queue[..j]) < numlines)
      && t == Tallied(numlines, queue[..k])
    case Starved(t) =>
      && Addressed(queue, numlines)
      && Completions(queue) < numlines
      && t == Tallied(numlines, queue)
    case Fault(t, k) =>
      && k < |queue|
      && !Deliverable(queue[k], numlines)
      && Addressed(queue[..k], numlines)
      && (forall j :: 0 <= j <= k ==> Completions(queue[..j]) < numlines)
      && t == Tallied(numlines, queue[..k])
  }

  lemma {:induction false} LoopExplained(numlines: nat, queue: seq<Msg>, k: nat)
    requires k <= |queue|
    requires Addressed(queue[..k], numlines)
    requires forall j :: 0 <= j < k ==> Completions(queue[..j]) < numlines
    ensures Explains(numlines, queue, Loop(numlines, queue, k, Tallied(numlines, queue[..k])))
    decreases |queue| - k
  {
    var t := Tallied(numlines, queue[..k]);
    TalliedAccounts(numlines, queue[..k]);
    if t.finished >= numlines {
      ReachedCount(numlines, queue, k);
    } else if k == |queue| {
      assert queue[..k] == queue;
    } else if !Deliverable(queue[k], numlines) {
    } else {
      TakeOne(numlines, queue, k);
      LoopExplained(numlines, queue, k + 1);
    }
  }

  /** Completions grow one at a time, so the first prefix that reaches
      `numlines` holds exactly `numlines`. */
  lemma {:induction false} ReachedCount(numlines: nat, queue: seq<Msg>, k: nat)
    requires k <= |queue|
    requires forall j :: 0 <= j < k ==> Completions(queue[..j]) < numlines
    requires Completions(queue[..k]) >= numlines
    ensures Completions(queue[..k]) == numlines
  {
    if k > 0 {
      assert queue[..k] == queue[..k - 1] + [queue[k - 1]];
      AppendOne(queue[..k - 1], queue[k - 1]);
    }
  }

  /** Taking one more deliverable message before the count is reached keeps
      the loop's hypotheses and tallies one more receive. */
  lemma {:induction false} TakeOne(numlines: nat, queue: seq<Msg>, k: nat)
    requires k < |queue| && Deliverable(queue[k], numlines)
    requires Addressed(queue[..k], numlines)
    requires forall j :: 0 <= j < k ==> Completions(queue[..j]) < numlines
    requires Completions(queue[..k]) < numlines
    ensures Addressed(queue[..k + 1], numlines)
    ensures forall j :: 0 <= j < k + 1 ==> Completions(queue[..j]) < numlines
    ensures Tallied(numlines, queue[..k + 1]) == Receive(Tallied(numlines, queue[..k]), queue[k])
  {
    var next := queue[..k + 1];
    assert next == queue[..k] + [queue[k]];
    assert next[..k] == queue[..k];
    assert Addressed(next, numlines);
  }

  /** The supervisor's receive loop over a whole queue. It consumes messages
      until, and only until, it has seen `numlines` Completions. */
  function Supervise(numlines: nat, queue: seq<Msg>): (o: Outcome)
    ensures Explains(numlines, queue, o)
  {
    assert queue[..0] == [];
    LoopExplained(numlines, queue, 0);
    Loop(numlines, queue, 0, Init(numlines))
  }

  /** Under the hypotheses of EveryProductionCounted, the queue holds
      exactly `numlines` Completions and the last one is its final
      message. */
  lemma {:induction false} LastCompletionEndsQueue(numlines: nat, queue: seq<Msg>)
    requires forall i :: 0 <= i < |queue| ==> 1 <= queue[i].facID <= numlines
    requires forall id :: 1 <= id <= numlines ==> EndsWithSoleCompletion(Project(queue, id))
    ensures Completions(queue) == numlines
    ensures forall j :: 0 <= j < |queue| ==> Completions(queue[..j]) < numlines
  {
    CompletionsPartition(queue, numlines);
    OneCompletionPerLine(queue, numlines);
    if |queue| > 0 {
      var L := |queue| - 1;
      var last := queue[L];
      var front := queue[..L];
      assert queue == front + [last];
      ProjectAppend(front, last, last.facID);
      assert last.Completion?;
      AppendOne(front, last);
      forall j | 0 <= j < |queue|
        ensures Completions(queue[..j]) < numlines
      {
        CompletionsGrow(queue, j, L);
      }
    }
  }

  /** If the queue holds only messages from lines 1..numlines, and each
      line's messages, in queue order, end with that line's only Completion
      — however the lines' messages are interleaved — then the loop takes
      the whole queue: every Production is counted before it exits, and the
      grand total is the sum of all reported batches. */
  lemma {:induction false} EveryProductionCounted(numlines: nat, queue: seq<Msg>)
    requires forall i :: 0 <= i < |queue| ==> 1 <= queue[i].facID <= numlines
    requires forall id :: 1 <= id <= numlines ==> EndsWithSoleCompletion(Project(queue, id))
    ensures Supervise(numlines, queue) == Done(Tallied(numlines, queue), |queue|)
    ensures Tallied(numlines, queue).reportedMade == Parts(queue)
    ensures Tallied(numlines, queue).finished == numlines
  {
    LastCompletionEndsQueue(numlines, queue);
    assert Addressed(queue, numlines);
    TalliedAccounts(numlines, queue);
    ExplainedWholeQueue(numlines, queue, Supervise(numlines, queue));
  }

  /** An outcome of the loop over a queue whose last message, and only its
      last, brings the Completions up to `numlines`, is the whole queue
      taken. */
  lemma {:induction false} ExplainedWholeQueue(numlines: nat, queue: seq<Msg>, o: Outcome)
    requires Addressed(queue, numlines) && Completions(queue) == numlines
    requires forall j :: 0 <= j < |queue| ==> Completions(queue[..j]) < numlines
    requires Explains(numlines, queue, o)
    ensures o == Done(Tallied(numlines, queue), |queue|)
  {
    assert queue[..|queue|] == queue;
  }

  /** One line of the final report. */
  datatype Row = Row(id: int, total: int, iterations: int)

  /** The final report: one row per line, the grand total and the order
      size read back from shared memory. */
  datatype Report = Report(rows: seq<Row>, grandTotal: int, requested: int)

  /** The report printed once the orchestrator grants permission: lines
      1..numlines in ascending order, each with its own total and iteration
      count, then the grand total against the requested order size. */
  function FinalReport(t: Tally, numlines: nat, requested: int): (r: Report)
    requires Sized(t, numlines)
    ensures |r.rows| == numlines
    ensures forall i, j :: 0 <= i < j < |r.rows| ==> r.rows[i].id < r.rows[j].id
    ensures forall i :: 0 <= i < |r.rows| ==>
      1 <= r.rows[i].id <= numlines
      && r.rows[i].total == t.produced[r.rows[i].id]
      && r.rows[i].iterations == t.iterations[r.rows[i].id]
    ensures r.grandTotal == t.reportedMade && r.requested == requested
  {
    Report(seq(numlines, i requires 0 <= i < numlines => Row(i + 1, t.produced[i + 1], t.iterations[i + 1])),
           t.reportedMade, requested)
  }
}
