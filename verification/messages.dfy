/** Report messages that production lines put on the message queue for the
    supervisor, and the views of a queue that the rest of the model uses:
    per-line projections and the counts the supervisor keeps.

    All sequence functions here recurse on the LAST element, so that a fold
    over a queue and the counts describing it unfold in step. */
module Messages {

  /** One message on the queue. A Production reports a batch just made by
      line `facID` together with that line's cycle time; a Completion says
      line `facID` has stopped. */
  datatype Msg =
    | Production(facID: int, partsMade: int, duration: int)
    | Completion(facID: int)

  /** Parts a single message reports. */
  function PartsOf(m: Msg): int {
    if m.Production? then m.partsMade else 0
  }

  /** Total parts reported by the Production messages of `log`. */
  function Parts(log: seq<Msg>): int {
    if log == [] then 0 else Parts(log[..|log| - 1]) + PartsOf(log[|log| - 1])
  }

  /** Number of Production messages in `log`. */
  function Productions(log: seq<Msg>): nat {
    if log == [] then 0
    else Productions(log[..|log| - 1]) + (if log[|log| - 1].Production? then 1 else 0)
  }

  /** Number of Completion messages in `log`. */
  function Completions(log: seq<Msg>): nat {
    if log == [] then 0
    else Completions(log[..|log| - 1]) + (if log[|log| - 1].Completion? then 1 else 0)
  }

  /** The messages of `log` sent by line `id`, in queue order. */
  function Project(log: seq<Msg>, id: int): (s: seq<Msg>)
    ensures |s| <= |log|
  {
    if log == [] then []
    else Project(log[..|log| - 1], id) + (if log[|log| - 1].facID == id then [log[|log| - 1]] else [])
  }

  /** The messages of a line that is still running: Productions of positive
      batches, all tagged with the line's id. */
  predicate Producing(s: seq<Msg>, id: int) {
    forall j :: 0 <= j < |s| ==> s[j].Production? && s[j].facID == id && s[j].partsMade > 0
  }

  /** The messages of a line that has stopped: its Productions, then exactly
      one Completion, last. */
  predicate IsStream(s: seq<Msg>, id: int) {
    |s| >= 1 && s[|s| - 1] == Completion(id) && Producing(s[..|s| - 1], id)
  }

  /** What the supervisor relies on about one line's messages: a Completion
      comes last and nothing before it is a Completion. */
  predicate EndsWithSoleCompletion(s: seq<Msg>) {
    |s| >= 1 && s[|s| - 1].Completion? &&
    forall j :: 0 <= j < |s| - 1 ==> s[j].Production?
  }

  lemma {:induction false} AppendOne(log: seq<Msg>, m: Msg)
    ensures (log + [m])[..|log|] == log
    ensures Parts(log + [m]) == Parts(log) + PartsOf(m)
    ensures Productions(log + [m]) == Productions(log) + (if m.Production? then 1 else 0)
    ensures Completions(log + [m]) == Completions(log) + (if m.Completion? then 1 else 0)
  {
    assert (log + [m])[..|log|] == log;
  }

  /** Projection distributes over concatenation: a line's messages in a
      joined queue are its messages in each part, in order. */
  lemma {:induction false} ProjectConcat(a: seq<Msg>, b: seq<Msg>, id: int)
    ensures Project(a + b, id) == Project(a, id) + Project(b, id)
    decreases |b|
  {
    if b == [] {
      assert a + b == a;
    } else {
      var b' := b[..|b| - 1];
      var m := b[|b| - 1];
      assert a + b == (a + b') + [m];
      assert (a + b)[..|a + b| - 1] == a + b';
      assert b[..|b| - 1] == b';
      ProjectConcat(a, b', id);
    }
  }

  /** A sequence of one line's messages is its own projection. */
  lemma {:induction false} ProjectOwn(s: seq<Msg>, id: int)
    requires forall j :: 0 <= j < |s| ==> s[j].facID == id
    ensures Project(s, id) == s
  {
    if s != [] {
      ProjectOwn(s[..|s| - 1], id);
    }
  }

  /** A sequence with no message of a line projects to nothing for it. */
  lemma {:induction false} ProjectOther(s: seq<Msg>, id: int)
    requires forall j :: 0 <= j < |s| ==> s[j].facID != id
    ensures Project(s, id) == []
  {
    if s != [] {
      ProjectOther(s[..|s| - 1], id);
    }
  }

  /** Running lines only ever report positive batches, so their report holds
      at least one part per message. */
  lemma {:induction false} ProducingParts(s: seq<Msg>, id: int)
    requires Producing(s, id)
    ensures Parts(s) >= |s|
    ensures Productions(s) == |s|
    ensures Completions(s) == 0
  {
    if s != [] {
      ProducingParts(s[..|s| - 1], id);
    }
  }

  /** A finished line's messages hold exactly one Completion, and it is the
      last one. */
  lemma {:induction false} StreamHasSoleCompletion(s: seq<Msg>, id: int)
    requires IsStream(s, id)
    ensures EndsWithSoleCompletion(s)
    ensures Completions(s) == 1
    ensures Productions(s) == |s| - 1
  {
    ProducingParts(s[..|s| - 1], id);
  }

  /** Every message of a finished line's stream carries the line's id. */
  lemma StreamTagged(s: seq<Msg>, id: int)
    requires IsStream(s, id)
    ensures forall j :: 0 <= j < |s| ==> s[j].facID == id
  {
    forall j | 0 <= j < |s|
      ensures s[j].facID == id
    {
      if j < |s| - 1 {
        assert s[j] == s[..|s| - 1][j];
      }
    }
  }

  /** A queue's prefixes never lose a Completion as they grow. */
  lemma {:induction false} CompletionsGrow(log: seq<Msg>, j: nat, k: nat)
    requires j <= k <= |log|
    ensures Completions(log[..j]) <= Completions(log[..k])
    decreases k - j
  {
    if j < k {
      assert log[..k][..k - 1] == log[..k - 1];
      CompletionsGrow(log, j, k - 1);
    }
  }

  /** Number of Completion messages of line `id` in `log`. */
  function CompletionsOf(log: seq<Msg>, id: int): nat {
    if log == [] then 0
    else CompletionsOf(log[..|log| - 1], id)
         + (if log[|log| - 1].Completion? && log[|log| - 1].facID == id then 1 else 0)
  }

  /** Completions summed line by line over the ids 1..n. */
  function CompletionsByLine(log: seq<Msg>, n: nat): nat {
    if n == 0 then 0 else CompletionsByLine(log, n - 1) + CompletionsOf(log, n)
  }

  lemma {:induction false} ProjectAppend(log: seq<Msg>, m: Msg, id: int)
    ensures Project(log + [m], id) == Project(log, id) + (if m.facID == id then [m] else [])
  {
    assert (log + [m])[..|log|] == log;
  }

  /** A line's Completions counted in the queue are the Completions of its
      own messages. */
  lemma {:induction false} CompletionsOfProject(log: seq<Msg>, id: int)
    ensures CompletionsOf(log, id) == Completions(Project(log, id))
  {
    if log != [] {
      var front := log[..|log| - 1];
      var m := log[|log| - 1];
      CompletionsOfProject(front, id);
      assert log == front + [m];
      ProjectAppend(front, m, id);
      AppendOne(Project(front, id), m);
      assert Project(front, id) + [] == Project(front, id);
    }
  }

  lemma {:induction false} CompletionsByLineStep(log: seq<Msg>, m: Msg, n: nat)
    ensures CompletionsByLine(log + [m], n)
         == CompletionsByLine(log, n) + (if m.Completion? && 1 <= m.facID <= n then 1 else 0)
  {
    if n > 0 {
      CompletionsByLineStep(log, m, n - 1);
      assert (log + [m])[..|log|] == log;
      assert CompletionsOf(log + [m], n)
          == CompletionsOf(log, n) + (if m.Completion? && m.facID == n then 1 else 0);
    }
  }

  /** When every message comes from one of the lines 1..n, counting the
      queue's Completions is the same as counting each line's. */
  lemma {:induction false} CompletionsPartition(log: seq<Msg>, n: nat)
    requires forall i :: 0 <= i < |log| ==> 1 <= log[i].facID <= n
    ensures Completions(log) == CompletionsByLine(log, n)
    decreases |log|
  {
    if log != [] {
      var log' := log[..|log| - 1];
      var m := log[|log| - 1];
      assert log == log' + [m];
      CompletionsPartition(log', n);
      CompletionsByLineStep(log', m, n);
      assert Completions(log) == Completions(log') + (if m.Completion? then 1 else 0);
    } else {
      EmptyQueueByLine(n);
    }
  }

  lemma {:induction false} EmptyQueueByLine(n: nat)
    ensures CompletionsByLine([], n) == 0
  {
    if n > 0 {
      EmptyQueueByLine(n - 1);
    }
  }

  /** If every line 1..n finishes its messages with its only Completion, the
      queue holds exactly n Completions. */
  lemma {:induction false} OneCompletionPerLine(log: seq<Msg>, n: nat)
    requires forall id :: 1 <= id <= n ==> EndsWithSoleCompletion(Project(log, id))
    ensures CompletionsByLine(log, n) == n
  {
    if n > 0 {
      OneCompletionPerLine(log, n - 1);
      SoleCompletionCounts(Project(log, n));
      CompletionsOfProject(log, n);
    }
  }

  lemma {:induction false} SoleCompletionCounts(s: seq<Msg>)
    requires EndsWithSoleCompletion(s)
    ensures Completions(s) == 1
  {
    NoCompletions(s[..|s| - 1]);
  }

  lemma {:induction false} NoCompletions(s: seq<Msg>)
    requires forall j :: 0 <= j < |s| ==> s[j].Production?
    ensures Completions(s) == 0
  {
    if s != [] {
      NoCompletions(s[..|s| - 1]);
    }
  }
}
