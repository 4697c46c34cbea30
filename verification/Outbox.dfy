/** The outbox of pkg/events (pkg/events/events.go, lines 76-177): bounded retries and a dead letter queue. */
module Outboxes {
  import opened Counting

  datatype Status = Pending | Published | Failed | Dead

  datatype Entry = Entry(status: Status, attempts: int, maxAttempts: int)

  datatype Box = Box(entries: map<string, Entry>, dlq: seq<string>)

  const MAX_ATTEMPTS := 5
  const EMPTY := Box(map[], [])

  function WithEntry(b: Box, id: string): Box {
    b.(entries := b.entries[id := Entry(Pending, 0, MAX_ATTEMPTS)])
  }

  function WithPublished(b: Box, id: string): Box {
    if id in b.entries then b.(entries := b.entries[id := b.entries[id].(status := Published)]) else b
  }

  function WithFailed(b: Box, id: string): Box {
    if id !in b.entries then b
    else
      var e := b.entries[id].(attempts := b.entries[id].attempts + 1);
      if e.attempts >= e.maxAttempts then Box(b.entries[id := e.(status := Dead)], b.dlq + [id])
      else b.(entries := b.entries[id := e.(status := Failed)])
  }

  predicate IsPending(e: Entry) {
    e.status == Pending || e.status == Failed
  }

  class EntryRecord {
    const id: string
    const maxAttempts: int
    var status: Status
    var attempts: int

    constructor (id: string)
      ensures this.id == id && View() == Entry(Pending, 0, MAX_ATTEMPTS)
    {
      this.id, maxAttempts := id, MAX_ATTEMPTS;
      status, attempts := Pending, 0;
    }

    function View(): Entry
      reads this
    {
      Entry(status, attempts, maxAttempts)
    }
  }

  class Outbox {
    var entries: map<string, EntryRecord>
    var dlq: seq<EntryRecord>

    constructor ()
      ensures Valid() && View() == EMPTY
    {
      entries, dlq := map[], [];
    }

    ghost predicate Valid()
      reads this
    {
      forall id | id in entries :: entries[id].id == id
    }

    ghost function View(): Box
      reads this, entries.Values
    {
      Box(map id | id in entries :: entries[id].View(), seq(|dlq|, i requires 0 <= i < |dlq| reads this => dlq[i].id))
    }

    method Add(id: string) returns (entry: EntryRecord)
      requires Valid()
      modifies this
      ensures Valid() && entry.id == id
      ensures View() == WithEntry(old(View()), id)
    {
      entry := new EntryRecord(id);
      entries := entries[id := entry];
      assert View().entries == old(View()).entries[id := entry.View()];
    }

    method MarkPublished(id: string)
      requires Valid()
      modifies entries.Values
      ensures Valid()
      ensures View() == WithPublished(old(View()), id)
    {
      if id in entries {
        entries[id].status := Published;
        assert View().entries == WithPublished(old(View()), id).entries;
      }
    }

    method MarkFailed(id: string)
      requires Valid()
      modifies this`dlq, entries.Values
      ensures Valid()
      ensures View() == WithFailed(old(View()), id)
    {
      if id !in entries {
        return;
      }
      var entry := entries[id];
      entry.attempts := entry.attempts + 1;
      if entry.attempts >= entry.maxAttempts {
        entry.status := Dead;
        dlq := dlq + [entry];
      } else {
        entry.status := Failed;
      }
      assert View().entries == WithFailed(old(View()), id).entries;
      assert View().dlq == WithFailed(old(View()), id).dlq;
    }

    /** Every entry still to be published, once each, in some order. */
    method GetPending() returns (out: seq<EntryRecord>)
      requires Valid()
      ensures forall i, j | 0 <= i < j < |out| :: out[i] != out[j]
      ensures forall e :: e in out <==> e in entries.Values && IsPending(e.View())
    {
      out := [];
      var rest := entries.Keys;
      while rest != {}
        invariant rest <= entries.Keys
        invariant forall i, j | 0 <= i < j < |out| :: out[i] != out[j]
        invariant forall e :: e in out <==> e in entries.Values && IsPending(e.View()) && e.id !in rest
        decreases rest
      {
        var id :| id in rest;
        rest := rest - {id};
        var e := entries[id];
        if e.status == Pending || e.status == Failed {
          out := out + [e];
        }
      }
    }
  }

  // ---- Runs ----

  datatype Op =
    | AddOp(id: string)
    | PublishedOp(id: string)
    | FailedOp(id: string)

  function Step(b: Box, op: Op): Box {
    match op
    case AddOp(id) => WithEntry(b, id)
    case PublishedOp(id) => WithPublished(b, id)
    case FailedOp(id) => WithFailed(b, id)
  }

  function Run(ops: seq<Op>): Box {
    if ops == [] then EMPTY else Step(Run(ops[..|ops| - 1]), ops[|ops| - 1])
  }

  ghost predicate FreshIds(ops: seq<Op>) {
    forall n | 0 <= n < |ops| :: ops[n].AddOp? ==> ops[n].id !in Run(ops[..n]).entries
  }

  /** Only entries that GetPending would return are ever marked. */
  ghost predicate MarksPending(ops: seq<Op>) {
    forall n | 0 <= n < |ops| :: !ops[n].AddOp? ==>
      var b := Run(ops[..n]); ops[n].id in b.entries && IsPending(b.entries[ops[n].id])
  }

  /** How often an entry was marked failed since it was added. */
  function TimesFailed(ops: seq<Op>, id: string): nat {
    if ops == [] then 0
    else
      var before, last := ops[..|ops| - 1], ops[|ops| - 1];
      if last.id != id || last.PublishedOp? then TimesFailed(before, id)
      else if last.AddOp? then 0
      else TimesFailed(before, id) + (if id in Run(before).entries then 1 else 0)
  }

  function Adds(ops: seq<Op>): nat {
    if ops == [] then 0 else Adds(ops[..|ops| - 1]) + (if ops[|ops| - 1].AddOp? then 1 else 0)
  }

  /** An entry is in the dead letter queue once for every failure from the maxAttempts-th on. */
  ghost predicate QueueExact(b: Box) {
    && (forall id | id in b.entries :: b.entries[id].maxAttempts == MAX_ATTEMPTS && b.entries[id].attempts >= 0)
    && (forall id :: Occurrences(b.dlq, id) ==
          if id in b.entries && b.entries[id].attempts >= MAX_ATTEMPTS then b.entries[id].attempts - MAX_ATTEMPTS + 1
          else 0)
  }

  lemma StepQueueExact(b: Box, op: Op)
    requires QueueExact(b) && (op.AddOp? ==> op.id !in b.entries)
    ensures QueueExact(Step(b, op))
  {
    OccurrencesNext(b.dlq, op.id);
    hide Occurrences;
  }

  lemma StepAttempts(b: Box, op: Op)
    ensures Step(b, op).entries.Keys == b.entries.Keys + (if op.AddOp? then {op.id} else {})
    ensures forall id | id in Step(b, op).entries ::
      Step(b, op).entries[id].attempts ==
        if id == op.id && op.AddOp? then 0 else b.entries[id].attempts + (if id == op.id && op.FailedOp? then 1 else 0)
  {
  }

  lemma KeysCount(m: map<string, Entry>, t: map<string, Entry>, id: string)
    requires id !in m && t.Keys == m.Keys + {id}
    ensures |t| == |m| + 1
  {
    assert |t| == |t.Keys| && |m| == |m.Keys|;
  }

  lemma SameCount(m: map<string, Entry>, t: map<string, Entry>)
    requires t.Keys == m.Keys
    ensures |t| == |m|
  {
    assert |t| == |t.Keys| && |m| == |m.Keys|;
  }

  lemma StepCounts(b: Box, op: Op)
    requires op.AddOp? ==> op.id !in b.entries
    ensures |Step(b, op).entries| == |b.entries| + (if op.AddOp? then 1 else 0)
  {
    StepAttempts(b, op);
    hide *;
    if op.AddOp? {
      KeysCount(b.entries, Step(b, op).entries, op.id);
    } else {
      assert b.entries.Keys + {} == b.entries.Keys;
      SameCount(b.entries, Step(b, op).entries);
    }
  }

  /** Whatever ids are marked, in whatever order: attempts counts the failures, and the queue holds an entry
      exactly max(0, attempts - maxAttempts + 1) times. */
  lemma {:induction false} QueueCountsLateFailures(ops: seq<Op>)
    requires FreshIds(ops)
    ensures QueueExact(Run(ops))
    ensures forall id | id in Run(ops).entries :: Run(ops).entries[id].attempts == TimesFailed(ops, id)
    ensures |Run(ops).entries| == Adds(ops)
  {
    if ops == [] {
    } else {
      var before, last := ops[..|ops| - 1], ops[|ops| - 1];
      assert forall n | 0 <= n <= |before| :: before[..n] == ops[..n];
      assert ops[..|before|] == before;
      QueueCountsLateFailures(before);
      StepQueueExact(Run(before), last);
      StepCounts(Run(before), last);
      StepAttempts(Run(before), last);
      hide QueueExact, Step, FreshIds;
    }
  }

  /** The queue has no duplicates exactly when no entry was failed more than maxAttempts times. */
  lemma NoDuplicatesExactly(ops: seq<Op>)
    requires FreshIds(ops)
    ensures NoDuplicates(Run(ops).dlq) <==> forall id | id in Run(ops).entries :: TimesFailed(ops, id) <= MAX_ATTEMPTS
  {
    var b := Run(ops);
    QueueCountsLateFailures(ops);
    DuplicatesOccurTwice(b.dlq);
    if NoDuplicates(b.dlq) {
      forall id | id in b.entries
        ensures TimesFailed(ops, id) <= MAX_ATTEMPTS
      {
        assert AtMostOnce(b.dlq, id);
      }
    }
  }

  function InStatus(b: Box, status: Status): set<string> {
    set id | id in b.entries && b.entries[id].status == status
  }

  ghost predicate DeadWhenSpent(b: Box) {
    forall id | id in b.entries :: var e := b.entries[id];
      (e.status == Dead <==> e.attempts == MAX_ATTEMPTS) && e.attempts <= MAX_ATTEMPTS && e.maxAttempts == MAX_ATTEMPTS
  }

  lemma StepDeadWhenSpent(b: Box, op: Op)
    requires DeadWhenSpent(b)
    requires !op.AddOp? ==> op.id in b.entries && IsPending(b.entries[op.id])
    ensures DeadWhenSpent(Step(b, op))
  {
  }

  lemma {:induction false} PendingHaveAttemptsLeft(ops: seq<Op>)
    requires MarksPending(ops)
    ensures DeadWhenSpent(Run(ops))
  {
    if ops == [] {
    } else {
      var before := ops[..|ops| - 1];
      assert forall n | 0 <= n <= |before| :: before[..n] == ops[..n];
      assert ops[..|before|] == before;
      PendingHaveAttemptsLeft(before);
      StepDeadWhenSpent(Run(before), ops[|ops| - 1]);
      hide DeadWhenSpent;
    }
  }

  lemma TakeOut(a: set<string>, b: set<string>)
    requires b <= a
    ensures |a| == |b| + |a - b|
  {
    assert a == b + (a - b);
  }

  lemma StatusesDisjoint(b: Box)
    ensures InStatus(b, Pending) <= b.entries.Keys
    ensures InStatus(b, Published) <= b.entries.Keys - InStatus(b, Pending)
    ensures InStatus(b, Failed) <= b.entries.Keys - InStatus(b, Pending) - InStatus(b, Published)
    ensures InStatus(b, Dead)
         == b.entries.Keys - InStatus(b, Pending) - InStatus(b, Published) - InStatus(b, Failed)
  {
  }

  lemma StatusesPartition(b: Box)
    ensures |InStatus(b, Pending)| + |InStatus(b, Published)| + |InStatus(b, Failed)| + |InStatus(b, Dead)|
         == |b.entries|
  {
    StatusesDisjoint(b);
    hide InStatus;
    var all := b.entries.Keys;
    TakeOut(all, InStatus(b, Pending));
    TakeOut(all - InStatus(b, Pending), InStatus(b, Published));
    TakeOut(all - InStatus(b, Pending) - InStatus(b, Published), InStatus(b, Failed));
  }

  /** If only pending entries are marked, the queue holds exactly the dead entries, each once, and the counts
      by status add up to the number of entries added. */
  lemma PoliteQueueIsDead(ops: seq<Op>)
    requires FreshIds(ops) && MarksPending(ops)
    ensures var b := Run(ops);
            && NoDuplicates(b.dlq)
            && (forall id :: id in b.dlq <==> id in InStatus(b, Dead))
            && |InStatus(b, Pending)| + |InStatus(b, Published)| + |InStatus(b, Failed)| + |InStatus(b, Dead)|
                 == Adds(ops)
  {
    var b := Run(ops);
    QueueCountsLateFailures(ops);
    PendingHaveAttemptsLeft(ops);
    DuplicatesOccurTwice(b.dlq);
    StatusesPartition(b);
    forall id
      ensures id in b.dlq <==> id in InStatus(b, Dead)
    {
      InMeansOccurs(b.dlq, id);
    }
  }

  // ---- What the marks say ----

  /** The marks an entry was given since it was added, in order. */
  function Marks(ops: seq<Op>, id: string): seq<Op> {
    if ops == [] then []
    else
      var before, last := Marks(ops[..|ops| - 1], id), ops[|ops| - 1];
      if last.id != id then before else if last.AddOp? then [] else before + [last]
  }

  function Failures(marks: seq<Op>): nat {
    Tally(marks, (op: Op) => op.FailedOp?)
  }

  ghost predicate Told(e: Entry, marks: seq<Op>) {
    && e.attempts == Failures(marks) && e.maxAttempts == 5
    && (marks == [] ==> e.status == Pending)
    && (marks != [] && marks[|marks| - 1].PublishedOp? ==> e.status == Published)
    && (marks != [] && marks[|marks| - 1].FailedOp? ==> e.status == if Failures(marks) >= 5 then Dead else Failed)
  }

  lemma StepTold(b: Box, marks: seq<Op>, op: Op, id: string)
    requires id in Step(b, op).entries && (op.AddOp? ==> op.id !in b.entries)
    requires id in b.entries ==> Told(b.entries[id], marks)
    ensures Told(Step(b, op).entries[id], if op.id != id then marks else if op.AddOp? then [] else marks + [op])
  {
    TallyNext(marks, op, (op: Op) => op.FailedOp?);
  }

  lemma {:induction false} RunTold(ops: seq<Op>, id: string)
    requires FreshIds(ops)
    ensures id in Run(ops).entries <==> AddOp(id) in ops
    ensures id in Run(ops).entries ==> Told(Run(ops).entries[id], Marks(ops, id))
    ensures forall m | m in Marks(ops, id) :: !m.AddOp?
  {
    if ops == [] {
    } else {
      var before, last := ops[..|ops| - 1], ops[|ops| - 1];
      assert forall n | 0 <= n <= |before| :: before[..n] == ops[..n];
      assert ops[..|before|] == before && ops == before + [last];
      RunTold(before, id);
      StepAttempts(Run(before), last);
      hide Told, Step, FreshIds;
      if id in Run(ops).entries {
        StepTold(Run(before), Marks(before, id), last, id);
      }
    }
  }

  /** In every run on fresh ids an entry's status is decided by the marks since it was added: pending if there were
      none, published exactly if the last one says so, and after a last failure dead from the fifth on. */
  lemma StatusFollowsMarks(ops: seq<Op>, id: string)
    requires FreshIds(ops)
    ensures id in Run(ops).entries <==> AddOp(id) in ops
    ensures id in Run(ops).entries ==>
      var status, marks := Run(ops).entries[id].status, Marks(ops, id);
      && (status == Pending <==> marks == [])
      && (status == Published <==> marks != [] && marks[|marks| - 1].PublishedOp?)
      && (status == Failed <==> marks != [] && marks[|marks| - 1].FailedOp? && Failures(marks) < 5)
      && (status == Dead <==> marks != [] && marks[|marks| - 1].FailedOp? && Failures(marks) >= 5)
  {
    RunTold(ops, id);
    hide Run, Failures;
    var marks := Marks(ops, id);
    assert marks != [] ==> marks[|marks| - 1] in marks;
  }

  /** So what is still to be published after a run, and GetPending returns, is exactly what was added and then not
      marked, or last marked with a failure before the fifth. */
  lemma PendingFollowsMarks(ops: seq<Op>, id: string)
    requires FreshIds(ops)
    ensures id in Run(ops).entries && IsPending(Run(ops).entries[id]) <==>
      var marks := Marks(ops, id);
      AddOp(id) in ops && (marks == [] || (marks[|marks| - 1].FailedOp? && Failures(marks) < 5))
  {
    StatusFollowsMarks(ops, id);
    hide Run, Failures, Marks;
  }
}
