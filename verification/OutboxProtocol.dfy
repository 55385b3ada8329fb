/** The transactional outbox as a protocol: committed rows, the broker's log, and any
    number of overlapping pollers, each with its own session of loaded rows. */
module OutboxProtocol {
  import opened Wrappers

  const MAX_PUBLISH_ATTEMPTS: int := 10
  const PUBLISH_BATCH: nat := 100

  /** The columns of a row that are written once, when the event is recorded. */
  datatype Content = Content(
    aggregateType: string,
    aggregateId: Option<string>,
    eventType: string,
    tenantId: Option<string>,
    payload: string,
    createdAt: int)

  datatype Row = Row(content: Content, publishedAt: Option<int>, attempts: int)

  /** A stored broker message. The envelope id is fresh for every publish, so two copies
      of one row differ in it. */
  datatype Message = Message(subject: string, envelopeId: nat, body: Content)

  function Subject(c: Content): string {
    c.aggregateType + "." + c.eventType
  }

  function Envelope(c: Content, envelopeId: nat): Message {
    Message(Subject(c), envelopeId, c)
  }

  predicate CopyOf(m: Message, c: Content) {
    m.subject == Subject(c) && m.body == c
  }

  predicate Pending(r: Row) {
    r.publishedAt.None? && r.attempts < MAX_PUBLISH_ATTEMPTS
  }

  predicate Dead(r: Row) {
    r.publishedAt.None? && r.attempts >= MAX_PUBLISH_ATTEMPTS
  }

  ghost predicate Distinct(ids: seq<nat>) {
    forall j, k | 0 <= j < k < |ids| :: ids[j] != ids[k]
  }

  /** What the SELECT may return: pending rows only, oldest first, and a pending row is
      missed only when the batch is full of rows at least as old. Rows of equal age may
      come in either order. */
  ghost predicate IsBatch(rows: seq<Row>, limit: nat, batch: seq<nat>) {
    && Distinct(batch)
    && |batch| <= limit
    && (forall j | 0 <= j < |batch| :: batch[j] < |rows| && Pending(rows[batch[j]]))
    && (forall j, k | 0 <= j < k < |batch| ::
          rows[batch[j]].content.createdAt <= rows[batch[k]].content.createdAt)
    && (forall i {:trigger i in batch} | 0 <= i < |rows| && Pending(rows[i]) && i !in batch ::
          && |batch| == limit
          && forall j | 0 <= j < |batch| ::
               rows[batch[j]].content.createdAt <= rows[i].content.createdAt)
  }

  /** A poller between its SELECT and its commit: the rows as loaded, the same rows with
      the session's own changes, and how far the publish loop has come. */
  datatype Work = Work(batch: seq<nat>, loaded: seq<Row>, held: seq<Row>, next: nat)

  datatype System = System(rows: seq<Row>, broker: seq<Message>, pollers: map<nat, Work>)

  /** A refused publish may still have been stored: the exception can be a lost
      acknowledgement. */
  datatype Reply = Accepted(now: int) | Refused(stored: bool)

  datatype Step =
    | Record(content: Content)
    | Select(poller: nat, limit: nat, batch: seq<nat>)
    | Publish(poller: nat, envelopeId: nat, reply: Reply)
    | Commit(poller: nat)
    | Abandon(poller: nat) // no connection, crash, task limit, or failed commit

  ghost predicate Enabled(s: System, step: Step) {
    match step
    case Record(_) => true
    case Select(p, limit, batch) => p !in s.pollers && IsBatch(s.rows, limit, batch)
    case Publish(p, _, _) =>
      p in s.pollers && s.pollers[p].next < |s.pollers[p].held|
    case Commit(p) =>
      p in s.pollers && s.pollers[p].next == |s.pollers[p].batch| && Fits(s.rows, s.pollers[p])
    case Abandon(p) => p in s.pollers
  }

  /** The rows a session writes still exist: nothing deletes outbox rows. */
  predicate Fits(rows: seq<Row>, w: Work) {
    && |w.loaded| == |w.held| == |w.batch|
    && forall j | 0 <= j < |w.batch| :: w.batch[j] < |rows|
  }

  function AfterReply(r: Row, reply: Reply): Row {
    match reply
    case Accepted(now) => r.(publishedAt := Some(now))
    case Refused(_) => r.(attempts := r.attempts + 1)
  }

  function Stored(reply: Reply): bool {
    reply.Accepted? || reply.stored
  }

  /** The UPDATE the ORM emits for one row: absolute values, changed columns only. */
  function Flush(db: Row, loaded: Row, held: Row): Row {
    Row(db.content,
        if held.publishedAt != loaded.publishedAt then held.publishedAt else db.publishedAt,
        if held.attempts != loaded.attempts then held.attempts else db.attempts)
  }

  function WriteBack(rows: seq<Row>, w: Work, n: nat): (after: seq<Row>)
    requires Fits(rows, w) && n <= |w.batch|
    ensures |after| == |rows|
  {
    if n == 0 then rows else
      var before := WriteBack(rows, w, n - 1);
      before[w.batch[n - 1] := Flush(before[w.batch[n - 1]], w.loaded[n - 1], w.held[n - 1])]
  }

  function Load(rows: seq<Row>, batch: seq<nat>): seq<Row>
    requires forall j | 0 <= j < |batch| :: batch[j] < |rows|
  {
    seq(|batch|, j requires 0 <= j < |batch| => rows[batch[j]])
  }

  function Next(s: System, step: Step): System
    requires Enabled(s, step)
  {
    match step
    case Record(content) => s.(rows := s.rows + [Row(content, None, 0)])
    case Select(p, _, batch) =>
      var loaded := Load(s.rows, batch);
      s.(pollers := s.pollers[p := Work(batch, loaded, loaded, 0)])
    case Publish(p, envelopeId, reply) =>
      var w := s.pollers[p];
      var row := w.held[w.next];
      s.(broker := if Stored(reply) then s.broker + [Envelope(row.content, envelopeId)] else s.broker,
         pollers := s.pollers[p := w.(held := w.held[w.next := AfterReply(row, reply)], next := w.next + 1)])
    case Commit(p) =>
      s.(rows := WriteBack(s.rows, s.pollers[p], |s.pollers[p].batch|), pollers := s.pollers - {p})
    case Abandon(p) => s.(pollers := s.pollers - {p})
  }

  ghost predicate IsRun(s: System, steps: seq<Step>)
    decreases |steps|, 0
  {
    steps == [] ||
    (IsRun(s, steps[..|steps| - 1]) && Enabled(After(s, steps[..|steps| - 1]), steps[|steps| - 1]))
  }

  ghost function After(s: System, steps: seq<Step>): System
    requires IsRun(s, steps)
    decreases |steps|, 1
  {
    if steps == [] then s else Next(After(s, steps[..|steps| - 1]), steps[|steps| - 1])
  }

  lemma OneMore(s: System, steps: seq<Step>, step: Step)
    requires IsRun(s, steps) && Enabled(After(s, steps), step)
    ensures IsRun(s, steps + [step]) && After(s, steps + [step]) == Next(After(s, steps), step)
  {
    assert (steps + [step])[..|steps|] == steps;
  }

  ghost predicate Leads(s: System, step: Step, t: System) {
    Enabled(s, step) && Next(s, step) == t
  }

  lemma {:induction false} RunThroughTo(s: System, done: seq<Step>, states: seq<System>, steps: seq<Step>, n: nat)
    requires IsRun(s, done) && |states| == |steps| + 1 && After(s, done) == states[0] && n <= |steps|
    requires forall k {:trigger steps[k]} | 0 <= k < |steps| :: Leads(states[k], steps[k], states[k + 1])
    ensures IsRun(s, done + steps[..n]) && After(s, done + steps[..n]) == states[n]
  {
    if n == 0 {
      assert done + steps[..0] == done;
    } else {
      RunThroughTo(s, done, states, steps, n - 1);
      assert Leads(states[n - 1], steps[n - 1], states[n - 1 + 1]);
      OneMore(s, done + steps[..n - 1], steps[n - 1]);
      assert done + steps[..n - 1] + [steps[n - 1]] == done + steps[..n];
    }
  }

  /** A run carried on through given states. */
  lemma RunThrough(s: System, done: seq<Step>, states: seq<System>, steps: seq<Step>)
    requires IsRun(s, done) && |states| == |steps| + 1 && After(s, done) == states[0]
    requires forall k {:trigger steps[k]} | 0 <= k < |steps| :: Leads(states[k], steps[k], states[k + 1])
    ensures IsRun(s, done + steps) && After(s, done + steps) == states[|steps|]
  {
    RunThroughTo(s, done, states, steps, |steps|);
    assert steps[..|steps|] == steps;
  }

  lemma ThreeMore(s: System, steps: seq<Step>, t: System, x: Step, y: Step, z: Step) returns (more: seq<Step>)
    requires IsRun(s, steps) && t == After(s, steps)
    requires Enabled(t, x) && Enabled(Next(t, x), y) && Enabled(Next(Next(t, x), y), z)
    ensures IsRun(s, more) && After(s, more) == Next(Next(Next(t, x), y), z)
  {
    OneMore(s, steps, x);
    OneMore(s, steps + [x], y);
    OneMore(s, steps + [x] + [y], z);
    more := steps + [x] + [y] + [z];
  }

  const EMPTY := System([], [], map[])

  // ---------------------------------------------------------------- invariant

  ghost predicate HasCopy(broker: seq<Message>, c: Content) {
    exists k | 0 <= k < |broker| :: CopyOf(broker[k], c)
  }

  ghost predicate Recorded(rows: seq<Row>, m: Message) {
    exists i | 0 <= i < |rows| :: CopyOf(m, rows[i].content)
  }

  ghost predicate RowsSafe(s: System) {
    forall i | 0 <= i < |s.rows| ::
      && 0 <= s.rows[i].attempts <= MAX_PUBLISH_ATTEMPTS
      && (s.rows[i].publishedAt.Some? ==> HasCopy(s.broker, s.rows[i].content))
  }

  ghost predicate BrokerSafe(s: System) {
    forall k | 0 <= k < |s.broker| :: Recorded(s.rows, s.broker[k])
  }

  /** One held row: untouched, or stamped with a broker copy behind it, or one attempt on. */
  ghost predicate HeldSafe(broker: seq<Message>, loaded: Row, held: Row, touched: bool) {
    && held.content == loaded.content
    && loaded.publishedAt.None?
    && 0 <= loaded.attempts < MAX_PUBLISH_ATTEMPTS
    && if !touched then held == loaded
       else if held.publishedAt.Some? then held.attempts == loaded.attempts && HasCopy(broker, held.content)
       else held.attempts == loaded.attempts + 1
  }

  ghost predicate WorkSafe(s: System, w: Work) {
    && Fits(s.rows, w)
    && Distinct(w.batch)
    && w.next <= |w.batch|
    && forall j | 0 <= j < |w.batch| ::
         && w.loaded[j].content == s.rows[w.batch[j]].content
         && HeldSafe(s.broker, w.loaded[j], w.held[j], j < w.next)
  }

  ghost predicate Safe(s: System) {
    && RowsSafe(s)
    && BrokerSafe(s)
    && forall p | p in s.pollers :: WorkSafe(s, s.pollers[p])
  }

  /** What later states keep of earlier ones: rows stay, their content is fixed, a stamp is
      never taken back, and the broker's log only grows. */
  ghost predicate Grows(s: System, t: System) {
    && |s.rows| <= |t.rows|
    && s.broker <= t.broker
    && forall i | 0 <= i < |s.rows| ::
         && t.rows[i].content == s.rows[i].content
         && (s.rows[i].publishedAt.Some? ==> t.rows[i].publishedAt.Some?)
  }

  lemma WriteBackAt(rows: seq<Row>, w: Work, n: nat, i: nat)
    requires Fits(rows, w) && Distinct(w.batch) && n <= |w.batch| && i < |rows|
    ensures i !in w.batch[..n] ==> WriteBack(rows, w, n)[i] == rows[i]
    ensures forall j | 0 <= j < n && w.batch[j] == i ::
              WriteBack(rows, w, n)[i] == Flush(rows[i], w.loaded[j], w.held[j])
  {
    if n > 0 {
      WriteBackAt(rows, w, n - 1, i);
      assert w.batch[..n] == w.batch[..n - 1] + [w.batch[n - 1]];
      if w.batch[n - 1] == i {
        assert i !in w.batch[..n - 1];
      }
    }
  }

  lemma CommitRow(s: System, p: nat, i: nat)
    requires Safe(s) && p in s.pollers && i < |s.rows|
    ensures var w := s.pollers[p];
            var row := WriteBack(s.rows, w, |w.batch|)[i];
            || (i !in w.batch && row == s.rows[i])
            || exists j | 0 <= j < |w.batch| ::
                 w.batch[j] == i && row == Flush(s.rows[i], w.loaded[j], w.held[j])
  {
    var w := s.pollers[p];
    WriteBackAt(s.rows, w, |w.batch|, i);
    assert w.batch[..|w.batch|] == w.batch;
    if i in w.batch {
      var j :| 0 <= j < |w.batch| && w.batch[j] == i;
    }
  }

  lemma CopiesPersist(a: seq<Message>, b: seq<Message>, c: Content)
    requires a <= b && HasCopy(a, c)
    ensures HasCopy(b, c)
  {
    var k :| 0 <= k < |a| && CopyOf(a[k], c);
    assert CopyOf(b[k], c);
  }

  lemma CommitSafe(s: System, p: nat)
    requires Safe(s) && Enabled(s, Commit(p))
    ensures Safe(Next(s, Commit(p))) && Grows(s, Next(s, Commit(p)))
  {
    var t := Next(s, Commit(p));
    forall i | 0 <= i < |s.rows|
      ensures t.rows[i].content == s.rows[i].content
      ensures s.rows[i].publishedAt.Some? ==> t.rows[i].publishedAt.Some?
      ensures 0 <= t.rows[i].attempts <= MAX_PUBLISH_ATTEMPTS
      ensures t.rows[i].publishedAt.Some? ==> HasCopy(t.broker, t.rows[i].content)
    {
      CommitRow(s, p, i);
    }
    forall k | 0 <= k < |t.broker|
      ensures Recorded(t.rows, t.broker[k])
    {
      assert Recorded(s.rows, s.broker[k]);
      var i :| 0 <= i < |s.rows| && CopyOf(s.broker[k], s.rows[i].content);
      assert CopyOf(t.broker[k], t.rows[i].content);
    }
  }

  /** What a commit writes, column by column: an accepted row only its stamp, a refused one only
      its counter, one more than the session loaded, whatever others have committed since. */
  lemma CommitWrites(s: System, p: nat, i: nat)
    requires Safe(s) && Enabled(s, Commit(p)) && i < |s.rows|
    ensures var w, before, after := s.pollers[p], s.rows[i], Next(s, Commit(p)).rows[i];
            && (i !in w.batch ==> after == before)
            && after.content == before.content
            && forall j | 0 <= j < |w.batch| && w.batch[j] == i ::
                 if w.held[j].publishedAt.Some?
                 then after.publishedAt == w.held[j].publishedAt && after.attempts == before.attempts
                 else after.publishedAt == before.publishedAt && after.attempts == w.loaded[j].attempts + 1
  {
    CommitRow(s, p, i);
  }

  lemma PublishSafe(s: System, step: Step)
    requires Safe(s) && step.Publish? && Enabled(s, step)
    ensures Safe(Next(s, step)) && Grows(s, Next(s, step))
  {
    var t := Next(s, step);
    var w := s.pollers[step.poller];
    var content := w.held[w.next].content;
    forall c | HasCopy(s.broker, c)
      ensures HasCopy(t.broker, c)
    {
      CopiesPersist(s.broker, t.broker, c);
    }
    if Stored(step.reply) {
      assert CopyOf(t.broker[|s.broker|], content);
      assert CopyOf(t.broker[|s.broker|], s.rows[w.batch[w.next]].content);
    }
    forall k | 0 <= k < |t.broker|
      ensures Recorded(t.rows, t.broker[k])
    {
      if k < |s.broker| {
        assert Recorded(s.rows, s.broker[k]);
      }
    }
  }

  lemma StepSafe(s: System, step: Step)
    requires Safe(s) && Enabled(s, step)
    ensures Safe(Next(s, step)) && Grows(s, Next(s, step))
  {
    var t := Next(s, step);
    match step
    case Commit(p) => CommitSafe(s, p);
    case Publish(_, _, _) => PublishSafe(s, step);
    case Record(_) =>
      forall k | 0 <= k < |t.broker|
        ensures Recorded(t.rows, t.broker[k])
      {
        assert Recorded(s.rows, s.broker[k]);
        var i :| 0 <= i < |s.rows| && CopyOf(s.broker[k], s.rows[i].content);
        assert CopyOf(t.broker[k], t.rows[i].content);
      }
    case Select(_, _, _) =>
    case Abandon(_) =>
  }

  /** Every interleaving of recorders, overlapping pollers, lost acknowledgements, crashes
      and failed commits keeps the invariant, and never loses or un-stamps a row. */
  lemma {:induction false} RunSafe(s: System, steps: seq<Step>)
    requires Safe(s) && IsRun(s, steps)
    ensures Safe(After(s, steps)) && Grows(s, After(s, steps))
  {
    if steps != [] {
      var prefix := steps[..|steps| - 1];
      RunSafe(s, prefix);
      StepSafe(After(s, prefix), steps[|steps| - 1]);
    }
  }

  /** At-least-once and no ghosts, from an empty table: a stamped row has a broker copy
      under its own subject and content, every broker copy comes from a committed row, and
      the attempt counter never leaves 0..10 even when stale counters are written. */
  lemma OutboxSafety(steps: seq<Step>)
    requires IsRun(EMPTY, steps)
    ensures var t := After(EMPTY, steps);
            && (forall i | 0 <= i < |t.rows| ::
                  && 0 <= t.rows[i].attempts <= MAX_PUBLISH_ATTEMPTS
                  && (t.rows[i].publishedAt.Some? ==> HasCopy(t.broker, t.rows[i].content)))
            && (forall k | 0 <= k < |t.broker| :: Recorded(t.rows, t.broker[k]))
  {
    RunSafe(EMPTY, steps);
  }

  // ---------------------------------------------------------------- is a dead row final?

  /** Every session that still holds row i would write it back as it is. */
  ghost predicate Frozen(s: System, i: nat) {
    forall p, j | p in s.pollers && 0 <= j < |s.pollers[p].batch| && s.pollers[p].batch[j] == i ::
      && j < s.pollers[p].next
      && j < |s.pollers[p].held|
      && s.pollers[p].held[j].publishedAt.None?
      && s.pollers[p].held[j].attempts == MAX_PUBLISH_ATTEMPTS
  }

  ghost predicate DeadAt(s: System, i: nat) {
    i < |s.rows| && Dead(s.rows[i])
  }

  lemma FrozenStep(s: System, step: Step, i: nat)
    requires Safe(s) && Enabled(s, step) && DeadAt(s, i) && Frozen(s, i)
    ensures var t := Next(s, step);
            i < |t.rows| && t.rows[i] == s.rows[i] && Frozen(t, i)
  {
    if step.Commit? {
      CommitRow(s, step.poller, i);
    }
  }

  lemma {:induction false} FrozenForever(s: System, steps: seq<Step>, i: nat)
    requires Safe(s) && IsRun(s, steps) && DeadAt(s, i) && Frozen(s, i)
    ensures var t := After(s, steps);
            i < |t.rows| && t.rows[i] == s.rows[i] && Frozen(t, i)
  {
    if steps != [] {
      var prefix := steps[..|steps| - 1];
      FrozenForever(s, prefix, i);
      RunSafe(s, prefix);
      FrozenStep(After(s, prefix), steps[|steps| - 1], i);
    }
  }

  function Finished(held: seq<Row>, from: nat): seq<Row> {
    seq(|held|, j requires 0 <= j < |held| => if j < from then held[j] else held[j].(publishedAt := Some(0)))
  }

  lemma {:induction false} PublishRest(s: System, done: seq<Step>, p: nat) returns (steps: seq<Step>)
    requires IsRun(s, done) && p in After(s, done).pollers
    requires var w := After(s, done).pollers[p]; w.next <= |w.held|
    ensures IsRun(s, steps) && p in After(s, steps).pollers
    ensures After(s, steps).rows == After(s, done).rows
    ensures var w := After(s, done).pollers[p];
            After(s, steps).pollers[p] == w.(held := Finished(w.held, w.next), next := |w.held|)
    decreases var w := After(s, done).pollers[p]; |w.held| - w.next
  {
    var w := After(s, done).pollers[p];
    if w.next < |w.held| {
      var step := Publish(p, 0, Accepted(0));
      OneMore(s, done, step);
      var w' := After(s, done + [step]).pollers[p];
      steps := PublishRest(s, done + [step], p);
      assert Finished(w'.held, w'.next) == Finished(w.held, w.next);
    } else {
      steps := done;
      assert Finished(w.held, w.next) == w.held;
    }
  }

  /** A poller in flight can always finish: the broker accepts the rest, then it commits. */
  lemma Finish(s: System, p: nat, j: nat) returns (steps: seq<Step>)
    requires Safe(s) && p in s.pollers && j < |s.pollers[p].batch|
    ensures IsRun(s, steps)
    ensures var w := s.pollers[p];
            && WorkSafe(s, w)
            && |After(s, steps).rows| == |s.rows|
            && After(s, steps).rows[w.batch[j]]
               == Flush(s.rows[w.batch[j]], w.loaded[j],
                        if j < w.next then w.held[j] else w.held[j].(publishedAt := Some(0)))
  {
    var w := s.pollers[p];
    assert WorkSafe(s, w);
    var done := PublishRest(s, [], p);
    RunSafe(s, done);
    var t := After(s, done);
    OneMore(s, done, Commit(p));
    steps := done + [Commit(p)];
    WriteBackAt(t.rows, t.pollers[p], |w.batch|, w.batch[j]);
  }

  /** A dead row is final exactly when no session still holds it with something else to
      write. A row at the cap is never selected, but a session that loaded it earlier
      still publishes it, or writes its own stale counter over the cap. */
  lemma DeadIsFinalIff(s: System, i: nat)
    requires Safe(s) && DeadAt(s, i)
    ensures Frozen(s, i) <==>
            forall steps | IsRun(s, steps) ::
              i < |After(s, steps).rows| && After(s, steps).rows[i] == s.rows[i]
  {
    if Frozen(s, i) {
      forall steps | IsRun(s, steps)
        ensures i < |After(s, steps).rows| && After(s, steps).rows[i] == s.rows[i]
      {
        FrozenForever(s, steps, i);
      }
    } else {
      var p, j :| && p in s.pollers && 0 <= j < |s.pollers[p].batch| && s.pollers[p].batch[j] == i
                  && !(&& j < s.pollers[p].next
                       && j < |s.pollers[p].held|
                       && s.pollers[p].held[j].publishedAt.None?
                       && s.pollers[p].held[j].attempts == MAX_PUBLISH_ATTEMPTS);
      assert WorkSafe(s, s.pollers[p]);
      var steps := Finish(s, p, j);
      assert After(s, steps).rows[i] != s.rows[i];
    }
  }

  // ---------------------------------------------------------------- a dead row comes back

  /** The states of one failed, committed poll of the only row by poller 0. */
  lemma FailedPollStates(t: System)
    requires |t.rows| == 1 && Pending(t.rows[0]) && 0 !in t.pollers
    ensures Enabled(t, Select(0, 1, [0]))
    ensures var t1 := Next(t, Select(0, 1, [0]));
            && Enabled(t1, Publish(0, 0, Refused(false)))
            && var t2 := Next(t1, Publish(0, 0, Refused(false)));
               && Enabled(t2, Commit(0))
               && Next(t2, Commit(0)) == t.(rows := [t.rows[0].(attempts := t.rows[0].attempts + 1)])
  {
    var t1 := Next(t, Select(0, 1, [0]));
    var t2 := Next(t1, Publish(0, 0, Refused(false)));
    var w := t2.pollers[0];
    assert w.batch == [0] && w.loaded == [t.rows[0]] && w.held == [t.rows[0].(attempts := t.rows[0].attempts + 1)];
    assert WriteBack(t.rows, w, 0) == t.rows;
    assert Next(t2, Commit(0)).pollers == t.pollers;
  }

  lemma FailedPoll(s: System, steps: seq<Step>) returns (more: seq<Step>)
    requires IsRun(s, steps)
    requires var t := After(s, steps);
             |t.rows| == 1 && Pending(t.rows[0]) && 0 !in t.pollers
    ensures IsRun(s, more)
    ensures var t := After(s, steps);
            After(s, more) == t.(rows := [t.rows[0].(attempts := t.rows[0].attempts + 1)])
  {
    var t := After(s, steps);
    FailedPollStates(t);
    more := ThreeMore(s, steps, t, Select(0, 1, [0]), Publish(0, 0, Refused(false)), Commit(0));
  }

  lemma {:induction false} FailedPolls(s: System, steps: seq<Step>, n: nat) returns (more: seq<Step>)
    requires IsRun(s, steps)
    requires var t := After(s, steps);
             && |t.rows| == 1 && t.rows[0].publishedAt.None? && 0 !in t.pollers
             && t.rows[0].attempts + n <= MAX_PUBLISH_ATTEMPTS
    ensures IsRun(s, more)
    ensures var t := After(s, steps);
            After(s, more) == t.(rows := [t.rows[0].(attempts := t.rows[0].attempts + n)])
    decreases n
  {
    if n == 0 {
      more := steps;
    } else {
      var once := FailedPoll(s, steps);
      more := FailedPolls(s, once, n - 1);
    }
  }

  lemma LoadedByOne(c: Content)
    ensures Enabled(EMPTY, Record(c)) && Enabled(Next(EMPTY, Record(c)), Select(1, 1, [0]))
    ensures var row := Row(c, None, 0);
            Next(Next(EMPTY, Record(c)), Select(1, 1, [0]))
            == System([row], [], map[1 := Work([0], [row], [row], 0)])
  {
    var t := Next(EMPTY, Record(c));
    assert t.rows == [Row(c, None, 0)];
    assert Load(t.rows, [0]) == [Row(c, None, 0)];
  }

  lemma StaleFailureStates(t: System, c: Content)
    requires |t.rows| == 1 && t.rows[0] == Row(c, None, MAX_PUBLISH_ATTEMPTS)
    requires 1 in t.pollers && t.pollers[1] == Work([0], [Row(c, None, 0)], [Row(c, None, 0)], 0)
    ensures var step := Publish(1, 0, Refused(false));
            && Enabled(t, step) && Enabled(Next(t, step), Commit(1))
            && Next(Next(t, step), Commit(1)).rows == [Row(c, None, 1)]
  {
    var w := Next(t, Publish(1, 0, Refused(false))).pollers[1];
    assert w.held == [Row(c, None, 1)];
    assert WriteBack(t.rows, w, 0) == t.rows;
  }

  /** "Stop retrying a row after this many failed attempts" does not survive overlapping
      pollers: a row that ten polls have given up on is pending again, one attempt used,
      once a poller that loaded it before commits its own failure. */
  lemma DeadRowComesBack(c: Content) returns (toDead: seq<Step>, steps: seq<Step>)
    ensures toDead <= steps && IsRun(EMPTY, toDead) && IsRun(EMPTY, steps)
    ensures After(EMPTY, toDead).rows == [Row(c, None, MAX_PUBLISH_ATTEMPTS)]
    ensures After(EMPTY, steps).rows == [Row(c, None, 1)]
  {
    LoadedByOne(c);
    OneMore(EMPTY, [], Record(c));
    var a := [] + [Record(c)];
    OneMore(EMPTY, a, Select(1, 1, [0]));
    toDead := FailedPolls(EMPTY, a + [Select(1, 1, [0])], 10);
    var t := After(EMPTY, toDead);
    StaleFailureStates(t, c);
    OneMore(EMPTY, toDead, Publish(1, 0, Refused(false)));
    OneMore(EMPTY, toDead + [Publish(1, 0, Refused(false))], Commit(1));
    steps := toDead + [Publish(1, 0, Refused(false))] + [Commit(1)];
  }
}
