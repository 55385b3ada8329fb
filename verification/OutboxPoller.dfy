/** The poller as code: it records, selects and publishes against one store, and is a run
    of the outbox protocol. */
module OutboxPoller {
  import opened Wrappers
  import opened Text
  import opened OutboxProtocol

  // ---------------------------------------------------------------- by the columns

  /** The message's subject is its aggregate type, a dot and its event type; the stream a
      message lands in goes by what stands before the first dot. */
  ghost predicate Addressed(m: Message) {
    && m.subject == m.body.aggregateType + "." + m.body.eventType
    && ('.' !in m.body.aggregateType ==>
          && Before(m.subject, '.') == m.body.aggregateType
          && AfterFirst(m.subject, '.') == Some(m.body.eventType))
  }

  /** The log holds an addressed message with the row's content. */
  ghost predicate Delivered(log: seq<Message>, r: Row) {
    exists k | 0 <= k < |log| :: log[k].body == r.content && Addressed(log[k])
  }

  ghost predicate FromRow(rows: seq<Row>, m: Message) {
    Addressed(m) && exists i | 0 <= i < |rows| :: rows[i].content == m.body
  }

  lemma CopyIsAddressed(m: Message, c: Content)
    requires CopyOf(m, c)
    ensures Addressed(m)
  {
    if '.' !in c.aggregateType {
      assert m.subject == c.aggregateType + ['.'] + c.eventType;
      SplitAt(c.aggregateType, '.', c.eventType);
    }
  }

  /** Over every run: each message is addressed by the columns of a committed row, and each
      stamped row has a message with its content, so addressed. */
  lemma BrokerByColumns(steps: seq<Step>)
    requires IsRun(EMPTY, steps)
    ensures var t := After(EMPTY, steps);
            && (forall k | 0 <= k < |t.broker| :: FromRow(t.rows, t.broker[k]))
            && (forall i | 0 <= i < |t.rows| ::
                  0 <= t.rows[i].attempts <= 10 && (t.rows[i].publishedAt.Some? ==> Delivered(t.broker, t.rows[i])))
  {
    RunSafe(EMPTY, steps);
    var t := After(EMPTY, steps);
    assert BrokerSafe(t) && RowsSafe(t);
    forall k | 0 <= k < |t.broker|
      ensures FromRow(t.rows, t.broker[k])
    {
      assert Recorded(t.rows, t.broker[k]);
      var i :| 0 <= i < |t.rows| && CopyOf(t.broker[k], t.rows[i].content);
      CopyIsAddressed(t.broker[k], t.rows[i].content);
    }
    forall i | 0 <= i < |t.rows| && t.rows[i].publishedAt.Some?
      ensures Delivered(t.broker, t.rows[i])
    {
      var k :| 0 <= k < |t.broker| && CopyOf(t.broker[k], t.rows[i].content);
      CopyIsAddressed(t.broker[k], t.rows[i].content);
    }
  }

  /** A message of a poll: addressed, and sent for a selected row the broker stored. */
  ghost predicate SentFor(rows: seq<Row>, batch: seq<nat>, reply: nat -> Reply, m: Message) {
    && Addressed(m)
    && exists i | i in batch && i < |rows| :: rows[i].content == m.body && reply(i) != Refused(false)
  }

  /** What a committed poll makes of one row. An accepted row is stamped with the time of
      its answer and has its message; a refused one is one attempt on; the others stay. */
  ghost predicate RowPolled(r: Row, after: Row, selected: bool, reply: Reply, sent: seq<Message>) {
    && after.content == r.content
    && if !selected then after == r
       else
         && r.publishedAt == None && r.attempts < 10
         && match reply
            case Accepted(now) =>
              after.publishedAt == Some(now) && after.attempts == r.attempts && Delivered(sent, after)
            case Refused(stored) =>
              after.publishedAt == None && after.attempts == r.attempts + 1 && (stored ==> Delivered(sent, after))
  }

  lemma {:induction false} SentIsFor(rows: seq<Row>, loaded: seq<Row>, batch: seq<nat>, ids: nat -> nat,
                                    reply: nat -> Reply, n: nat)
    requires n <= |batch| && (forall j | 0 <= j < |batch| :: batch[j] < |rows|) && loaded == Load(rows, batch)
    ensures |Sent(loaded, batch, ids, reply, n)| <= n
    ensures forall m | m in Sent(loaded, batch, ids, reply, n) :: SentFor(rows, batch, reply, m)
  {
    if n > 0 {
      SentIsFor(rows, loaded, batch, ids, reply, n - 1);
      var i := batch[n - 1];
      if Stored(reply(i)) {
        var m := Envelope(loaded[n - 1].content, ids(i));
        CopyIsAddressed(m, rows[i].content);
        assert i in batch && rows[i].content == m.body;
      }
    }
  }

  lemma {:induction false} SentDelivers(loaded: seq<Row>, batch: seq<nat>, ids: nat -> nat, reply: nat -> Reply,
                                       n: nat, j: nat)
    requires j < n <= |batch| == |loaded| && Stored(reply(batch[j]))
    ensures Delivered(Sent(loaded, batch, ids, reply, n), loaded[j])
  {
    var before, sent := Sent(loaded, batch, ids, reply, n - 1), Sent(loaded, batch, ids, reply, n);
    if j < n - 1 {
      SentDelivers(loaded, batch, ids, reply, n - 1, j);
      var k :| 0 <= k < |before| && before[k].body == loaded[j].content && Addressed(before[k]);
      assert sent[k] == before[k];
    } else {
      var m := Envelope(loaded[j].content, ids(batch[j]));
      CopyIsAddressed(m, loaded[j].content);
      assert sent[|before|] == m;
    }
  }

  /** What a committed poll leaves, row by row. */
  lemma PollByColumns(rows: seq<Row>, after: seq<Row>, limit: nat, batch: seq<nat>, ids: nat -> nat,
                      reply: nat -> Reply)
    requires IsBatch(rows, limit, batch) && Polled(rows, after, batch, reply)
    ensures var sent := Sent(Load(rows, batch), batch, ids, reply, |batch|);
            && (forall m | m in sent :: SentFor(rows, batch, reply, m))
            && forall i | 0 <= i < |rows| :: RowPolled(rows[i], after[i], i in batch, reply(i), sent)
  {
    var loaded := Load(rows, batch);
    var sent := Sent(loaded, batch, ids, reply, |batch|);
    SentIsFor(rows, loaded, batch, ids, reply, |batch|);
    forall i | 0 <= i < |rows|
      ensures RowPolled(rows[i], after[i], i in batch, reply(i), sent)
    {
      if i in batch {
        var j :| 0 <= j < |batch| && batch[j] == i;
        if Stored(reply(i)) {
          SentDelivers(loaded, batch, ids, reply, |batch|, j);
        }
      }
    }
  }

  // ---------------------------------------------------------------- a poll as a run

  /** The protocol steps of one uncontended poll of `batch`. */
  function PollSteps(batch: seq<nat>, limit: nat, ids: nat -> nat, reply: nat -> Reply, commits: bool): seq<Step> {
    [Select(0, limit, batch)] + Publishes(batch, ids, reply) + [if commits then Commit(0) else Abandon(0)]
  }

  /** How many of the first n selected rows the broker accepts. */
  function Accepts(batch: seq<nat>, reply: nat -> Reply, n: nat): nat
    requires n <= |batch|
  {
    if n == 0 then 0
    else Accepts(batch, reply, n - 1) + if reply(batch[n - 1]).Accepted? then 1 else 0
  }

  /** The table after a committed poll: each selected row takes its own reply. */
  ghost predicate Polled(before: seq<Row>, after: seq<Row>, batch: seq<nat>, reply: nat -> Reply) {
    && |after| == |before|
    && forall i | 0 <= i < |before| ::
         after[i] == if i in batch then AfterReply(before[i], reply(i)) else before[i]
  }

  /** The session's rows with the first n answered, and the messages stored by then. */
  function Answered(loaded: seq<Row>, batch: seq<nat>, reply: nat -> Reply, n: nat): seq<Row>
    requires |loaded| == |batch|
  {
    seq(|batch|, j requires 0 <= j < |batch| =>
      if j < n then AfterReply(loaded[j], reply(batch[j])) else loaded[j])
  }

  function Sent(loaded: seq<Row>, batch: seq<nat>, ids: nat -> nat, reply: nat -> Reply, n: nat): seq<Message>
    requires n <= |batch| == |loaded|
  {
    if n == 0 then []
    else Sent(loaded, batch, ids, reply, n - 1)
         + if Stored(reply(batch[n - 1])) then [Envelope(loaded[n - 1].content, ids(batch[n - 1]))] else []
  }

  /** The protocol state of an uncontended poll after n publishes. */
  function InFlight(s: System, batch: seq<nat>, loaded: seq<Row>, ids: nat -> nat, reply: nat -> Reply, n: nat): System
    requires n <= |batch| == |loaded|
  {
    System(s.rows, s.broker + Sent(loaded, batch, ids, reply, n),
           map[0 := Work(batch, loaded, Answered(loaded, batch, reply, n), n)])
  }

  lemma OnePublish(s: System, batch: seq<nat>, loaded: seq<Row>, ids: nat -> nat, reply: nat -> Reply, n: nat)
    requires n < |batch| == |loaded|
    ensures var t := InFlight(s, batch, loaded, ids, reply, n);
            var step := Publish(0, ids(batch[n]), reply(batch[n]));
            Enabled(t, step) && Next(t, step) == InFlight(s, batch, loaded, ids, reply, n + 1)
  {
    var t := InFlight(s, batch, loaded, ids, reply, n);
    var next := Next(t, Publish(0, ids(batch[n]), reply(batch[n])));
    var goal := InFlight(s, batch, loaded, ids, reply, n + 1);
    assert next.pollers[0].held == goal.pollers[0].held;
    assert next.broker == goal.broker;
    assert next.pollers == goal.pollers;
  }

  function Publishes(batch: seq<nat>, ids: nat -> nat, reply: nat -> Reply): seq<Step> {
    seq(|batch|, j requires 0 <= j < |batch| => Publish(0, ids(batch[j]), reply(batch[j])))
  }

  /** The publish loop is a run of the protocol. */
  lemma PublishesRun(s: System, done: seq<Step>, batch: seq<nat>, loaded: seq<Row>,
                     ids: nat -> nat, reply: nat -> Reply)
    requires |batch| == |loaded| && IsRun(s, done)
    requires After(s, done) == InFlight(s, batch, loaded, ids, reply, 0)
    ensures IsRun(s, done + Publishes(batch, ids, reply))
    ensures After(s, done + Publishes(batch, ids, reply)) == InFlight(s, batch, loaded, ids, reply, |batch|)
  {
    var states := seq(|batch| + 1, k requires 0 <= k <= |batch| => InFlight(s, batch, loaded, ids, reply, k));
    var steps := Publishes(batch, ids, reply);
    forall k | 0 <= k < |steps|
      ensures Leads(states[k], steps[k], states[k + 1])
    {
      OnePublish(s, batch, loaded, ids, reply, k);
    }
    RunThrough(s, done, states, steps);
  }

  lemma PolledByCommit(rows: seq<Row>, w: Work, reply: nat -> Reply)
    requires Fits(rows, w) && Distinct(w.batch) && w.loaded == Load(rows, w.batch)
    requires forall j | 0 <= j < |w.batch| :: w.held[j] == AfterReply(w.loaded[j], reply(w.batch[j]))
    requires forall j | 0 <= j < |w.batch| :: w.loaded[j].publishedAt.None?
    ensures Polled(rows, WriteBack(rows, w, |w.batch|), w.batch, reply)
  {
    forall i | 0 <= i < |rows|
      ensures WriteBack(rows, w, |w.batch|)[i] == if i in w.batch then AfterReply(rows[i], reply(i)) else rows[i]
    {
      WriteBackAt(rows, w, |w.batch|, i);
      assert w.batch[..|w.batch|] == w.batch;
      if i in w.batch {
        var j :| 0 <= j < |w.batch| && w.batch[j] == i;
      }
    }
  }

  lemma PollStarts(s: System, batch: seq<nat>, limit: nat, ids: nat -> nat, reply: nat -> Reply)
    requires s.pollers == map[] && IsBatch(s.rows, limit, batch)
    ensures IsRun(s, [Select(0, limit, batch)])
    ensures After(s, [Select(0, limit, batch)]) == InFlight(s, batch, Load(s.rows, batch), ids, reply, 0)
  {
    OneMore(s, [], Select(0, limit, batch));
    assert [] + [Select(0, limit, batch)] == [Select(0, limit, batch)];
    var loaded := Load(s.rows, batch);
    assert Answered(loaded, batch, reply, 0) == loaded;
    assert s.broker + Sent(loaded, batch, ids, reply, 0) == s.broker;
  }

  lemma LastStep(s: System, done: seq<Step>, w: Work, broker: seq<Message>, commits: bool)
    requires IsRun(s, done) && After(s, done) == System(s.rows, broker, map[0 := w])
    requires w.next == |w.batch| && Fits(s.rows, w)
    ensures var steps := done + [if commits then Commit(0) else Abandon(0)];
            && IsRun(s, steps)
            && After(s, steps)
               == System(if commits then WriteBack(s.rows, w, |w.batch|) else s.rows, broker, map[])
  {
    OneMore(s, done, if commits then Commit(0) else Abandon(0));
    assert map[0 := w] - {0} == map[];
  }

  /** A whole poll is a run: it commits its own answers, or leaves the table as it was. */
  lemma WholePoll(s: System, batch: seq<nat>, limit: nat, ids: nat -> nat, reply: nat -> Reply, commits: bool)
    requires s.pollers == map[] && IsBatch(s.rows, limit, batch)
    ensures var loaded := Load(s.rows, batch);
            var w := Work(batch, loaded, Answered(loaded, batch, reply, |batch|), |batch|);
            var steps := PollSteps(batch, limit, ids, reply, commits);
            && IsRun(s, steps)
            && After(s, steps)
               == System(if commits then WriteBack(s.rows, w, |batch|) else s.rows,
                         s.broker + Sent(loaded, batch, ids, reply, |batch|), map[])
  {
    var loaded := Load(s.rows, batch);
    var select := [Select(0, limit, batch)];
    PollStarts(s, batch, limit, ids, reply);
    PublishesRun(s, select, batch, loaded, ids, reply);
    var t := InFlight(s, batch, loaded, ids, reply, |batch|);
    LastStep(s, select + Publishes(batch, ids, reply), t.pollers[0], t.broker, commits);
  }

  /** `batch` holds the oldest pending rows in order, `left` the other pending rows. */
  ghost predicate Taken(rows: seq<Row>, batch: seq<nat>, left: set<nat>) {
    && Distinct(batch)
    && (forall j | 0 <= j < |batch| :: batch[j] < |rows| && Pending(rows[batch[j]]))
    && (forall j, k | 0 <= j < k < |batch| ::
          rows[batch[j]].content.createdAt <= rows[batch[k]].content.createdAt)
    && (forall i | i in left :: i < |rows| && Pending(rows[i]) && i !in batch)
    && (forall i | 0 <= i < |rows| && Pending(rows[i]) && i !in batch :: i in left)
    && forall j, i | 0 <= j < |batch| && i in left ::
         rows[batch[j]].content.createdAt <= rows[i].content.createdAt
  }

  lemma TakeOldest(rows: seq<Row>, batch: seq<nat>, left: set<nat>, oldest: nat)
    requires Taken(rows, batch, left) && oldest in left
    requires forall i | i in left :: i < |rows| && rows[oldest].content.createdAt <= rows[i].content.createdAt
    ensures Taken(rows, batch + [oldest], left - {oldest})
  {
    var more := batch + [oldest];
    assert forall j | 0 <= j < |batch| :: more[j] == batch[j];
    assert forall i :: i in more <==> i in batch || i == oldest;
  }

  datatype Failure = CommitFailed

  class OutboxStore {
    var rows: seq<Row>
    var broker: seq<Message>

    ghost function Uncontended(): System
      reads this
    {
      System(rows, broker, map[])
    }

    /** Adds a row to the caller's transaction; here the caller has committed. */
    method RecordEvent(content: Content)
      modifies this
      ensures broker == old(broker)
      ensures Enabled(old(Uncontended()), Record(content))
      ensures Uncontended() == Next(old(Uncontended()), Record(content))
      ensures |rows| == |old(rows)| + 1 && old(rows) <= rows
      ensures var r := rows[|old(rows)|]; r.content == content && r.publishedAt == None && r.attempts == 0
    {
      rows := rows + [Row(content, None, 0)];
    }

    /** ORDER BY created_at LIMIT limit over the pending rows. */
    method SelectPending(limit: nat) returns (batch: seq<nat>)
      ensures IsBatch(rows, limit, batch)
      ensures forall i: nat :: i in batch ==> i < |rows| && rows[i].publishedAt == None && rows[i].attempts < 10
      ensures |batch| < limit ==>
                forall i: nat | i < |rows| && rows[i].publishedAt == None && rows[i].attempts < 10 :: i in batch
    {
      batch := [];
      var left := set i | 0 <= i < |rows| && Pending(rows[i]);
      while left != {} && |batch| < limit
        invariant |batch| <= limit && Taken(rows, batch, left)
        decreases left
      {
        var oldest := Oldest(left);
        TakeOldest(rows, batch, left, oldest);
        batch := batch + [oldest];
        left := left - {oldest};
      }
    }

    method Oldest(ids: set<nat>) returns (oldest: nat)
      requires ids != {} && forall i | i in ids :: i < |rows|
      ensures oldest in ids
      ensures forall i | i in ids :: rows[oldest].content.createdAt <= rows[i].content.createdAt
    {
      oldest :| oldest in ids;
      var left := ids - {oldest};
      while left != {}
        invariant left <= ids && oldest in ids
        invariant forall i | i in ids - left :: rows[oldest].content.createdAt <= rows[i].content.createdAt
        decreases left
      {
        var i :| i in left;
        left := left - {i};
        if rows[i].content.createdAt < rows[oldest].content.createdAt {
          oldest := i;
        }
      }
    }

    /** One poll. `reply` is the broker's answer for each row, `ids` the fresh envelope ids.
        A poll that commits is a run of the protocol that ends in a commit; one whose
        commit fails leaves the messages it sent, but no row changed. */
    method PublishPending(enabled: bool, connected: bool, limit: nat,
                          ids: nat -> nat, reply: nat -> Reply, commitOk: bool)
      returns (result: Result<nat, Failure>, ghost batch: seq<nat>)
      modifies this
      ensures IsBatch(old(rows), limit, batch)
      ensures !enabled || !connected || batch == [] ==>
                rows == old(rows) && broker == old(broker) && result == Ok(0)
      ensures enabled && connected && batch != [] ==>
                var steps := PollSteps(batch, limit, ids, reply, commitOk);
                && IsRun(old(Uncontended()), steps)
                && Uncontended() == After(old(Uncontended()), steps)
                && result == (if commitOk then Ok(Accepts(batch, reply, |batch|)) else Err(CommitFailed))
                && (if commitOk then Polled(old(rows), rows, batch, reply) else rows == old(rows))
      ensures enabled && connected && batch != [] ==>
                && old(broker) <= broker
                && (forall m | m in broker[|old(broker)|..] :: SentFor(old(rows), batch, reply, m))
                && (commitOk ==>
                      && |rows| == |old(rows)|
                      && forall i | 0 <= i < |rows| ::
                           RowPolled(old(rows)[i], rows[i], i in batch, reply(i), broker[|old(broker)|..]))
    {
      var selected := SelectPending(limit);
      batch := selected;
      result := Ok(0);
      if !enabled || selected == [] || !connected {
        return;
      }
      ghost var start := Uncontended();
      var loaded := Load(rows, selected);
      var held, published := PublishBatch(selected, loaded, ids, reply);
      WholePoll(start, selected, limit, ids, reply, commitOk);
      PolledByCommit(rows, Work(selected, loaded, held, |selected|), reply);
      SentIsFor(rows, loaded, selected, ids, reply, |selected|);
      ghost var after := WriteBack(rows, Work(selected, loaded, held, |selected|), |selected|);
      PollByColumns(rows, after, limit, selected, ids, reply);
      assert broker[|start.broker|..] == Sent(loaded, selected, ids, reply, |selected|);
      if commitOk {
        rows := WriteBack(rows, Work(selected, loaded, held, |selected|), |selected|);
        result := Ok(published);
      } else {
        result := Err(CommitFailed);
      }
    }

    /** The publish loop, over the session's own copies of the selected rows. */
    method PublishBatch(selected: seq<nat>, loaded: seq<Row>, ids: nat -> nat, reply: nat -> Reply)
      returns (held: seq<Row>, published: nat)
      requires |loaded| == |selected|
      modifies this`broker
      ensures held == Answered(loaded, selected, reply, |selected|)
      ensures published == Accepts(selected, reply, |selected|)
      ensures broker == old(broker) + Sent(loaded, selected, ids, reply, |selected|)
    {
      held := loaded;
      published := 0;
      var n := 0;
      while n < |selected|
        invariant n <= |selected| == |held|
        invariant forall j | 0 <= j < |held| ::
                    held[j] == if j < n then AfterReply(loaded[j], reply(selected[j])) else loaded[j]
        invariant published == Accepts(selected, reply, n)
        invariant broker == old(broker) + Sent(loaded, selected, ids, reply, n)
      {
        var evt := held[n];
        match reply(selected[n]) {
          case Accepted(now) =>
            broker := broker + [Envelope(evt.content, ids(selected[n]))];
            evt := evt.(publishedAt := Some(now));
            published := published + 1;
          case Refused(stored) =>
            if stored {
              broker := broker + [Envelope(evt.content, ids(selected[n]))];
            }
            evt := evt.(attempts := evt.attempts + 1);
        }
        held := held[n := evt];
        n := n + 1;
      }
    }
  }

  // ---------------------------------------------------------------- the returned count

  function Stamped(before: seq<Row>, after: seq<Row>): set<nat>
    requires |before| == |after|
  {
    set i: nat | i < |before| && before[i].publishedAt.None? && after[i].publishedAt.Some?
  }

  function AcceptedIds(batch: seq<nat>, reply: nat -> Reply, n: nat): set<nat>
    requires n <= |batch|
  {
    set j | 0 <= j < n && reply(batch[j]).Accepted? :: batch[j]
  }

  lemma OneMoreId(batch: seq<nat>, reply: nat -> Reply, n: nat)
    requires Distinct(batch) && n < |batch|
    ensures batch[n] !in AcceptedIds(batch, reply, n)
    ensures AcceptedIds(batch, reply, n + 1)
         == if reply(batch[n]).Accepted? then AcceptedIds(batch, reply, n) + {batch[n]}
            else AcceptedIds(batch, reply, n)
  {
  }

  lemma {:induction false} AcceptsCountsIds(batch: seq<nat>, reply: nat -> Reply, n: nat)
    requires Distinct(batch) && n <= |batch|
    ensures Accepts(batch, reply, n) == |AcceptedIds(batch, reply, n)|
  {
    if n > 0 {
      AcceptsCountsIds(batch, reply, n - 1);
      OneMoreId(batch, reply, n - 1);
    }
  }

  /** The count a committed poll returns is the number of rows it newly stamped. */
  lemma CountIsNewlyStamped(before: seq<Row>, after: seq<Row>, limit: nat, batch: seq<nat>, reply: nat -> Reply)
    requires IsBatch(before, limit, batch) && Polled(before, after, batch, reply)
    ensures Accepts(batch, reply, |batch|) == |Stamped(before, after)|
  {
    AcceptsCountsIds(batch, reply, |batch|);
    forall i: nat | i < |before|
      ensures i in Stamped(before, after) <==> i in AcceptedIds(batch, reply, |batch|)
    {
      if i in batch {
        var j :| 0 <= j < |batch| && batch[j] == i;
      }
    }
    assert Stamped(before, after) == AcceptedIds(batch, reply, |batch|);
  }

  // ---------------------------------------------------------------- progress

  /** The publish attempts a row may still use up. */
  function Weight(r: Row): nat {
    if Pending(r) then MAX_PUBLISH_ATTEMPTS - r.attempts else 0
  }

  function Budget(rows: seq<Row>, ids: set<nat>): nat {
    if rows == [] then 0
    else
      var n := |rows| - 1;
      Budget(rows[..n], ids) + if n in ids then Weight(rows[n]) else 0
  }

  lemma {:induction false} BudgetUpdate(rows: seq<Row>, ids: set<nat>, i: nat, r: Row)
    requires i < |rows|
    ensures Budget(rows[i := r], ids)
            == Budget(rows, ids) + if i in ids then Weight(r) - Weight(rows[i]) else 0
  {
    var n := |rows| - 1;
    if i == n {
      assert rows[i := r][..n] == rows[..n];
    } else {
      assert rows[i := r][..n] == rows[..n][i := r];
      BudgetUpdate(rows[..n], ids, i, r);
    }
  }

  lemma {:induction false} BudgetOfNewRows(rows: seq<Row>, more: seq<Row>, ids: set<nat>)
    requires forall i | i in ids :: i < |rows|
    ensures Budget(rows + more, ids) == Budget(rows, ids)
  {
    if more == [] {
      assert rows + more == rows;
    } else {
      var n := |more| - 1;
      assert (rows + more)[..|rows| + n] == rows + more[..n];
      BudgetOfNewRows(rows, more[..n], ids);
    }
  }

  /** The table with the first n selected rows answered. */
  function PolledPrefix(rows: seq<Row>, batch: seq<nat>, reply: nat -> Reply, n: nat): (after: seq<Row>)
    requires n <= |batch| && forall j | 0 <= j < |batch| :: batch[j] < |rows|
    ensures |after| == |rows|
  {
    if n == 0 then rows
    else PolledPrefix(rows, batch, reply, n - 1)[batch[n - 1] := AfterReply(rows[batch[n - 1]], reply(batch[n - 1]))]
  }

  lemma {:induction false} PrefixAt(rows: seq<Row>, batch: seq<nat>, reply: nat -> Reply, n: nat, i: nat)
    requires n <= |batch| && i < |rows| && forall j | 0 <= j < |batch| :: batch[j] < |rows|
    ensures PolledPrefix(rows, batch, reply, n)[i]
            == if i in batch[..n] then AfterReply(rows[i], reply(i)) else rows[i]
  {
    if n > 0 {
      PrefixAt(rows, batch, reply, n - 1, i);
      assert batch[..n] == batch[..n - 1] + [batch[n - 1]];
    }
  }

  lemma {:induction false} PrefixSpends(rows: seq<Row>, limit: nat, batch: seq<nat>, reply: nat -> Reply,
                                       n: nat, ids: set<nat>)
    requires IsBatch(rows, limit, batch) && n <= |batch|
    requires forall j | 0 <= j < |batch| :: batch[j] in ids
    ensures Budget(PolledPrefix(rows, batch, reply, n), ids) + n <= Budget(rows, ids)
  {
    if n > 0 {
      PrefixSpends(rows, limit, batch, reply, n - 1, ids);
      var i := batch[n - 1];
      var before := PolledPrefix(rows, batch, reply, n - 1);
      PrefixAt(rows, batch, reply, n - 1, i);
      assert before[i] == rows[i] by {
        assert forall j | 0 <= j < n - 1 :: batch[..n - 1][j] == batch[j];
      }
      BudgetUpdate(before, ids, i, AfterReply(rows[i], reply(i)));
    }
  }

  /** Each committed poll lowers the attempts left over any set of rows that holds the
      batch by at least the number of rows selected. */
  lemma PollSpends(before: seq<Row>, after: seq<Row>, limit: nat, batch: seq<nat>, reply: nat -> Reply, ids: set<nat>)
    requires IsBatch(before, limit, batch) && Polled(before, after, batch, reply)
    requires forall j | 0 <= j < |batch| :: batch[j] in ids
    ensures Budget(after, ids) + |batch| <= Budget(before, ids)
  {
    PrefixSpends(before, limit, batch, reply, |batch|, ids);
    var last := PolledPrefix(before, batch, reply, |batch|);
    forall i | 0 <= i < |before|
      ensures last[i] == after[i]
    {
      PrefixAt(before, batch, reply, |batch|, i);
      assert batch[..|batch|] == batch;
    }
    assert last == after;
  }

  lemma {:induction false} BudgetBound(rows: seq<Row>, ids: set<nat>, live: set<nat>)
    requires forall i | 0 <= i < |rows| :: rows[i].attempts >= 0
    requires forall i: nat | i < |rows| && i in ids && Pending(rows[i]) :: i in live
    ensures Budget(rows, ids) <= MAX_PUBLISH_ATTEMPTS * |live|
  {
    if rows != [] {
      var n := |rows| - 1;
      if n in ids && Pending(rows[n]) {
        BudgetBound(rows[..n], ids, live - {n});
      } else {
        BudgetBound(rows[..n], ids, live);
      }
    }
  }

  /** Rounds of one working poller: new events arrive, then a poll commits. */
  datatype Round = Round(arrivals: seq<Content>, batch: seq<nat>, reply: nat -> Reply)

  function Arrive(rows: seq<Row>, arrivals: seq<Content>): seq<Row> {
    rows + seq(|arrivals|, k requires 0 <= k < |arrivals| => Row(arrivals[k], None, 0))
  }

  /** tables[k] is the table before round k. */
  ghost predicate Rounds(tables: seq<seq<Row>>, rounds: seq<Round>, limit: nat) {
    && |tables| == |rounds| + 1
    && forall k {:trigger rounds[k]} | 0 <= k < |rounds| :: RoundFrom(tables[k], tables[k + 1], rounds[k], limit)
  }

  ghost predicate RoundFrom(before: seq<Row>, after: seq<Row>, round: Round, limit: nat) {
    var full := Arrive(before, round.arrivals);
    IsBatch(full, limit, round.batch) && Polled(full, after, round.batch, round.reply)
  }

  /** The rows that may be selected ahead of row t: at least as old. */
  function Ahead(rows: seq<Row>, t: nat): set<nat>
    requires t < |rows|
  {
    set i: nat | i < |rows| && i != t && rows[i].content.createdAt <= rows[t].content.createdAt
  }

  function PendingAhead(rows: seq<Row>, t: nat): set<nat>
    requires t < |rows|
  {
    set i | i in Ahead(rows, t) && Pending(rows[i])
  }

  /** A round that passes over the pending row t spends a whole batch on rows ahead of it. */
  lemma MissSpendsBatch(before: seq<Row>, after: seq<Row>, round: Round, limit: nat, t: nat, ahead: set<nat>)
    requires t < |before| && Pending(before[t]) && t !in round.batch
    requires forall c | c in round.arrivals :: c.createdAt > before[t].content.createdAt
    requires ahead == Ahead(before, t)
    requires RoundFrom(before, after, round, limit)
    ensures |before| <= |after| && after[t] == before[t] && Ahead(after, t) == ahead
    ensures Budget(after, ahead) + limit <= Budget(before, ahead)
  {
    var full := Arrive(before, round.arrivals);
    assert full[t] == before[t];
    forall i: nat | |before| <= i < |full|
      ensures full[i].content.createdAt > before[t].content.createdAt
    {
      assert full[i].content == round.arrivals[i - |before|];
    }
    assert forall i: nat | i < |full| :: after[i].content == full[i].content;
    assert Ahead(after, t) == ahead;
    forall j | 0 <= j < |round.batch|
      ensures round.batch[j] in ahead
    {
      assert full[round.batch[j]].content.createdAt <= full[t].content.createdAt;
    }
    PollSpends(full, after, limit, round.batch, round.reply, ahead);
    BudgetOfNewRows(before, full[|before|..], ahead);
    assert full == before + full[|before|..];
  }

  /** Rounds that all pass over row t, which only newer events join. */
  ghost predicate Misses(tables: seq<seq<Row>>, rounds: seq<Round>, t: nat) {
    && |tables| > 0 && t < |tables[0]| && Pending(tables[0][t])
    && forall k | 0 <= k < |rounds| ::
         && t !in rounds[k].batch
         && forall c | c in rounds[k].arrivals :: c.createdAt > tables[0][t].content.createdAt
  }

  lemma {:induction false} MissesSpend(tables: seq<seq<Row>>, rounds: seq<Round>, limit: nat, t: nat, n: nat)
    requires Rounds(tables, rounds, limit) && Misses(tables, rounds, t) && n <= |rounds|
    ensures t < |tables[n]| && tables[n][t] == tables[0][t]
    ensures Ahead(tables[n], t) == Ahead(tables[0], t)
    ensures limit * n + Budget(tables[n], Ahead(tables[0], t)) <= Budget(tables[0], Ahead(tables[0], t))
  {
    if n > 0 {
      MissesSpend(tables, rounds, limit, t, n - 1);
      assert RoundFrom(tables[n - 1], tables[n - 1 + 1], rounds[n - 1], limit);
      MissSpendsBatch(tables[n - 1], tables[n], rounds[n - 1], limit, t, Ahead(tables[0], t));
      assert limit * n == limit * (n - 1) + limit;
    }
  }

  /** Bounded wait: however the broker answers, and however many newer events arrive, a
      pending row with k pending rows at least as old is passed over by at most k/10 polls. */
  lemma BoundedWait(tables: seq<seq<Row>>, rounds: seq<Round>, t: nat)
    requires Rounds(tables, rounds, PUBLISH_BATCH) && Misses(tables, rounds, t)
    requires forall i | 0 <= i < |tables[0]| :: tables[0][i].attempts >= 0
    ensures |rounds| <= |PendingAhead(tables[0], t)| / 10
  {
    MissesSpend(tables, rounds, PUBLISH_BATCH, t, |rounds|);
    BudgetBound(tables[0], Ahead(tables[0], t), PendingAhead(tables[0], t));
  }

  function AllIds(n: nat): (ids: set<nat>)
    ensures forall i: nat :: i in ids <==> i < n
  {
    if n == 0 then {} else AllIds(n - 1) + {n - 1}
  }

  /** With no new rows, non-empty polls run out: there are no more of them than attempts
      left in the table. */
  lemma {:induction false} PollsDrain(tables: seq<seq<Row>>, rounds: seq<Round>, limit: nat, n: nat)
    requires Rounds(tables, rounds, limit) && n <= |rounds|
    requires forall k | 0 <= k < |rounds| :: rounds[k].arrivals == [] && rounds[k].batch != []
    ensures |tables[n]| == |tables[0]|
    ensures n + Budget(tables[n], AllIds(|tables[0]|)) <= Budget(tables[0], AllIds(|tables[0]|))
  {
    if n > 0 {
      PollsDrain(tables, rounds, limit, n - 1);
      assert RoundFrom(tables[n - 1], tables[n - 1 + 1], rounds[n - 1], limit);
      assert Arrive(tables[n - 1], []) == tables[n - 1];
      PollSpends(tables[n - 1], tables[n], limit, rounds[n - 1].batch, rounds[n - 1].reply, AllIds(|tables[0]|));
    }
  }

  /** When a poll comes back empty, every row is published or dead. */
  lemma EmptyPollMeansDone(rows: seq<Row>, limit: nat, batch: seq<nat>)
    requires limit > 0 && batch == []
    ensures IsBatch(rows, limit, batch) <==>
            forall i | 0 <= i < |rows| :: rows[i].publishedAt.Some? || Dead(rows[i])
  {
    forall i | 0 <= i < |rows| && IsBatch(rows, limit, batch)
      ensures rows[i].publishedAt.Some? || Dead(rows[i])
    {
      assert i !in batch;
    }
  }
}
