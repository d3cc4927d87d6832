/** Concurrent appends to the Postgres journal (src/flow/postgres-journal.ts:184-247).
    An attempt is one statement: it computes `max(seq) + 1` on its snapshot, and its
    insert either commits or violates `PRIMARY KEY (operation_id, seq)`. Between the two
    any other appender may commit. Nothing is purged. */
module PostgresAppend {
  import opened Basics
  import opened FlowTypes

  /** One committed row; `owner` names the appender. */
  datatype Stored = Stored(operationId: string, seqNo: nat, row: Row, owner: nat)

  datatype Phase =
    | Ready(attempt: nat)
    | Computed(attempt: nat, seqNo: nat)
    | Done(seqNo: nat)
    | Exhausted

  /** `since` is how many rows the operation had when the appender was called. */
  datatype Appender = Appender(operationId: string, row: Row, since: nat, phase: Phase)

  /** The table in commit order, and every appender that was ever called. */
  datatype World = World(table: seq<Stored>, appenders: seq<Appender>)

  datatype Action =
    | Call(operationId: string, row: Row)
    | Compute(a: nat)
    | Insert(a: nat)

  const EMPTY := World([], [])

  /** `coalesce(max(seq) + 1, 0)` over the operation's rows. */
  function NextSeq(table: seq<Stored>, operationId: string): nat {
    if |table| == 0 then 0
    else
      var rest, last := NextSeq(table[..|table| - 1], operationId), table[|table| - 1];
      if last.operationId == operationId && last.seqNo + 1 > rest then last.seqNo + 1 else rest
  }

  predicate Taken(table: seq<Stored>, operationId: string, seqNo: nat) {
    exists s :: s in table && s.operationId == operationId && s.seqNo == seqNo
  }

  function Step(w: World, maxRetries: nat, action: Action): World {
    match action
    case Call(operationId, row) =>
      var phase := if maxRetries == 0 then Exhausted else Ready(0);
      w.(appenders := w.appenders + [Appender(operationId, row, |RowsOf(w.table, operationId)|, phase)])
    case Compute(a) =>
      if a < |w.appenders| && w.appenders[a].phase.Ready? then
        var p := w.appenders[a];
        w.(appenders := w.appenders[a := p.(phase := Computed(p.phase.attempt, NextSeq(w.table, p.operationId)))])
      else w
    case Insert(a) =>
      if a < |w.appenders| && w.appenders[a].phase.Computed? then
        var p := w.appenders[a];
        var attempt, seqNo := p.phase.attempt, p.phase.seqNo;
        if Taken(w.table, p.operationId, seqNo) then
          var phase := if attempt + 1 < maxRetries then Ready(attempt + 1) else Exhausted;
          w.(appenders := w.appenders[a := p.(phase := phase)])
        else
          World(w.table + [Stored(p.operationId, seqNo, p.row, a)], w.appenders[a := p.(phase := Done(seqNo))])
      else w
  }

  /** The operation's rows in commit order. */
  function RowsOf(table: seq<Stored>, operationId: string): seq<Stored> {
    if |table| == 0 then []
    else
      var rest, last := RowsOf(table[..|table| - 1], operationId), table[|table| - 1];
      if last.operationId == operationId then rest + [last] else rest
  }

  // ------------------------------------------------------------------- the invariant

  /** The i-th committed row of an operation has sequence number i. */
  ghost predicate Stamped(table: seq<Stored>, operationId: string) {
    forall i :: 0 <= i < |RowsOf(table, operationId)| ==> RowsOf(table, operationId)[i].seqNo == i
  }

  /** What an appender's retries say about the others: each conflict took a commit of
      another appender, after this one was called. */
  ghost predicate Honest(table: seq<Stored>, p: Appender, a: nat, maxRetries: nat) {
    var count := |RowsOf(table, p.operationId)|;
    match p.phase
    case Ready(n) => p.since + n <= count && n < maxRetries
    case Computed(n, s) => p.since + n <= s <= count && n < maxRetries
    case Done(s) => p.since <= s < count && RowsOf(table, p.operationId)[s] == Stored(p.operationId, s, p.row, a)
    case Exhausted => p.since + maxRetries <= count
  }

  ghost predicate Valid(w: World, maxRetries: nat) {
    && (forall op :: Stamped(w.table, op))
    && (forall a :: 0 <= a < |w.appenders| ==> Honest(w.table, w.appenders[a], a, maxRetries))
    && (forall k :: 0 <= k < |w.table| ==>
       w.table[k].owner < |w.appenders| && w.appenders[w.table[k].owner].phase.Done?)
    && (forall k, l :: 0 <= k < l < |w.table| ==> w.table[k].owner != w.table[l].owner)
  }

  lemma {:induction false} RowsOfIs(table: seq<Stored>, operationId: string)
    ensures forall s :: s in RowsOf(table, operationId) <==> s in table && s.operationId == operationId
  {
    if |table| > 0 {
      var n := |table| - 1;
      RowsOfIs(table[..n], operationId);
      assert table == table[..n] + [table[n]];
    }
  }

  lemma {:induction false} RowsOfPush(table: seq<Stored>, s: Stored, operationId: string)
    ensures RowsOf(table + [s], operationId) == RowsOf(table, operationId) + if s.operationId == operationId then [s]
            else []
  {
    assert (table + [s])[..|table|] == table;
  }

  /** On a stamped table the next number is the number of rows. */
  lemma {:induction false} NextIsCount(table: seq<Stored>, operationId: string)
    requires Stamped(table, operationId)
    ensures NextSeq(table, operationId) == |RowsOf(table, operationId)|
  {
    if |table| > 0 {
      var n := |table| - 1;
      assert table == table[..n] + [table[n]];
      RowsOfPush(table[..n], table[n], operationId);
      var rows := RowsOf(table[..n], operationId);
      assert Stamped(table[..n], operationId) by {
        forall i | 0 <= i < |rows| ensures rows[i].seqNo == i { assert RowsOf(table, operationId)[i] == rows[i]; }
      }
      NextIsCount(table[..n], operationId);
      if table[n].operationId == operationId {
        assert RowsOf(table, operationId)[|rows|] == table[n];
      }
    }
  }

  lemma {:induction false} TakenExactly(table: seq<Stored>, operationId: string, seqNo: nat)
    requires Stamped(table, operationId)
    ensures Taken(table, operationId, seqNo) <==> seqNo < |RowsOf(table, operationId)|
  {
    RowsOfIs(table, operationId);
    var rows := RowsOf(table, operationId);
    if Taken(table, operationId, seqNo) {
      var s :| s in table && s.operationId == operationId && s.seqNo == seqNo;
      var i :| 0 <= i < |rows| && rows[i] == s;
    }
    if seqNo < |rows| {
      assert rows[seqNo] in rows;
    }
  }

  lemma {:induction false} HonestGrows(table: seq<Stored>, s: Stored, p: Appender, a: nat, maxRetries: nat)
    requires Honest(table, p, a, maxRetries)
    ensures Honest(table + [s], p, a, maxRetries)
  {
    RowsOfPush(table, s, p.operationId);
  }

  /** An insert that does not conflict commits exactly the next number. */
  lemma {:induction false} CommitStamps(table: seq<Stored>, s: Stored)
    requires forall op :: Stamped(table, op)
    requires s.seqNo == |RowsOf(table, s.operationId)|
    ensures forall op :: Stamped(table + [s], op)
  {
    forall op ensures Stamped(table + [s], op) {
      assert Stamped(table, op);
      RowsOfPush(table, s, op);
    }
  }

  lemma {:induction false} CommitValid(w: World, maxRetries: nat, a: nat)
    requires Valid(w, maxRetries) && a < |w.appenders| && w.appenders[a].phase.Computed?
    requires !Taken(w.table, w.appenders[a].operationId, w.appenders[a].phase.seqNo)
    ensures Valid(Step(w, maxRetries, Insert(a)), maxRetries)
  {
    var p := w.appenders[a];
    var s := Stored(p.operationId, p.phase.seqNo, p.row, a);
    assert Honest(w.table, p, a, maxRetries);
    assert Stamped(w.table, p.operationId);
    TakenExactly(w.table, p.operationId, p.phase.seqNo);
    CommitStamps(w.table, s);
    RowsOfPush(w.table, s, p.operationId);
    forall b | 0 <= b < |w.appenders| ensures Honest(w.table + [s], w.appenders[b], b, maxRetries) {
      HonestGrows(w.table, s, w.appenders[b], b, maxRetries);
    }
    assert Honest(w.table + [s], p.(phase := Done(s.seqNo)), a, maxRetries);
    hide Honest, Stamped, Taken;
  }

  lemma {:induction false} ConflictValid(w: World, maxRetries: nat, a: nat)
    requires Valid(w, maxRetries) && a < |w.appenders| && w.appenders[a].phase.Computed?
    requires Taken(w.table, w.appenders[a].operationId, w.appenders[a].phase.seqNo)
    ensures Valid(Step(w, maxRetries, Insert(a)), maxRetries)
  {
    var p := w.appenders[a];
    assert Honest(w.table, p, a, maxRetries);
    assert Stamped(w.table, p.operationId);
    TakenExactly(w.table, p.operationId, p.phase.seqNo);
    hide Stamped, Taken;
  }

  lemma {:induction false} ComputeValid(w: World, maxRetries: nat, a: nat)
    requires Valid(w, maxRetries) && a < |w.appenders| && w.appenders[a].phase.Ready?
    ensures Valid(Step(w, maxRetries, Compute(a)), maxRetries)
  {
    var p := w.appenders[a];
    assert Honest(w.table, p, a, maxRetries);
    assert Stamped(w.table, p.operationId);
    NextIsCount(w.table, p.operationId);
    hide Stamped;
  }

  lemma {:induction false} StepValid(w: World, maxRetries: nat, action: Action)
    requires Valid(w, maxRetries)
    ensures Valid(Step(w, maxRetries, action), maxRetries)
  {
    match action
    case Call(_, _) =>
    case Compute(a) =>
      if a < |w.appenders| && w.appenders[a].phase.Ready? {
        ComputeValid(w, maxRetries, a);
      }
    case Insert(a) =>
      if a < |w.appenders| && w.appenders[a].phase.Computed? {
        if Taken(w.table, w.appenders[a].operationId, w.appenders[a].phase.seqNo) {
          ConflictValid(w, maxRetries, a);
        } else {
          CommitValid(w, maxRetries, a);
        }
      }
  }

  /** The world after any interleaving of appenders. */
  function After(maxRetries: nat, actions: seq<Action>): World {
    if |actions| == 0 then EMPTY
        else Step(After(maxRetries, actions[..|actions| - 1]), maxRetries, actions[|actions| - 1])
  }

  lemma {:induction false} AlwaysValid(maxRetries: nat, actions: seq<Action>)
    ensures Valid(After(maxRetries, actions), maxRetries)
  {
    if |actions| > 0 {
      hide Valid, Step;
      AlwaysValid(maxRetries, actions[..|actions| - 1]);
      StepValid(After(maxRetries, actions[..|actions| - 1]), maxRetries, actions[|actions| - 1]);
    }
  }

  /** However appenders interleave, an operation's committed sequence numbers are 0, 1,
      2, ... in commit order. */
  lemma {:induction false} SeqIsCommitOrder(maxRetries: nat, actions: seq<Action>, operationId: string, i: nat)
    requires i < |RowsOf(After(maxRetries, actions).table, operationId)|
    ensures RowsOf(After(maxRetries, actions).table, operationId)[i].seqNo == i
  {
    AlwaysValid(maxRetries, actions);
    assert Stamped(After(maxRetries, actions).table, operationId);
  }

  /** The rows of an operation that other appenders committed after the `since`-th. */
  ghost predicate ByOthers(table: seq<Stored>, p: Appender, a: nat, k: nat)
    requires k < |RowsOf(table, p.operationId)|
  {
    p.since <= k && RowsOf(table, p.operationId)[k].owner != a
  }

  /** An append gives up only if at least `maxRetries` other appends of its operation
      committed after it was called; an append that succeeds is stored exactly once,
      under the number it returns. */
  lemma {:induction false} RetriesBounded(maxRetries: nat, actions: seq<Action>, a: nat)
    requires a < |After(maxRetries, actions).appenders|
    ensures var w := After(maxRetries, actions); var p := w.appenders[a];
      && (p.phase.Exhausted? ==>
            (&& p.since + maxRetries <= |RowsOf(w.table, p.operationId)|
             && (forall k :: p.since <= k < |RowsOf(w.table, p.operationId)| ==> ByOthers(w.table, p, a, k))))
      && (p.phase.Done? ==>
            (&& p.phase.seqNo < |RowsOf(w.table, p.operationId)|
             && RowsOf(w.table, p.operationId)[p.phase.seqNo] == Stored(p.operationId, p.phase.seqNo, p.row, a)
             && p.since <= p.phase.seqNo))
  {
    hide After;
    AlwaysValid(maxRetries, actions);
    var w := After(maxRetries, actions);
    var p := w.appenders[a];
    assert Honest(w.table, p, a, maxRetries);
    if p.phase.Exhausted? {
      RowsOfIs(w.table, p.operationId);
      forall k | p.since <= k < |RowsOf(w.table, p.operationId)| ensures ByOthers(w.table, p, a, k) {
        var s := RowsOf(w.table, p.operationId)[k];
        assert s in RowsOf(w.table, p.operationId);
      }
    }
  }

  /** The journal of an operation as `read` returns it: its rows by ascending number. */
  function Contents(table: seq<Stored>, operationId: string): seq<Row> {
    var rows := RowsOf(table, operationId);
    seq(|rows|, i requires 0 <= i < |rows| => rows[i].row)
  }

  /** Every step either leaves all journals alone or appends one row to one of them. */
  lemma {:induction false} StepAppends(w: World, maxRetries: nat, action: Action, operationId: string)
    ensures var next := Step(w, maxRetries, action);
      Contents(next.table, operationId) == Contents(w.table, operationId)
        + if |next.table| > |w.table|
            && next.table[|w.table|].operationId == operationId then [next.table[|w.table|].row] else []
  {
    var next := Step(w, maxRetries, action);
    if |next.table| > |w.table| {
      RowsOfPush(w.table, next.table[|w.table|], operationId);
      assert next.table == w.table + [next.table[|w.table|]];
    }
  }
}
