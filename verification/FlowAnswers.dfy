/** What a lease makes of its steps' answers (src/flow/run.ts:238-372, 469-482), read off
    its log: which row closes a call, what the next call is given, how the lease ends. */
module FlowAnswers {
  import opened Basics
  import opened JsonValues
  import opened FlowTypes
  import opened PlanShape
  import opened FlowFold
  import opened FlowLease
  import opened FlowSteps
  import opened FlowOnce
  import opened FlowReturn
  import opened FlowTrace

  // ------------------------------------------------------------ the history of a log

  function CallsIn(log: seq<Event>): nat {
    if |log| == 0 then 0
    else CallsIn(log[..|log| - 1]) + if log[|log| - 1].Entered? then 1 else 0
  }

  predicate EndsEntered(log: seq<Event>) {
    |log| > 0 && log[|log| - 1].Entered?
  }

  /** What the last call of the log was answered. */
  function LastAnswer(env: Env, log: seq<Event>): RunResult
    requires EndsEntered(log)
  {
    var e := log[|log| - 1];
    env.run(CallsIn(log), e.stepId, e.input, e.token)
  }

  /** The last event closes a call as completed. */
  predicate EndsCompleted(env: Env, log: seq<Event>) {
    var n := |log|;
    && n > 0 && log[n - 1].Append? && log[n - 1].row.status == Completed
    && EndsEntered(log[..n - 1]) && LastAnswer(env, log[..n - 1]).Returned?
  }

  /** The state that the completed calls have built up. */
  function StateAfter(env: Env, initial: State, log: seq<Event>): State {
    if |log| == 0 then initial
    else
      var front := log[..|log| - 1];
      var before := StateAfter(env, initial, front);
      if EndsCompleted(env, log) then before + LastAnswer(env, front).outcome.state else before
  }

  /** The last token that a call of the step returned, or the one known at the start. */
  function TokenAfter(env: Env, known: map<string, string>, log: seq<Event>, stepId: string): Option<string> {
    if |log| == 0 then Get(known, stepId)
    else if EndsEntered(log) && log[|log| - 1].stepId == stepId
            && LastAnswer(env, log).Returned? && LastAnswer(env, log).outcome.token.Some? then
      LastAnswer(env, log).outcome.token
    else TokenAfter(env, known, log[..|log| - 1], stepId)
  }

  /** The completed calls, with what they returned. */
  function Completions(env: Env, log: seq<Event>): seq<(string, State)> {
    if |log| == 0 then []
    else
      var front := log[..|log| - 1];
      Completions(env, front)
        + if EndsCompleted(env, log) then [(log[|log| - 1].row.stepId, LastAnswer(env, front).outcome.state)] else []
  }

  /** What was undone, with the outputs handed to the handlers. */
  function Undones(log: seq<Event>): seq<(string, State)> {
    if |log| == 0 then []
    else
      var e := log[|log| - 1];
      Undones(log[..|log| - 1]) + if e.Undone? then [(e.stepId, e.output)] else []
  }

  /** Completed calls that have a handler, the latest first. */
  function Unwind(completed: seq<(string, State)>, compensable: set<string>): seq<(string, State)> {
    if |completed| == 0 then []
    else
      var last := completed[|completed| - 1];
      (if last.0 in compensable then [last] else []) + Unwind(completed[..|completed| - 1], compensable)
  }

  /** All confidences that calls returned. */
  function Confidences(env: Env, log: seq<Event>): seq<real> {
    if |log| == 0 then []
    else
      Confidences(env, log[..|log| - 1])
        + if EndsEntered(log) && LastAnswer(env, log).Returned? then LastAnswer(env, log).outcome.confidences else []
  }

  /** A row that closes a call. */
  predicate Closes(e: Event) {
    e.Append? && (e.row.status == Completed || e.row.status == Rerouted || e.row.status == Failed)
  }

  /** Neither a call nor the row of one. */
  predicate Idle(e: Event) {
    !e.Entered? && !Closes(e)
  }

  lemma {:induction false} IdleHistory(env: Env, log: seq<Event>, e: Event, initial: State, known: map<string, string>)
    requires Idle(e)
    ensures CallsIn(log + [e]) == CallsIn(log) && StateAfter(env, initial, log + [e]) == StateAfter(env, initial, log)
    ensures forall id :: TokenAfter(env, known, log + [e], id) == TokenAfter(env, known, log, id)
    ensures Completions(env, log + [e]) == Completions(env, log) && Confidences(env, log + [e]) == Confidences(env, log)
    ensures forall id :: Entries(log + [e], id) == Entries(log, id)
    ensures forall key :: ReroutesOver(Rows(log + [e]), key) == ReroutesOver(Rows(log), key)
    ensures Undones(log + [e]) == Undones(log) + if e.Undone? then [(e.stepId, e.output)] else []
  {
    assert (log + [e])[..|log|] == log;
    RowsOne(log, e);
    if e.Append? {
      forall key ensures ReroutesOver(Rows(log) + [e.row], key) == ReroutesOver(Rows(log), key) {
        assert (Rows(log) + [e.row])[..|Rows(log)|] == Rows(log);
      }
    } else {
      assert Rows(log) + [] == Rows(log);
    }
  }

  lemma {:induction false} CallHistory(
    env: Env, log: seq<Event>, e: Event, initial: State, known: map<string, string>, a: RunResult)
    requires e.Entered? && a == env.run(CallsIn(log) + 1, e.stepId, e.input, e.token)
    ensures CallsIn(log + [e]) == CallsIn(log) + 1
    ensures EndsEntered(log + [e]) && LastAnswer(env, log + [e]) == a
    ensures StateAfter(env, initial, log + [e]) == StateAfter(env, initial, log)
    ensures Completions(env, log + [e]) == Completions(env, log)
    ensures Confidences(env, log + [e]) == Confidences(env, log) + if a.Returned? then a.outcome.confidences else []
    ensures forall id :: TokenAfter(env, known, log + [e], id) ==
                           if id == e.stepId && a.Returned? && a.outcome.token.Some? then a.outcome.token
                           else TokenAfter(env, known, log, id)
    ensures forall id :: Entries(log + [e], id) == Entries(log, id) + if id == e.stepId then 1 else 0
    ensures Rows(log + [e]) == Rows(log) && Undones(log + [e]) == Undones(log)
  {
    assert (log + [e])[..|log|] == log;
    RowsOne(log, e);
  }

  /** A row behind a call. */
  lemma {:induction false} RowHistory(env: Env, log: seq<Event>, e: Event, initial: State, known: map<string, string>)
    requires EndsEntered(log) && e.Append? && (e.row.status == Completed ==> LastAnswer(env, log).Returned?)
    ensures CallsIn(log + [e]) == CallsIn(log)
    ensures StateAfter(env, initial, log + [e]) ==
              if e.row.status == Completed then StateAfter(env, initial, log) + LastAnswer(env, log).outcome.state
              else StateAfter(env, initial, log)
    ensures Completions(env, log + [e]) ==
              Completions(env, log)
              + if e.row.status == Completed then [(e.row.stepId, LastAnswer(env, log).outcome.state)] else []
    ensures Confidences(env, log + [e]) == Confidences(env, log)
    ensures forall id :: TokenAfter(env, known, log + [e], id) == TokenAfter(env, known, log, id)
    ensures forall id :: Entries(log + [e], id) == Entries(log, id)
    ensures Rows(log + [e]) == Rows(log) + [e.row] && Undones(log + [e]) == Undones(log)
  {
    assert (log + [e])[..|log|] == log;
    RowsOne(log, e);
  }

  // -------------------------------------------------------------- the row of an answer

  /** The step landed where it should, or was not asked where it landed. */
  function Agreeable(node: Node, observed: Option<Landing>): (r: bool)
    ensures !r ==> observed.Some?
  {
    observed.None? || (observed.value.observed != UNKNOWN_STATION && observed.value.observed in node.expects)
  }

  /** Where the step's chooser sends a landing that was recognised but not expected. */
  function Named(flow: Flow, node: Node, state: State, landing: Landing): Option<string> {
    if landing.observed == UNKNOWN_STATION || node.stepId !in flow.choosers then None
    else flow.choosers[node.stepId](state, landing.observed)
  }

  /** The named target is a declared edge with budget left. */
  ghost predicate Recovers(flow: Flow, node: Node, state: State, landing: Landing, budgets: map<string, int>) {
    var to := Named(flow, node, state, landing);
    to.Some? && Declares(node, to.value) && GetOr(budgets, EdgeKey(node.stepId, to.value), 0) > 0
  }

  lemma {:induction false} AgreeableAdvances(flow: Flow, env: Env, f: Fold, attempt: nat, o: StepOutcome)
    requires f.index < |flow.Nodes()| && RecoveriesValid(flow.Nodes())
    requires Agreeable(flow.Nodes()[f.index], o.observed)
    ensures Settle(flow, env, f, attempt, Returned(o))
         == Advanced(Commit(flow, env, Absorb(f, flow.Nodes()[f.index].stepId, o), attempt, o))
  {
    hide Commit, Absorb, GiveUp, Divert;
  }

  lemma {:induction false} RecoveredReroutes(flow: Flow, env: Env, f: Fold, attempt: nat, o: StepOutcome)
    requires f.index < |flow.Nodes()| && RecoveriesValid(flow.Nodes())
    requires !Agreeable(flow.Nodes()[f.index], o.observed)
    requires Recovers(flow, flow.Nodes()[f.index], f.state, o.observed.value, f.budgets)
    ensures var node := flow.Nodes()[f.index]; var to := Named(flow, node, f.state, o.observed.value).value;
      var s := Settle(flow, env, f, attempt, Returned(o));
      && s.ReroutedTo? && IndexOf(flow.Nodes(), to) == Some(s.to)
      && s.next == Divert(flow, env, Absorb(f, node.stepId, o), attempt, o.observed, to)
  {
    hide Commit, GiveUp, Divert, MinConfidence, IndexOf, EdgeKey;
  }

  lemma {:induction false} LostGivesUp(flow: Flow, env: Env, f: Fold, attempt: nat, o: StepOutcome)
    requires f.index < |flow.Nodes()| && RecoveriesValid(flow.Nodes())
    requires !Agreeable(flow.Nodes()[f.index], o.observed)
    requires !Recovers(flow, flow.Nodes()[f.index], f.state, o.observed.value, f.budgets)
    ensures var node := flow.Nodes()[f.index];
      Settle(flow, env, f, attempt, Returned(o))
      == Faulted(GiveUp(flow, env, Absorb(f, node.stepId, o), attempt, o.observed, "FLOW_DIVERGED"),
                 Diverged(node.stepId, o.observed.value))
  {
    hide Commit, GiveUp, Divert, MinConfidence, IndexOf, EdgeKey;
  }

  /** The text a failure is journaled with. */
  ghost predicate ErrorText(error: StepError, text: string) {
    match error
    case Middleware(tag, _, _) => text == tag
    case Tagged(tag, _) => text == tag
    case _ => text == "UNKNOWN"
  }

  /** The row that closes a call, by its answer, the state and the budgets at the time. */
  ghost predicate Closing(flow: Flow, node: Node, state: State, budgets: map<string, int>, a: RunResult, row: Row) {
    && row.stepId == node.stepId
    && match a
       case Died => false
       case Threw(error) =>
         row.status == Failed && row.landing.None? && row.error.Some? && ErrorText(error, row.error.value)
       case Returned(o) =>
         && row.landing == o.observed
         && if Agreeable(node, o.observed) then row.status == Completed && row.token == o.token
            else if Recovers(flow, node, state, o.observed.value, budgets) then
              var to := Named(flow, node, state, o.observed.value).value;
              && row.status == Rerouted
              && row.reroute == Some(Reroute(to, GetOr(budgets, EdgeKey(node.stepId, to), 0) - 1))
            else row.status == Failed && row.error == Some("FLOW_DIVERGED")
  }

  /** The fault of a call that did not go on, if that is what its answer means. */
  ghost function FaultOf(
    flow: Flow, node: Node, state: State, budgets: map<string, int>, a: RunResult): Option<Fault>
  {
    match a
    case Died => Some(Defect)
    case Threw(error) => Some(StepFailed(node.stepId, error))
    case Returned(o) =>
      if Agreeable(node, o.observed) || Recovers(flow, node, state, o.observed.value, budgets) then None
      else Some(Diverged(node.stepId, o.observed.value))
  }

  // ------------------------------------------------------------------ one node of the fold

  /** What an answered call adds to the fold, besides its row. */
  ghost predicate Carries(flow: Flow, f: Fold, g: Fold, node: Node, a: RunResult, row: Row) {
    && g.attempts == f.attempts[node.stepId := AttemptOf(f, node)]
    && g.tokens == (if a.Returned? && a.outcome.token.Some?
                    then f.tokens[node.stepId := a.outcome.token.value] else f.tokens)
    && g.floor == (if a.Returned? then MinConfidence(f.floor, a.outcome.confidences) else f.floor)
    && g.state == (if row.status == Completed && a.Returned? then f.state + a.outcome.state else f.state)
    && g.rerouted == (f.rerouted || row.status == Rerouted)
    && g.succeeded == (if row.status == Completed && a.Returned?
                       then f.succeeded + [Success(node.stepId, a.outcome.state, node.stepId in flow.compensable)]
                       else f.succeeded)
    && (forall key :: GetOr(g.budgets, key, 0) ==
          GetOr(f.budgets, key, 0) - (if row.status == Rerouted && row.reroute.Some?
                                         && EdgeKey(row.stepId, row.reroute.value.to) == key then 1 else 0))
  }

  /** The `started` row. */
  ghost predicate Starts(f: Fold, node: Node, row: Row) {
    var token := Get(f.tokens, node.stepId);
    row == BareRow(node.stepId, AttemptOf(f, node), Started).(token := if token == Some("") then None else token)
  }

  /** The node, event by event. */
  ghost predicate Answered(flow: Flow, env: Env, f: Fold, s: Step)
    requires f.index < |flow.Nodes()|
  {
    var node := flow.Nodes()[f.index]; var a := Answer(env, f, node); var n := |f.log|;
    && |s.next.log| >= n + 2 && s.next.log[..n] == f.log
    && s.next.log[n].Append? && Starts(f, node, s.next.log[n].row)
    && s.next.log[n + 1] == Entered(node.stepId, Inputs(node.needs, f.state), Get(f.tokens, node.stepId))
    && (s.Faulted? <==> FaultOf(flow, node, f.state, f.budgets, a).Some?)
    && (s.Faulted? ==> Some(s.fault) == FaultOf(flow, node, f.state, f.budgets, a))
    && s.next.executions == f.executions + 1
    && if a.Died? then |s.next.log| == n + 2
       else
         && |s.next.log| == n + 3 && s.next.log[n + 2].Append?
         && s.next.log[n + 2].row.attempt == AttemptOf(f, node)
         && Closing(flow, node, f.state, f.budgets, a, s.next.log[n + 2].row)
         && Carries(flow, f, s.next, node, a, s.next.log[n + 2].row)
  }

  lemma {:induction false} NodeAnswered(flow: Flow, env: Env, f: Fold)
    requires f.index < |flow.Nodes()| && RecoveriesValid(flow.Nodes())
    requires Reaches(flow, f, flow.Nodes()[f.index])
    ensures Answered(flow, env, f, RunNode(flow, env, f))
  {
    hide RunNode, Reaches, Settle, EdgeKey, Recovers, Named, Agreeable, Inputs, AttemptOf, MinConfidence;
    var node := flow.Nodes()[f.index];
    var attempt := AttemptOf(f, node);
    var g := f.(executions := f.executions + 1, attempts := f.attempts[node.stepId := attempt]);
    var h := Start(env, g, node, attempt);
    NodeRuns(flow, env, f);
    StartsCall(env, f, g, node, attempt);
    var a := Answer(env, f, node);
    assert Called(flow, f, h, attempt);
    hide Start, Answer, Starts;
    match a
    case Died => SettleDied(flow, env, h, attempt);
    case Threw(error) => SettleThrew(flow, env, h, attempt, error);
    case Returned(o) =>
      SettleReturned(flow, env, f, h, attempt, o);
      assert Answer(env, f, node) == a;
  }

  lemma {:induction false} StartsCall(env: Env, f: Fold, g: Fold, node: Node, attempt: nat)
    requires attempt == AttemptOf(f, node)
    requires g == f.(executions := f.executions + 1, attempts := f.attempts[node.stepId := attempt])
    ensures var h := Start(env, g, node, attempt); var n := |f.log|;
      && h == g.(log := h.log, appends := h.appends) && |h.log| == n + 2 && h.log[..n] == f.log
      && h.log[n].Append? && Starts(f, node, h.log[n].row)
      && h.log[n + 1] == Entered(node.stepId, Inputs(node.needs, f.state), Get(f.tokens, node.stepId))
  {
    hide Inputs;
  }

  lemma {:induction false} SettleDied(flow: Flow, env: Env, h: Fold, attempt: nat)
    requires h.index < |flow.Nodes()| && RecoveriesValid(flow.Nodes())
    ensures Settle(flow, env, h, attempt, Died) == Faulted(h, Defect)
  {}

  lemma {:induction false} SettleThrew(flow: Flow, env: Env, h: Fold, attempt: nat, error: StepError)
    requires h.index < |flow.Nodes()| && RecoveriesValid(flow.Nodes())
    ensures var s := Settle(flow, env, h, attempt, Threw(error)); var n := |h.log|;
      && s.Faulted? && s.fault == StepFailed(flow.Nodes()[h.index].stepId, error)
      && |s.next.log| == n + 1 && s.next.log[..n] == h.log && s.next.log[n].Append?
      && s.next == h.(log := s.next.log, appends := s.next.appends)
      && var row := s.next.log[n].row;
         && row.stepId == flow.Nodes()[h.index].stepId && row.attempt == attempt && row.status == Failed
         && row.landing.None? && row.error.Some? && ErrorText(error, row.error.value)
  {}

  /** A call that returned, journaled and carried into the fold. */
  ghost predicate ReturnedWell(flow: Flow, f: Fold, h: Fold, s: Step, attempt: nat, o: StepOutcome)
    requires f.index < |flow.Nodes()|
  {
    var node := flow.Nodes()[f.index]; var n := |h.log|;
    && |s.next.log| == n + 1 && s.next.log[..n] == h.log && s.next.log[n].Append?
    && s.next.log[n].row.attempt == attempt && s.next.executions == h.executions
    && (s.Faulted? <==> FaultOf(flow, node, f.state, f.budgets, Returned(o)).Some?)
    && (s.Faulted? ==> Some(s.fault) == FaultOf(flow, node, f.state, f.budgets, Returned(o)))
    && Closing(flow, node, f.state, f.budgets, Returned(o), s.next.log[n].row)
    && Carries(flow, f, s.next, node, Returned(o), s.next.log[n].row)
  }

  /** The fold in front of the answer: the call is counted and journaled as started. */
  ghost predicate Called(flow: Flow, f: Fold, h: Fold, attempt: nat)
    requires f.index < |flow.Nodes()|
  {
    && attempt == AttemptOf(f, flow.Nodes()[f.index])
    && h == f.(executions := f.executions + 1, attempts := f.attempts[flow.Nodes()[f.index].stepId := attempt],
               log := h.log, appends := h.appends)
  }

  lemma {:induction false} SettleReturned(flow: Flow, env: Env, f: Fold, h: Fold, attempt: nat, o: StepOutcome)
    requires f.index < |flow.Nodes()| && RecoveriesValid(flow.Nodes()) && Called(flow, f, h, attempt)
    ensures ReturnedWell(flow, f, h, Settle(flow, env, h, attempt, Returned(o)), attempt, o)
  {
    hide Settle, EdgeKey, ReturnedWell, Recovers, Named, Agreeable, IndexOf, Commit, Divert, GiveUp, Absorb;
    var node := flow.Nodes()[f.index];
    if Agreeable(node, o.observed) {
      AgreeableAdvances(flow, env, h, attempt, o);
      CommitWell(flow, env, f, h, attempt, o);
    } else if Recovers(flow, node, f.state, o.observed.value, f.budgets) {
      RecoveredReroutes(flow, env, h, attempt, o);
      RecoversKey(flow, node, f.state, o.observed.value, f.budgets);
      DivertWell(flow, env, f, h, attempt, o, Settle(flow, env, h, attempt, Returned(o)));
    } else {
      LostGivesUp(flow, env, h, attempt, o);
      GiveUpWell(flow, env, f, h, attempt, o);
    }
  }

  lemma {:induction false} CommitWell(flow: Flow, env: Env, f: Fold, h: Fold, attempt: nat, o: StepOutcome)
    requires f.index < |flow.Nodes()| && Called(flow, f, h, attempt) && Agreeable(flow.Nodes()[f.index], o.observed)
    ensures ReturnedWell(
              flow, f, h, Advanced(Commit(flow, env, Absorb(h, flow.Nodes()[f.index].stepId, o), attempt, o)),
              attempt, o)
  {
    hide EdgeKey, MinConfidence, EncodeDelta, SegmentEnd, Elements, Recovers, Agreeable;
  }

  lemma {:induction false} DivertWell(
    flow: Flow, env: Env, f: Fold, h: Fold, attempt: nat, o: StepOutcome, s: Step)
    requires f.index < |flow.Nodes()| && Called(flow, f, h, attempt) && !Agreeable(flow.Nodes()[f.index], o.observed)
    requires Recovers(flow, flow.Nodes()[f.index], f.state, o.observed.value, f.budgets)
    requires var node := flow.Nodes()[f.index]; var to := Named(flow, node, f.state, o.observed.value);
      s.ReroutedTo? && to.Some? && s.next == Divert(flow, env, Absorb(h, node.stepId, o), attempt, o.observed, to.value)
    ensures ReturnedWell(flow, f, h, s, attempt, o)
  {
    RecoversKey(flow, flow.Nodes()[f.index], f.state, o.observed.value, f.budgets);
    hide EdgeKey, MinConfidence, Recovers, Named, Agreeable;
  }

  lemma {:induction false} GiveUpWell(flow: Flow, env: Env, f: Fold, h: Fold, attempt: nat, o: StepOutcome)
    requires f.index < |flow.Nodes()| && Called(flow, f, h, attempt) && !Agreeable(flow.Nodes()[f.index], o.observed)
    requires !Recovers(flow, flow.Nodes()[f.index], f.state, o.observed.value, f.budgets)
    ensures var node := flow.Nodes()[f.index];
      var g := GiveUp(flow, env, Absorb(h, node.stepId, o), attempt, o.observed, "FLOW_DIVERGED");
      ReturnedWell(flow, f, h, Faulted(g, Diverged(node.stepId, o.observed.value)), attempt, o)
  {
    hide EdgeKey, MinConfidence, Recovers, Agreeable;
  }

  lemma {:induction false} RecoversKey(
    flow: Flow, node: Node, state: State, landing: Landing, budgets: map<string, int>)
    requires Recovers(flow, node, state, landing, budgets)
    ensures Named(flow, node, state, landing).Some?
    ensures EdgeKey(node.stepId, Named(flow, node, state, landing).value) in budgets
  {
    hide EdgeKey, Named;
  }

  // --------------------------------------------------------------------- a whole log

  /** The budgets that the reroutes so far have left. */
  ghost predicate BudgetsAt(start: Fold, log: seq<Event>, budgets: map<string, int>) {
    forall key :: GetOr(budgets, key, 0) == GetOr(start.budgets, key, 0) - ReroutesOver(Rows(log), key)
  }

  /** A call is given what the node needs of the state so far and the last token of its
      step, right behind its `started` row. */
  ghost predicate CallProper(env: Env, start: Fold, node: Node, front: seq<Event>, call: Event)
    requires call.Entered?
  {
    && call.input == Inputs(node.needs, StateAfter(env, start.state, front))
    && call.token == TokenAfter(env, start.tokens, front, node.stepId)
    && |front| > 0 && front[|front| - 1].Append?
    && front[|front| - 1].row ==
         BareRow(node.stepId, GetOr(start.attempts, node.stepId, 0) + Entries(front, node.stepId) + 1, Started).(
           token := if call.token == Some("") then None else call.token)
  }

  /** A call that died has no row, any other has the row that its answer means. */
  ghost predicate CallCloses(
    flow: Flow, node: Node, state: State, budgets: map<string, int>, a: RunResult, log: seq<Event>, p: nat)
  {
    if a.Died? then p + 1 < |log| ==> !log[p + 1].Append?
    else p + 1 < |log| && log[p + 1].Append? && Closing(flow, node, state, budgets, a, log[p + 1].row)
  }

  /** The call at this place is in order, and this is the fault that its answer means. */
  ghost predicate Accounted(flow: Flow, env: Env, start: Fold, log: seq<Event>, p: nat, fault: Option<Fault>) {
    && p < |log| && log[p].Entered?
    && var i := IndexOf(flow.Nodes(), log[p].stepId);
       && i.Some?
       && CallProper(env, start, flow.Nodes()[i.value], log[..p], log[p])
       && exists budgets ::
            && BudgetsAt(start, log[..p], budgets)
            && var state, a := StateAfter(env, start.state, log[..p]), LastAnswer(env, log[..p + 1]);
               && CallCloses(flow, flow.Nodes()[i.value], state, budgets, a, log, p)
               && FaultOf(flow, flow.Nodes()[i.value], state, budgets, a) == fault
  }

  predicate CallFault(fault: Fault) {
    fault.StepFailed? || fault.Diverged? || fault.Defect?
  }

  predicate LastCall(log: seq<Event>, p: nat) {
    forall q :: p < q < |log| ==> !log[q].Entered?
  }

  /** Every call is in order; none means a fault, but for the last one if the lease ends
      with the fault of a call. */
  ghost predicate Settled(flow: Flow, env: Env, start: Fold, log: seq<Event>, fault: Option<Fault>) {
    && (forall p :: 0 <= p < |log| && log[p].Entered? ==>
          Accounted(flow, env, start, log, p,
                    if fault.Some? && CallFault(fault.value) && LastCall(log, p) then fault else None))
    && (fault.Some? && CallFault(fault.value) ==> exists p :: 0 <= p < |log| && log[p].Entered?)
    && RowsBehindCalls(log)
  }

  /** A row that closes a call stands right behind it. */
  ghost predicate RowsBehindCalls(log: seq<Event>) {
    forall q :: 0 <= q < |log| && Closes(log[q]) ==> q > 0 && log[q - 1].Entered?
  }

  lemma {:induction false} AccountedGrows(
    flow: Flow, env: Env, start: Fold, log: seq<Event>, more: seq<Event>, p: nat, fault: Option<Fault>)
    requires Accounted(flow, env, start, log, p, fault) && (p + 1 == |log| && |more| > 0 ==> !more[0].Append?)
    ensures p + 1 < |log| || LastAnswer(env, log).Died? ==> Accounted(flow, env, start, log + more, p, fault)
  {
    hide BudgetsAt, CallProper, Closing, FaultOf, IndexOf, StateAfter;
    var longer := log + more;
    assert longer[..p] == log[..p] && longer[..p + 1] == log[..p + 1];
    if p + 1 == |log| {
      assert log[..p + 1] == log;
    }
    if p + 1 < |log| || LastAnswer(env, log).Died? {
      var i := IndexOf(flow.Nodes(), log[p].stepId).value;
      var state, a := StateAfter(env, start.state, log[..p]), LastAnswer(env, log[..p + 1]);
      var budgets :| BudgetsAt(start, log[..p], budgets)
        && CallCloses(flow, flow.Nodes()[i], state, budgets, a, log, p)
        && FaultOf(flow, flow.Nodes()[i], state, budgets, a) == fault;
      assert CallCloses(flow, flow.Nodes()[i], state, budgets, a, longer, p);
    }
  }

  /** Quiet events behind a log change nothing. */
  lemma {:induction false} SettledGrows(
    flow: Flow, env: Env, start: Fold, log: seq<Event>, e: Event, fault: Option<Fault>)
    requires Settled(flow, env, start, log, fault) && Idle(e)
    requires EndsEntered(log) ==> !e.Append? && LastAnswer(env, log).Died?
    ensures Settled(flow, env, start, log + [e], fault)
  {
    hide Accounted, LastAnswer;
    var longer := log + [e];
    forall p | 0 <= p < |longer| && longer[p].Entered?
      ensures Accounted(flow, env, start, longer, p,
                        if fault.Some? && CallFault(fault.value) && LastCall(longer, p) then fault else None)
    {
      assert log[p] == longer[p];
      assert LastCall(longer, p) <==> LastCall(log, p) by {
        assert forall q :: p < q < |log| ==> longer[q] == log[q];
      }
      AccountedGrows(flow, env, start, log, [e], p,
                     if fault.Some? && CallFault(fault.value) && LastCall(log, p) then fault else None);
    }
    if fault.Some? && CallFault(fault.value) {
      var p :| 0 <= p < |log| && log[p].Entered?;
      assert longer[p].Entered?;
    }
    assert RowsBehindCalls(longer) by {
      assert forall q :: 0 <= q < |log| ==> longer[q] == log[q];
    }
  }

  // ------------------------------------------------------------------ the invariant

  ghost predicate IsLeast(x: real, confidences: seq<real>) {
    x <= 1.0 && (forall c :: c in confidences ==> x <= c) && (x == 1.0 || x in confidences)
  }

  /** The completed steps of the fold are those of the log. */
  ghost predicate Matches(flow: Flow, succeeded: seq<Success>, completions: seq<(string, State)>) {
    && |succeeded| == |completions|
    && forall i :: 0 <= i < |succeeded| ==>
         succeeded[i] == Success(completions[i].0, completions[i].1, completions[i].0 in flow.compensable)
  }

  /** What the fold has built up is what its log says. */
  ghost predicate Books(flow: Flow, env: Env, start: Fold, f: Fold) {
    && f.state == StateAfter(env, start.state, f.log)
    && (forall id :: Get(f.tokens, id) == TokenAfter(env, start.tokens, f.log, id))
    && Matches(flow, f.succeeded, Completions(env, f.log))
    && IsLeast(f.floor, Confidences(env, f.log))
    && (f.rerouted <==> exists row :: row in Rows(f.log) && row.status == Rerouted)
    && BudgetsAt(start, f.log, f.budgets)
  }

  /** While it goes on, so are its counters, and no call meant a fault. */
  ghost predicate Going(flow: Flow, env: Env, start: Fold, f: Fold) {
    && Books(flow, env, start, f) && Settled(flow, env, start, f.log, None) && !EndsEntered(f.log)
    && f.executions == CallsIn(f.log) && Undones(f.log) == []
    && forall id :: GetOr(f.attempts, id, 0) == GetOr(start.attempts, id, 0) + Entries(f.log, id)
  }

  lemma {:induction false} LeastJoins(floor: real, known: seq<real>, more: seq<real>)
    requires IsLeast(floor, known)
    ensures IsLeast(MinConfidence(floor, more), known + more)
  {
    if |more| == 0 {
      assert known + more == known;
    } else {
      var front, last := more[..|more| - 1], more[|more| - 1];
      LeastJoins(floor, known, front);
      assert known + more == (known + front) + [last];
    }
  }

  /** Adding a quiet event to the log. */
  lemma {:induction false} IdleGoing(flow: Flow, env: Env, start: Fold, f: Fold, g: Fold, e: Event)
    requires Idle(e) && !EndsEntered(f.log) && g.log == f.log + [e]
    requires g.state == f.state && g.tokens == f.tokens && g.succeeded == f.succeeded && g.floor == f.floor
    requires g.rerouted == f.rerouted && g.budgets == f.budgets
    ensures Books(flow, env, start, f) ==> Books(flow, env, start, g)
    ensures Going(flow, env, start, f) && g.executions == f.executions && g.attempts == f.attempts && !e.Undone? ==>
              Going(flow, env, start, g)
  {
    hide Settled, IsLeast, Matches;
    IdleHistory(env, f.log, e, start.state, start.tokens);
    RowsOne(f.log, e);
    if Books(flow, env, start, f) {
      assert Books(flow, env, start, g) by {
        hide CallsIn, StateAfter, TokenAfter, Completions, Confidences, ReroutesOver;
        if row :| row in Rows(g.log) && row.status == Rerouted {
          assert row in Rows(f.log);
        }
      }
    }
    if Going(flow, env, start, f) {
      SettledGrows(flow, env, start, f.log, e, None);
    }
  }

  /** What the history functions say in front of and behind the call. */
  lemma {:induction false} CallFront(
    env: Env, start: Fold, f: Fold, e0: Event, e1: Event, a: RunResult, stepId: string)
    requires Idle(e0) && e1.Entered? && a == env.run(CallsIn(f.log) + 1, e1.stepId, e1.input, e1.token)
    ensures var front, called := f.log + [e0], f.log + [e0] + [e1];
      && StateAfter(env, start.state, front) == StateAfter(env, start.state, f.log)
      && TokenAfter(env, start.tokens, front, stepId) == TokenAfter(env, start.tokens, f.log, stepId)
      && Entries(front, stepId) == Entries(f.log, stepId)
      && (BudgetsAt(start, f.log, f.budgets) ==> BudgetsAt(start, front, f.budgets))
      && EndsEntered(called) && LastAnswer(env, called) == a
  {
    IdleHistory(env, f.log, e0, start.state, start.tokens);
    CallHistory(env, f.log + [e0], e1, start.state, start.tokens, a);
    hide StateAfter, TokenAfter, Completions, Confidences, CallsIn, ReroutesOver, Entries, Rows;
  }

  /** The new call is in order, and means the fault the node ends with, if any. */
  lemma {:induction false} NewAccounted(flow: Flow, env: Env, start: Fold, f: Fold, s: Step)
    requires UniqueIds(flow.Nodes()) && f.index < |flow.Nodes()|
    requires Answered(flow, env, f, s) && Going(flow, env, start, f)
    ensures Accounted(flow, env, start, s.next.log, |f.log| + 1, if s.Faulted? then Some(s.fault) else None)
  {
    hide Settled, Carries, IsLeast, Matches, Inputs, StateAfter, TokenAfter, Completions, Confidences, CallsIn;
    hide Entries, BudgetsAt, IndexOf, Closing, FaultOf, Answer, EndsEntered, LastAnswer;
    var node := flow.Nodes()[f.index];
    var log, n := s.next.log, |f.log|;
    IndexOfUnique(flow.Nodes(), f.index);
    AnswerIs(env, f, node);
    CallFront(env, start, f, log[n], log[n + 1], Answer(env, f, node), node.stepId);
    assert log[..n + 1] == f.log + [log[n]] && log[..n + 2] == f.log + [log[n]] + [log[n + 1]];
    assert CallProper(env, start, node, log[..n + 1], log[n + 1]);
    hide CallProper, Starts, Idle;
    assert CallCloses(flow, node, f.state, f.budgets, Answer(env, f, node), log, n + 1);
  }

  /** One more call behind a log whose calls are in order. */
  lemma {:induction false} SettledJoins(
    flow: Flow, env: Env, start: Fold, log: seq<Event>, longer: seq<Event>, fault: Option<Fault>)
    requires Settled(flow, env, start, log, None) && !EndsEntered(log) && log <= longer
    requires |log| + 1 < |longer| && !longer[|log|].Entered? && longer[|log| + 1].Entered?
    requires |longer| <= |log| + 3 && LastCall(longer, |log| + 1) && !Closes(longer[|log|])
    requires fault.Some? ==> CallFault(fault.value)
    requires Accounted(flow, env, start, longer, |log| + 1, fault)
    ensures Settled(flow, env, start, longer, fault)
  {
    hide Accounted;
    var n := |log|;
    assert RowsBehindCalls(longer) by {
      assert forall q :: 0 <= q < n ==> longer[q] == log[q];
    }
    forall p | 0 <= p < |longer| && longer[p].Entered?
      ensures Accounted(flow, env, start, longer, p,
                        if fault.Some? && CallFault(fault.value) && LastCall(longer, p) then fault else None)
    {
      if p < n {
        assert log[p] == longer[p] && p + 1 < n && !LastCall(longer, p);
        AccountedGrows(flow, env, start, log, longer[n..], p, None);
        assert log + longer[n..] == longer;
      } else {
        assert p == n + 1;
      }
    }
  }

  lemma {:induction false} NewSettled(flow: Flow, env: Env, start: Fold, f: Fold, s: Step)
    requires UniqueIds(flow.Nodes()) && f.index < |flow.Nodes()|
    requires Answered(flow, env, f, s) && Going(flow, env, start, f) && (s.Faulted? ==> CallFault(s.fault))
    ensures Settled(flow, env, start, s.next.log, if s.Faulted? then Some(s.fault) else None)
  {
    hide Accounted, Books, Closing, Carries, FaultOf, Inputs, Answer, Settled, EndsEntered, UniqueIds;
    NewAccounted(flow, env, start, f, s);
    SettledJoins(flow, env, start, f.log, s.next.log, if s.Faulted? then Some(s.fault) else None);
  }

  /** The history behind a started, called and closed node. */
  lemma {:induction false} ThreeHistory(
    env: Env, log: seq<Event>, e0: Event, e1: Event, e2: Event,
    initial: State, known: map<string, string>, a: RunResult)
    requires Idle(e0) && e1.Entered? && a == env.run(CallsIn(log) + 1, e1.stepId, e1.input, e1.token)
    requires e2.Append? && (e2.row.status == Completed ==> a.Returned?)
    ensures var all := log + [e0, e1, e2]; var added := e2.row.status == Completed;
      && CallsIn(all) == CallsIn(log) + 1
      && StateAfter(env, initial, all) ==
           (if added then StateAfter(env, initial, log) + a.outcome.state else StateAfter(env, initial, log))
      && Completions(env, all) ==
           Completions(env, log) + (if added then [(e2.row.stepId, a.outcome.state)] else [])
      && Confidences(env, all) == Confidences(env, log) + (if a.Returned? then a.outcome.confidences else [])
      && (forall id :: TokenAfter(env, known, all, id) ==
                         if id == e1.stepId && a.Returned? && a.outcome.token.Some? then a.outcome.token
                         else TokenAfter(env, known, log, id))
      && (forall id :: Entries(all, id) == Entries(log, id) + if id == e1.stepId then 1 else 0)
      && (e0.Append? ==> Rows(all) == Rows(log) + [e0.row] + [e2.row] && Undones(all) == Undones(log))
  {
    IdleHistory(env, log, e0, initial, known);
    CallHistory(env, log + [e0], e1, initial, known, a);
    RowHistory(env, log + [e0] + [e1], e2, initial, known);
    RowsOne(log, e0);
    assert log + [e0, e1, e2] == log + [e0] + [e1] + [e2];
    hide CallsIn, StateAfter, TokenAfter, Completions, Confidences, Entries, Rows, EndsEntered, LastAnswer;
    hide ReroutesOver, Undones;
    assert Completions(env, log) + [] == Completions(env, log);
  }

  /** The history behind a node that was answered and closed. */
  lemma {:induction false} NewHistory(flow: Flow, env: Env, start: Fold, f: Fold, s: Step)
    requires f.index < |flow.Nodes()| && Answered(flow, env, f, s) && f.executions == CallsIn(f.log)
    requires !Answer(env, f, flow.Nodes()[f.index]).Died?
    ensures var node, n := flow.Nodes()[f.index], |f.log|; var a, log := Answer(env, f, node), s.next.log;
      && Idle(log[n]) && log[n].Append? && log[n].row.status == Started
      && log[n + 1].Entered? && log[n + 1].stepId == node.stepId && log[n + 2].Append?
      && log == f.log + [log[n], log[n + 1], log[n + 2]]
      && log[n + 2].row.stepId == node.stepId && (log[n + 2].row.status == Completed ==> a.Returned?)
      && (log[n + 2].row.status == Rerouted ==> log[n + 2].row.reroute.Some?)
      && a == env.run(CallsIn(f.log) + 1, log[n + 1].stepId, log[n + 1].input, log[n + 1].token)
  {
    hide Closing, FaultOf, Inputs, Answer, CallsIn, Carries;
    var node, n := flow.Nodes()[f.index], |f.log|;
    ClosedCompleted(flow, node, f.state, f.budgets, Answer(env, f, node), s.next.log[n + 2].row);
    AnswerIs(env, f, node);
  }

  /** The books after a node that was answered and closed. */
  lemma {:induction false} NewBooks(flow: Flow, env: Env, start: Fold, f: Fold, s: Step)
    requires f.index < |flow.Nodes()| && Answered(flow, env, f, s) && Going(flow, env, start, f)
    requires !Answer(env, f, flow.Nodes()[f.index]).Died?
    ensures Books(flow, env, start, s.next) && !EndsEntered(s.next.log)
  {
    hide Settled, Closing, FaultOf, Inputs, EdgeKey, Answer, StateAfter, TokenAfter, Completions, Confidences, CallsIn;
    hide Entries, Rows, IsLeast, Matches, BudgetsAt, Undones, Starts, Idle;
    var node, n := flow.Nodes()[f.index], |f.log|;
    var a, log := Answer(env, f, node), s.next.log;
    NewHistory(flow, env, start, f, s);
    ThreeHistory(env, f.log, log[n], log[n + 1], log[n + 2], start.state, start.tokens, a);
    NewNumbers(flow, f, s.next, node, a, log[n + 2].row, Completions(env, f.log), Confidences(env, f.log));
    NewRows(flow, start, f, s.next, node, a, log[n].row, log[n + 2].row);
  }

  lemma {:induction false} NewCounters(flow: Flow, env: Env, start: Fold, f: Fold, s: Step)
    requires f.index < |flow.Nodes()| && Answered(flow, env, f, s) && Going(flow, env, start, f)
    requires !Answer(env, f, flow.Nodes()[f.index]).Died?
    ensures s.next.executions == CallsIn(s.next.log) && Undones(s.next.log) == []
    ensures forall id :: GetOr(s.next.attempts, id, 0) == GetOr(start.attempts, id, 0) + Entries(s.next.log, id)
  {
    hide Settled, Closing, FaultOf, Inputs, EdgeKey, Answer, StateAfter, TokenAfter, Completions, Confidences, CallsIn;
    hide Entries, Rows, Books, Undones, Starts, Idle, EndsEntered;
    var node, n := flow.Nodes()[f.index], |f.log|;
    var a, log := Answer(env, f, node), s.next.log;
    NewHistory(flow, env, start, f, s);
    ThreeHistory(env, f.log, log[n], log[n + 1], log[n + 2], start.state, start.tokens, a);
  }

  lemma {:induction false} AnswerIs(env: Env, f: Fold, node: Node)
    ensures Answer(env, f, node)
         == env.run(f.executions + 1, node.stepId, Inputs(node.needs, f.state), Get(f.tokens, node.stepId))
  {}

  lemma {:induction false} ClosedCompleted(
    flow: Flow, node: Node, state: State, budgets: map<string, int>, a: RunResult, row: Row)
    requires Closing(flow, node, state, budgets, a, row)
    ensures row.stepId == node.stepId && (row.status == Completed ==> a.Returned?)
    ensures row.status == Rerouted ==> row.reroute.Some?
  {
    hide Recovers, Named, Agreeable;
  }

  lemma {:induction false} NewNumbers(
    flow: Flow, f: Fold, g: Fold, node: Node, a: RunResult, row: Row,
    completions: seq<(string, State)>, confidences: seq<real>)
    requires Carries(flow, f, g, node, a, row) && (row.status == Completed ==> a.Returned?)
    requires Matches(flow, f.succeeded, completions) && IsLeast(f.floor, confidences)
    ensures Matches(flow, g.succeeded,
                    completions + if row.status == Completed then [(node.stepId, a.outcome.state)] else [])
    ensures IsLeast(g.floor, confidences + if a.Returned? then a.outcome.confidences else [])
  {
    hide EdgeKey, IsLeast;
    if a.Returned? {
      LeastJoins(f.floor, confidences, a.outcome.confidences);
    } else {
      assert confidences + [] == confidences;
    }
  }

  /** Rows, budgets and the rerouted flag. */
  lemma {:induction false} NewRows(
    flow: Flow, start: Fold, f: Fold, g: Fold, node: Node, a: RunResult, started: Row, row: Row)
    requires Carries(flow, f, g, node, a, row) && started.status == Started
    requires row.status == Rerouted ==> row.reroute.Some?
    requires Rows(g.log) == Rows(f.log) + [started] + [row]
    requires BudgetsAt(start, f.log, f.budgets)
    requires f.rerouted <==> exists r :: r in Rows(f.log) && r.status == Rerouted
    ensures BudgetsAt(start, g.log, g.budgets)
    ensures g.rerouted <==> exists r :: r in Rows(g.log) && r.status == Rerouted
  {
    hide EdgeKey, Rows;
    var before := Rows(f.log);
    forall key
      ensures ReroutesOver(before + [started] + [row], key) == ReroutesOver(before, key)
                + (if row.status == Rerouted && EdgeKey(row.stepId, row.reroute.value.to) == key then 1 else 0)
    {
      assert (before + [started])[..|before|] == before;
      assert (before + [started] + [row])[..|before| + 1] == before + [started];
    }
    hide ReroutesOver;
    var after := before + [started] + [row];
    assert row in after && forall r :: r in after <==> r in before || r == started || r == row;
  }

  // --------------------------------------------------------------------- whole leases

  /** A node that does not get to its call changes counters only. */
  lemma {:induction false} StoppedKeeps(flow: Flow, env: Env, f: Fold)
    requires f.index < |flow.Nodes()| && RecoveriesValid(flow.Nodes())
    requires !Reaches(flow, f, flow.Nodes()[f.index])
    ensures var s := RunNode(flow, env, f);
      s.Faulted? && !CallFault(s.fault) && s.next == f.(executions := s.next.executions, attempts := s.next.attempts)
  {
    hide Settle, Start;
  }

  lemma {:induction false} OtherFault(flow: Flow, env: Env, start: Fold, log: seq<Event>, fault: Fault)
    requires Settled(flow, env, start, log, None) && !CallFault(fault)
    ensures Settled(flow, env, start, log, Some(fault))
  {
    hide Accounted;
  }

  /** How the driver stands behind a node. */
  ghost predicate Booked(flow: Flow, env: Env, start: Fold, o: Outcome) {
    match o
    case Finished(f) => Going(flow, env, start, f)
    case Broke(f, fault) =>
      && Settled(flow, env, start, f.log, Some(fault)) && Undones(f.log) == []
      && (fault != Defect ==> Books(flow, env, start, f) && !EndsEntered(f.log))
      && (EndsEntered(f.log) ==> LastAnswer(env, f.log).Died?)
  }

  lemma {:induction false} NodeBooked(flow: Flow, env: Env, start: Fold, f: Fold)
    requires Runnable(flow) && f.index < |flow.Nodes()| && Going(flow, env, start, f)
    ensures var s := RunNode(flow, env, f);
      if s.Faulted? then Booked(flow, env, start, Broke(s.next, s.fault)) else Going(flow, env, start, s.next)
  {
    hide RunNode, Reaches, Settled, Books, EndsEntered, LastAnswer, Contiguous, CallsIn, Entries, Undones, Answered;
    var s := RunNode(flow, env, f);
    if Reaches(flow, f, flow.Nodes()[f.index]) {
      NodeAnswered(flow, env, f);
      FaultKinds(flow, env, f, s);
      NewSettled(flow, env, start, f, s);
      if Answer(env, f, flow.Nodes()[f.index]).Died? {
        DiedBooked(flow, env, start, f, s);
      } else {
        NewBooks(flow, env, start, f, s);
        NewCounters(flow, env, start, f, s);
      }
    } else {
      StoppedKeeps(flow, env, f);
      BooksSame(flow, env, start, f, s.next);
      OtherFault(flow, env, start, f.log, s.fault);
    }
  }

  lemma {:induction false} FaultKinds(flow: Flow, env: Env, f: Fold, s: Step)
    requires f.index < |flow.Nodes()| && Answered(flow, env, f, s)
    ensures s.Faulted? ==> CallFault(s.fault) && (s.fault.Defect? <==> Answer(env, f, flow.Nodes()[f.index]).Died?)
    ensures Answer(env, f, flow.Nodes()[f.index]).Died? ==> s.Faulted?
  {
    hide Closing, Carries, Starts, Inputs, Recovers, Agreeable;
  }

  lemma {:induction false} DiedBooked(flow: Flow, env: Env, start: Fold, f: Fold, s: Step)
    requires f.index < |flow.Nodes()| && Answered(flow, env, f, s) && Going(flow, env, start, f)
    requires Answer(env, f, flow.Nodes()[f.index]).Died?
    ensures Undones(s.next.log) == [] && EndsEntered(s.next.log) && LastAnswer(env, s.next.log).Died?
  {
    hide Settled, Closing, Carries, FaultOf, Inputs, Answer, Books, EndsEntered, LastAnswer, CallsIn, Undones, Entries;
    var log, n, node := s.next.log, |f.log|, flow.Nodes()[f.index];
    AnswerIs(env, f, node);
    StartedCall(env, f.log, log[n], log[n + 1]);
    assert log == f.log + [log[n]] + [log[n + 1]];
  }

  /** A call behind its started row. */
  lemma {:induction false} StartedCall(env: Env, log: seq<Event>, e0: Event, e1: Event)
    requires e0.Append? && e1.Entered?
    ensures var longer := log + [e0] + [e1];
      && Undones(longer) == Undones(log) && EndsEntered(longer)
      && LastAnswer(env, longer) == env.run(CallsIn(log) + 1, e1.stepId, e1.input, e1.token)
  {
    var once := log + [e0];
    assert once[..|log|] == log;
    assert CallsIn(once) == CallsIn(log) && Undones(once) == Undones(log) + [];
    var longer := once + [e1];
    assert longer[..|longer| - 1] == once;
  }

  /** Moving on, entering and leaving a session. */
  lemma {:induction false} MoveGoing(flow: Flow, env: Env, start: Fold, f: Fold, index: nat)
    requires Going(flow, env, start, f)
    ensures var g := MoveTo(flow.Nodes(), f, index);
      && Going(flow, env, start, g) && g.executions == f.executions
      && (g.open.Some? ==> g.index < |flow.Nodes()| && g.open == Some(flow.Nodes()[g.index].segment))
  {
    var g := MoveTo(flow.Nodes(), f, index);
    hide Settled, Books;
    if g.log != f.log {
      GoingOpen(flow, env, start, f);
      IdleGoing(flow, env, start, f, g, Closed(f.open.value));
    } else {
      BooksSame(flow, env, start, f, g);
    }
  }

  lemma {:induction false} GoingOpen(flow: Flow, env: Env, start: Fold, f: Fold)
    requires Going(flow, env, start, f)
    ensures !EndsEntered(f.log)
  {}

  lemma {:induction false} BooksSame(flow: Flow, env: Env, start: Fold, f: Fold, g: Fold)
    requires g.log == f.log && g.state == f.state && g.tokens == f.tokens && g.succeeded == f.succeeded
    requires g.floor == f.floor && g.rerouted == f.rerouted && g.budgets == f.budgets
    ensures Books(flow, env, start, f) ==> Books(flow, env, start, g)
  {}

  lemma {:induction false} EnterGoing(flow: Flow, env: Env, start: Fold, f: Fold, segment: string)
    requires Going(flow, env, start, f)
    ensures Going(flow, env, start, Enter(f, segment))
  {
    GoingOpen(flow, env, start, f);
    hide Going;
    IdleGoing(flow, env, start, f, Enter(f, segment), Opened(segment));
  }

  lemma {:induction false} LeaveBooked(flow: Flow, env: Env, start: Fold, f: Fold, fault: Fault)
    requires Booked(flow, env, start, Broke(f, fault))
    ensures Booked(flow, env, start, Broke(Leave(f), fault))
  {
    hide Settled, Books, CallsIn, StateAfter, TokenAfter, Completions, Confidences;
    if f.open.Some? {
      var e := Closed(f.open.value);
      IdleHistory(env, f.log, e, start.state, start.tokens);
      SettledGrows(flow, env, start, f.log, e, Some(fault));
      if fault != Defect {
        IdleGoing(flow, env, start, f, Leave(f), e);
      }
    }
  }

  lemma {:induction false} DriveBooked(flow: Flow, env: Env, start: Fold, f: Fold)
    requires Runnable(flow) && Going(flow, env, start, f)
    requires f.open.Some? ==> f.index < |flow.Nodes()| && f.open == Some(flow.Nodes()[f.index].segment)
    ensures Booked(flow, env, start, Drive(flow, env, f))
    decreases ExecutionsLeft(flow.Nodes(), f), f.open.None?
  {
    hide RunNode, Drive, ExecutionBound, Contiguous, UniqueIds, RecoveriesValid, MoveTo, Leave, Going, Settled, Books;
    var nodes := flow.Nodes();
    if f.index >= |nodes| {
      DriveDone(flow, env, f);
    } else if f.open.None? {
      DriveClosed(flow, env, f);
      if env.session(f.sessions, nodes[f.index].segment).None? {
        EnterGoing(flow, env, start, f, nodes[f.index].segment);
        DriveBooked(flow, env, start, Enter(f, nodes[f.index].segment));
      } else {
        SessionBooked(flow, env, start, f, env.session(f.sessions, nodes[f.index].segment).value);
      }
    } else {
      DriveOpen(flow, env, f);
      NodeBooked(flow, env, start, f);
      match RunNode(flow, env, f) {
        case Faulted(h, fault) => LeaveBooked(flow, env, start, h, fault);
        case Advanced(h) =>
          MoveGoing(flow, env, start, h, h.index + 1);
          DriveBooked(flow, env, start, MoveTo(nodes, h, h.index + 1));
        case ReroutedTo(h, to) =>
          MoveGoing(flow, env, start, h, to);
          DriveBooked(flow, env, start, MoveTo(nodes, h, to));
      }
    }
  }

  lemma {:induction false} SessionBooked(flow: Flow, env: Env, start: Fold, f: Fold, error: StepError)
    requires Going(flow, env, start, f) && f.index < |flow.Nodes()|
    ensures Booked(flow, env, start,
                   Broke(f.(sessions := f.sessions + 1), SessionFailed(flow.Nodes()[f.index].segment, error)))
  {
    hide Settled, Books;
    BooksSame(flow, env, start, f, f.(sessions := f.sessions + 1));
    OtherFault(flow, env, start, f.log, SessionFailed(flow.Nodes()[f.index].segment, error));
  }

  /** Compensation hands each handler what its step returned, the latest first. */
  lemma {:induction false} CompensateBooked(
    flow: Flow, env: Env, start: Fold, f: Fold, n: nat, completed: seq<(string, State)>, fault: Fault)
    requires n == |completed| <= |f.succeeded| && Matches(flow, f.succeeded[..n], completed)
    requires Settled(flow, env, start, f.log, Some(fault)) && Books(flow, env, start, f) && !EndsEntered(f.log)
    ensures var g := Compensate(env, f, n);
      && Settled(flow, env, start, g.log, Some(fault)) && Books(flow, env, start, g)
      && Completions(env, g.log) == Completions(env, f.log)
      && Undones(g.log) == Undones(f.log) + Unwind(completed, flow.compensable)
    decreases n
  {
    hide *;
    CompensateNext(env, f, n);
    UnwindNext(flow, f.succeeded[..n], completed);
    if n > 0 {
      var entry := f.succeeded[n - 1];
      assert f.succeeded[..n - 1] == f.succeeded[..n][..n - 1];
      if entry.undo {
        UndoBooked(flow, env, start, f, entry, fault);
        var undone := [(entry.stepId, entry.output)];
        CompensateBooked(flow, env, start, UndoEntry(env, f, entry), n - 1, completed[..n - 1], fault);
        AssocUndones(Undones(f.log), undone, Unwind(completed[..n - 1], flow.compensable));
      } else {
        CompensateBooked(flow, env, start, f, n - 1, completed[..n - 1], fault);
      }
    } else {
      assert Undones(f.log) + [] == Undones(f.log);
    }
  }

  lemma {:induction false} AssocUndones(a: seq<(string, State)>, b: seq<(string, State)>, c: seq<(string, State)>)
    ensures (a + b) + c == a + (b + c)
  {}

  lemma {:induction false} CompensateNext(env: Env, f: Fold, n: nat)
    requires n <= |f.succeeded|
    ensures n == 0 ==> Compensate(env, f, n) == f
    ensures n > 0 ==>
              (var entry := f.succeeded[n - 1];
               && UndoEntry(env, f, entry).succeeded == f.succeeded
               && Compensate(env, f, n) == Compensate(env, if entry.undo then UndoEntry(env, f, entry) else f, n - 1))
  {}

  lemma {:induction false} UnwindNext(flow: Flow, succeeded: seq<Success>, completed: seq<(string, State)>)
    requires Matches(flow, succeeded, completed)
    ensures |completed| == 0 ==> Unwind(completed, flow.compensable) == []
    ensures |completed| > 0 ==>
              (var n := |completed| - 1; var entry := succeeded[n];
               var rest := Unwind(completed[..n], flow.compensable);
               && Matches(flow, succeeded[..n], completed[..n])
               && Unwind(completed, flow.compensable)
                  == if entry.undo then [(entry.stepId, entry.output)] + rest else rest)
  {
    if |completed| > 0 {
      var n := |completed| - 1;
      assert completed[n] == (succeeded[n].stepId, succeeded[n].output);
      assert [] + Unwind(completed[..n], flow.compensable) == Unwind(completed[..n], flow.compensable);
    }
  }

  /** One act of compensation. */
  lemma {:induction false} IdleBooked(flow: Flow, env: Env, start: Fold, f: Fold, g: Fold, e: Event, fault: Fault)
    requires Settled(flow, env, start, f.log, Some(fault)) && Books(flow, env, start, f) && !EndsEntered(f.log)
    requires Idle(e) && g == f.(log := f.log + [e], appends := g.appends)
    ensures Settled(flow, env, start, g.log, Some(fault)) && Books(flow, env, start, g) && !EndsEntered(g.log)
    ensures Completions(env, g.log) == Completions(env, f.log)
    ensures e.Undone? ==> Undones(g.log) == Undones(f.log) + [(e.stepId, e.output)]
    ensures !e.Undone? ==> Undones(g.log) == Undones(f.log)
  {
    hide Settled, Books, CallsIn, StateAfter, TokenAfter, Completions, Confidences, Entries, Rows, ReroutesOver;
    hide Undones;
    SettledGrows(flow, env, start, f.log, e, Some(fault));
    IdleHistory(env, f.log, e, start.state, start.tokens);
    IdleGoing(flow, env, start, f, g, e);
    assert Undones(f.log) + [] == Undones(f.log);
  }

  lemma {:induction false} UndoActs(env: Env, f: Fold, entry: Success) returns (h: Fold, e0: Event, e1: Event)
    ensures e0 == Undone(entry.stepId, entry.output) && e1.Append? && Idle(e0) && Idle(e1)
    ensures h == f.(log := f.log + [e0], appends := h.appends)
    ensures UndoEntry(env, f, entry)
         == h.(log := h.log + [e1], appends := UndoEntry(env, f, entry).appends)
  {
    e0 := Undone(entry.stepId, entry.output);
    e1 := Append(BareRow(entry.stepId, GetOr(f.attempts, entry.stepId, 1), Compensated), env.append(f.appends));
    h := f.(log := f.log + [e0]);
  }

  lemma {:induction false} UndoBooked(flow: Flow, env: Env, start: Fold, f: Fold, entry: Success, fault: Fault)
    requires Settled(flow, env, start, f.log, Some(fault)) && Books(flow, env, start, f) && !EndsEntered(f.log)
    ensures var g := UndoEntry(env, f, entry);
      && Settled(flow, env, start, g.log, Some(fault)) && Books(flow, env, start, g) && !EndsEntered(g.log)
      && Completions(env, g.log) == Completions(env, f.log)
      && Undones(g.log) == Undones(f.log) + [(entry.stepId, entry.output)]
  {
    hide *;
    var h, e0, e1 := UndoActs(env, f, entry);
    IdleBooked(flow, env, start, f, h, e0, fault);
    IdleBooked(flow, env, start, h, UndoEntry(env, f, entry), e1, fault);
  }

  lemma {:induction false} IdleStart(flow: Flow, env: Env, start: Fold, log: seq<Event>)
    requires forall e :: e in log ==> Idle(e) && !e.Undone? && !e.Closed?
    ensures CallsIn(log) == 0 && StateAfter(env, start.state, log) == start.state && Completions(env, log) == []
    ensures Confidences(env, log) == [] && Undones(log) == []
    ensures forall id :: TokenAfter(env, start.tokens, log, id) == Get(start.tokens, id) && Entries(log, id) == 0
    ensures forall key :: ReroutesOver(Rows(log), key) == 0
    ensures forall row :: row in Rows(log) ==> row.status != Rerouted
  {
    if |log| > 0 {
      var front, e := log[..|log| - 1], log[|log| - 1];
      IdleStart(flow, env, start, front);
      assert log == front + [e];
      IdleHistory(env, front, e, start.state, start.tokens);
      RowsOne(front, e);
    }
  }

  lemma {:induction false} BlankSettled(flow: Flow, env: Env, start: Fold, log: seq<Event>)
    requires forall e :: e in log ==> Idle(e)
    ensures Settled(flow, env, start, log, None) && !EndsEntered(log)
  {
    hide Accounted;
    forall p | 0 <= p < |log| ensures Idle(log[p]) {
      assert log[p] in log;
    }
  }

  /** A fold that has done nothing yet. */
  lemma {:induction false} BlankGoing(flow: Flow, env: Env, f: Fold)
    requires forall e :: e in f.log ==> Idle(e) && !e.Undone? && !e.Closed?
    requires f.executions == 0 && f.succeeded == [] && f.floor == 1.0 && !f.rerouted
    ensures Going(flow, env, f, f)
  {
    IdleStart(flow, env, f, f.log);
    BlankSettled(flow, env, f, f.log);
    hide Settled, CallsIn, StateAfter, TokenAfter, Completions, Confidences, Undones, Entries, Rows, ReroutesOver;
    hide EndsEntered, Idle;
  }

  lemma {:induction false} StartGoing(flow: Flow, env: Env, initial: State, rows: seq<Row>)
    ensures var f := StartingFold(flow, env, initial, rows); Going(flow, env, f, f)
  {
    hide Hydrate, Going;
    HydrateKeeps(flow, env, Fresh(flow, initial), rows);
    StartSkips(flow, env, initial, rows);
    BlankGoing(flow, env, StartingFold(flow, env, initial, rows));
  }

  lemma {:induction false} StartSkips(flow: Flow, env: Env, initial: State, rows: seq<Row>)
    ensures var f := StartingFold(flow, env, initial, rows);
      forall e :: e in f.log ==> e.Append? && e.row.status == SkippedResume
  {
    hide IndexOf, SeedTokens, SeedAttempts, LastBoundary, DecodeDelta, Skip, Budgets;
    if |rows| > 0 {
      var boundary := LastBoundary(flow.Nodes(), rows);
      if boundary.Some? && DecodeDelta(flow, boundary.value.stateDelta.value).Some? {
        var decoded := DecodeDelta(flow, boundary.value.stateDelta.value).value;
        var g := Fresh(flow, initial).(tokens := SeedTokens(rows), attempts := SeedAttempts(rows));
        var b := IndexOf(flow.Nodes(), boundary.value.stepId).value + 1;
        SkipSkips(flow, env, g.(state := g.state + decoded, provided := g.provided + decoded.Keys, index := b), b);
      }
    }
  }

  lemma {:induction false} SkipSkips(flow: Flow, env: Env, f: Fold, n: nat)
    requires n <= |flow.Nodes()| && forall e :: e in f.log ==> e.Append? && e.row.status == SkippedResume
    ensures forall e :: e in Skip(flow, env, f, n).log ==> e.Append? && e.row.status == SkippedResume
  {
    if n > 0 {
      SkipSkips(flow, env, f, n - 1);
    }
  }

  /** In every lease every call is given what is due to it and closed by the row that its
      answer means, the lease ends as its last call means, state, tokens, floor, budgets and
      the rerouted flag are what the answers add up to, and a failing lease hands its
      completed steps' outputs to their handlers in reverse. */
  lemma {:induction false} LeaseAnswered(flow: Flow, env: Env, initial: State, resume: bool, journal: seq<Row>)
    requires Runnable(flow)
    ensures var r := RunFlow(flow, env, initial, resume, journal);
      var start := StartingFold(flow, env, initial, Visible(env, resume, journal));
      && Settled(flow, env, start, r.final.log, if r.Succeeded? then None else Some(r.fault))
      && (r.Succeeded? || r.fault != Defect ==> Books(flow, env, start, r.final))
      && Undones(r.final.log) == if r.Succeeded? || r.fault == Defect then []
                                 else Unwind(Completions(env, r.final.log), flow.compensable)
  {
    hide RunFlow, Drive, StartingFold, ReplayGuard, Budgets, Runnable, Settled, Books, EndsEntered, Undones, Visible;
    hide Completions, Unwind;
    var rows := Visible(env, resume, journal);
    var start := StartingFold(flow, env, initial, rows);
    LeaseCases(flow, env, initial, resume, journal);
    StartGoing(flow, env, initial, rows);
    StartOpen(flow, env, initial, rows);
    if |rows| > 0 && ReplayGuard(flow.Nodes(), rows, start.index).Some? {
      OtherFault(flow, env, start, start.log, Replay(ReplayGuard(flow.Nodes(), rows, start.index).value));
      NothingDone(flow, env, start);
    } else {
      DriveBooked(flow, env, start, start);
      ConcludeBooked(flow, env, start, Drive(flow, env, start));
    }
  }

  lemma {:induction false} StartOpen(flow: Flow, env: Env, initial: State, rows: seq<Row>)
    ensures StartingFold(flow, env, initial, rows).open.None? && StartingFold(flow, env, initial, rows).succeeded == []
  {
    hide Hydrate;
    HydrateKeeps(flow, env, Fresh(flow, initial), rows);
  }

  lemma {:induction false} NothingDone(flow: Flow, env: Env, start: Fold)
    requires Going(flow, env, start, start) && start.succeeded == []
    ensures Undones(start.log) == [] && Unwind(Completions(env, start.log), flow.compensable) == []
    ensures Books(flow, env, start, start)
  {}

  lemma {:induction false} ConcludeBooked(flow: Flow, env: Env, start: Fold, o: Outcome)
    requires Booked(flow, env, start, o)
    ensures var r := Conclude(env, o);
      && Settled(flow, env, start, r.final.log, if r.Succeeded? then None else Some(r.fault))
      && (r.Succeeded? || r.fault != Defect ==> Books(flow, env, start, r.final))
      && Undones(r.final.log) == if r.Succeeded? || r.fault == Defect then []
                                 else Unwind(Completions(env, r.final.log), flow.compensable)
  {
    hide Settled, EndsEntered, StateAfter, TokenAfter, Confidences, Completions, IsLeast, BudgetsAt, Unwind, Undones;
    match o
    case Finished(f) =>
    case Broke(f, fault) =>
      if fault != Defect {
        var n := |f.succeeded|;
        assert f.succeeded[..n] == f.succeeded;
        CompensateBooked(flow, env, start, f, n, Completions(env, f.log), fault);
      }
  }

  // ------------------------------------------------------------------------- landings

  /** What a closing row says about where its step landed. */
  ghost predicate LandedWell(flow: Flow, row: Row) {
    exists i :: 0 <= i < |flow.Nodes()| && flow.Nodes()[i].stepId == row.stepId &&
      LandedAt(flow, flow.Nodes()[i], row)
  }

  ghost predicate LandedAt(flow: Flow, node: Node, row: Row) {
    && (row.status == Completed ==> Agreeable(node, row.landing))
    && (row.status == Rerouted ==> RecoveredTo(flow, node, row))
  }

  /** The landing was recognised and not expected, and the step's chooser named the declared
      edge that the row records. */
  ghost predicate RecoveredTo(flow: Flow, node: Node, row: Row) {
    && row.landing.Some? && !Agreeable(node, row.landing) && row.reroute.Some?
    && Declares(node, row.reroute.value.to)
    && exists state :: Named(flow, node, state, row.landing.value) == Some(row.reroute.value.to)
  }

  lemma {:induction false} ClosingLands(
    flow: Flow, node: Node, state: State, budgets: map<string, int>, a: RunResult, row: Row)
    requires Closing(flow, node, state, budgets, a, row)
    ensures LandedAt(flow, node, row)
  {
    hide Agreeable, EdgeKey;
    if row.status == Rerouted {
      assert Named(flow, node, state, row.landing.value) == Some(row.reroute.value.to);
    }
  }

  lemma {:induction false} RowLands(
    flow: Flow, env: Env, start: Fold, log: seq<Event>, fault: Option<Fault>, q: nat)
    requires Settled(flow, env, start, log, fault) && q < |log| && Closes(log[q])
    ensures LandedWell(flow, log[q].row)
  {
    hide BudgetsAt, CallProper, Closing, FaultOf, StateAfter, LastAnswer, LandedAt;
    assert q > 0 && log[q - 1].Entered?;
    var p: nat := q - 1;
    var meant := if fault.Some? && CallFault(fault.value) && LastCall(log, p) then fault else None;
    assert Accounted(flow, env, start, log, p, meant);
    var node := flow.Nodes()[IndexOf(flow.Nodes(), log[p].stepId).value];
    var state, a := StateAfter(env, start.state, log[..p]), LastAnswer(env, log[..p + 1]);
    var budgets :| BudgetsAt(start, log[..p], budgets) && CallCloses(flow, node, state, budgets, a, log, p)
      && FaultOf(flow, node, state, budgets, a) == meant;
    ClosingLands(flow, node, state, budgets, a, log[q].row);
    ClosedCompleted(flow, node, state, budgets, a, log[q].row);
  }

  /** A call that landed elsewhere is recovered, or it is the last one and the lease ends as
      diverged at that step with that landing. */
  ghost predicate DivergesOr(flow: Flow, env: Env, log: seq<Event>, fault: Option<Fault>, p: nat)
    requires p < |log| && log[p].Entered?
  {
    var a := LastAnswer(env, log[..p + 1]); var i := IndexOf(flow.Nodes(), log[p].stepId);
    i.Some? && (a.Returned? && !Agreeable(flow.Nodes()[i.value], a.outcome.observed) ==>
      && p + 1 < |log| && log[p + 1].Append? && log[p + 1].row.landing == a.outcome.observed
      && (|| log[p + 1].row.status == Rerouted
          || (&& log[p + 1].row.status == Failed && LastCall(log, p)
              && fault == Some(Diverged(log[p].stepId, a.outcome.observed.value)))))
  }

  lemma {:induction false} CallDiverges(
    flow: Flow, env: Env, start: Fold, log: seq<Event>, fault: Option<Fault>, p: nat)
    requires Settled(flow, env, start, log, fault) && p < |log| && log[p].Entered?
    ensures DivergesOr(flow, env, log, fault, p)
  {
    hide BudgetsAt, CallProper, StateAfter, LastAnswer, Recovers, Named, Agreeable, EdgeKey;
    var meant := if fault.Some? && CallFault(fault.value) && LastCall(log, p) then fault else None;
    assert Accounted(flow, env, start, log, p, meant);
    var node := flow.Nodes()[IndexOf(flow.Nodes(), log[p].stepId).value];
    var state, a := StateAfter(env, start.state, log[..p]), LastAnswer(env, log[..p + 1]);
    var budgets :| BudgetsAt(start, log[..p], budgets) && CallCloses(flow, node, state, budgets, a, log, p)
      && FaultOf(flow, node, state, budgets, a) == meant;
  }

  /** No lease takes an unexpected landing for success: in its log a step is completed only
      without a landing or at an expected one, rerouted only where its chooser sends a
      recognised landing, and any other landing ends the lease as diverged. */
  lemma {:induction false} LeaseLandings(flow: Flow, env: Env, initial: State, resume: bool, journal: seq<Row>)
    requires Runnable(flow)
    ensures var r := RunFlow(flow, env, initial, resume, journal); var log := r.final.log;
      && (forall q :: 0 <= q < |log| && Closes(log[q]) ==> LandedWell(flow, log[q].row))
      && (forall p :: 0 <= p < |log| && log[p].Entered? ==>
            DivergesOr(flow, env, log, if r.Succeeded? then None else Some(r.fault), p))
  {
    LeaseAnswered(flow, env, initial, resume, journal);
    hide RunFlow, Runnable, Settled, Books, Unwind, Undones, LandedWell, DivergesOr, Completions;
    var r := RunFlow(flow, env, initial, resume, journal);
    var start := StartingFold(flow, env, initial, Visible(env, resume, journal));
    var log, fault := r.final.log, if r.Succeeded? then None else Some(r.fault);
    forall q | 0 <= q < |log| && Closes(log[q]) ensures LandedWell(flow, log[q].row) {
      RowLands(flow, env, start, log, fault, q);
    }
    forall p | 0 <= p < |log| && log[p].Entered? ensures DivergesOr(flow, env, log, fault, p) {
      CallDiverges(flow, env, start, log, fault, p);
    }
  }
}
