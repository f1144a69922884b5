/** The confirmation screen of a received package: the start and end paths
    and the numbered overview it shows, and the handler that replays the
    orders one after another through the main process's file handlers. */
module ProcessConfirm {
  import opened Orders
  import opened Text

  // ---------------------------------------------------------------------------
  // Summaries shown before running
  // ---------------------------------------------------------------------------

  /** `startPath`: where the first order acts. The component is only shown
      for a non-empty package (indexing an empty one throws). */
  function StartPath(orders: seq<Order>): string
    requires |orders| > 0
  {
    orders[0].executionPath
  }

  /** `endPath`: where the last order acts. */
  function EndPath(orders: seq<Order>): string
    requires |orders| > 0
  {
    orders[|orders| - 1].executionPath
  }

  /** Joining two packages keeps the first's start and the second's end; a
      one-order package starts and ends in the same place. */
  lemma PathSummaryOfJoinedPackages(a: seq<Order>, b: seq<Order>)
    requires |a| > 0 && |b| > 0
    ensures StartPath(a + b) == StartPath(a) && EndPath(a + b) == EndPath(b)
    ensures |a| == 1 ==> StartPath(a) == EndPath(a)
  {
  }

  /** Line `index` of `overview` (index counts from 0, the line from 1). */
  function OverviewLine(index: nat, o: Order): (line: string)
    ensures StartsWith(line, Decimal(index + 1) + ". ")
  {
    var head := Decimal(index + 1) + ". " + o.attachmentName + " 을(를) ";
    if o.action == RenameName then head + o.editingName + "로 " + o.action
    else head + (if o.useVscode then "vscode 로" else "") + " " + o.action
  }

  /** `overview`: one line per order, in package order. */
  function Overview(orders: seq<Order>): (lines: seq<string>)
    ensures |lines| == |orders|
    ensures forall i :: 0 <= i < |orders| ==> lines[i] == OverviewLine(i, orders[i])
  {
    seq(|orders|, i requires 0 <= i < |orders| => OverviewLine(i, orders[i]))
  }

  /** The digits a line starts with are its number. */
  lemma OverviewLineNumber(index: nat, o: Order)
    ensures DigitPrefix(OverviewLine(index, o)) == Decimal(index + 1)
  {
    var line := OverviewLine(index, o);
    var d := Decimal(index + 1);
    var rest := line[|d|..];
    assert line == d + rest;
    assert rest[0] == '.';
    DigitPrefixOfDigitsThen(d, rest);
  }

  /** No two overview lines are equal, whatever the orders hold, so each line
      can serve as its own React key. */
  lemma OverviewLinesDistinct(orders: seq<Order>, i: nat, j: nat)
    requires i < j < |orders|
    ensures Overview(orders)[i] != Overview(orders)[j]
  {
    OverviewLineNumber(i, orders[i]);
    OverviewLineNumber(j, orders[j]);
    if Overview(orders)[i] == Overview(orders)[j] {
      DecimalInjective(i + 1, j + 1);
    }
  }

  /** A rename line ends with the new name and the action. */
  lemma RenameLineShowsNewName(index: nat, o: Order)
    requires o.action == RenameName
    ensures EndsWith(OverviewLine(index, o), o.editingName + "로 " + o.action)
  {
    var head := Decimal(index + 1) + ". " + o.attachmentName + " 을(를) ";
    var tail := o.editingName + "로 " + o.action;
    assert OverviewLine(index, o) == head + tail;
  }

  /** Any other line ends with "vscode 로 " and the action exactly when the
      order opens its target in vscode. */
  lemma VscodeMarkerIff(index: nat, o: Order)
    requires o.action != RenameName
    ensures EndsWith(OverviewLine(index, o), "vscode 로 " + o.action) <==> o.useVscode
  {
    var line := OverviewLine(index, o);
    var head := Decimal(index + 1) + ". " + o.attachmentName + " 을(를) ";
    var suffix := "vscode 로 " + o.action;
    if o.useVscode {
      assert line == head + suffix;
    } else {
      assert line == head + (" " + o.action);
      assert line[|head| - 1] == ' ' && suffix[7] == '로';
    }
  }

  // ---------------------------------------------------------------------------
  // Dispatch
  // ---------------------------------------------------------------------------

  /** The main-process handlers reachable through `window.api`. */
  datatype Handler =
    | DownloadFile
    | MoveFile
    | ReplicateFile
    | EditFileName
    | ExecuteFile
    | DeleteFile
    | UnzipFile

  /** The `switch` in `handleProcessPackage`: the handler an action goes to,
      None for the default branch. */
  function HandlerFor(action: string): Option<Handler> {
    if action == CreateName then Some(DownloadFile)
    else if action == MoveName then Some(MoveFile)
    else if action == CopyName then Some(ReplicateFile)
    else if action == RenameName then Some(EditFileName)
    else if action == ExecuteName then Some(ExecuteFile)
    else if action == DeleteName then Some(DeleteFile)
    else if action == DecompressName then Some(UnzipFile)
    else None
  }

  /** Every one of the seven actions has a handler, no two share one, and every
      other action string (the empty one included) reaches the default branch. */
  lemma HandlerForIsOneToOne(x: string, y: string)
    ensures HandlerFor(x).Some? <==> Kind(x).Some?
    ensures HandlerFor(x).Some? && HandlerFor(x) == HandlerFor(y) ==> x == y
  {
  }

  const UnknownActionResult: string := "알 수 없는 작업입니다"

  /** One invocation of a handler on an order. */
  datatype Call = Call(handler: Handler, order: Order)

  /** An exception reaching the `catch`: an AxiosError (with the response's
      message when there was a response) or anything else. */
  datatype Failure = AxiosFailure(responseMessage: Option<string>) | OtherFailure

  /** What awaiting a handler gives: its result string, or an exception. */
  datatype Reply = Returned(text: string) | Raised(failure: Failure)

  /** `window.api` as the renderer sees it. What a handler answers may depend
      on every call made before (their effect on the file system), so `reply`
      takes the history of calls; `log` is that history. */
  class Bridge {
    const reply: (seq<Call>, Call) -> Reply
    var log: seq<Call>

    constructor (reply: (seq<Call>, Call) -> Reply)
      ensures this.reply == reply && log == []
    {
      this.reply := reply;
      log := [];
    }

    /** Awaits one handler call. */
    method Invoke(c: Call) returns (r: Reply)
      modifies this
      ensures r == reply(old(log), c)
      ensures log == old(log) + [c]
    {
      r := reply(log, c);
      log := log + [c];
    }
  }

  /** The state of a replay: all results so far, or the exception that ended
      it; and the calls made. */
  datatype Run = Completed(results: seq<string>, log: seq<Call>) | Aborted(failure: Failure, log: seq<Call>)

  /** One order's turn after a run that has not failed. */
  function Turn(reply: (seq<Call>, Call) -> Reply, results: seq<string>, log: seq<Call>, o: Order): Run {
    match HandlerFor(o.action)
    case None => Completed(results + [UnknownActionResult], log)
    case Some(h) =>
      match reply(log, Call(h, o))
      case Raised(e) => Aborted(e, log + [Call(h, o)])
      case Returned(t) => Completed(results + [t], log + [Call(h, o)])
  }

  /** The loop of `handleProcessPackage` on values, order after order. */
  function Replay(reply: (seq<Call>, Call) -> Reply, log0: seq<Call>, orders: seq<Order>): Run
    decreases |orders|
  {
    if orders == [] then Completed([], log0)
    else
      match Replay(reply, log0, orders[..|orders| - 1])
      case Aborted(e, l) => Aborted(e, l)
      case Completed(rs, l) => Turn(reply, rs, l, orders[|orders| - 1])
  }

  /** The handler call one order makes: none when its action is unknown. */
  function CallsOf(o: Order): seq<Call> {
    match HandlerFor(o.action)
    case None => []
    case Some(h) => [Call(h, o)]
  }

  /** The handler calls a list of orders makes, in list order. */
  function Trace(orders: seq<Order>): seq<Call>
    decreases |orders|
  {
    if orders == [] then [] else Trace(orders[..|orders| - 1]) + CallsOf(orders[|orders| - 1])
  }

  /** What order o's turn yields after the calls in `log`. */
  function Outcome(reply: (seq<Call>, Call) -> Reply, log: seq<Call>, o: Order): Reply {
    match HandlerFor(o.action)
    case None => Returned(UnknownActionResult)
    case Some(h) => reply(log, Call(h, o))
  }

  /** Each order makes at most one call, and every call in the trace goes to
      the handler of its own order's action. */
  lemma {:induction false} TraceDispatchesByAction(orders: seq<Order>)
    ensures |Trace(orders)| <= |orders|
    ensures forall c :: c in Trace(orders) ==> c.order in orders && HandlerFor(c.order.action) == Some(c.handler)
    decreases |orders|
  {
    if orders != [] {
      var init := orders[..|orders| - 1];
      TraceDispatchesByAction(init);
      forall c | c in Trace(orders)
        ensures c.order in orders && HandlerFor(c.order.action) == Some(c.handler)
      {
        if c in Trace(init) {
          assert c.order in init;
        }
      }
    }
  }

  /** When every action is known, call k is order k's, in list order. */
  lemma {:induction false} TraceOfKnownActions(orders: seq<Order>)
    requires forall k :: 0 <= k < |orders| ==> HandlerFor(orders[k].action).Some?
    ensures |Trace(orders)| == |orders|
    ensures forall k :: 0 <= k < |orders| ==> Trace(orders)[k] == Call(HandlerFor(orders[k].action).value, orders[k])
    decreases |orders|
  {
    if orders != [] {
      var init := orders[..|orders| - 1];
      TraceOfKnownActions(init);
    }
  }

  /** Orders whose actions are all unknown call no handler at all. */
  lemma {:induction false} TraceOfUnknownActions(orders: seq<Order>)
    requires forall k :: 0 <= k < |orders| ==> HandlerFor(orders[k].action).None?
    ensures Trace(orders) == []
    decreases |orders|
  {
    if orders != [] {
      TraceOfUnknownActions(orders[..|orders| - 1]);
    }
  }

  /** One turn after a run that has not failed, in terms of the order's outcome. */
  lemma TurnMeetsOutcome(reply: (seq<Call>, Call) -> Reply, results: seq<string>, log: seq<Call>, o: Order)
    ensures Turn(reply, results, log, o).log == log + CallsOf(o)
    ensures Turn(reply, results, log, o).Completed? <==> Outcome(reply, log, o).Returned?
    ensures Turn(reply, results, log, o).Completed? ==>
      Turn(reply, results, log, o).results == results + [Outcome(reply, log, o).text]
    ensures Turn(reply, results, log, o).Aborted? ==>
      Outcome(reply, log, o) == Raised(Turn(reply, results, log, o).failure)
  {
  }

  /** Order i's outcome in the run of the whole list, given the calls of the orders before it. */
  ghost function OutcomeAt(reply: (seq<Call>, Call) -> Reply, log0: seq<Call>, orders: seq<Order>, i: nat): Reply
    requires i < |orders|
  {
    Outcome(reply, log0 + Trace(orders[..i]), orders[i])
  }

  /** Dropping the last order leaves the outcomes of the others as they were. */
  lemma OutcomesOfInit(reply: (seq<Call>, Call) -> Reply, log0: seq<Call>, orders: seq<Order>)
    requires orders != []
    ensures forall i :: 0 <= i < |orders| - 1 ==>
      OutcomeAt(reply, log0, orders[..|orders| - 1], i) == OutcomeAt(reply, log0, orders, i)
  {
    var init := orders[..|orders| - 1];
    forall i | 0 <= i < |init|
      ensures OutcomeAt(reply, log0, init, i) == OutcomeAt(reply, log0, orders, i)
    {
      assert init[..i] == orders[..i];
    }
  }

  /** A run completes exactly when no turn raises; then there is one result per
      order, result i is order i's outcome after the calls of the orders before
      it, and the calls made are the trace of the whole list. */
  lemma {:induction false} ReplayCompleted(reply: (seq<Call>, Call) -> Reply, log0: seq<Call>, orders: seq<Order>)
    ensures Replay(reply, log0, orders).Completed? <==>
      forall i :: 0 <= i < |orders| ==> OutcomeAt(reply, log0, orders, i).Returned?
    ensures Replay(reply, log0, orders).Completed? ==>
      && |Replay(reply, log0, orders).results| == |orders|
      && Replay(reply, log0, orders).log == log0 + Trace(orders)
      && forall i :: 0 <= i < |orders| ==>
           OutcomeAt(reply, log0, orders, i) == Returned(Replay(reply, log0, orders).results[i])
    decreases |orders|
  {
    if orders != [] {
      var n := |orders| - 1;
      var init := orders[..n];
      ReplayCompleted(reply, log0, init);
      OutcomesOfInit(reply, log0, orders);
      var prev := Replay(reply, log0, init);
      if prev.Completed? {
        TurnMeetsOutcome(reply, prev.results, prev.log, orders[n]);
        assert OutcomeAt(reply, log0, orders, n) == Outcome(reply, prev.log, orders[n]);
      } else {
        var j :| 0 <= j < n && !OutcomeAt(reply, log0, init, j).Returned?;
        assert !OutcomeAt(reply, log0, orders, j).Returned?;
      }
    }
  }

  /** A run that fails stops at the first turn that raises: every earlier turn
      returned, and the failing call is the last one made. */
  lemma {:induction false} ReplayAborted(reply: (seq<Call>, Call) -> Reply, log0: seq<Call>, orders: seq<Order>)
    requires Replay(reply, log0, orders).Aborted?
    ensures exists j :: FailsFirstAt(reply, log0, orders, j)
    decreases |orders|
  {
    var n := |orders| - 1;
    var init := orders[..n];
    OutcomesOfInit(reply, log0, orders);
    var prev := Replay(reply, log0, init);
    if prev.Aborted? {
      ReplayAborted(reply, log0, init);
      var j :| FailsFirstAt(reply, log0, init, j);
      assert init[..j + 1] == orders[..j + 1];
      assert FailsFirstAt(reply, log0, orders, j);
    } else {
      ReplayCompleted(reply, log0, init);
      TurnMeetsOutcome(reply, prev.results, prev.log, orders[n]);
      assert orders[..n + 1] == orders;
      assert FailsFirstAt(reply, log0, orders, n);
    }
  }

  /** Turn j raised the run's failure, every earlier turn returned, and the
      calls made are those of the orders up to and including j. */
  ghost predicate FailsFirstAt(reply: (seq<Call>, Call) -> Reply, log0: seq<Call>, orders: seq<Order>, j: int)
  {
    && 0 <= j < |orders|
    && (forall i :: 0 <= i < j ==> OutcomeAt(reply, log0, orders, i).Returned?)
    && Replay(reply, log0, orders).Aborted?
    && OutcomeAt(reply, log0, orders, j) == Raised(Replay(reply, log0, orders).failure)
    && Replay(reply, log0, orders).log == log0 + Trace(orders[..j + 1])
  }

  /** Once a prefix of the run has failed, the rest of the orders change nothing. */
  lemma {:induction false} AbortedRunStops(reply: (seq<Call>, Call) -> Reply, log0: seq<Call>, orders: seq<Order>, n: nat)
    requires n <= |orders|
    requires Replay(reply, log0, orders[..n]).Aborted?
    ensures Replay(reply, log0, orders) == Replay(reply, log0, orders[..n])
    decreases |orders| - n
  {
    if n < |orders| {
      var m := |orders| - 1;
      assert orders[..m][..n] == orders[..n];
      AbortedRunStops(reply, log0, orders[..m], n);
    } else {
      assert orders[..n] == orders;
    }
  }

  /** What the `catch` block leaves in the store's information modal. */
  function InfoAfterFailure(e: Failure, prior: InfoMessage): InfoMessage {
    match e
    case AxiosFailure(Some(m)) => ServerMessage(m)
    case AxiosFailure(None) => ErrorOccur
    case OtherFailure => prior
  }

  /** The confirmation component: its props, the store, the bridge and its own
      state (the results and whether the result modal is open). */
  class ProcessConfirmView {
    const orders: seq<Order>
    const store: PackageStore
    const bridge: Bridge
    var processResults: seq<string>
    var isResultModalOpen: bool

    constructor (orders: seq<Order>, store: PackageStore, bridge: Bridge)
      requires |orders| > 0
      ensures this.orders == orders && this.store == store && this.bridge == bridge
      ensures processResults == [] && !isResultModalOpen
    {
      this.orders := orders;
      this.store := store;
      this.bridge := bridge;
      processResults := [];
      isResultModalOpen := false;
    }

    /** `handleProcessPackage`: awaits each order's handler in turn; results are
        stored and the result modal opened only after the last order, and an
        exception leaves the results as they were. */
    method HandleProcessPackage(receivedPackage: seq<Order>)
      modifies this, bridge, store
      ensures
        var run := Replay(bridge.reply, old(bridge.log), receivedPackage);
        && bridge.log == run.log
        && (run.Completed? ==>
              processResults == run.results && isResultModalOpen &&
              store.infoMessage == old(store.infoMessage) &&
              store.isInfoModalOpen == old(store.isInfoModalOpen))
        && (run.Aborted? ==>
              processResults == old(processResults) &&
              isResultModalOpen == old(isResultModalOpen) &&
              store.infoMessage == InfoAfterFailure(run.failure, old(store.infoMessage)) &&
              store.isInfoModalOpen == (old(store.isInfoModalOpen) || run.failure.AxiosFailure?))
      ensures store.orders == old(store.orders) && store.current == old(store.current)
      ensures store.clientStatus == old(store.clientStatus)
    {
      ghost var log0 := bridge.log;
      var results: seq<string> := [];
      var failure: Option<Failure> := None;
      var k := 0;
      while k < |receivedPackage| && failure.None?
        invariant 0 <= k <= |receivedPackage|
        invariant failure.None? ==> Replay(bridge.reply, log0, receivedPackage[..k]) == Completed(results, bridge.log)
        invariant failure.Some? ==> Replay(bridge.reply, log0, receivedPackage[..k]) == Aborted(failure.value, bridge.log)
        modifies bridge
      {
        var order := receivedPackage[k];
        var reply: Reply;
        if order.action == CreateName {
          reply := bridge.Invoke(Call(DownloadFile, order));
        } else if order.action == MoveName {
          reply := bridge.Invoke(Call(MoveFile, order));
        } else if order.action == CopyName {
          reply := bridge.Invoke(Call(ReplicateFile, order));
        } else if order.action == RenameName {
          reply := bridge.Invoke(Call(EditFileName, order));
        } else if order.action == ExecuteName {
          reply := bridge.Invoke(Call(ExecuteFile, order));
        } else if order.action == DeleteName {
          reply := bridge.Invoke(Call(DeleteFile, order));
        } else if order.action == DecompressName {
          reply := bridge.Invoke(Call(UnzipFile, order));
        } else {
          reply := Returned(UnknownActionResult);
        }
        assert receivedPackage[..k + 1][..k] == receivedPackage[..k];
        match reply {
          case Raised(e) =>
            failure := Some(e);
          case Returned(t) =>
            results := results + [t];
        }
        k := k + 1;
      }
      if failure.Some? {
        AbortedRunStops(bridge.reply, log0, receivedPackage, k);
        match failure.value {
          case AxiosFailure(response) =>
            store.SetInfoMessage(if response.Some? then ServerMessage(response.value) else ErrorOccur);
            store.OpenInfoModal();
          case OtherFailure =>
        }
      } else {
        assert receivedPackage[..k] == receivedPackage;
        processResults := results;
        isResultModalOpen := true;
      }
    }
  }
}
