/** The breadth-first model checker as the loop over its queue. */
module Explorer {
  import opened Wrappers
  import opened FixedPoint
  import opened Exploration

  class Results {
    var pass: seq<(nat, seq<Op>)>
    var fail: seq<(nat, Failure)>
    var exit: seq<(nat, Exit)>
    var trap: seq<(nat, string, seq<Op>)>
    var nextPass: nat
    var nextFail: nat
    var nextExit: nat
    var nextTrap: nat

    function View(): Report
      reads this
    {
      Report(pass, fail, exit, trap, nextPass, nextFail, nextExit, nextTrap)
    }

    constructor ()
      ensures View() == NO_RESULTS
    {
      pass, fail, exit, trap := [], [], [], [];
      nextPass, nextFail, nextExit, nextTrap := 1, 1, 1, 1;
    }

    method RecordPass(sequence: seq<Op>)
      modifies this
      ensures View() == Record(old(View()), Passed(sequence), None)
    {
      var id := nextPass;
      nextPass := nextPass + 1;
      pass := pass + [(id, sequence)];
    }

    method RecordErr(failure: Failure, expected: Option<string>)
      modifies this
      ensures View() == Record(old(View()), Broke(failure), expected)
    {
      if expected.Some? && expected.value == failure.reason {
        var id := nextTrap;
        nextTrap := nextTrap + 1;
        trap := trap + [(id, failure.reason, failure.sequence)];
        return;
      }
      var id := nextFail;
      nextFail := nextFail + 1;
      fail := fail + [(id, failure)];
    }

    method RecordExit(e: Exit)
      modifies this
      ensures View() == Record(old(View()), Drift(e), None)
    {
      var id := nextExit;
      nextExit := nextExit + 1;
      exit := exit + [(id, e)];
    }
  }

  // ---------------------------------------------------------------------------
  // The termination measure
  // ---------------------------------------------------------------------------

  function Pow(b: nat, n: nat): (r: nat)
    ensures b > 0 ==> r > 0
  {
    if n == 0 then 1 else b * Pow(b, n - 1)
  }

  /** A state still `n` steps from the depth limit stands for at most this many states to come. */
  function StateWeight<L, M, R>(cfg: Config<L, M, R>, s: State<L, M, R>): nat {
    if |s.trace| <= cfg.maxDepth then Pow(Branching(cfg) + 1, cfg.maxDepth - |s.trace|) else 0
  }

  function Weight<L, M, R>(cfg: Config<L, M, R>, queue: seq<State<L, M, R>>): nat {
    if queue == [] then 0 else Weight(cfg, queue[..|queue| - 1]) + StateWeight(cfg, queue[|queue| - 1])
  }

  lemma {:induction false} WeightPush<L, M, R>(cfg: Config<L, M, R>, queue: seq<State<L, M, R>>, s: State<L, M, R>)
    ensures Weight(cfg, queue + [s]) == Weight(cfg, queue) + StateWeight(cfg, s)
  {
    assert (queue + [s])[..|queue|] == queue;
  }

  lemma {:induction false} WeightPop<L, M, R>(cfg: Config<L, M, R>, queue: seq<State<L, M, R>>)
    requires queue != []
    ensures Weight(cfg, queue) == StateWeight(cfg, queue[0]) + Weight(cfg, queue[1..])
  {
    if |queue| > 1 {
      var front := queue[..|queue| - 1];
      WeightPop(cfg, front);
      assert front[1..] == queue[1..][..|queue| - 2];
    }
  }

  /** All the children of a state weigh less than the state. */
  lemma {:induction false} ChildrenWeighLess<L, M, R>(cfg: Config<L, M, R>, s: State<L, M, R>)
    requires |s.trace| < cfg.maxDepth
    ensures Branching(cfg) * Pow(Branching(cfg) + 1, cfg.maxDepth - |s.trace| - 1) < StateWeight(cfg, s)
  {
    OneMoreTimes(Branching(cfg), Pow(Branching(cfg) + 1, cfg.maxDepth - |s.trace| - 1));
  }

  // ---------------------------------------------------------------------------
  // Drawing a menu
  // ---------------------------------------------------------------------------

  /** A random element, any of them. */
  method Choose(options: seq<nat>) returns (x: nat)
    requires options != []
    ensures x in options
  {
    assert options[0] in options;
    x :| x in options;
  }

  /** A random amount a slot for one user. */
  method DrawForUser<L, M, R>(cfg: Config<L, M, R>, user: nat) returns (ops: seq<Op>)
    ensures |ops| == |cfg.deposits|
    ensures forall i :: 0 <= i < |ops| ==> ops[i].Deposit? && ops[i].user == user && ops[i].amount in cfg.deposits
  {
    ops := [];
    for d := 0 to |cfg.deposits|
      invariant |ops| == d
      invariant forall i :: 0 <= i < |ops| ==> ops[i].Deposit? && ops[i].user == user && ops[i].amount in cfg.deposits
    {
      var amount := Choose(cfg.deposits);
      ops := ops + [Deposit(user, amount)];
    }
  }

  method DrawDeposits<L, M, R>(cfg: Config<L, M, R>) returns (ops: seq<Op>)
    ensures Deposits(cfg, |cfg.users|, ops)
  {
    ops := [];
    for u := 0 to |cfg.users|
      invariant Deposits(cfg, u, ops)
    {
      var drawn := DrawForUser(cfg, cfg.users[u]);
      assert (ops + drawn)[..|ops + drawn| - |cfg.deposits|] == ops;
      ops := ops + drawn;
    }
  }

  method DrawMints<L, M, R>(cfg: Config<L, M, R>) returns (ops: seq<Op>)
    ensures |ops| == |cfg.adjustments|
    ensures forall i :: 0 <= i < |ops| ==> ops[i].Mint? && ops[i].amount in cfg.adjustments
  {
    ops := [];
    for i := 0 to |cfg.adjustments|
      invariant |ops| == i
      invariant forall j :: 0 <= j < |ops| ==> ops[j].Mint? && ops[j].amount in cfg.adjustments
    {
      var amount := Choose(cfg.adjustments);
      ops := ops + [Mint(amount)];
    }
  }

  method DrawReaps<L, M, R>(cfg: Config<L, M, R>) returns (ops: seq<Op>)
    ensures |ops| == |cfg.adjustments|
    ensures forall i :: 0 <= i < |ops| ==> ops[i].Reap? && ops[i].amount in cfg.adjustments
  {
    ops := [];
    for i := 0 to |cfg.adjustments|
      invariant |ops| == i
      invariant forall j :: 0 <= j < |ops| ==> ops[j].Reap? && ops[j].amount in cfg.adjustments
    {
      var amount := Choose(cfg.adjustments);
      ops := ops + [Reap(amount)];
    }
  }

  method DrawMenu<L, M, R>(cfg: Config<L, M, R>) returns (ops: seq<Op>)
    ensures Menu(cfg, ops)
  {
    var deposits := DrawDeposits(cfg);
    var withdrawals: seq<Op> := [];
    for u := 0 to |cfg.users|
      invariant withdrawals == Withdrawals(cfg.users)[..u]
    {
      withdrawals := withdrawals + [Withdraw(cfg.users[u])];
    }
    var mints := DrawMints(cfg);
    var reaps := DrawReaps(cfg);
    ops := deposits + withdrawals + mints + reaps + [Drain];
    assert Composed(cfg, ops, deposits, mints, reaps);
  }

  lemma {:induction false} OneMoreTimes(n: nat, each: nat)
    ensures (n + 1) * each == n * each + each
  {
  }

  lemma {:induction false} DepositsOnMenu<L, M, R>(cfg: Config<L, M, R>, n: nat, ops: seq<Op>)
    requires n <= |cfg.users| && Deposits(cfg, n, ops)
    ensures |ops| == n * |cfg.deposits| && forall i :: 0 <= i < |ops| ==> OnMenu(cfg, ops[i])
  {
    if n > 0 {
      DepositsOnMenu(cfg, n - 1, ops[..|ops| - |cfg.deposits|]);
      OneMoreTimes(n - 1, |cfg.deposits|);
      assert forall i :: 0 <= i < |ops| - |cfg.deposits| ==> ops[i] == ops[..|ops| - |cfg.deposits|][i];
    }
  }

  /** How many operations a menu holds, and that each can be asked for. */
  lemma {:induction false} MenuOnMenu<L, M, R>(cfg: Config<L, M, R>, ops: seq<Op>)
    requires Menu(cfg, ops)
    ensures |ops| == Branching(cfg) && forall i :: 0 <= i < |ops| ==> OnMenu(cfg, ops[i])
  {
    var deposits, mints, reaps :| Composed(cfg, ops, deposits, mints, reaps);
    DepositsOnMenu(cfg, |cfg.users|, deposits);
  }

  // ---------------------------------------------------------------------------
  // One operation
  // ---------------------------------------------------------------------------

  /** Files one event. The report is `base` with all events so far recorded. */
  method Report<L, M, R>(
      cfg: Config<L, M, R>, e: Event, results: Results, ghost base: Exploration.Report, ghost events: seq<Event>)
    requires results.View() == RecordAll(base, events, Expected(cfg))
    modifies results
    ensures results.View() == RecordAll(base, events + [e], Expected(cfg))
  {
    RecordOneMore(base, events, e, Expected(cfg));
    match e
    case Passed(sequence) => results.RecordPass(sequence);
    case Broke(failure) => results.RecordErr(failure, Expected(cfg));
    case Drift(exit) => results.RecordExit(exit);
  }

  ghost predicate CanTry<L, M, R>(cfg: Config<L, M, R>, s: State<L, M, R>, op: Op) {
    Reached(cfg, s) && OnMenu(cfg, op) && Admitted(cfg, s, op)
  }

  /** The event a step that is no success is reported by. */
  function EventOf<L, M, R>(outcome: Outcome<L, M, R>): Event
    requires outcome.Failed? || outcome.Drifted?
  {
    match outcome
    case Failed(failure) => Broke(failure)
    case Drifted(exit) => Drift(exit)
  }

  lemma {:induction false} StepJustifies<L(!new), M(!new), R(!new)>(cfg: Config<L, M, R>, s: State<L, M, R>, op: Op)
    requires CanTry(cfg, s, op) && (Step(cfg, s, op).Failed? || Step(cfg, s, op).Drifted?)
    ensures Justified(cfg, EventOf(Step(cfg, s, op)))
  {
  }

  lemma {:induction false} ViolationJustifies<L(!new), M(!new), R(!new)>(cfg: Config<L, M, R>, s: State<L, M, R>)
    requires Reached(cfg, s) && cfg.violation(s).Some?
    ensures Justified(cfg, Broke(Failure(cfg.violation(s).value, s.trace)))
  {
  }

  lemma {:induction false} PassJustifies<L(!new), M(!new), R(!new)>(cfg: Config<L, M, R>, s: State<L, M, R>)
    requires Reached(cfg, s) && cfg.violation(s).None? && |s.trace| == cfg.maxDepth
    ensures Justified(cfg, Passed(s.trace))
  {
  }

  ghost predicate AllJustified<L(!new), M(!new), R(!new)>(cfg: Config<L, M, R>, events: seq<Event>) {
    forall e :: e in events ==> Justified(cfg, e)
  }

  lemma {:induction false} OneMoreJustified<L(!new), M(!new), R(!new)>(
      cfg: Config<L, M, R>, events: seq<Event>, e: Event)
    requires AllJustified(cfg, events) && Justified(cfg, e)
    ensures AllJustified(cfg, events + [e])
  {
  }

  /** What a tried operation leaves: its success as a child, or its event in the report. */
  ghost predicate Tried<L, M, R>(
      outcome: Outcome<L, M, R>, child: Option<State<L, M, R>>, events: seq<Event>, events': seq<Event>)
  {
    match outcome
    case Next(s') => child == Some(s') && events' == events
    case Stopped => child == None && events' == events
    case _ => child == None && events' == events + [EventOf(outcome)]
  }

  /** Takes one admitted step in both models and reports it unless it succeeds. */
  method TryOne<L, M, R>(
      cfg: Config<L, M, R>, s: State<L, M, R>, op: Op, results: Results,
      ghost base: Exploration.Report, ghost events: seq<Event>)
      returns (child: Option<State<L, M, R>>, stopped: bool, ghost events': seq<Event>)
    requires results.View() == RecordAll(base, events, Expected(cfg))
    modifies results
    ensures results.View() == RecordAll(base, events', Expected(cfg))
    ensures stopped == Step(cfg, s, op).Stopped?
    ensures Tried(Step(cfg, s, op), child, events, events')
  {
    child, stopped, events' := None, false, events;
    var outcome := Step(cfg, s, op);
    match outcome
    case Next(s') => child := Some(s');
    case Stopped => stopped := true;
    case _ =>
      Report(cfg, EventOf(outcome), results, base, events);
      events' := events + [EventOf(outcome)];
  }

  ghost predicate Children<L, M, R>(cfg: Config<L, M, R>, s: State<L, M, R>, children: seq<State<L, M, R>>) {
    forall i :: 0 <= i < |children| ==> Reached(cfg, children[i]) && |children[i].trace| == |s.trace| + 1
  }

  function Append<T>(s: seq<T>, x: Option<T>): seq<T> {
    if x.Some? then s + [x.value] else s
  }

  /** Trying one operation keeps everything that was kept, and accounts for it. */
  lemma {:induction false} TriedStep<L(!new), M(!new), R(!new)>(
      cfg: Config<L, M, R>, s: State<L, M, R>, op: Op, children: seq<State<L, M, R>>,
      child: Option<State<L, M, R>>, events: seq<Event>, events': seq<Event>)
    requires CanTry(cfg, s, op) && Children(cfg, s, children) && AllJustified(cfg, events)
    requires Tried(Step(cfg, s, op), child, events, events')
    ensures Children(cfg, s, Append(children, child)) && AllJustified(cfg, events')
    ensures !Step(cfg, s, op).Stopped? ==>
              Accounted(cfg, s, op, (set c | c in Append(children, child)), events')
  {
    match Step(cfg, s, op)
    case Next(s') => ReachedStep(cfg, s, op, s');
    case Stopped =>
    case _ =>
      StepJustifies(cfg, s, op);
      OneMoreJustified(cfg, events, EventOf(Step(cfg, s, op)));
  }

  /** What is accounted for stays so as states and events are added. */
  lemma {:induction false} StillAccounted<L(!new), M(!new), R(!new)>(
      cfg: Config<L, M, R>, s: State<L, M, R>, ops: seq<Op>,
      known: set<State<L, M, R>>, more: set<State<L, M, R>>, events: seq<Event>, events': seq<Event>)
    requires AllAccounted(cfg, s, ops, known, events) && known <= more && events <= events'
    ensures AllAccounted(cfg, s, ops, more, events')
  {
    assert forall e :: e in events ==> e in events';
    forall op | op in ops
      ensures Accounted(cfg, s, op, more, events')
    {
      assert Accounted(cfg, s, op, known, events);
    }
  }

  lemma {:induction false} OneMoreAccounted<L(!new), M(!new), R(!new)>(
      cfg: Config<L, M, R>, s: State<L, M, R>, ops: seq<Op>, i: nat,
      known: set<State<L, M, R>>, more: set<State<L, M, R>>, events: seq<Event>, events': seq<Event>)
    requires i < |ops| && AllAccounted(cfg, s, ops[..i], known, events) && known <= more && events <= events'
    requires Accounted(cfg, s, ops[i], more, events')
    ensures AllAccounted(cfg, s, ops[..i + 1], more, events')
  {
    StillAccounted(cfg, s, ops[..i], known, more, events, events');
    assert ops[..i + 1] == ops[..i] + [ops[i]];
  }

  /** The arithmetic of the guard, or of an admitted step, overflows. */
  ghost predicate StopsAt<L, M, R>(cfg: Config<L, M, R>, s: State<L, M, R>, op: Op) {
    && Reached(cfg, s) && OnMenu(cfg, op)
    && (Admission(cfg, s, op).None? || (Admitted(cfg, s, op) && Step(cfg, s, op).Stopped?))
  }

  /** Tries every admitted operation of a menu, until one stops the program. */
  method Expand<L(!new), M(!new), R(!new)>(
      cfg: Config<L, M, R>, s: State<L, M, R>, ops: seq<Op>, results: Results,
      ghost base: Exploration.Report, ghost events: seq<Event>)
      returns (children: seq<State<L, M, R>>, stopped: bool, ghost events': seq<Event>)
    requires Reached(cfg, s) && (forall i :: 0 <= i < |ops| ==> OnMenu(cfg, ops[i])) && AllJustified(cfg, events)
    requires results.View() == RecordAll(base, events, Expected(cfg))
    modifies results
    ensures results.View() == RecordAll(base, events', Expected(cfg))
    ensures events <= events' && AllJustified(cfg, events')
    ensures |children| <= |ops| && Children(cfg, s, children)
    ensures stopped ==> exists op :: op in ops && StopsAt(cfg, s, op)
    ensures !stopped ==> AllAccounted(cfg, s, ops, (set c | c in children), events')
  {
    children, stopped, events' := [], false, events;
    for i := 0 to |ops|
      invariant results.View() == RecordAll(base, events', Expected(cfg))
      invariant events <= events' && AllJustified(cfg, events')
      invariant |children| <= i && Children(cfg, s, children)
      invariant AllAccounted(cfg, s, ops[..i], (set c | c in children), events')
    {
      var op := ops[i];
      ghost var before, known := events', set c | c in children;
      var admission := Admission(cfg, s, op);
      if admission.None? {
        assert op in ops && StopsAt(cfg, s, op);
        stopped := true;
        return;
      }
      if admission.value {
        var child;
        ghost var had := children;
        child, stopped, events' := TryOne(cfg, s, op, results, base, events');
        TriedStep(cfg, s, op, had, child, before, events');
        if stopped {
          assert op in ops && StopsAt(cfg, s, op);
          return;
        }
        children := Append(children, child);
      }
      OneMoreAccounted(cfg, s, ops, i, known, (set c | c in children), before, events');
    }
    assert ops[..|ops|] == ops;
  }

  // ---------------------------------------------------------------------------
  // One state
  // ---------------------------------------------------------------------------

  ghost predicate Marks<L, M, R>(cfg: Config<L, M, R>, visited: set<nat>, log: seq<Visit<L, M, R>>) {
    forall h :: h in visited <==> Met(cfg, log, h)
  }

  /** The hashes one more visit adds. */
  lemma {:induction false} MetByOneMore<L, M, R>(
      cfg: Config<L, M, R>, log: seq<Visit<L, M, R>>, v: Visit<L, M, R>, h: nat)
    ensures Met(cfg, log + [v], h) <==>
              || Met(cfg, log, h)
              || cfg.hash(v.state) == h
              || (cfg.hasher.Some? && v.menu.Some? && cfg.hasher.value(v.state) == h)
  {
    var longer := log + [v];
    assert longer[|log|] == v;
    assert forall i :: 0 <= i < |log| ==> longer[i] == log[i];
  }

  lemma {:induction false} MarksOneMore<L, M, R>(
      cfg: Config<L, M, R>, visited: set<nat>, visited': set<nat>, log: seq<Visit<L, M, R>>, v: Visit<L, M, R>)
    requires Marks(cfg, visited, log)
    requires visited' == visited + {cfg.hash(v.state)} +
                         if cfg.hasher.Some? && v.menu.Some? then {cfg.hasher.value(v.state)} else {}
    ensures Marks(cfg, visited', log + [v])
  {
    forall h
      ensures h in visited' <==> Met(cfg, log + [v], h)
    {
      MetByOneMore(cfg, log, v, h);
    }
  }

  /** A state that is tested at all. */
  predicate Tested<L, M, R>(cfg: Config<L, M, R>, s: State<L, M, R>) {
    cfg.violation(s).None? && |s.trace| != cfg.maxDepth
  }

  /** The log of visits gains the state just handled, if it was tested; only a state that passed has children. */
  ghost predicate Logged<L(!new), M(!new), R(!new)>(
      cfg: Config<L, M, R>, s: State<L, M, R>, children: seq<State<L, M, R>>, stopped: bool, events: seq<Event>,
      log: seq<Visit<L, M, R>>, log': seq<Visit<L, M, R>>)
  {
    if !Tested(cfg, s) then log' == log && children == [] && !stopped
    else
      && |log'| == |log| + 1 && log'[..|log|] == log && log'[|log|].state == s
      && match log'[|log|].menu
         case None => Repeats(cfg, log, s) && children == [] && !stopped
         case Some(menu) =>
           && !Repeats(cfg, log, s)
           && Menu(cfg, menu)
           && (!stopped ==> AllAccounted(cfg, s, menu, (set c | c in children), events))
  }

  /** Tests a state by its hashes and expands it unless they repeat earlier ones. */
  method VisitState<L(!new), M(!new), R(!new)>(
      cfg: Config<L, M, R>, s: State<L, M, R>, visited: set<nat>, results: Results,
      ghost base: Exploration.Report, ghost events: seq<Event>, ghost log: seq<Visit<L, M, R>>)
      returns (children: seq<State<L, M, R>>, visited': set<nat>, stopped: bool,
               ghost events': seq<Event>, ghost log': seq<Visit<L, M, R>>)
    requires Reached(cfg, s) && Tested(cfg, s) && AllJustified(cfg, events)
    requires results.View() == RecordAll(base, events, Expected(cfg))
    requires Marks(cfg, visited, log)
    modifies results
    ensures results.View() == RecordAll(base, events', Expected(cfg))
    ensures events <= events' && AllJustified(cfg, events')
    ensures Marks(cfg, visited', log')
    ensures |children| <= Branching(cfg) && Children(cfg, s, children)
    ensures Logged(cfg, s, children, stopped, events', log, log')
    ensures stopped ==> exists op :: StopsAt(cfg, s, op)
  {
    children, visited', stopped, events' := [], visited, false, events;
    log' := log + [Visit(s, None)];
    if cfg.hash(s) in visited {
      MarksOneMore(cfg, visited, visited, log, Visit(s, None));
      return;
    }
    visited' := visited + {cfg.hash(s)};
    if cfg.hasher.Some? {
      var second := cfg.hasher.value(s);
      if second in visited' {
        MarksOneMore(cfg, visited, visited', log, Visit(s, None));
        return;
      }
      visited' := visited' + {second};
    }
    var menu := DrawMenu(cfg);
    MenuOnMenu(cfg, menu);
    log' := log + [Visit(s, Some(menu))];
    MarksOneMore(cfg, visited, visited', log, Visit(s, Some(menu)));
    children, stopped, events' := Expand(cfg, s, menu, results, base, events);
  }

  lemma {:induction false} LoggedIsHandled<L(!new), M(!new), R(!new)>(
      cfg: Config<L, M, R>, s: State<L, M, R>, children: seq<State<L, M, R>>, stopped: bool, events: seq<Event>,
      log: seq<Visit<L, M, R>>, log': seq<Visit<L, M, R>>)
    requires Tested(cfg, s) && Logged(cfg, s, children, stopped, events, log, log')
    ensures Handled(cfg, s, log', events)
  {
    assert log'[|log|].state == s;
  }

  /** Handles one state taken from the queue: reports it, prunes it, or expands it. */
  method Process<L(!new), M(!new), R(!new)>(
      cfg: Config<L, M, R>, s: State<L, M, R>, visited: set<nat>, results: Results,
      ghost base: Exploration.Report, ghost events: seq<Event>, ghost log: seq<Visit<L, M, R>>)
      returns (children: seq<State<L, M, R>>, visited': set<nat>, stopped: bool,
               ghost events': seq<Event>, ghost log': seq<Visit<L, M, R>>)
    requires Reached(cfg, s) && |s.trace| <= cfg.maxDepth && AllJustified(cfg, events)
    requires results.View() == RecordAll(base, events, Expected(cfg))
    requires Marks(cfg, visited, log)
    modifies results
    ensures results.View() == RecordAll(base, events', Expected(cfg))
    ensures events <= events' && AllJustified(cfg, events')
    ensures Marks(cfg, visited', log')
    ensures |children| <= Branching(cfg) && Children(cfg, s, children)
    ensures Logged(cfg, s, children, stopped, events', log, log')
    ensures Handled(cfg, s, log', events')
    ensures stopped ==> exists op :: StopsAt(cfg, s, op)
  {
    children, visited', stopped, events', log' := [], visited, false, events, log;
    var violation := cfg.violation(s);
    if violation.Some? {
      var failure := Failure(violation.value, s.trace);
      Report(cfg, Broke(failure), results, base, events);
      ViolationJustifies(cfg, s);
      OneMoreJustified(cfg, events, Broke(failure));
      events' := events + [Broke(failure)];
      return;
    }
    if |s.trace| == cfg.maxDepth {
      Report(cfg, Passed(s.trace), results, base, events);
      PassJustifies(cfg, s);
      OneMoreJustified(cfg, events, Passed(s.trace));
      events' := events + [Passed(s.trace)];
      return;
    }
    children, visited', stopped, events', log' := VisitState(cfg, s, visited, results, base, events, log);
    LoggedIsHandled(cfg, s, children, stopped, events', log, log');
  }

  // ---------------------------------------------------------------------------
  // The queue
  // ---------------------------------------------------------------------------

  lemma {:induction false} WeightAppend<L, M, R>(
      cfg: Config<L, M, R>, queue: seq<State<L, M, R>>, more: seq<State<L, M, R>>, each: nat)
    requires forall s :: s in more ==> StateWeight(cfg, s) == each
    ensures Weight(cfg, queue + more) == Weight(cfg, queue) + |more| * each
  {
    if more == [] {
      assert queue + more == queue;
    } else {
      var front, last := more[..|more| - 1], more[|more| - 1];
      WeightAppend(cfg, queue, front, each);
      assert queue + more == (queue + front) + [last];
      WeightPush(cfg, queue + front, last);
      OneMoreTimes(|front|, each);
    }
  }

  /** Replacing a state by its children makes the queue lighter. */
  lemma {:induction false} ExpansionShrinks<L, M, R>(
      cfg: Config<L, M, R>, s: State<L, M, R>, queue: seq<State<L, M, R>>, children: seq<State<L, M, R>>)
    requires |s.trace| < cfg.maxDepth && |children| <= Branching(cfg) && Children(cfg, s, children)
    ensures Weight(cfg, queue + children) < StateWeight(cfg, s) + Weight(cfg, queue)
  {
    var each := Pow(Branching(cfg) + 1, cfg.maxDepth - |s.trace| - 1);
    WeightAppend(cfg, queue, children, each);
    ChildrenWeighLess(cfg, s);
    MulMono(|children|, Branching(cfg), each);
  }

  /** The states still to come: reached, within the depth limit, shorter ones first, at most one step apart. */
  ghost predicate Pending<L, M, R>(cfg: Config<L, M, R>, queue: seq<State<L, M, R>>) {
    && (forall i :: 0 <= i < |queue| ==> Reached(cfg, queue[i]) && |queue[i].trace| <= cfg.maxDepth)
    && (forall i, j :: 0 <= i <= j < |queue| ==> |queue[i].trace| <= |queue[j].trace| <= |queue[i].trace| + 1)
  }

  lemma {:induction false} StillPending<L, M, R>(
      cfg: Config<L, M, R>, queue: seq<State<L, M, R>>, children: seq<State<L, M, R>>)
    requires queue != [] && Pending(cfg, queue) && Children(cfg, queue[0], children)
    requires children != [] ==> |queue[0].trace| < cfg.maxDepth
    ensures Pending(cfg, queue[1..] + children)
  {
  }

  /** The visits come in the order of their depth, none deeper than what is still to come. */
  ghost predicate BreadthFirst<L, M, R>(log: seq<Visit<L, M, R>>, queue: seq<State<L, M, R>>) {
    && (forall i, j :: 0 <= i <= j < |log| ==> |log[i].state.trace| <= |log[j].state.trace|)
    && (forall i, j :: 0 <= i < |log| && 0 <= j < |queue| ==> |log[i].state.trace| <= |queue[j].trace|)
  }

  lemma {:induction false} StillBreadthFirst<L(!new), M(!new), R(!new)>(
      cfg: Config<L, M, R>, queue: seq<State<L, M, R>>, children: seq<State<L, M, R>>, stopped: bool,
      events: seq<Event>, log: seq<Visit<L, M, R>>, log': seq<Visit<L, M, R>>)
    requires queue != [] && Pending(cfg, queue) && BreadthFirst(log, queue)
    requires Children(cfg, queue[0], children) && Logged(cfg, queue[0], children, stopped, events, log, log')
    ensures BreadthFirst(log', queue[1..] + children)
  {
    assert forall i :: 0 <= i < |log| ==> log'[i] == log[i];
  }

  /**
   How the start state fares decides whether anything is explored: it is reported, or pruned
   and the queue is empty, or the first to be expanded.
   */
  ghost predicate Begun<L, M, R>(cfg: Config<L, M, R>, queue: seq<State<L, M, R>>, log: seq<Visit<L, M, R>>) {
    if log == [] then queue == [Start(cfg)] || (queue == [] && !Tested(cfg, Start(cfg)))
    else
      && Tested(cfg, Start(cfg)) && log[0].state == Start(cfg)
      && (log[0].menu.None? ==> queue == [] && |log| == 1)
  }

  lemma {:induction false} StillBegun<L(!new), M(!new), R(!new)>(
      cfg: Config<L, M, R>, queue: seq<State<L, M, R>>, children: seq<State<L, M, R>>, stopped: bool,
      events: seq<Event>, log: seq<Visit<L, M, R>>, log': seq<Visit<L, M, R>>)
    requires queue != [] && Begun(cfg, queue, log) && Logged(cfg, queue[0], children, stopped, events, log, log')
    ensures Begun(cfg, queue[1..] + children, log')
    ensures stopped ==> log' != []
  {
    if log != [] {
      assert log'[..|log|][0] == log[0];
    }
  }

  lemma {:induction false} StillPruned<L(!new), M(!new), R(!new)>(
      cfg: Config<L, M, R>, s: State<L, M, R>, children: seq<State<L, M, R>>, stopped: bool, events: seq<Event>,
      log: seq<Visit<L, M, R>>, log': seq<Visit<L, M, R>>)
    requires Pruned(cfg, log) && Logged(cfg, s, children, stopped, events, log, log')
    ensures Pruned(cfg, log')
  {
    forall i | 0 <= i < |log'|
      ensures log'[i].menu.None? <==> Repeats(cfg, log'[..i], log'[i].state)
    {
      if i < |log| {
        assert log'[i] == log[i] && log'[..i] == log[..i];
      }
    }
  }

  lemma {:induction false} StillComplete<L(!new), M(!new), R(!new)>(
      cfg: Config<L, M, R>, s: State<L, M, R>, children: seq<State<L, M, R>>,
      log: seq<Visit<L, M, R>>, log': seq<Visit<L, M, R>>,
      known: set<State<L, M, R>>, events: seq<Event>, events': seq<Event>)
    requires Complete(cfg, log, known, events) && events <= events'
    requires Logged(cfg, s, children, false, events', log, log')
    ensures Complete(cfg, log', known + (set c | c in children), events')
  {
    var more := known + (set c | c in children);
    forall i | 0 <= i < |log'| && log'[i].menu.Some?
      ensures Menu(cfg, log'[i].menu.value) && AllAccounted(cfg, log'[i].state, log'[i].menu.value, more, events')
    {
      if i < |log| {
        assert log'[i] == log[i];
        StillAccounted(cfg, log[i].state, log[i].menu.value, known, more, events, events');
      } else {
        StillAccounted(cfg, s, log'[i].menu.value, (set c | c in children), more, events', events');
      }
    }
  }

  lemma {:induction false} StillHandled<L(!new), M(!new), R(!new)>(
      cfg: Config<L, M, R>, s: State<L, M, R>, handled: State<L, M, R>, children: seq<State<L, M, R>>, stopped: bool,
      log: seq<Visit<L, M, R>>, log': seq<Visit<L, M, R>>, events: seq<Event>, events': seq<Event>)
    requires Handled(cfg, handled, log, events) && events <= events'
    requires Logged(cfg, s, children, stopped, events', log, log')
    ensures Handled(cfg, handled, log', events')
  {
    assert forall e :: e in events ==> e in events';
    if i :| 0 <= i < |log| && log[i].state == handled {
      assert log'[i] == log[i];
    }
  }

  /** Every known state is reached within the depth limit, and is handled or still to come. */
  ghost predicate Covered<L(!new), M(!new), R(!new)>(
      cfg: Config<L, M, R>, known: set<State<L, M, R>>, queue: seq<State<L, M, R>>,
      log: seq<Visit<L, M, R>>, events: seq<Event>)
  {
    forall s :: s in known ==>
      && Reached(cfg, s) && |s.trace| <= cfg.maxDepth
      && (s in queue || Handled(cfg, s, log, events))
  }

  lemma {:induction false} StillCovered<L(!new), M(!new), R(!new)>(
      cfg: Config<L, M, R>, known: set<State<L, M, R>>, queue: seq<State<L, M, R>>, children: seq<State<L, M, R>>,
      stopped: bool, log: seq<Visit<L, M, R>>, log': seq<Visit<L, M, R>>, events: seq<Event>, events': seq<Event>)
    requires queue != [] && Covered(cfg, known, queue, log, events) && events <= events'
    requires Logged(cfg, queue[0], children, stopped, events', log, log') && Handled(cfg, queue[0], log', events')
    requires Children(cfg, queue[0], children) && (children != [] ==> |queue[0].trace| < cfg.maxDepth)
    ensures Covered(cfg, known + (set c | c in children), queue[1..] + children, log', events')
  {
    forall s | s in known + (set c | c in children)
      ensures && Reached(cfg, s) && |s.trace| <= cfg.maxDepth
              && (s in queue[1..] + children || Handled(cfg, s, log', events'))
    {
      if s in known && s != queue[0] && s !in queue[1..] {
        StillHandled(cfg, queue[0], s, children, stopped, log, log', events, events');
      }
    }
  }

  ghost predicate NothingExpanded<L, M, R>(log: seq<Visit<L, M, R>>) {
    forall i :: 0 <= i < |log| ==> log[i].menu.None?
  }

  /** The start state breaks the invariant, is already deep enough, or hashes twice to the same. */
  predicate NothingToExpand<L, M, R>(cfg: Config<L, M, R>) {
    || cfg.violation(Start(cfg)).Some?
    || cfg.maxDepth == 0
    || (cfg.hasher.Some? && cfg.hasher.value(Start(cfg)) == cfg.hash(Start(cfg)))
  }

  /** Giving the first hasher again as the second one explores nothing. */
  lemma {:induction false} RepeatedHasherExpandsNothing<L, M, R>(cfg: Config<L, M, R>, log: seq<Visit<L, M, R>>)
    requires Explored(cfg, log) && cfg.hasher == Some(cfg.hash)
    ensures NothingExpanded(log)
  {
  }

  lemma {:induction false} NothingExpandedIff<L, M, R>(
      cfg: Config<L, M, R>, queue: seq<State<L, M, R>>, log: seq<Visit<L, M, R>>)
    requires Begun(cfg, queue, log) && Pruned(cfg, log) && (log == [] ==> queue == [])
    ensures NothingExpanded(log) <==> NothingToExpand(cfg)
  {
    if log != [] {
      assert log[..0] == [];
      assert log[0].menu.None? <==> Repeats(cfg, [], Start(cfg));
    }
  }

  /** What holds of the queue, the log and the events between two states. */
  ghost predicate Exploring<L(!new), M(!new), R(!new)>(
      cfg: Config<L, M, R>, queue: seq<State<L, M, R>>, known: set<State<L, M, R>>,
      log: seq<Visit<L, M, R>>, events: seq<Event>)
  {
    && Pending(cfg, queue) && BreadthFirst(log, queue) && Begun(cfg, queue, log) && Pruned(cfg, log)
    && Start(cfg) in known && Covered(cfg, known, queue, log, events) && Complete(cfg, log, known, events)
  }

  lemma {:induction false} StartsExploring<L(!new), M(!new), R(!new)>(cfg: Config<L, M, R>)
    ensures Exploring(cfg, [Start(cfg)], {Start(cfg)}, [], [])
  {
    assert Replay(cfg, []) == Some(Start(cfg));
  }

  lemma {:induction false} StillExploring<L(!new), M(!new), R(!new)>(
      cfg: Config<L, M, R>, queue: seq<State<L, M, R>>, children: seq<State<L, M, R>>, known: set<State<L, M, R>>,
      log: seq<Visit<L, M, R>>, log': seq<Visit<L, M, R>>, events: seq<Event>, events': seq<Event>)
    requires queue != [] && Exploring(cfg, queue, known, log, events) && events <= events'
    requires Children(cfg, queue[0], children) && Handled(cfg, queue[0], log', events')
    requires Logged(cfg, queue[0], children, false, events', log, log')
    ensures Exploring(cfg, queue[1..] + children, known + (set c | c in children), log', events')
  {
    StillBreadthFirst(cfg, queue, children, false, events', log, log');
    StillBegun(cfg, queue, children, false, events', log, log');
    StillPruned(cfg, queue[0], children, false, events', log, log');
    StillPending(cfg, queue, children);
    StillComplete(cfg, queue[0], children, log, log', known, events, events');
    StillCovered(cfg, known, queue, children, false, log, log', events, events');
  }

  /** What is known of the visits when the exploration ends, by itself or because it is stopped. */
  ghost predicate Explored<L, M, R>(cfg: Config<L, M, R>, log: seq<Visit<L, M, R>>) {
    && BreadthFirst(log, [])
    && Pruned(cfg, log)
    && (NothingExpanded(log) <==> NothingToExpand(cfg))
  }

  lemma {:induction false} StoppedExploring<L(!new), M(!new), R(!new)>(
      cfg: Config<L, M, R>, queue: seq<State<L, M, R>>, children: seq<State<L, M, R>>, known: set<State<L, M, R>>,
      log: seq<Visit<L, M, R>>, log': seq<Visit<L, M, R>>, events: seq<Event>, events': seq<Event>)
    requires queue != [] && Exploring(cfg, queue, known, log, events) && Children(cfg, queue[0], children)
    requires Logged(cfg, queue[0], children, true, events', log, log')
    ensures Explored(cfg, log')
  {
    StillBreadthFirst(cfg, queue, children, true, events', log, log');
    StillBegun(cfg, queue, children, true, events', log, log');
    StillPruned(cfg, queue[0], children, true, events', log, log');
    NothingExpandedIff(cfg, queue[1..] + children, log');
  }

  lemma {:induction false} DoneExploring<L(!new), M(!new), R(!new)>(
      cfg: Config<L, M, R>, known: set<State<L, M, R>>, log: seq<Visit<L, M, R>>, events: seq<Event>)
    requires Exploring(cfg, [], known, log, events)
    ensures Explored(cfg, log)
  {
    NothingExpandedIff(cfg, [], log);
  }

  /** One more state handled leaves a lighter queue, or as light a queue that is shorter. */
  lemma {:induction false} QueueShrinks<L, M, R>(
      cfg: Config<L, M, R>, queue: seq<State<L, M, R>>, children: seq<State<L, M, R>>)
    requires queue != [] && Children(cfg, queue[0], children) && |children| <= Branching(cfg)
    requires children != [] ==> |queue[0].trace| < cfg.maxDepth
    ensures var queue' := queue[1..] + children;
            || Weight(cfg, queue') < Weight(cfg, queue)
            || (Weight(cfg, queue') <= Weight(cfg, queue) && |queue'| < |queue|)
  {
    WeightPop(cfg, queue);
    if children == [] {
      assert queue[1..] + children == queue[1..];
    } else {
      ExpansionShrinks(cfg, queue[0], queue[1..], children);
    }
  }

  /**
   Breadth-first exploration. It terminates for any draws. Every event reports an admitted run,
   and the report holds exactly the events. The visits come in the order of their depth, and a
   state is pruned exactly when its hashes repeat those of earlier visits. Nothing is expanded
   exactly when the start state breaks the invariant, is deep enough, or gets the same hash from
   both hashers. Unless the arithmetic of the manual model or of a comparison stops it, every known
   state is handled, and every one that passed the hash test has left each admitted operation of a
   whole menu as a known state or an event.
   */
  method Explore<L(!new), M(!new), R(!new)>(cfg: Config<L, M, R>, results: Results)
      returns (stopped: bool, ghost events: seq<Event>, ghost known: set<State<L, M, R>>,
               ghost log: seq<Visit<L, M, R>>)
    modifies results
    ensures results.View() == RecordAll(old(results.View()), events, Expected(cfg))
    ensures AllJustified(cfg, events)
    ensures Explored(cfg, log)
    ensures stopped ==> exists s, op :: StopsAt(cfg, s, op)
    ensures !stopped ==> Start(cfg) in known && Covered(cfg, known, [], log, events)
    ensures !stopped ==> Complete(cfg, log, known, events)
  {
    ghost var base := results.View();
    var queue := [Start(cfg)];
    var visited: set<nat> := {};
    stopped, events, known, log := false, [], {Start(cfg)}, [];
    StartsExploring(cfg);
    while queue != []
      invariant results.View() == RecordAll(base, events, Expected(cfg))
      invariant AllJustified(cfg, events) && Marks(cfg, visited, log)
      invariant Exploring(cfg, queue, known, log, events)
      decreases Weight(cfg, queue), |queue|
    {
      var state := queue[0];
      ghost var before, had := log, events;
      var children;
      children, visited, stopped, events, log := Process(cfg, state, visited, results, base, events, log);
      if stopped {
        StoppedExploring(cfg, queue, children, known, before, log, had, events);
        return;
      }
      QueueShrinks(cfg, queue, children);
      StillExploring(cfg, queue, children, known, before, log, had, events);
      queue := queue[1..] + children;
      known := known + (set c | c in children);
    }
    DoneExploring(cfg, known, log, events);
  }
}
