/** Call counting over whole runs: conservation for every interleaving, with and without losses. */
module CallRuns {
  import opened CallCounting

  lemma {:induction false} TotalConcat(a: seq<Counts>, b: seq<Counts>, k: Key)
    ensures Total(a + b, k) == Total(a, k) + Total(b, k)
  {
    if a == [] {
      assert a + b == b;
    } else {
      assert (a + b)[1..] == a[1..] + b;
      TotalConcat(a[1..], b, k);
    }
  }

  lemma TotalAdd(cs: seq<Counts>, c: Counts, k: Key)
    ensures Total(cs + [c], k) == Total(cs, k) + At(c, k)
  {
    TotalConcat(cs, [c], k);
    assert [c][1..] == [];
  }

  lemma TotalTake(cs: seq<Counts>, i: int, k: Key)
    requires 0 <= i < |cs|
    ensures Total(cs[..i] + cs[i + 1..], k) == Total(cs, k) - At(cs[i], k)
  {
    assert cs == cs[..i] + ([cs[i]] + cs[i + 1..]);
    TotalConcat(cs[..i], [cs[i]] + cs[i + 1..], k);
    TotalConcat(cs[..i], cs[i + 1..], k);
    assert ([cs[i]] + cs[i + 1..])[1..] == cs[i + 1..];
  }

  // ----- conservation ----------------------------------------------------------------------

  function Counters(ws: seq<Worker>): (r: seq<Counts>)
    ensures |r| == |ws| && forall i :: 0 <= i < |ws| ==> r[i] == ws[i].counter
  {
    seq(|ws|, i requires 0 <= i < |ws| => ws[i].counter)
  }

  /** Counts of one key that are still somewhere on the way to monitor `m`, or there. */
  function Held(s: System, k: Key): int {
    Total(Counters(s.workers), k)
  }

  function InFlight(s: System, m: int, k: Key): int
    requires 0 <= m < |s.monitors|
  {
    Total(s.toClient, k) + Total(s.toTopic, k) + Total(s.monitors[m].inbox, k)
  }

  function Delivered(s: System, m: int, k: Key): int
    requires 0 <= m < |s.monitors|
  {
    Total(s.monitors[m].received, k)
  }

  function Gone(s: System, m: int, k: Key): int
    requires 0 <= m < |s.lostCopies|
  {
    Total(s.lost, k) + Total(s.lostCopies[m], k)
  }

  /** Every handled call is held, in flight, delivered or lost; nothing is counted twice. */
  ghost predicate Balanced(s: System, m: int, k: Key) {
    && 0 <= m < |s.monitors| == |s.lostCopies|
    && At(s.handled, k) == Held(s, k) + InFlight(s, m, k) + Delivered(s, m, k) + Gone(s, m, k)
  }

  lemma CountersUpdate(ws: seq<Worker>, i: int, w: Worker, k: Key)
    requires 0 <= i < |ws|
    ensures Total(Counters(ws[i := w]), k) == Total(Counters(ws), k) - At(ws[i].counter, k) + At(w.counter, k)
  {
    var a, b := Counters(ws), Counters(ws[i := w]);
    TotalTake(a, i, k);
    TotalTake(b, i, k);
    assert a[..i] + a[i + 1..] == b[..i] + b[i + 1..];
  }

  lemma RestartBalances(s: System, i: int, m: int, k: Key)
    requires 0 <= i < |s.workers| && Balanced(s, m, k)
    ensures Balanced(RestartWorker(s, i), m, k)
  {
    CountersUpdate(s.workers, i, s.workers[i].(counter := map[]), k);
    TotalAdd(s.lost, s.workers[i].counter, k);
  }

  lemma HandleBalances(s: System, i: int, m: int, k: Key)
    requires Enabled(s, Handle(i)) && Balanced(s, m, k)
    ensures Balanced(HandleNext(s, i), m, k)
  {
    AloneBalances(s, i, m, k);
    if 0 <= Sibling(i) < |s.workers| {
      RestartBalances(HandleAlone(s, i), Sibling(i), m, k);
    }
  }

  lemma AloneBalances(s: System, i: int, m: int, k: Key)
    requires Enabled(s, Handle(i)) && Balanced(s, m, k)
    ensures Balanced(HandleAlone(s, i), m, k)
  {
    var t, w := HandleAlone(s, i), s.workers[i];
    var eff := Receive(w, w.mailbox[0]);
    CountersUpdate(s.workers, i, Worker(w.service, eff.counter, w.mailbox[1..]), k);
    TotalAdd(s.lost, eff.lost, k);
    if eff.report.Some? {
      TotalAdd(s.toClient, eff.report.value, k);
    }
  }

  lemma PoolBalances(s: System, e: Event, m: int, k: Key)
    requires Enabled(s, e) && Balanced(s, m, k) && (e.Provide? || e.Send? || e.Alarm? || e.Crash?)
    ensures Balanced(Step(s, e), m, k)
  {
    match e
    case Provide(_, _) =>
      var idle: seq<Counts> := [map[], map[]];
      assert Counters(Step(s, e).workers) == Counters(s.workers) + idle;
      TotalConcat(Counters(s.workers), idle, k);
      assert Total(idle[1..], k) == At(idle[1], k) + Total(idle[1..][1..], k) == 0;
    case Send(pool, name, fails) =>
      var w := 2 * pool + s.turn[pool];
      CountersUpdate(s.workers, w, Enqueue(s.workers[w], Call(name, fails)), k);
    case Alarm(w) => CountersUpdate(s.workers, w, Enqueue(s.workers[w], Tick), k);
    case Crash(w) => RestartBalances(s, w, m, k);
  }

  lemma {:induction false} ReportBalances(s: System, e: Event, m: int, k: Key)
    requires Enabled(s, e) && Balanced(s, m, k) && (e.Forward? || e.LoseReport? || e.LosePublish?)
    ensures Balanced(Step(s, e), m, k)
  {
    match e
    case Forward(i) =>
      TotalTake(s.toClient, i, k);
      TotalAdd(s.toTopic, s.toClient[i], k);
    case LoseReport(i) =>
      TotalTake(s.toClient, i, k);
      TotalAdd(s.lost, s.toClient[i], k);
    case LosePublish(i) =>
      TotalTake(s.toTopic, i, k);
      TotalAdd(s.lost, s.toTopic[i], k);
  }

  lemma {:induction false} CopyBalances(s: System, e: Event, m: int, k: Key)
    requires Enabled(s, e) && Balanced(s, m, k) && (e.Publish? || e.Deliver? || e.LoseCopy?)
    ensures Balanced(Step(s, e), m, k)
  {
    match e
    case Publish(i) =>
      TotalTake(s.toTopic, i, k);
      TotalAdd(s.monitors[m].inbox, s.toTopic[i], k);
    case Deliver(n, i) =>
      TotalTake(s.monitors[n].inbox, i, k);
      TotalAdd(s.monitors[n].received, s.monitors[n].inbox[i], k);
    case LoseCopy(n, i) =>
      TotalTake(s.monitors[n].inbox, i, k);
      TotalAdd(s.lostCopies[n], s.monitors[n].inbox[i], k);
  }

  lemma {:induction false} StepBalances(s: System, e: Event, m: int, k: Key)
    requires Enabled(s, e) && Balanced(s, m, k)
    ensures Balanced(Step(s, e), m, k)
  {
    if e.Handle? {
      HandleBalances(s, e.worker, m, k);
    } else if e.Provide? || e.Send? || e.Alarm? || e.Crash? {
      PoolBalances(s, e, m, k);
    } else if e.Forward? || e.LoseReport? || e.LosePublish? {
      ReportBalances(s, e, m, k);
    } else {
      CopyBalances(s, e, m, k);
    }
  }

  // ----- every count is positive, every report belongs to a service ------------------------

  ghost predicate Positive(c: Counts) {
    forall k :: k in c ==> c[k] >= 1
  }

  ghost predicate AllPositive(cs: seq<Counts>) {
    forall i :: 0 <= i < |cs| ==> Positive(cs[i])
  }

  /** Workers come in pools of two with a legal round-robin position; nobody ever holds an empty entry. */
  ghost predicate Orderly(s: System) {
    && |s.workers| == 2 * |s.turn| && |s.beans| == |s.turn| && |s.monitors| == |s.lostCopies|
    && (forall p :: 0 <= p < |s.turn| ==> 0 <= s.turn[p] < 2)
    && (forall p :: 0 <= p < |s.turn| ==> s.workers[2 * p].service == s.workers[2 * p + 1].service)
    && (forall i :: 0 <= i < |s.workers| ==> Positive(s.workers[i].counter))
    && AllPositive(s.toClient) && AllPositive(s.toTopic) && AllPositive(s.lost)
    && (forall i :: 0 <= i < |s.monitors| ==> AllPositive(s.monitors[i].inbox) && AllPositive(s.monitors[i].received))
    && (forall i :: 0 <= i < |s.lostCopies| ==> AllPositive(s.lostCopies[i]))
  }

  lemma ReceivePositive(w: Worker, msg: Message)
    requires Positive(w.counter)
    ensures var eff := Receive(w, msg);
      Positive(eff.counter) && Positive(eff.lost) && (eff.report.Some? ==> Positive(eff.report.value))
  {
  }

  lemma {:induction false} StepOrderly(s: System, e: Event)
    requires Enabled(s, e) && Orderly(s)
    ensures Orderly(Step(s, e))
  {
    if e.Provide? {
      ProvideOrderly(s, e.bean, e.service);
    } else if e.Send? || e.Alarm? || e.Crash? || e.Handle? {
      WorkerOrderly(s, e);
    } else if e.Forward? || e.LoseReport? || e.LosePublish? {
      ReportOrderly(s, e);
    } else {
      CopyOrderly(s, e);
    }
  }

  lemma {:induction false} WorkerOrderly(s: System, e: Event)
    requires Enabled(s, e) && Orderly(s) && (e.Send? || e.Alarm? || e.Crash? || e.Handle?)
    ensures Orderly(Step(s, e))
  {
    if e.Handle? {
      HandleOrderly(s, e.worker);
    }
  }

  lemma RestartOrderly(s: System, i: int)
    requires Orderly(s) && 0 <= i < |s.workers|
    ensures Orderly(RestartWorker(s, i))
  {
  }

  lemma {:induction false} HandleOrderly(s: System, i: int)
    requires Enabled(s, Handle(i)) && Orderly(s)
    ensures Orderly(HandleNext(s, i))
  {
    ReceivePositive(s.workers[i], s.workers[i].mailbox[0]);
    var t := HandleAlone(s, i);
    assert Orderly(t);
    if 0 <= Sibling(i) < |s.workers| {
      RestartOrderly(t, Sibling(i));
    }
  }

  lemma {:induction false} ReportOrderly(s: System, e: Event)
    requires Enabled(s, e) && Orderly(s)
    requires e.Forward? || e.LoseReport? || e.LosePublish?
    ensures Orderly(Step(s, e))
  {
  }

  lemma {:induction false} CopyOrderly(s: System, e: Event)
    requires Enabled(s, e) && Orderly(s) && (e.Publish? || e.Deliver? || e.LoseCopy?)
    ensures Orderly(Step(s, e))
  {
  }

  lemma ProvideOrderly(s: System, bean: string, service: string)
    requires Enabled(s, Provide(bean, service)) && Orderly(s)
    ensures Orderly(Step(s, Provide(bean, service)))
  {
    var t := Step(s, Provide(bean, service));
    forall p | 0 <= p < |t.turn| ensures t.workers[2 * p].service == t.workers[2 * p + 1].service {
      if p < |s.turn| {
        assert t.workers[2 * p] == s.workers[2 * p] && t.workers[2 * p + 1] == s.workers[2 * p + 1];
      }
    }
  }

  lemma {:induction false} TotalPositive(cs: seq<Counts>, k: Key)
    requires AllPositive(cs)
    ensures 0 <= Total(cs, k)
  {
    if cs != [] {
      assert Positive(cs[0]);
      assert AllPositive(cs[1..]);
      TotalPositive(cs[1..], k);
    }
  }

  // ----- whole runs ------------------------------------------------------------------------

  predicate Possible(s: System, run: seq<Event>)
    decreases |run|
  {
    run == [] || (Enabled(s, run[0]) && Possible(Step(s, run[0]), run[1..]))
  }

  function Run(s: System, run: seq<Event>): System
    requires Possible(s, run)
    decreases |run|
  {
    if run == [] then s else Run(Step(s, run[0]), run[1..])
  }

  lemma {:induction false} RunKeeps(s: System, run: seq<Event>, m: int, k: Key)
    requires Possible(s, run) && Orderly(s) && Balanced(s, m, k)
    ensures Orderly(Run(s, run)) && Balanced(Run(s, run), m, k)
    decreases |run|
  {
    if run != [] {
      StepOrderly(s, run[0]);
      StepBalances(s, run[0], m, k);
      RunKeeps(Step(s, run[0]), run[1..], m, k);
    }
  }

  /**
   * Exact accounting over every run: for every monitor and every method, calls handled are counts
   * held by workers, plus counts in flight, plus counts delivered, plus counts lost.
   */
  lemma {:induction false} RunAccounts(monitors: nat, escalates: bool, run: seq<Event>, m: int, k: Key)
    requires Possible(Start(monitors, escalates), run) && 0 <= m < monitors
    ensures var s := Run(Start(monitors, escalates), run);
      && Balanced(s, m, k)
      && 0 <= Gone(s, m, k)
      && Held(s, k) + InFlight(s, m, k) + Delivered(s, m, k) <= At(s.handled, k)
  {
    var z := Start(monitors, escalates);
    assert Counters(z.workers) == [];
    RunKeeps(z, run, m, k);
    var s := Run(z, run);
    TotalPositive(s.lost, k);
    TotalPositive(s.lostCopies[m], k);
  }

  /** Every entry of every report that reaches a monitor is at least 1. */
  lemma ReportsArePositive(monitors: nat, escalates: bool, run: seq<Event>, m: int, i: int)
    requires Possible(Start(monitors, escalates), run) && 0 <= m < monitors
    ensures var s := Run(Start(monitors, escalates), run);
      |s.monitors| == monitors && (0 <= i < |s.monitors[m].received| ==> Positive(s.monitors[m].received[i]))
  {
    var z, k := Start(monitors, escalates), Key("", "");
    assert Counters(z.workers) == [];
    RunKeeps(z, run, m, k);
    MonitorsFixed(z, run);
  }

  lemma {:induction false} MonitorsFixed(s: System, run: seq<Event>)
    requires Possible(s, run)
    ensures |Run(s, run).monitors| == |s.monitors|
    decreases |run|
  {
    if run != [] {
      MonitorsFixed(Step(s, run[0]), run[1..]);
    }
  }

  // ----- exactly which runs conserve -------------------------------------------------------

  /**
   * What an event must not do if nothing is to be lost on the way to monitor `m`: handle a failing
   * call, restart a worker that holds counts, or drop a report or a copy for `m` that has entries.
   */
  predicate Harmless(s: System, e: Event, m: int)
    requires Enabled(s, e)
  {
    match e
    case Handle(w) => !Fails(s, w)
    case Crash(w) => s.workers[w].counter == map[]
    case LoseReport(i) => s.toClient[i] == map[]
    case LosePublish(i) => s.toTopic[i] == map[]
    case LoseCopy(n, i) => n == m ==> s.monitors[n].inbox[i] == map[]
    case _ => true
  }

  predicate HarmlessRun(s: System, run: seq<Event>, m: int)
    requires Possible(s, run)
    decreases |run|
  {
    run == [] || (Harmless(s, run[0], m) && HarmlessRun(Step(s, run[0]), run[1..], m))
  }

  ghost predicate AllEmpty(cs: seq<Counts>) {
    forall i :: 0 <= i < |cs| ==> cs[i] == map[]
  }

  ghost predicate NothingLost(s: System, m: int)
    requires 0 <= m < |s.lostCopies|
  {
    AllEmpty(s.lost) && AllEmpty(s.lostCopies[m])
  }

  lemma AllEmptyAdd(cs: seq<Counts>, c: Counts)
    ensures AllEmpty(cs + [c]) <==> AllEmpty(cs) && c == map[]
  {
    var all := cs + [c];
    assert all[|cs|] == c;
    assert forall i :: 0 <= i < |cs| ==> all[i] == cs[i];
  }

  lemma {:induction false} EmptyTotal(cs: seq<Counts>, k: Key)
    requires AllEmpty(cs)
    ensures Total(cs, k) == 0
  {
    if cs != [] {
      assert cs[0] == map[];
      EmptyTotal(cs[1..], k);
    }
  }

  lemma {:induction false} SomeTotal(cs: seq<Counts>, i: int, k: Key)
    requires AllPositive(cs) && 0 <= i < |cs| && k in cs[i]
    ensures Total(cs, k) >= 1
    decreases |cs|
  {
    assert Positive(cs[i]) && Positive(cs[0]) && AllPositive(cs[1..]);
    if i == 0 {
      TotalPositive(cs[1..], k);
    } else {
      assert cs[1..][i - 1] == cs[i];
      SomeTotal(cs[1..], i - 1, k);
    }
  }

  /** If something was lost, some key misses a count. */
  lemma LostKey(cs: seq<Counts>) returns (k: Key)
    requires AllPositive(cs) && !AllEmpty(cs)
    ensures Total(cs, k) >= 1
  {
    var i :| 0 <= i < |cs| && cs[i] != map[];
    k :| k in cs[i];
    SomeTotal(cs, i, k);
  }

  lemma GoneZeroIff(s: System, m: int)
    requires Orderly(s) && 0 <= m < |s.lostCopies|
    ensures (forall k :: Gone(s, m, k) == 0) <==> NothingLost(s, m)
  {
    assert AllPositive(s.lostCopies[m]);
    forall k ensures Total(s.lost, k) >= 0 && Total(s.lostCopies[m], k) >= 0 {
      TotalPositive(s.lost, k);
      TotalPositive(s.lostCopies[m], k);
    }
    if NothingLost(s, m) {
      forall k ensures Gone(s, m, k) == 0 {
        EmptyTotal(s.lost, k);
        EmptyTotal(s.lostCopies[m], k);
      }
    } else {
      var k := LostKey(if AllEmpty(s.lost) then s.lostCopies[m] else s.lost);
      assert Gone(s, m, k) != 0;
    }
  }

  lemma StepLosesIff(s: System, e: Event, m: int)
    requires Enabled(s, e) && 0 <= m < |s.lostCopies|
    ensures |Step(s, e).lostCopies| == |s.lostCopies|
    ensures NothingLost(Step(s, e), m) <==> NothingLost(s, m) && Harmless(s, e, m)
  {
    match e
    case Handle(w) => HandleLosesIff(s, w, m);
    case Crash(w) => AllEmptyAdd(s.lost, s.workers[w].counter);
    case LoseReport(i) => AllEmptyAdd(s.lost, s.toClient[i]);
    case LosePublish(i) => AllEmptyAdd(s.lost, s.toTopic[i]);
    case LoseCopy(n, i) => AllEmptyAdd(s.lostCopies[n], s.monitors[n].inbox[i]);
    case _ =>
  }

  lemma HandleLosesIff(s: System, i: int, m: int)
    requires Enabled(s, Handle(i)) && 0 <= m < |s.lostCopies|
    ensures |HandleNext(s, i).lostCopies| == |s.lostCopies|
    ensures NothingLost(HandleNext(s, i), m) <==> NothingLost(s, m) && !Fails(s, i)
  {
    var w, t := s.workers[i], HandleAlone(s, i);
    AllEmptyAdd(s.lost, Receive(w, w.mailbox[0]).lost);
    if Fails(s, i) {
      var k := Key(w.service, w.mailbox[0].operation);
      assert k in Incremented(w, w.mailbox[0].operation);
      if 0 <= Sibling(i) < |s.workers| {
        AllEmptyAdd(t.lost, t.workers[Sibling(i)].counter);
      }
    }
  }

  lemma {:induction false} RunLosesIff(s: System, run: seq<Event>, m: int)
    requires Possible(s, run) && 0 <= m < |s.lostCopies|
    ensures |Run(s, run).lostCopies| == |s.lostCopies|
    ensures NothingLost(Run(s, run), m) <==> NothingLost(s, m) && HarmlessRun(s, run, m)
    decreases |run|
  {
    if run != [] {
      StepLosesIff(s, run[0], m);
      RunLosesIff(Step(s, run[0]), run[1..], m);
    }
  }

  ghost predicate Conserved(s: System, m: int, k: Key)
    requires 0 <= m < |s.monitors|
  {
    At(s.handled, k) == Held(s, k) + InFlight(s, m, k) + Delivered(s, m, k)
  }

  /**
   * The books of a monitor balance for every method exactly when the run handled no failing call,
   * restarted no worker that held counts, and lost no report or copy that had entries.
   */
  lemma {:induction false} ConservesIff(monitors: nat, escalates: bool, run: seq<Event>, m: int)
    requires Possible(Start(monitors, escalates), run) && 0 <= m < monitors
    ensures |Run(Start(monitors, escalates), run).monitors| == monitors
    ensures (forall k :: Conserved(Run(Start(monitors, escalates), run), m, k))
       <==> HarmlessRun(Start(monitors, escalates), run, m)
  {
    var z := Start(monitors, escalates);
    var s := Run(z, run);
    MonitorsFixed(z, run);
    RunLosesIff(z, run, m);
    forall k ensures Orderly(s) && Balanced(s, m, k) {
      assert Counters(z.workers) == [];
      RunKeeps(z, run, m, k);
    }
    var any := Key("", "");
    assert Balanced(s, m, any);
    GoneZeroIff(s, m);
    forall k ensures Conserved(s, m, k) <==> Gone(s, m, k) == 0 {
      assert Balanced(s, m, k);
    }
  }

  /**
   * In every state, handling a failing call loses the call itself and every count its worker holds,
   * and, if failures escalate, every count the other worker of the pool holds; both start from nothing.
   */
  lemma FailingCallLoses(s: System, i: int, m: int, k: Key)
    requires Enabled(s, Handle(i)) && Fails(s, i) && 0 <= m < |s.lostCopies|
    ensures var t, j := Step(s, Handle(i)), Sibling(i);
      var own := Key(s.workers[i].service, s.workers[i].mailbox[0].operation);
      var both := s.escalates && 0 <= j < |s.workers|;
      && |t.lostCopies| == |s.lostCopies| && |t.workers| == |s.workers|
      && t.workers[i].counter == map[] && (both ==> t.workers[j].counter == map[])
      && At(t.handled, own) == At(s.handled, own) + 1
      && Gone(t, m, k) == Gone(s, m, k) + At(s.workers[i].counter, k) + (if k == own then 1 else 0)
                        + (if both then At(s.workers[j].counter, k) else 0)
  {
    var w, t, j := s.workers[i], HandleAlone(s, i), Sibling(i);
    TotalAdd(s.lost, Incremented(w, w.mailbox[0].operation), k);
    if 0 <= j < |s.workers| {
      assert t.workers[j].counter == s.workers[j].counter;
      TotalAdd(t.lost, t.workers[j].counter, k);
    }
  }

  // ----- what one message does -------------------------------------------------------------

  /** A tick sends on, for every method, exactly what the worker held, and leaves it holding nothing. */
  lemma TickReports(s: System, i: int, k: Key)
    requires Enabled(s, Handle(i)) && s.workers[i].mailbox[0].Tick?
    ensures var t := Step(s, Handle(i));
      && |t.workers| == |s.workers| && At(t.workers[i].counter, k) == 0
      && Total(t.toClient, k) == Total(s.toClient, k) + At(s.workers[i].counter, k)
      && Held(t, k) == Held(s, k) - At(s.workers[i].counter, k)
      && t.handled == s.handled && t.workers[i].mailbox == s.workers[i].mailbox[1..]
  {
    var w := s.workers[i];
    TotalAdd(s.toClient, w.counter, k);
    CountersUpdate(s.workers, i, Worker(w.service, map[], w.mailbox[1..]), k);
  }

  /** A call that succeeds is handled once, counted once by its worker, and nothing else changes. */
  lemma CallCounts(s: System, i: int, k: Key)
    requires Enabled(s, Handle(i)) && s.workers[i].mailbox[0].Call? && !Fails(s, i)
    ensures var t := Step(s, Handle(i));
      var one := if k == Key(s.workers[i].service, s.workers[i].mailbox[0].operation) then 1 else 0;
      && |t.workers| == |s.workers| && t.workers[i].mailbox == s.workers[i].mailbox[1..]
      && At(t.workers[i].counter, k) == At(s.workers[i].counter, k) + one
      && Held(t, k) == Held(s, k) + one && At(t.handled, k) == At(s.handled, k) + one
      && t.toClient == s.toClient
  {
    var w := s.workers[i];
    CountersUpdate(s.workers, i, Worker(w.service, Incremented(w, w.mailbox[0].operation), w.mailbox[1..]), k);
  }

  // ----- from the router to the books ------------------------------------------------------

  /** How many calls of `k` wait in a mailbox of a worker for `service`. */
  function CallsIn(service: string, mailbox: seq<Message>, k: Key): int {
    if mailbox == [] then 0
    else (if mailbox[0].Call? && Key(service, mailbox[0].operation) == k then 1 else 0) + CallsIn(service, mailbox[1..], k)
  }

  function WaitingIn(ws: seq<Worker>, k: Key): int {
    if ws == [] then 0 else CallsIn(ws[0].service, ws[0].mailbox, k) + WaitingIn(ws[1..], k)
  }

  lemma {:induction false} CallsInAdd(service: string, mailbox: seq<Message>, msg: Message, k: Key)
    ensures CallsIn(service, mailbox + [msg], k)
         == CallsIn(service, mailbox, k) + (if msg.Call? && Key(service, msg.operation) == k then 1 else 0)
  {
    if mailbox == [] {
      assert (mailbox + [msg])[1..] == [];
    } else {
      assert (mailbox + [msg])[1..] == mailbox[1..] + [msg];
      CallsInAdd(service, mailbox[1..], msg, k);
    }
  }

  lemma {:induction false} WaitingUpdate(ws: seq<Worker>, i: int, w: Worker, k: Key)
    requires 0 <= i < |ws|
    ensures WaitingIn(ws[i := w], k)
         == WaitingIn(ws, k) - CallsIn(ws[i].service, ws[i].mailbox, k) + CallsIn(w.service, w.mailbox, k)
    decreases |ws|
  {
    if i == 0 {
      assert ws[i := w][1..] == ws[1..];
    } else {
      assert ws[i := w][1..] == ws[1..][i - 1 := w];
      WaitingUpdate(ws[1..], i - 1, w, k);
    }
  }

  lemma {:induction false} WaitingAppend(a: seq<Worker>, b: seq<Worker>, k: Key)
    ensures WaitingIn(a + b, k) == WaitingIn(a, k) + WaitingIn(b, k)
  {
    if a == [] {
      assert a + b == b;
    } else {
      assert (a + b)[1..] == a[1..] + b;
      WaitingAppend(a[1..], b, k);
    }
  }

  /** Whether an event is a call of `k` reaching a router. */
  function SentBy(s: System, e: Event, k: Key): int
    requires Enabled(s, e)
  {
    if e.Send? && Key(s.workers[2 * e.pool + s.turn[e.pool]].service, e.operation) == k then 1 else 0
  }

  function Sent(s: System, run: seq<Event>, k: Key): int
    requires Possible(s, run)
    decreases |run|
  {
    if run == [] then 0 else SentBy(s, run[0], k) + Sent(Step(s, run[0]), run[1..], k)
  }

  lemma StepWaits(s: System, e: Event, k: Key)
    requires Enabled(s, e)
    ensures var t := Step(s, e);
      At(t.handled, k) + WaitingIn(t.workers, k) == At(s.handled, k) + WaitingIn(s.workers, k) + SentBy(s, e, k)
  {
    match e
    case Provide(_, service) =>
      var idle := [Worker(service, map[], []), Worker(service, map[], [])];
      WaitingAppend(s.workers, idle, k);
      assert WaitingIn(idle[1..][1..], k) == 0 && WaitingIn(idle[1..], k) == 0;
    case Send(pool, op, fails) =>
      var w := 2 * pool + s.turn[pool];
      CallsInAdd(s.workers[w].service, s.workers[w].mailbox, Call(op, fails), k);
      WaitingUpdate(s.workers, w, Enqueue(s.workers[w], Call(op, fails)), k);
    case Alarm(w) =>
      CallsInAdd(s.workers[w].service, s.workers[w].mailbox, Tick, k);
      WaitingUpdate(s.workers, w, Enqueue(s.workers[w], Tick), k);
    case Handle(w) => HandleWaits(s, w, k);
    case Crash(w) => RestartWaits(s, w, k);
    case _ =>
  }

  lemma RestartWaits(s: System, i: int, k: Key)
    requires 0 <= i < |s.workers|
    ensures WaitingIn(RestartWorker(s, i).workers, k) == WaitingIn(s.workers, k) && RestartWorker(s, i).handled == s.handled
  {
    WaitingUpdate(s.workers, i, s.workers[i].(counter := map[]), k);
  }

  lemma HandleWaits(s: System, i: int, k: Key)
    requires Enabled(s, Handle(i))
    ensures var t := HandleNext(s, i);
      At(t.handled, k) + WaitingIn(t.workers, k) == At(s.handled, k) + WaitingIn(s.workers, k)
  {
    var w, t := s.workers[i], HandleAlone(s, i);
    WaitingUpdate(s.workers, i, t.workers[i], k);
    if 0 <= Sibling(i) < |s.workers| {
      RestartWaits(t, Sibling(i), k);
    }
  }

  /** Every call a router passed on has been handled or still waits, whatever else happened. */
  lemma {:induction false} RunSends(s: System, run: seq<Event>, k: Key)
    requires Possible(s, run)
    ensures At(Run(s, run).handled, k) + WaitingIn(Run(s, run).workers, k)
         == At(s.handled, k) + WaitingIn(s.workers, k) + Sent(s, run, k)
    decreases |run|
  {
    if run != [] {
      StepWaits(s, run[0], k);
      RunSends(Step(s, run[0]), run[1..], k);
    }
  }

  /** The router takes turns: two calls in a row reach the two workers of the pool, one each. */
  lemma RouterAlternates(s: System, pool: int, a: string, b: string, p: bool, q: bool)
    requires Enabled(s, Send(pool, a, p))
    ensures var t := Step(s, Send(pool, a, p));
      && Enabled(t, Send(pool, b, q))
      && var u := Step(t, Send(pool, b, q));
         var i := 2 * pool + s.turn[pool];
         && 2 * pool <= i <= 2 * pool + 1 && |u.workers| == |s.workers| && u.turn == s.turn
         && u.workers[i].mailbox == s.workers[i].mailbox + [Call(a, p)]
         && u.workers[Sibling(i)].mailbox == s.workers[Sibling(i)].mailbox + [Call(b, q)]
         && forall j :: 0 <= j < |s.workers| && j != i && j != Sibling(i) ==> u.workers[j] == s.workers[j]
  {
  }

  // ----- everything can be reported --------------------------------------------------------

  /** The system working off what it has: no new calls, no crashes, no losses. */
  predicate Calm(e: Event) {
    e.Alarm? || e.Handle? || e.Forward? || e.Publish? || e.Deliver?
  }

  ghost predicate CalmRun(s: System, run: seq<Event>, t: System) {
    (forall i :: 0 <= i < |run| ==> Calm(run[i])) && Possible(s, run) && Run(s, run) == t
  }

  lemma {:induction false} CalmMore(s: System, run: seq<Event>, t: System, e: Event)
    requires CalmRun(s, run, t) && Calm(e) && Enabled(t, e)
    ensures CalmRun(s, run + [e], Step(t, e))
    decreases |run|
  {
    var all := run + [e];
    assert forall i :: 0 <= i < |all| ==> Calm(all[i]);
    if run == [] {
      assert all[1..] == [];
    } else {
      assert all[0] == run[0] && all[1..] == run[1..] + [e];
      assert CalmRun(Step(s, run[0]), run[1..], t);
      CalmMore(Step(s, run[0]), run[1..], t, e);
    }
  }

  /** The first `n` workers hold and await nothing. */
  ghost predicate Idle(s: System, n: int) {
    n <= |s.workers| && forall i :: 0 <= i < n ==> s.workers[i].counter == map[] && s.workers[i].mailbox == []
  }

  lemma HandleKeepsIdle(s: System, n: int)
    requires Enabled(s, Handle(n)) && Idle(s, n)
    ensures Idle(Step(s, Handle(n)), n) && |Step(s, Handle(n)).workers| == |s.workers|
    ensures Step(s, Handle(n)).workers[n].mailbox == s.workers[n].mailbox[1..]
  {
  }

  /** Lets worker `n` work off its mailbox, report and become idle. */
  lemma DrainWorker(start: System, run: seq<Event>, s: System, n: int) returns (run': seq<Event>, t: System)
    requires CalmRun(start, run, s) && 0 <= n < |s.workers| && Idle(s, n)
    ensures CalmRun(start, run', t) && Idle(t, n + 1) && |t.workers| == |s.workers| && |t.monitors| == |s.monitors|
  {
    run', t := run, s;
    while t.workers[n].mailbox != []
      invariant CalmRun(start, run', t) && |t.workers| == |s.workers| && Idle(t, n) && |t.monitors| == |s.monitors|
      decreases |t.workers[n].mailbox|
    {
      CalmMore(start, run', t, Handle(n));
      HandleKeepsIdle(t, n);
      run', t := run' + [Handle(n)], Step(t, Handle(n));
    }
    CalmMore(start, run', t, Alarm(n));
    run', t := run' + [Alarm(n)], Step(t, Alarm(n));
    assert t.workers[n].mailbox == [Tick];
    CalmMore(start, run', t, Handle(n));
    HandleKeepsIdle(t, n);
    run', t := run' + [Handle(n)], Step(t, Handle(n));
  }

  /** Nothing is held, waiting or in flight. */
  ghost predicate Quiet(s: System) {
    && Idle(s, |s.workers|) && s.toClient == [] && s.toTopic == []
    && forall m :: 0 <= m < |s.monitors| ==> s.monitors[m].inbox == []
  }

  /** From every state the system can come to rest by working off what it has. */
  lemma DrainAll(s: System) returns (run: seq<Event>, t: System)
    ensures CalmRun(s, run, t) && Quiet(t) && |t.monitors| == |s.monitors|
  {
    run, t := [], s;
    var n := 0;
    while n < |t.workers|
      invariant 0 <= n <= |t.workers| && CalmRun(s, run, t) && Idle(t, n) && |t.monitors| == |s.monitors|
      decreases |t.workers| - n
    {
      run, t := DrainWorker(s, run, t, n);
      n := n + 1;
    }
    run, t := DrainReports(s, run, t);
    run, t := DrainTopic(s, run, t);
    run, t := DrainInboxes(s, run, t);
  }

  lemma DrainReports(start: System, run: seq<Event>, s: System) returns (run': seq<Event>, t: System)
    requires CalmRun(start, run, s) && Idle(s, |s.workers|)
    ensures CalmRun(start, run', t) && Idle(t, |t.workers|) && t.toClient == [] && |t.monitors| == |s.monitors|
  {
    run', t := run, s;
    while t.toClient != []
      invariant CalmRun(start, run', t) && t.workers == s.workers && |t.monitors| == |s.monitors|
      decreases |t.toClient|
    {
      CalmMore(start, run', t, Forward(0));
      run', t := run' + [Forward(0)], Step(t, Forward(0));
    }
  }

  lemma DrainTopic(start: System, run: seq<Event>, s: System) returns (run': seq<Event>, t: System)
    requires CalmRun(start, run, s) && Idle(s, |s.workers|) && s.toClient == []
    ensures CalmRun(start, run', t) && Idle(t, |t.workers|) && t.toClient == [] && t.toTopic == [] && |t.monitors| == |s.monitors|
  {
    run', t := run, s;
    while t.toTopic != []
      invariant CalmRun(start, run', t) && t.workers == s.workers && t.toClient == [] && |t.monitors| == |s.monitors|
      decreases |t.toTopic|
    {
      CalmMore(start, run', t, Publish(0));
      run', t := run' + [Publish(0)], Step(t, Publish(0));
    }
  }

  lemma DrainInboxes(start: System, run: seq<Event>, s: System) returns (run': seq<Event>, t: System)
    requires CalmRun(start, run, s) && Idle(s, |s.workers|) && s.toClient == [] && s.toTopic == []
    ensures CalmRun(start, run', t) && Quiet(t) && |t.monitors| == |s.monitors|
  {
    run', t := run, s;
    var m := 0;
    while m < |t.monitors|
      invariant 0 <= m <= |t.monitors| && CalmRun(start, run', t)
      invariant t.workers == s.workers && t.toClient == [] && t.toTopic == [] && |t.monitors| == |s.monitors|
      invariant forall j :: 0 <= j < m ==> t.monitors[j].inbox == []
      decreases |t.monitors| - m, if m < |t.monitors| then |t.monitors[m].inbox| else 0
    {
      if t.monitors[m].inbox == [] {
        m := m + 1;
      } else {
        CalmMore(start, run', t, Deliver(m, 0));
        run', t := run' + [Deliver(m, 0)], Step(t, Deliver(m, 0));
      }
    }
  }

  lemma {:induction false} IdleHolds(ws: seq<Worker>, k: Key)
    requires forall i :: 0 <= i < |ws| ==> ws[i].counter == map[] && ws[i].mailbox == []
    ensures Total(Counters(ws), k) == 0 && WaitingIn(ws, k) == 0
  {
    if ws != [] {
      assert Counters(ws)[1..] == Counters(ws[1..]);
      IdleHolds(ws[1..], k);
    }
  }

  /**
   * Every reachable state can be worked off: there is a continuation without new calls, crashes or losses
   * after which no worker holds or awaits anything and nothing is in flight, so that for every monitor and
   * method the calls handled are exactly the counts delivered and those lost.
   */
  lemma AllReported(monitors: nat, escalates: bool, run: seq<Event>) returns (more: seq<Event>, t: System)
    requires Possible(Start(monitors, escalates), run)
    ensures CalmRun(Run(Start(monitors, escalates), run), more, t) && |t.monitors| == |t.lostCopies| == monitors
    ensures forall k :: Held(t, k) == 0 && WaitingIn(t.workers, k) == 0
    ensures forall m, k :: 0 <= m < monitors ==>
      InFlight(t, m, k) == 0 && Delivered(t, m, k) + Gone(t, m, k) == At(t.handled, k)
  {
    var z := Start(monitors, escalates);
    var s := Run(z, run);
    MonitorsFixed(z, run);
    more, t := DrainAll(s);
    forall k ensures Held(t, k) == 0 && WaitingIn(t.workers, k) == 0 {
      IdleHolds(t.workers, k);
    }
    CopiesFixed(z, run);
    CopiesFixed(s, more);
    forall m, k | 0 <= m < monitors
      ensures InFlight(t, m, k) == 0 && Delivered(t, m, k) + Gone(t, m, k) == At(t.handled, k)
    {
      assert Counters(z.workers) == [];
      RunKeeps(z, run, m, k);
      RunKeeps(s, more, m, k);
      assert t.monitors[m].inbox == [];
    }
  }

  lemma {:induction false} CopiesFixed(s: System, run: seq<Event>)
    requires Possible(s, run)
    ensures |Run(s, run).lostCopies| == |s.lostCopies|
    decreases |run|
  {
    if run != [] {
      CopiesFixed(Step(s, run[0]), run[1..]);
    }
  }
}
