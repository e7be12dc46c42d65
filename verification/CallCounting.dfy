/**
 * Call counting and reporting (RpcServerActor, RpcProviderActor, MonitorClientActor).
 *
 * Each provided service is served by a round-robin pool of two workers. A worker counts the calls it
 * handles per method; a periodic tick makes it send its counts to the monitor client as a report and
 * start again from nothing. The client publishes every report to a topic, and each subscribed
 * monitor receives its own copy. A call whose method cannot be invoked restarts its worker, which
 * loses the counts held so far; if the pool escalates failures, both its workers are restarted.
 */
module CallCounting {
  import opened Sequences

  /** A service and one of its methods. */
  datatype Key = Key(service: string, operation: string)

  /** Calls per key; a key that is absent counts 0. */
  type Counts = map<Key, int>

  function At(c: Counts, k: Key): int {
    if k in c then c[k] else 0
  }

  function Total(cs: seq<Counts>, k: Key): int {
    if cs == [] then 0 else At(cs[0], k) + Total(cs[1..], k)
  }

  // ----- the actors ------------------------------------------------------------------------

  /** What waits in a worker's mailbox. A failing call is one whose method lookup or invocation throws. */
  datatype Message = Call(operation: string, fails: bool) | Tick

  datatype Worker = Worker(service: string, counter: Counts, mailbox: seq<Message>)

  function Incremented(w: Worker, m: string): Counts {
    var k := Key(w.service, m);
    w.counter[k := At(w.counter, k) + 1]
  }

  /** What handling one message does: the new counter, the report sent, and the counts lost by a restart. */
  datatype Effect = Effect(counter: Counts, report: Option<Counts>, lost: Counts)

  function Receive(w: Worker, msg: Message): Effect {
    match msg
    case Call(m, false) => Effect(Incremented(w, m), None, map[])
    case Call(m, true) => Effect(map[], None, Incremented(w, m))
    case Tick => Effect(map[], Some(w.counter), map[])
  }

  /** The worker as an object whose counter the messages update. */
  class RpcProviderActor {
    const service: string
    var counter: Counts

    ghost function View(mailbox: seq<Message>): Worker
      reads this
    {
      Worker(service, counter, mailbox)
    }

    constructor (service: string)
      ensures this.service == service && counter == map[]
    {
      this.service := service;
      counter := map[];
    }

    /** Returns the report to send, and whether the handler threw; the supervisor then restarts the actor. */
    method OnReceive(msg: Message) returns (report: Option<Counts>, threw: bool)
      modifies this
      ensures report == Receive(old(View([])), msg).report
      ensures threw <==> msg.Call? && msg.fails
      ensures !threw ==> counter == Receive(old(View([])), msg).counter
      ensures threw ==> counter == Receive(old(View([])), msg).lost
      ensures msg.Tick? ==> report == Some(old(counter)) && counter == map[]
      ensures msg.Call? ==>
        var k := Key(service, msg.operation);
        && report == None && counter.Keys == old(counter).Keys + {k} && counter[k] == At(old(counter), k) + 1
        && forall j :: j in old(counter) && j != k ==> counter[j] == old(counter)[j]
    {
      report, threw := None, false;
      match msg
      case Call(m, fails) =>
        var k := Key(service, m);
        counter := counter[k := At(counter, k) + 1];
        threw := fails;
      case Tick =>
        var snapshot := counter;
        counter := map[];
        report := Some(snapshot);
    }

    method Restart()
      modifies this
      ensures counter == map[]
    {
      counter := map[];
    }
  }

  /** A monitor subscribed to the topic: copies on their way to it, and what it has received. */
  datatype Monitor = Monitor(inbox: seq<Counts>, received: seq<Counts>)

  /**
   * The whole system. `toClient` are reports on their way to the monitor client, `toTopic` are
   * published reports on their way to the mediator. `turn[i]` is the round-robin position of pool
   * `i`, whose workers are `2 * i` and `2 * i + 1`, and `beans[i]` the name its actor goes by; several
   * beans may provide the same service. `escalates` is the supervision that Akka gives the pools.
   * `handled` and `lost` are the books: calls taken from mailboxes, and counts that disappeared.
   */
  datatype System = System(
    escalates: bool, beans: seq<string>, workers: seq<Worker>, turn: seq<int>,
    toClient: seq<Counts>, toTopic: seq<Counts>, monitors: seq<Monitor>,
    handled: Counts, lost: seq<Counts>, lostCopies: seq<seq<Counts>>)

  datatype Event =
    | Provide(bean: string, service: string)  // a provider bean reaches the RPC server: a new pool of two
    | Send(pool: int, operation: string, fails: bool)  // the router passes a call on
    | Alarm(worker: int)                   // the scheduler ticks
    | Handle(worker: int)                  // a worker takes its next message
    | Forward(i: int)                      // the monitor client publishes a report
    | Publish(i: int)                      // the mediator copies a report to every monitor
    | Deliver(monitor: int, i: int)        // a monitor receives a copy
    | Crash(worker: int)                   // a worker is restarted for some other reason
    | LoseReport(i: int)                   // a report does not reach the client
    | LosePublish(i: int)                  // a published report does not reach the mediator
    | LoseCopy(monitor: int, i: int)       // a copy does not reach its monitor

  predicate Enabled(s: System, e: Event) {
    match e
    case Provide(bean, _) => bean !in s.beans
    case Send(pool, _, _) => 0 <= pool < |s.turn| && 2 * pool + 1 < |s.workers| && 0 <= s.turn[pool] < 2
    case Alarm(w) => 0 <= w < |s.workers|
    case Handle(w) => 0 <= w < |s.workers| && s.workers[w].mailbox != []
    case Forward(i) => 0 <= i < |s.toClient|
    case Publish(i) => 0 <= i < |s.toTopic|
    case Deliver(m, i) => 0 <= m < |s.monitors| && 0 <= i < |s.monitors[m].inbox|
    case Crash(w) => 0 <= w < |s.workers|
    case LoseReport(i) => 0 <= i < |s.toClient|
    case LosePublish(i) => 0 <= i < |s.toTopic|
    case LoseCopy(m, i) => 0 <= m < |s.monitors| && 0 <= i < |s.monitors[m].inbox| && m < |s.lostCopies|
  }

  function Take<T>(s: seq<T>, i: int): seq<T>
    requires 0 <= i < |s|
  {
    s[..i] + s[i + 1..]
  }

  function Copied(ms: seq<Monitor>, c: Counts): (r: seq<Monitor>)
    ensures |r| == |ms|
    ensures forall i :: 0 <= i < |ms| ==> r[i] == Monitor(ms[i].inbox + [c], ms[i].received)
  {
    seq(|ms|, i requires 0 <= i < |ms| => Monitor(ms[i].inbox + [c], ms[i].received))
  }

  function Enqueue(w: Worker, msg: Message): Worker {
    w.(mailbox := w.mailbox + [msg])
  }

  /** A worker takes its next message; a failing one restarts it. */
  function HandleAlone(s: System, i: int): System
    requires Enabled(s, Handle(i))
  {
    var w := s.workers[i];
    var msg := w.mailbox[0];
    var eff := Receive(w, msg);
    s.(workers := s.workers[i := Worker(w.service, eff.counter, w.mailbox[1..])],
       toClient := if eff.report.Some? then s.toClient + [eff.report.value] else s.toClient,
       lost := s.lost + [eff.lost],
       handled := if msg.Call? then
                    var k := Key(w.service, msg.operation);
                    s.handled[k := At(s.handled, k) + 1]
                  else s.handled)
  }

  /** A restart makes a new actor for the same mailbox. */
  function RestartWorker(s: System, i: int): System
    requires 0 <= i < |s.workers|
  {
    s.(workers := s.workers[i := s.workers[i].(counter := map[])], lost := s.lost + [s.workers[i].counter])
  }

  /** The other worker of the pool. */
  function Sibling(i: int): int {
    if i % 2 == 0 then i + 1 else i - 1
  }

  predicate Fails(s: System, i: int)
    requires Enabled(s, Handle(i))
  {
    s.workers[i].mailbox[0].Call? && s.workers[i].mailbox[0].fails
  }

  function HandleNext(s: System, i: int): System
    requires Enabled(s, Handle(i))
  {
    var t := HandleAlone(s, i);
    if Fails(s, i) && s.escalates && 0 <= Sibling(i) < |s.workers| then RestartWorker(t, Sibling(i)) else t
  }

  function Step(s: System, e: Event): System
    requires Enabled(s, e)
  {
    match e
    case Provide(bean, service) =>
      s.(beans := s.beans + [bean], turn := s.turn + [0],
         workers := s.workers + [Worker(service, map[], []), Worker(service, map[], [])])
    case Send(pool, m, fails) =>
      var w := 2 * pool + s.turn[pool];
      s.(workers := s.workers[w := Enqueue(s.workers[w], Call(m, fails))], turn := s.turn[pool := 1 - s.turn[pool]])
    case Alarm(w) => s.(workers := s.workers[w := Enqueue(s.workers[w], Tick)])
    case Handle(w) => HandleNext(s, w)
    case Forward(i) => s.(toClient := Take(s.toClient, i), toTopic := s.toTopic + [s.toClient[i]])
    case Publish(i) => s.(toTopic := Take(s.toTopic, i), monitors := Copied(s.monitors, s.toTopic[i]))
    case Deliver(m, i) =>
      var mon := s.monitors[m];
      s.(monitors := s.monitors[m := Monitor(Take(mon.inbox, i), mon.received + [mon.inbox[i]])])
    case Crash(w) => RestartWorker(s, w)
    case LoseReport(i) => s.(toClient := Take(s.toClient, i), lost := s.lost + [s.toClient[i]])
    case LosePublish(i) => s.(toTopic := Take(s.toTopic, i), lost := s.lost + [s.toTopic[i]])
    case LoseCopy(m, i) =>
      var mon := s.monitors[m];
      s.(monitors := s.monitors[m := mon.(inbox := Take(mon.inbox, i))],
         lostCopies := s.lostCopies[m := s.lostCopies[m] + [mon.inbox[i]]])
  }

  /** A system with some monitors subscribed and no service yet. */
  function Start(monitors: nat, escalates: bool): System {
    System(escalates, [], [], [], [], [], seq(monitors, _ => Monitor([], [])), map[], [], seq(monitors, _ => []))
  }
}
