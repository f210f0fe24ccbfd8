/**
 From received events to node updates: `nfdAPIUpdateHandler` of pkg/nfd-master/nfd-master.go and the
 worker protocol of pkg/nfd-master/updater-pool.go, as a state machine over their steps. The work queue
 keeps the contract of its library: names to do are dirty, names being done are processing, and a name
 added while it is processed is queued again when it is done.
 */
module UpdateQueue {
  import opened Sorting

  // ---- The work queue ----

  datatype Queue = Queue(items: seq<string>, dirty: set<string>, processing: set<string>) {
    function Add(n: string): Queue {
      if n in dirty then this
      else Queue(if n in processing then items else items + [n], dirty + {n}, processing)
    }

    function Get(): Queue
      requires items != []
    {
      Queue(items[1..], dirty - {items[0]}, processing + {items[0]})
    }

    function Done(n: string): Queue {
      Queue(if n in dirty && n in processing then items + [n] else items, dirty, processing - {n})
    }

    ghost predicate Valid() {
      Distinct(items) && forall n :: n in items <==> n in dirty && n !in processing
    }

    lemma AddValid(n: string)
      requires Valid()
      ensures Add(n).Valid()
    {
    }

    lemma GetValid()
      requires Valid() && items != []
      ensures Get().Valid() && items[0] in dirty && items[0] !in processing
    {
      assert items[0] in items;
      DistinctTail(items);
    }

    lemma DoneValid(n: string)
      requires Valid()
      ensures Done(n).Valid()
    {
    }
  }

  // ---- States and steps ----

  /** The handler between ticks, or inside one with names still to be queued. */
  datatype Handler = Collecting(updateAll: bool, updateNodes: set<string>) | Draining(toAdd: set<string>)

  /**
   `started` holds, for each update attempt under way, the step at which it took its name from the
   queue; `finishing` the names whose attempt is over but not yet reported done.
   */
  datatype State = State(handler: Handler, queue: Queue, delayed: set<string>, started: map<string, nat>,
      finishing: set<string>)

  datatype Event =
    | ReceiveNode(n: string)          // a name arrives on updateOneNodeChan
    | ReceiveAll                      // updateAllNodesChan
    | TickListFails                   // rate limit fires, listing all nodes fails
    | TickLists(nodes: set<string>)   // rate limit fires, all nodes are listed
    | TickNodes                       // rate limit fires, only single nodes are due
    | QueueOne(n: string)             // addNode
    | TickEnd
    | Get                             // a worker takes the next name
    | NotFound(n: string)             // the node is gone
    | Succeed(n: string)
    | Fail(n: string)                 // AddRateLimited
    | ReadFails(n: string)            // reading the node fails, updating the empty node returned succeeds
    | Done(n: string)
    | Fire(n: string)                 // the delay of a rate-limited name is over

  /** At start-up all nodes are due. */
  const START := State(Collecting(true, {}), Queue([], {}, {}), {}, map[], {})

  ghost predicate Enabled(s: State, e: Event) {
    match e
    case ReceiveNode(_) => s.handler.Collecting?
    case ReceiveAll => s.handler.Collecting?
    case TickListFails => s.handler.Collecting? && s.handler.updateAll
    case TickLists(_) => s.handler.Collecting? && s.handler.updateAll
    case TickNodes => s.handler.Collecting? && !s.handler.updateAll
    case QueueOne(n) => s.handler.Draining? && n in s.handler.toAdd
    case TickEnd => s.handler == Draining({})
    case Get => s.queue.items != []
    case NotFound(n) => n in s.started
    case Succeed(n) => n in s.started
    case Fail(n) => n in s.started
    case ReadFails(n) => n in s.started
    case Done(n) => n in s.finishing
    case Fire(n) => n in s.delayed
  }

  function Finish(s: State, n: string): State {
    s.(started := s.started - {n}, finishing := s.finishing + {n})
  }

  /** The state after the step with number `k`. */
  ghost function Next(s: State, e: Event, k: nat): State
    requires Enabled(s, e)
  {
    match e
    case ReceiveNode(n) => s.(handler := s.handler.(updateNodes := s.handler.updateNodes + {n}))
    case ReceiveAll => s.(handler := s.handler.(updateAll := true))
    case TickListFails => s.(handler := Collecting(true, {}))
    case TickLists(nodes) => s.(handler := Draining(nodes))
    case TickNodes => s.(handler := Draining(s.handler.updateNodes))
    case QueueOne(n) => s.(handler := Draining(s.handler.toAdd - {n}), queue := s.queue.Add(n))
    case TickEnd => s.(handler := Collecting(false, {}))
    case Get => s.(queue := s.queue.Get(), started := s.started[s.queue.items[0] := k])
    case NotFound(n) => Finish(s, n)
    case Succeed(n) => Finish(s, n)
    case Fail(n) => Finish(s, n).(delayed := s.delayed + {n})
    case ReadFails(n) => Finish(s, n)
    case Done(n) => s.(queue := s.queue.Done(n), finishing := s.finishing - {n})
    case Fire(n) => s.(delayed := s.delayed - {n}, queue := s.queue.Add(n))
  }

  /** `ss` are the states of a run with events `es`, from start-up. */
  ghost predicate IsRun(ss: seq<State>, es: seq<Event>) {
    && |ss| == |es| + 1 && ss[0] == START
    && forall k :: 0 <= k < |es| ==> Enabled(ss[k], es[k]) && ss[k + 1] == Next(ss[k], es[k], k)
  }

  // ---- Mutual exclusion ----

  /** Names being worked on are the processing ones, each by one worker. */
  ghost predicate Inv(s: State) {
    && s.queue.Valid()
    && s.queue.processing == s.started.Keys + s.finishing
    && s.started.Keys !! s.finishing
  }

  lemma NextInv(s: State, e: Event, k: nat)
    requires Inv(s) && Enabled(s, e)
    ensures Inv(Next(s, e, k))
    ensures e == Get ==> s.queue.items[0] !in s.started && s.queue.items[0] !in s.finishing
  {
    match e {
      case QueueOne(n) => s.queue.AddValid(n);
      case Fire(n) => s.queue.AddValid(n);
      case Get => s.queue.GetValid();
      case Done(n) => s.queue.DoneValid(n);
      case _ =>
    }
  }

  lemma {:induction false} RunInv(ss: seq<State>, es: seq<Event>, j: nat)
    requires IsRun(ss, es) && j < |ss|
    ensures Inv(ss[j])
  {
    if j > 0 {
      RunInv(ss, es, j - 1);
      NextInv(ss[j - 1], es[j - 1], j - 1);
    }
  }

  /** No name is taken by a second worker while one is still at it. */
  lemma OneWorkerPerNode(ss: seq<State>, es: seq<Event>, k: nat)
    requires IsRun(ss, es) && k < |es| && es[k] == Get
    ensures ss[k].queue.items[0] !in ss[k].started && ss[k].queue.items[0] !in ss[k].finishing
  {
    RunInv(ss, es, k);
    NextInv(ss[k], es[k], k);
  }

  // ---- No work is lost ----

  /** An update of `n` that starts after step `i` is still due, or is under way. */
  ghost predicate PendingSince(s: State, n: string, i: int) {
    || (if s.handler.Collecting? then s.handler.updateAll || n in s.handler.updateNodes else n in s.handler.toAdd)
    || n in s.queue.dirty
    || n in s.delayed
    || (n in s.started && s.started[n] > i)
  }

  /** The step settles what was received at step `i`: an attempt begun later ends well, or the node is gone. */
  ghost predicate Settles(s: State, e: Event, n: string, i: int) {
    match e
    case Succeed(m) => m == n && n in s.started && s.started[n] > i
    case NotFound(m) => m == n && n in s.started && s.started[n] > i
    case TickLists(nodes) => n !in nodes
    case _ => false
  }

  /**
   The step drops what was received at step `i`: a read failed for another reason than NotFound in an
   attempt begun later. The code takes this for success.
   */
  ghost predicate Drops(s: State, e: Event, n: string, i: int) {
    e == ReadFails(n) && n in s.started && s.started[n] > i
  }

  lemma StepKeepsPending(s: State, e: Event, k: nat, n: string, i: int)
    requires Inv(s) && Enabled(s, e) && PendingSince(s, n, i) && i < k
    ensures PendingSince(Next(s, e, k), n, i) || Settles(s, e, n, i) || Drops(s, e, n, i)
  {
    if e == Get {
      s.queue.GetValid();
    }
  }

  /** A name is lost exactly at a failed read, when nothing else makes it due. */
  lemma StepLosesExactly(s: State, e: Event, k: nat, n: string, i: int)
    requires Inv(s) && Enabled(s, e) && PendingSince(s, n, i) && i < k
    ensures !PendingSince(Next(s, e, k), n, i) && !Settles(s, e, n, i) <==>
      Drops(s, e, n, i) && !PendingSince(s.(started := s.started - {n}), n, i)
  {
    StepKeepsPending(s, e, k, n, i);
  }

  ghost predicate Ends(s: State, e: Event, n: string, i: int) {
    Settles(s, e, n, i) || Drops(s, e, n, i)
  }

  /** Step `i` asks for an update of `n`: its name arrives, or all nodes are due; so they are at start-up, step -1. */
  ghost predicate Asks(es: seq<Event>, i: int, n: string) {
    i == -1 || (0 <= i < |es| && (es[i] == ReceiveNode(n) || es[i] == ReceiveAll))
  }

  /**
   In every run, an update asked for at step `i` stays pending until an update attempted after that step
   succeeds, the node turns out to be absent, or reading the node fails in such an attempt.
   */
  lemma {:induction false} NoLostWork(ss: seq<State>, es: seq<Event>, i: int, j: nat, n: string)
    requires IsRun(ss, es) && Asks(es, i, n) && i < j < |ss|
    ensures PendingSince(ss[j], n, i) || exists k :: i < k < j && Ends(ss[k], es[k], n, i)
  {
    if j == i + 1 {
      assert i >= 0 ==> ss[j] == Next(ss[i], es[i], i);
    } else {
      NoLostWork(ss, es, i, j - 1, n);
      if PendingSince(ss[j - 1], n, i) {
        RunInv(ss, es, j - 1);
        StepKeepsPending(ss[j - 1], es[j - 1], j - 1, n, i);
        assert PendingSince(ss[j], n, i) || Ends(ss[j - 1], es[j - 1], n, i);
      } else {
        var k :| i < k < j - 1 && Ends(ss[k], es[k], n, i);
      }
    }
  }

  /** Reads of this node return the node or NotFound. */
  ghost predicate Readable(es: seq<Event>, n: string) {
    forall k :: 0 <= k < |es| ==> es[k] != ReadFails(n)
  }

  ghost predicate Idle(s: State) {
    s.handler == Collecting(false, {}) && s.queue.dirty == {} && s.delayed == {} && s.started == map[]
  }

  /**
   When everything has come to rest and reads of the node returned it or NotFound, every update asked
   for has been settled: by name, by an update of all nodes, and by start-up.
   */
  lemma IdleMeansSettled(ss: seq<State>, es: seq<Event>, i: int, j: nat, n: string)
    requires IsRun(ss, es) && Asks(es, i, n) && i < j < |ss| && Idle(ss[j]) && Readable(es, n)
    ensures exists k :: i < k < j && Settles(ss[k], es[k], n, i)
  {
    NoLostWork(ss, es, i, j, n);
    var k :| i < k < j && Ends(ss[k], es[k], n, i);
    assert es[k] != ReadFails(n);
  }

  // ---- No work is made up ----

  /** Before step `j` the name arrived, or was listed when all nodes were due. */
  ghost predicate Named(es: seq<Event>, j: nat, n: string) {
    exists i :: 0 <= i < j && i < |es| && (es[i] == ReceiveNode(n) || (es[i].TickLists? && n in es[i].nodes))
  }

  /** Step `i` makes all nodes due, start-up being step -1, and they were not listed between it and step `j`. */
  ghost predicate AllDueSince(es: seq<Event>, i: int, j: nat) {
    && -1 <= i < |es| && (i == -1 || es[i] == ReceiveAll)
    && forall k :: i < k < j && k < |es| ==> !es[k].TickLists?
  }

  ghost predicate AllNamed(es: seq<Event>, j: nat) {
    exists i :: i < j && AllDueSince(es, i, j)
  }

  /** Names anywhere on their way to an update or in one. */
  ghost function InWork(s: State): set<string> {
    (if s.handler.Collecting? then s.handler.updateNodes else s.handler.toAdd) +
    s.queue.dirty + s.delayed + s.started.Keys + s.finishing
  }

  ghost predicate Justified(s: State, es: seq<Event>, j: nat) {
    && (forall n :: n in InWork(s) ==> Named(es, j, n))
    && (s.handler.Collecting? && s.handler.updateAll ==> AllNamed(es, j))
  }

  lemma NamedLater(es: seq<Event>, j: nat, n: string)
    requires Named(es, j, n)
    ensures Named(es, j + 1, n)
  {
  }

  lemma NextInWork(s: State, e: Event, k: nat, n: string)
    requires Inv(s) && Enabled(s, e) && n in InWork(Next(s, e, k))
    ensures n in InWork(s) || e == ReceiveNode(n) || (e.TickLists? && n in e.nodes)
  {
    if e == Get { s.queue.GetValid(); }
  }

  lemma NextAll(s: State, es: seq<Event>, k: nat)
    requires k < |es| && Enabled(s, es[k]) && Justified(s, es, k)
    requires var next := Next(s, es[k], k).handler; next.Collecting? && next.updateAll
    ensures AllNamed(es, k + 1)
  {
    if es[k] == ReceiveAll {
      assert AllDueSince(es, k, k + 1);
    } else {
      var i :| i < k && AllDueSince(es, i, k);
      assert AllDueSince(es, i, k + 1);
    }
  }

  /**
   In every run, whatever is queued, delayed or worked on was named before: it arrived, or the lister
   returned it while all nodes were due.
   */
  lemma {:induction false} NoMadeUpWork(ss: seq<State>, es: seq<Event>, j: nat)
    requires IsRun(ss, es) && j < |ss|
    ensures Justified(ss[j], es, j)
  {
    if j == 0 {
      assert AllDueSince(es, -1, 0);
    } else {
      var k := j - 1;
      NoMadeUpWork(ss, es, k);
      RunInv(ss, es, k);
      forall n | n in InWork(ss[j]) ensures Named(es, j, n) {
        NextInWork(ss[k], es[k], k, n);
        if n in InWork(ss[k]) { NamedLater(es, k, n); }
      }
      if ss[j].handler.Collecting? && ss[j].handler.updateAll {
        NextAll(ss[k], es, k);
      }
    }
  }

  // ---- How a name is lost ----

  function Losing(n: string): seq<Event> {
    [ReceiveNode(n), TickLists({n}), QueueOne(n), TickEnd, Get, ReadFails(n), Done(n)]
  }

  function LosingStates(n: string): seq<State> {
    var none, queued, taken := Queue([], {}, {}), Queue([n], {n}, {}), Queue([], {}, {n});
    var rest := Collecting(false, {});
    [START, State(Collecting(true, {n}), none, {}, map[], {}), State(Draining({n}), none, {}, map[], {}),
     State(Draining({}), queued, {}, map[], {}), State(rest, queued, {}, map[], {}),
     State(rest, taken, {}, map[n := 4], {}), State(rest, taken, {}, map[], {n}), State(rest, none, {}, map[], {})]
  }

  /** The name is received and queued. */
  lemma LosingQueued(n: string, k: nat)
    requires k < 4
    ensures Enabled(LosingStates(n)[k], Losing(n)[k])
    ensures Next(LosingStates(n)[k], Losing(n)[k], k) == LosingStates(n)[k + 1]
  {
    assert {} + {n} == {n} && {n} - {n} == {};
  }

  /** It is taken, read without success, and done with. */
  lemma LosingTaken(n: string, k: nat)
    requires 4 <= k < 7
    ensures Enabled(LosingStates(n)[k], Losing(n)[k])
    ensures Next(LosingStates(n)[k], Losing(n)[k], k) == LosingStates(n)[k + 1]
  {
    assert {n} - {n} == {} && map[n := 4] - {n} == map[];
  }

  /** A run that comes to rest with a name received, never updated and never found absent. */
  lemma ReadFailureLoses(n: string)
    ensures IsRun(LosingStates(n), Losing(n)) && Losing(n)[0] == ReceiveNode(n) && Idle(LosingStates(n)[7])
    ensures forall k :: 0 < k < 7 ==> !Settles(LosingStates(n)[k], Losing(n)[k], n, 0)
  {
    forall k | 0 <= k < 7
      ensures Enabled(LosingStates(n)[k], Losing(n)[k])
      ensures Next(LosingStates(n)[k], Losing(n)[k], k) == LosingStates(n)[k + 1]
    {
      if k < 4 { LosingQueued(n, k); } else { LosingTaken(n, k); }
    }
  }

  // ---- The worker code ----

  /** How the read of a node ends. */
  datatype Read = Found | Absent | Unreadable

  /** The event that an attempt ends in: only NotFound is told apart from the other reads. */
  function EventOf(read: Read, updated: bool, n: string): Event {
    if read == Absent then NotFound(n)
    else if !updated then Fail(n)
    else if read == Found then Succeed(n)
    else ReadFails(n)
  }

  /** The pool as its methods see it; each method is the steps above run in one go. */
  class UpdaterPool {
    var queue: Queue
    var delayed: set<string>
    var shuttingDown: bool

    constructor ()
      ensures queue == START.queue && delayed == {} && !shuttingDown
    {
      queue, delayed, shuttingDown := Queue([], {}, {}), {}, false;
    }

    /** `addNode`. */
    method AddNode(n: string)
      requires queue.Valid()
      modifies this
      ensures queue == old(queue).Add(n) && delayed == old(delayed) && shuttingDown == old(shuttingDown)
      ensures queue.Valid() && n in queue.dirty
    {
      queue.AddValid(n);
      queue := queue.Add(n);
    }

    /**
     `processNodeUpdateRequest`. Getting a name blocks while the queue is empty and open, so the call
     returns with a name or, after shutdown, without. Whatever was waiting still waits, but for the
     name that was taken, which is dropped unless its update failed.
     */
    method ProcessNodeUpdateRequest(read: Read, updated: bool) returns (more: bool)
      requires queue.Valid() && (queue.items != [] || shuttingDown)
      modifies this
      ensures queue.Valid() && shuttingDown == old(shuttingDown)
      ensures more <==> old(queue.items) != []
      ensures !more ==> queue == old(queue) && delayed == old(delayed)
      ensures more ==> var n := old(queue.items[0]);
        && queue.items == old(queue.items[1..]) && n !in queue.processing && n !in queue.dirty
        && queue.dirty == old(queue.dirty) - {n} && queue.processing == old(queue.processing)
        && delayed == if EventOf(read, updated, n).Fail? then old(delayed) + {n} else old(delayed)
    {
      if queue.items == [] { return false; }
      var n := queue.items[0];
      queue.GetValid();
      queue := queue.Get();
      if read != Absent && !updated {
        delayed := delayed + {n};
      }
      queue.DoneValid(n);
      queue := queue.Done(n);
      return true;
    }
  }

  /** The method above is the three steps of a worker: take a name, end the attempt, report it done. */
  lemma RequestIsSteps(s: State, read: Read, updated: bool, k: nat)
    requires Inv(s) && s.queue.items != []
    ensures var n := s.queue.items[0];
      && Enabled(s, Get) && Enabled(Next(s, Get, k), EventOf(read, updated, n))
      && Enabled(Next(Next(s, Get, k), EventOf(read, updated, n), k + 1), Done(n))
      && Next(Next(Next(s, Get, k), EventOf(read, updated, n), k + 1), Done(n), k + 2) == s.(
           queue := Queue(s.queue.items[1..], s.queue.dirty - {n}, s.queue.processing),
           delayed := if EventOf(read, updated, n).Fail? then s.delayed + {n} else s.delayed)
  {
    var n := s.queue.items[0];
    s.queue.GetValid();
    NextInv(s, Get, k);
    assert s.started[n := k] - {n} == s.started;
    assert s.finishing + {n} - {n} == s.finishing && s.queue.processing + {n} - {n} == s.queue.processing;
  }
}
