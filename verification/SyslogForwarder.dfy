/** The remote syslog forwarder as a protocol (src/remote_syslog.py, lines 328-539): every lock region,
    queue operation and socket operation is one step, and steps of configure, enqueue, stop and any
    number of workers interleave freely. */
module SyslogForwarder {
  import opened Basics
  import opened SyslogFraming

  datatype Protocol = Tls | Udp | Tcp
  datatype Target = Target(host: string, port: nat, protocol: Protocol)
  datatype Config = Config(enabled: bool, target: Target, minimum: Level, queueSize: nat, generation: nat)

  /** An accepted event. The ticket numbers acceptances; the code stores the generation and the event. */
  datatype Item = Item(ticket: nat, generation: nat, level: Level)
  datatype Entry = Sentinel | Event(item: Item)
  datatype Queue = Queue(entries: seq<Entry>, maxsize: nat)

  /** A thread inside `enqueue`: after reading the configuration, then after reading `_queue`. */
  datatype Enqueuer =
    | Accepting(generation: nat, level: Level)
    | Putting(generation: nat, level: Level, queue: nat)

  /** A worker thread, by the operation it performs next. */
  datatype Worker =
    | Idle
    | Waiting(queue: nat)
    | Got(item: Item)
    | Checked(item: Item, config: Config)
    | Opening(item: Item, config: Config, again: bool)
    | Opened(item: Item, config: Config, again: bool, sock: nat)
    | Ready(item: Item, config: Config, again: bool, sock: nat)
    | Broken(item: Item, config: Config, sock: nat)
    | ReadyUdp(item: Item, config: Config)

  /** What the holder of `_lock` inside `configure` does next; Unlocked when nobody holds it. */
  datatype Lock = Unlocked | Draining(pending: seq<Item>) | Refilling(rest: seq<Item>) | Closing

  datatype Installed = Installed(sock: nat, addr: Target)

  /** Queues are numbered by creation, the last one being `_queue`; sockets by opening, with their peer.
      The last seven fields only record history. */
  datatype State = State(
    configs: seq<Config>, queues: seq<Queue>, lock: Lock, enqueuers: map<nat, Enqueuer>, workers: seq<Worker>,
    stream: Option<Installed>, sockets: seq<Target>, closed: set<nat>,
    accepted: seq<Item>, live: seq<Item>, wire: seq<(Item, Target)>,
    sent: seq<Item>, failed: seq<Item>, discarded: seq<Item>, displaced: seq<Item>)
  {
    predicate Formed() { configs != [] && queues != [] }

    function Current(): Config
      requires configs != []
    {
      configs[|configs| - 1]
    }

    function Top(): nat
      requires queues != []
    {
      |queues| - 1
    }

    function Full(q: nat): bool
      requires q < |queues|
    {
      |queues[q].entries| >= queues[q].maxsize
    }

    function Push(q: nat, e: Entry): State
      requires q < |queues|
    {
      this.(queues := queues[q := queues[q].(entries := queues[q].entries + [e])])
    }

    function Pop(q: nat): State
      requires q < |queues| && queues[q].entries != []
    {
      this.(queues := queues[q := queues[q].(entries := queues[q].entries[1..])])
    }

    function Work(w: nat, next: Worker): State
      requires w < |workers|
    {
      this.(workers := workers[w := next])
    }

    function CloseStream(): State {
      if stream.None? then this else this.(stream := None, closed := closed + {stream.value.sock})
    }
  }

  datatype Step =
    | ConfigBegin(config: Config) | DrainOne | DrainDone | RefillOne | RefillDone | ConfigEnd
    | Spawn | StopSignal | StopClose
    | EnqRead(thread: nat, level: Level) | EnqRef(thread: nat) | EnqPut(thread: nat)
    | WorkRef(w: nat) | WorkTimeout(w: nat) | WorkGet(w: nat) | WorkCheck(w: nat) | WorkFail(w: nat)
    | WorkLook(w: nat) | OpenOk(w: nat) | Install(w: nat) | SendOk(w: nat) | SendFail(w: nat) | Recover(w: nat)

  /** Steps of `configure` up to the point where it closes the sockets. */
  predicate OfResize(step: Step) {
    step.ConfigBegin? || step.DrainOne? || step.DrainDone? || step.RefillOne? || step.RefillDone?
  }

  predicate OfTaking(step: Step) {
    step.WorkRef? || step.WorkTimeout? || step.WorkGet? || step.WorkCheck? || step.WorkFail?
  }

  predicate OfConnecting(step: Step) {
    step.WorkLook? || step.OpenOk? || step.Install?
  }

  predicate OfSending(step: Step) {
    step.SendOk? || step.SendFail? || step.Recover?
  }

  predicate OfWorker(step: Step) {
    OfTaking(step) || OfConnecting(step) || OfSending(step)
  }

  /** The events a resize keeps: the newest `n`, or all for n == 0 (`pending[-0:]` is the whole list). */
  function Newest(pending: seq<Item>, n: nat): seq<Item> {
    if n == 0 || |pending| <= n then pending else pending[|pending| - n..]
  }

  function Oldest(pending: seq<Item>, n: nat): seq<Item> {
    pending[..|pending| - |Newest(pending, n)|]
  }

  predicate Usable(s: State, config: Config)
    requires s.configs != []
  {
    s.Current().generation == config.generation && s.Current().enabled && s.Current().target == config.target
  }

  predicate Enabled(s: State, step: Step) {
    s.Formed() &&
    match step
    case ConfigBegin(_) => s.lock.Unlocked?
    case DrainOne => s.lock.Draining? && s.queues[s.Top()].entries != []
    case DrainDone => s.lock.Draining? && s.queues[s.Top()].entries == []
    case RefillOne => s.lock.Refilling? && s.lock.rest != []
    case RefillDone => s.lock.Refilling? && s.lock.rest == []
    case ConfigEnd => s.lock.Closing?
    case Spawn | StopSignal | StopClose => s.lock.Unlocked?
    case EnqRead(t, _) => s.lock.Unlocked? && t !in s.enqueuers
    case EnqRef(t) => t in s.enqueuers && s.enqueuers[t].Accepting?
    case EnqPut(t) => t in s.enqueuers && s.enqueuers[t].Putting? && s.enqueuers[t].queue < |s.queues|
    case WorkRef(w) => w < |s.workers| && s.workers[w].Idle?
    case WorkTimeout(w) => w < |s.workers| && s.workers[w].Waiting?
    case WorkGet(w) => w < |s.workers| && s.workers[w].Waiting? && s.workers[w].queue < |s.queues|
      && s.queues[s.workers[w].queue].entries != []
    case WorkCheck(w) => s.lock.Unlocked? && w < |s.workers| && s.workers[w].Got?
    case WorkFail(w) => w < |s.workers| && (s.workers[w].Checked? || s.workers[w].Opening?)
    case WorkLook(w) => s.lock.Unlocked? && w < |s.workers| && s.workers[w].Checked?
    case OpenOk(w) => w < |s.workers| && s.workers[w].Opening?
    case Install(w) => s.lock.Unlocked? && w < |s.workers| && s.workers[w].Opened?
    case SendOk(w) => w < |s.workers| &&
      (s.workers[w].ReadyUdp? ||
        (s.workers[w].Ready? && s.workers[w].sock < |s.sockets| && s.workers[w].sock !in s.closed))
    case SendFail(w) => w < |s.workers| &&
      (s.workers[w].ReadyUdp? || (s.workers[w].Ready? && s.workers[w].sock < |s.sockets|))
    case Recover(w) => s.lock.Unlocked? && w < |s.workers| && s.workers[w].Broken?
  }

  /** The peer the bytes of a ready worker go to: its socket's, or for UDP the configured target. */
  function Peer(s: State, k: Worker): Target
    requires k.ReadyUdp? || (k.Ready? && k.sock < |s.sockets|)
  {
    if k.ReadyUdp? then k.config.target else s.sockets[k.sock]
  }

  function Apply(s: State, step: Step): State
    requires Enabled(s, step)
  {
    match step
    case ConfigBegin(c) =>
      var applied := c.(generation := |s.configs|);
      var resize := c.queueSize != s.Current().queueSize || s.queues[s.Top()].maxsize != c.queueSize;
      s.(configs := s.configs + [applied], lock := if resize then Draining([]) else Closing)
    case DrainOne =>
      var e := s.queues[s.Top()].entries[0];
      var t := s.Pop(s.Top());
      if e.Sentinel? then t else t.(lock := Draining(s.lock.pending + [e.item]))
    case DrainDone =>
      var n := s.Current().queueSize;
      s.(queues := s.queues + [Queue([], if n < 1 then 1 else n)],
         displaced := s.displaced + Oldest(s.lock.pending, n),
         lock := Refilling(Newest(s.lock.pending, n)))
    case RefillOne =>
      if s.Full(s.Top()) then s.(displaced := s.displaced + s.lock.rest, lock := Closing)
      else s.Push(s.Top(), Event(s.lock.rest[0])).(lock := Refilling(s.lock.rest[1..]))
    case RefillDone => s.(lock := Closing)
    case ConfigEnd => s.CloseStream().(lock := Unlocked)
    case Spawn => s.(workers := s.workers + [Idle])
    case StopSignal => if s.Full(s.Top()) then s else s.Push(s.Top(), Sentinel)
    case StopClose => s.CloseStream()
    case EnqRead(t, level) =>
      if s.Current().enabled && MeetsMinimumLevel(level, s.Current().minimum)
      then s.(enqueuers := s.enqueuers[t := Accepting(s.Current().generation, level)])
      else s
    case EnqRef(t) =>
      s.(enqueuers := s.enqueuers[t := Putting(s.enqueuers[t].generation, s.enqueuers[t].level, s.Top())])
    case EnqPut(t) =>
      var e := s.enqueuers[t];
      var done := s.(enqueuers := s.enqueuers - {t});
      var item := Item(|s.accepted|, e.generation, e.level);
      if s.Full(e.queue) then done
      else done.Push(e.queue, Event(item)).(accepted := s.accepted + [item])
    case WorkRef(w) => s.Work(w, Waiting(s.Top()))
    case WorkTimeout(w) => s.Work(w, Idle)
    case WorkGet(w) =>
      var q := s.workers[w].queue;
      var e := s.queues[q].entries[0];
      if e.Sentinel? then s.Pop(q).Work(w, Idle)
      else
        var t := s.Pop(q).Work(w, Got(e.item));
        if e.item.generation == s.Current().generation then t.(live := s.live + [e.item]) else t
    case WorkCheck(w) =>
      var item := s.workers[w].item;
      if item.generation != s.Current().generation || !s.Current().enabled
      then s.Work(w, Idle).(discarded := s.discarded + [item])
      else s.Work(w, Checked(item, s.Current()))
    case WorkFail(w) => s.Work(w, Idle).(failed := s.failed + [s.workers[w].item])
    case WorkLook(w) =>
      var k := s.workers[w];
      if k.config.target.protocol == Udp then s.Work(w, ReadyUdp(k.item, k.config))
      else if s.stream.Some? && s.stream.value.addr == k.config.target
      then s.Work(w, Ready(k.item, k.config, false, s.stream.value.sock))
      else s.Work(w, Opening(k.item, k.config, false))
    case OpenOk(w) =>
      var k := s.workers[w];
      s.Work(w, Opened(k.item, k.config, k.again, |s.sockets|)).(sockets := s.sockets + [k.config.target])
    case Install(w) =>
      var k := s.workers[w];
      if !Usable(s, k.config)
      then s.Work(w, Idle).(closed := s.closed + {k.sock}, discarded := s.discarded + [k.item])
      else
        var t := s.CloseStream().Work(w, Ready(k.item, k.config, k.again, k.sock));
        t.(stream := Some(Installed(k.sock, k.config.target)))
    case SendOk(w) =>
      var k := s.workers[w];
      s.Work(w, Idle).(wire := s.wire + [(k.item, Peer(s, k))], sent := s.sent + [k.item])
    case SendFail(w) =>
      var k := s.workers[w];
      var tried := s.(wire := s.wire + [(k.item, Peer(s, k))]);
      if k.Ready? && !k.again then tried.Work(w, Broken(k.item, k.config, k.sock))
      else tried.Work(w, Idle).(failed := s.failed + [k.item])
    case Recover(w) =>
      var k := s.workers[w];
      var t := if s.stream.Some? && s.stream.value.sock == k.sock then s.CloseStream() else s;
      if Usable(s, k.config) then t.Work(w, Opening(k.item, s.Current(), true))
      else t.Work(w, Idle).(discarded := s.discarded + [k.item])
  }

  // ---------------------------------------------------------------- invariants

  predicate ItemFormed(configs: seq<Config>, item: Item) {
    item.generation < |configs| && configs[item.generation].enabled
    && MeetsMinimumLevel(item.level, configs[item.generation].minimum)
  }

  /** A worker past the check holds the configuration that accepted its event. */
  predicate Past(k: Worker) { !k.Idle? && !k.Waiting? && !k.Got? }

  predicate WorkerFormed(configs: seq<Config>, sockets: seq<Target>, queues: nat, k: Worker) {
    && (!k.Idle? && !k.Waiting? ==> ItemFormed(configs, k.item))
    && (Past(k) ==> k.config == configs[k.item.generation])
    && (k.Waiting? ==> k.queue < queues)
    && (k.Opened? || k.Ready? || k.Broken? ==> k.sock < |sockets| && sockets[k.sock] == k.config.target)
  }

  predicate EnqueuerFormed(configs: seq<Config>, queues: nat, e: Enqueuer) {
    && ItemFormed(configs, Item(0, e.generation, e.level))
    && (e.Putting? ==> e.queue < queues)
  }

  /** Every event in the system carries the generation of an enabled configuration that wants it;
      queues respect their bounds. */
  ghost predicate Shape(s: State) {
    && s.Formed()
    && (forall g :: 0 <= g < |s.configs| ==> s.configs[g].generation == g)
    && (forall q, i :: 0 <= q < |s.queues| && 0 <= i < |s.queues[q].entries| && s.queues[q].entries[i].Event? ==>
          ItemFormed(s.configs, s.queues[q].entries[i].item))
    && (forall q :: 0 <= q < |s.queues| ==> |s.queues[q].entries| <= s.queues[q].maxsize)
    && (s.lock.Draining? ==> forall i :: 0 <= i < |s.lock.pending| ==> ItemFormed(s.configs, s.lock.pending[i]))
    && (s.lock.Refilling? ==> forall i :: 0 <= i < |s.lock.rest| ==> ItemFormed(s.configs, s.lock.rest[i]))
    && (forall t :: t in s.enqueuers ==> EnqueuerFormed(s.configs, |s.queues|, s.enqueuers[t]))
    && (forall w :: 0 <= w < |s.workers| ==> WorkerFormed(s.configs, s.sockets, |s.queues|, s.workers[w]))
  }

  /** While the lock is free, the installed stream is open and connected to the target of the current,
      enabled configuration; every opened socket is closed, installed, or held by one worker about to install it. */
  ghost predicate Sockets(s: State) {
    && s.Formed()
    && (forall k :: k in s.closed ==> k < |s.sockets|)
    && (s.stream.Some? ==>
          && s.stream.value.sock < |s.sockets| && s.stream.value.sock !in s.closed
          && s.sockets[s.stream.value.sock] == s.stream.value.addr
          && (s.lock.Unlocked? ==> s.Current().enabled && s.stream.value.addr == s.Current().target))
    && (forall w :: 0 <= w < |s.workers| && s.workers[w].Opened? ==>
          s.workers[w].sock !in s.closed && (s.stream.Some? ==> s.workers[w].sock != s.stream.value.sock))
    && (forall v, w :: 0 <= v < w < |s.workers| && s.workers[v].Opened? && s.workers[w].Opened? ==>
          s.workers[v].sock != s.workers[w].sock)
    && (forall k :: 0 <= k < |s.sockets| ==>
          k in s.closed || (s.stream.Some? && s.stream.value.sock == k)
          || Held(s.workers, k))
  }

  predicate Held(workers: seq<Worker>, sock: nat) {
    exists w :: 0 <= w < |workers| && workers[w].Opened? && workers[w].sock == sock
  }

  predicate Fresh(s: State, item: Item)
    requires s.configs != []
  {
    item.generation == |s.configs| - 1
  }

  predicate NoneOf(entries: seq<Entry>, generation: nat) {
    forall i :: 0 <= i < |entries| && entries[i].Event? ==> entries[i].item.generation != generation
  }

  /** The events of one generation have ascending tickets above `low` and below `high`. */
  predicate Ascending(entries: seq<Entry>, generation: nat, low: int, high: nat) {
    && (forall i :: 0 <= i < |entries| && entries[i].Event? && entries[i].item.generation == generation ==>
          low < entries[i].item.ticket < high)
    && (forall i, j :: 0 <= i < j < |entries| && entries[i].Event? && entries[j].Event?
          && entries[i].item.generation == generation && entries[j].item.generation == generation
          ==> entries[i].item.ticket < entries[j].item.ticket)
  }

  function LastTicket(items: seq<Item>): int {
    if items == [] then -1 else items[|items| - 1].ticket
  }

  /** Events taken while their configuration is current are taken in acceptance order: those still
      pending wait in the current queue, in that order, behind all taken ones. */
  ghost predicate Order(s: State) {
    && s.Formed()
    && (forall i, j :: 0 <= i < j < |s.live| ==> s.live[i].ticket < s.live[j].ticket)
    && LastTicket(s.live) < |s.accepted|
    && (forall q :: 0 <= q < s.Top() ==> NoneOf(s.queues[q].entries, |s.configs| - 1))
    && Ascending(s.queues[s.Top()].entries, |s.configs| - 1, LastTicket(s.live), |s.accepted|)
    && (s.lock.Draining? ==> NoneOf(s.queues[s.Top()].entries, |s.configs| - 1))
    && (s.lock.Draining? ==> forall i :: 0 <= i < |s.lock.pending| ==> !Fresh(s, s.lock.pending[i]))
    && (s.lock.Refilling? ==> forall i :: 0 <= i < |s.lock.rest| ==> !Fresh(s, s.lock.rest[i]))
    && (forall t :: t in s.enqueuers && s.enqueuers[t].generation == |s.configs| - 1 ==>
          s.lock.Unlocked? && (s.enqueuers[t].Putting? ==> s.enqueuers[t].queue == s.Top()))
  }

  ghost predicate Traffic(s: State) {
    && s.Formed()
    && (forall w :: 0 <= w < |s.workers| && Past(s.workers[w]) ==> s.workers[w].item in s.live)
    && (forall w :: 0 <= w < |s.workers| && s.workers[w].Got? && Fresh(s, s.workers[w].item) ==>
          s.workers[w].item in s.live)
    && (forall i :: 0 <= i < |s.wire| ==> s.wire[i].0 in s.live)
    && (forall i :: 0 <= i < |s.sent| ==> s.sent[i] in s.live)
    && (forall i :: 0 <= i < |s.wire| ==>
          ItemFormed(s.configs, s.wire[i].0) && s.wire[i].1 == s.configs[s.wire[i].0.generation].target)
  }

  // ---------------------------------------------------------------- conservation

  function Count(items: seq<Item>, x: Item): nat { multiset(items)[x] }

  function OnEntry(e: Entry, x: Item): nat {
    if e.Event? && e.item == x then 1 else 0
  }

  function OnQueue(entries: seq<Entry>, x: Item): nat {
    if entries == [] then 0 else OnEntry(entries[0], x) + OnQueue(entries[1..], x)
  }

  function OnQueues(queues: seq<Queue>, x: Item): nat {
    if queues == [] then 0 else OnQueue(queues[0].entries, x) + OnQueues(queues[1..], x)
  }

  function OnWorker(k: Worker, x: Item): nat {
    if !k.Idle? && !k.Waiting? && k.item == x then 1 else 0
  }

  function OnWorkers(workers: seq<Worker>, x: Item): nat {
    if workers == [] then 0 else OnWorker(workers[0], x) + OnWorkers(workers[1..], x)
  }

  function OnLock(lock: Lock, x: Item): nat {
    match lock
    case Draining(pending) => Count(pending, x)
    case Refilling(rest) => Count(rest, x)
    case _ => 0
  }

  /** How often an event was taken from a queue: it ended sent, failed or discarded, or is in flight. */
  function Taken(s: State, x: Item): nat {
    Count(s.sent, x) + Count(s.failed, x) + Count(s.discarded, x) + OnWorkers(s.workers, x)
  }

  /** How often it is pending (in the current queue, in one swapped out, or in a running resize) or displaced. */
  function Untaken(s: State, x: Item): nat {
    OnQueues(s.queues, x) + OnLock(s.lock, x) + Count(s.displaced, x)
  }

  predicate Accounted(s: State, x: Item) {
    Count(s.accepted, x) == Taken(s, x) + Untaken(s, x) && Count(s.live, x) <= Taken(s, x)
  }

  /** Every accepted event is in exactly one place. */
  ghost predicate Conserved(s: State) {
    && (forall i :: 0 <= i < |s.accepted| ==> s.accepted[i].ticket == i)
    && forall x: Item :: Accounted(s, x)
  }

  lemma {:induction false} OnQueuePush(entries: seq<Entry>, e: Entry, x: Item)
    ensures OnQueue(entries + [e], x) == OnQueue(entries, x) + OnEntry(e, x)
  {
    if entries == [] {
      assert entries + [e] == [e] && [e][1..] == [];
    } else {
      assert (entries + [e])[1..] == entries[1..] + [e];
      OnQueuePush(entries[1..], e, x);
    }
  }

  lemma {:induction false} OnQueuesUpdate(queues: seq<Queue>, q: nat, next: Queue, x: Item)
    requires q < |queues|
    ensures OnQueues(queues[q := next], x) ==
      OnQueues(queues, x) - OnQueue(queues[q].entries, x) + OnQueue(next.entries, x)
  {
    if q == 0 {
      assert queues[0 := next][1..] == queues[1..];
    } else {
      assert queues[q := next][1..] == queues[1..][q - 1 := next];
      OnQueuesUpdate(queues[1..], q - 1, next, x);
    }
  }

  lemma {:induction false} OnQueuesNew(queues: seq<Queue>, maxsize: nat, x: Item)
    ensures OnQueues(queues + [Queue([], maxsize)], x) == OnQueues(queues, x)
  {
    var empty := Queue([], maxsize);
    if queues == [] {
      assert queues + [empty] == [empty] && [empty][1..] == [];
    } else {
      assert (queues + [empty])[1..] == queues[1..] + [empty];
      OnQueuesNew(queues[1..], maxsize, x);
    }
  }

  lemma {:induction false} OnQueuesMember(queues: seq<Queue>, q: nat, i: nat)
    requires q < |queues| && i < |queues[q].entries| && queues[q].entries[i].Event?
    ensures OnQueues(queues, queues[q].entries[i].item) > 0
  {
    if q > 0 {
      OnQueuesMember(queues[1..], q - 1, i);
    } else {
      OnQueueMember(queues[0].entries, i);
    }
  }

  lemma {:induction false} OnQueueMember(entries: seq<Entry>, i: nat)
    requires i < |entries| && entries[i].Event?
    ensures OnQueue(entries, entries[i].item) > 0
  {
    if i > 0 {
      OnQueueMember(entries[1..], i - 1);
    }
  }

  lemma {:induction false} OnWorkersUpdate(workers: seq<Worker>, w: nat, next: Worker, x: Item)
    requires w < |workers|
    ensures OnWorkers(workers[w := next], x) == OnWorkers(workers, x) - OnWorker(workers[w], x) + OnWorker(next, x)
  {
    if w == 0 {
      assert workers[0 := next][1..] == workers[1..];
    } else {
      assert workers[w := next][1..] == workers[1..][w - 1 := next];
      OnWorkersUpdate(workers[1..], w - 1, next, x);
    }
  }

  lemma {:induction false} OnWorkersNew(workers: seq<Worker>, x: Item)
    ensures OnWorkers(workers + [Idle], x) == OnWorkers(workers, x)
  {
    if workers == [] {
      assert workers + [Idle] == [Idle] && [Idle][1..] == [];
    } else {
      assert (workers + [Idle])[1..] == workers[1..] + [Idle];
      OnWorkersNew(workers[1..], x);
    }
  }

  lemma CountSnoc(a: seq<Item>, y: Item, x: Item)
    ensures Count(a + [y], x) == Count(a, x) + OnEntry(Event(y), x)
  {
  }

  lemma CountJoin(a: seq<Item>, b: seq<Item>, x: Item)
    ensures Count(a + b, x) == Count(a, x) + Count(b, x)
  {
  }

  lemma CountHead(a: seq<Item>, x: Item)
    requires a != []
    ensures Count(a, x) == OnEntry(Event(a[0]), x) + Count(a[1..], x)
  {
    assert a == [a[0]] + a[1..];
  }

  lemma NothingYet(x: Item)
    ensures Count([], x) == 0 && OnQueue([], x) == 0 && OnWorkers([], x) == 0 && OnQueues([], x) == 0
  {
  }

  lemma OnQueuePop(entries: seq<Entry>, x: Item)
    requires entries != []
    ensures OnQueue(entries, x) == OnEntry(entries[0], x) + OnQueue(entries[1..], x)
  {
  }

  // ---------------------------------------------------------------- steps

  lemma ShapeStep(s: State, step: Step)
    requires Shape(s) && Sockets(s) && Enabled(s, step)
    ensures Shape(Apply(s, step))
  {
    if OfResize(step) {
      ShapeConfigStep(s, step);
    } else if OfWorker(step) {
      ShapeWorkStep(s, step);
    } else {
      ShapeEnqueueStep(s, step);
    }
  }

  lemma ShapeConfigStepDrain(s: State, step: Step)
    requires Shape(s) && Enabled(s, step)
    requires OfResize(step)
    requires step.ConfigBegin? || step.DrainOne?
    ensures Shape(Apply(s, step))
  {
  }

  lemma ShapeConfigStepRefill(s: State, step: Step)
    requires Shape(s) && Enabled(s, step)
    requires OfResize(step)
    requires !step.ConfigBegin? && !step.DrainOne?
    ensures Shape(Apply(s, step))
  {
    if step.DrainDone? {
      ShapeDrainDone(s);
    } else {
      ShapeRefilling(s, step);
    }
  }

  lemma ShapeDrainDone(s: State)
    requires Shape(s) && Enabled(s, DrainDone)
    ensures Shape(Apply(s, DrainDone))
  {
    hide ItemFormed;
  }

  lemma ShapeRefilling(s: State, step: Step)
    requires Shape(s) && Enabled(s, step) && (step.RefillOne? || step.RefillDone?)
    ensures Shape(Apply(s, step))
  {
    hide ItemFormed, WorkerFormed;
  }

  lemma ShapeConfigStep(s: State, step: Step)
    requires Shape(s) && Enabled(s, step)
    requires OfResize(step)
    ensures Shape(Apply(s, step))
  {
    if step.ConfigBegin? || step.DrainOne? {
      ShapeConfigStepDrain(s, step);
    } else {
      ShapeConfigStepRefill(s, step);
    }
  }

  lemma ShapeEnqueueStep(s: State, step: Step)
    requires Shape(s) && Enabled(s, step)
    requires !OfResize(step) && !OfWorker(step)
    ensures Shape(Apply(s, step))
  {
    if step.EnqRead? || step.EnqRef? || step.EnqPut? {
      ShapeEnqueuer(s, step);
    } else {
      ShapeSignal(s, step);
    }
  }

  lemma ShapeEnqueuer(s: State, step: Step)
    requires Shape(s) && Enabled(s, step) && (step.EnqRead? || step.EnqRef? || step.EnqPut?)
    ensures Shape(Apply(s, step))
  {
    hide WorkerFormed;
  }

  lemma ShapeSignal(s: State, step: Step)
    requires Shape(s) && Enabled(s, step) && (step.ConfigEnd? || step.Spawn? || step.StopSignal? || step.StopClose?)
    ensures Shape(Apply(s, step))
  {
    hide ItemFormed, EnqueuerFormed;
  }

  /** A step that only moves one worker, and may open sockets, keeps the shape if that worker is formed. */
  lemma ShapeWorker(s: State, t: State, w: nat)
    requires Shape(s) && w < |s.workers| == |t.workers| && t.workers == s.workers[w := t.workers[w]]
    requires t.configs == s.configs && t.queues == s.queues && t.lock == s.lock && t.enqueuers == s.enqueuers
    requires s.sockets <= t.sockets
    requires WorkerFormed(s.configs, t.sockets, |s.queues|, t.workers[w])
    ensures Shape(t)
  {
    hide ItemFormed;
  }

  lemma ShapeWorkStep(s: State, step: Step)
    requires Shape(s) && Sockets(s) && Enabled(s, step) && OfWorker(step)
    ensures Shape(Apply(s, step))
  {
    var k := s.workers[step.w];
    assert WorkerFormed(s.configs, s.sockets, |s.queues|, k);
    assert s.Current() == s.configs[|s.configs| - 1] && s.Current().generation == |s.configs| - 1;
    if step.WorkGet? {
      ShapeGet(s, step.w);
    } else if OfTaking(step) {
      ShapeTaking(s, step);
    } else if OfConnecting(step) {
      ShapeConnecting(s, step);
    } else {
      assert Past(k);
      ShapeSending(s, step);
    }
  }

  lemma ShapeTaking(s: State, step: Step)
    requires Shape(s) && Enabled(s, step) && OfTaking(step) && !step.WorkGet?
    requires s.Current().generation == |s.configs| - 1 &&
      WorkerFormed(s.configs, s.sockets, |s.queues|, s.workers[step.w])
    ensures Shape(Apply(s, step))
  {
    hide Shape, ItemFormed;
    ShapeWorker(s, Apply(s, step), step.w);
  }

  lemma ShapeConnecting(s: State, step: Step)
    requires Shape(s) && Sockets(s) && Enabled(s, step) && OfConnecting(step)
    requires WorkerFormed(s.configs, s.sockets, |s.queues|, s.workers[step.w])
    ensures Shape(Apply(s, step))
  {
    if step.WorkLook? {
      assert s.stream.Some? ==>
        s.stream.value.sock < |s.sockets| && s.sockets[s.stream.value.sock] == s.stream.value.addr;
      hide Shape, Sockets, ItemFormed;
      ShapeWorker(s, Apply(s, step), step.w);
    } else {
      hide Sockets;
      ShapeInstalling(s, step);
    }
  }

  lemma ShapeInstalling(s: State, step: Step)
    requires Shape(s) && Enabled(s, step) && (step.OpenOk? || step.Install?)
    requires WorkerFormed(s.configs, s.sockets, |s.queues|, s.workers[step.w])
    ensures Shape(Apply(s, step))
  {
    hide Shape, ItemFormed;
    ShapeWorker(s, Apply(s, step), step.w);
  }

  lemma ShapeSending(s: State, step: Step)
    requires Shape(s) && Enabled(s, step) && OfSending(step)
    requires s.workers[step.w].config.generation == s.workers[step.w].item.generation
    requires s.Current().generation == |s.configs| - 1 &&
      WorkerFormed(s.configs, s.sockets, |s.queues|, s.workers[step.w])
    ensures Shape(Apply(s, step))
  {
    hide Shape, ItemFormed;
    ShapeWorker(s, Apply(s, step), step.w);
  }

  lemma ShapeGet(s: State, w: nat)
    requires Shape(s) && Enabled(s, WorkGet(w))
    ensures Shape(Apply(s, WorkGet(w)))
  {
    hide ItemFormed;
    var q := s.workers[w].queue;
    var t := s.Pop(q);
    assert forall i :: 0 <= i < |t.queues[q].entries| ==> t.queues[q].entries[i] == s.queues[q].entries[i + 1];
    assert Shape(t);
    var u := Apply(s, WorkGet(w));
    ShapeWorker(t, u.(live := t.live), w);
  }

  lemma HeldUpdate(workers: seq<Worker>, w: nat, next: Worker)
    requires w < |workers|
    ensures forall k :: Held(workers, k) && !(workers[w].Opened? && workers[w].sock == k) ==>
      Held(workers[w := next], k)
    ensures next.Opened? ==> Held(workers[w := next], next.sock)
  {
    forall k | Held(workers, k) && !(workers[w].Opened? && workers[w].sock == k) ensures Held(workers[w := next], k) {
      var v :| 0 <= v < |workers| && workers[v].Opened? && workers[v].sock == k;
      assert workers[w := next][v] == workers[v];
    }
    assert workers[w := next][w] == next;
  }

  lemma SocketsStep(s: State, step: Step)
    requires Shape(s) && Sockets(s) && Enabled(s, step)
    ensures Sockets(Apply(s, step))
  {
    if OfWorker(step) {
      SocketsWorkStep(s, step);
    } else {
      SocketsLockStep(s, step);
    }
  }

  lemma SocketsLockStep(s: State, step: Step)
    requires Sockets(s) && Enabled(s, step) && !OfWorker(step)
    ensures Sockets(Apply(s, step))
  {
    if step.Spawn? {
      SocketsSpawn(s);
    } else if step.ConfigEnd? || step.StopClose? {
      SocketsClosed(s);
    } else {
      hide Sockets;
      SocketsUntouched(s, Apply(s, step));
    }
  }

  lemma SocketsUntouched(s: State, t: State)
    requires Sockets(s) && t.Formed() && t.workers == s.workers && t.stream == s.stream
    requires t.sockets == s.sockets && t.closed == s.closed
    requires t.configs == s.configs || !t.lock.Unlocked?
    requires t.lock.Unlocked? ==> s.lock.Unlocked?
    ensures Sockets(t)
  {
  }

  lemma SocketsSpawn(s: State)
    requires Sockets(s) && Enabled(s, Spawn)
    ensures Sockets(Apply(s, Spawn))
  {
    forall k | Held(s.workers, k) ensures Held(s.workers + [Idle], k) {
      var v :| 0 <= v < |s.workers| && s.workers[v].Opened? && s.workers[v].sock == k;
      assert (s.workers + [Idle])[v] == s.workers[v];
    }
  }

  lemma SocketsWorker(s: State, t: State, w: nat)
    requires Sockets(s) && w < |s.workers| == |t.workers| && t.workers == s.workers[w := t.workers[w]]
    requires t.Formed() && t.configs == s.configs && t.lock == s.lock
    requires t.stream == s.stream && t.sockets == s.sockets && t.closed == s.closed
    requires !s.workers[w].Opened? && !t.workers[w].Opened?
    ensures Sockets(t)
  {
    HeldUpdate(s.workers, w, t.workers[w]);
  }

  lemma SocketsTakingStep(s: State, step: Step)
    requires Sockets(s) && Enabled(s, step) && OfTaking(step)
    ensures Sockets(Apply(s, step))
  {
    hide Sockets;
    SocketsWorker(s, Apply(s, step), step.w);
  }

  lemma SocketsConnectingStepOpen(s: State, step: Step)
    requires Shape(s) && Sockets(s) && Enabled(s, step) && OfConnecting(step)
    requires step.OpenOk?
    ensures Sockets(Apply(s, step))
  {
    HeldUpdate(s.workers, step.w, Apply(s, step).workers[step.w]);
  }

  lemma SocketsConnectingStepLook(s: State, step: Step)
    requires Sockets(s) && Enabled(s, step) && step.WorkLook?
    ensures Sockets(Apply(s, step))
  {
    hide Sockets;
    SocketsWorker(s, Apply(s, step), step.w);
  }

  lemma SocketsConnectingStepInstall(s: State, step: Step)
    requires Shape(s) && Sockets(s) && Enabled(s, step) && step.Install?
    ensures Sockets(Apply(s, step))
  {
    var k := s.workers[step.w];
    assert k.sock < |s.sockets| && s.sockets[k.sock] == k.config.target && k.sock !in s.closed;
    hide Shape;
    HeldUpdate(s.workers, step.w, Apply(s, step).workers[step.w]);
    if Usable(s, k.config) {
      SocketsReplaced(s, step.w);
    }
  }

  lemma SocketsReplaced(s: State, w: nat)
    requires Sockets(s) && Enabled(s, Install(w)) && Usable(s, s.workers[w].config)
    requires s.workers[w].sock < |s.sockets| && s.sockets[s.workers[w].sock] == s.workers[w].config.target
    ensures Sockets(Apply(s, Install(w)))
  {
    HeldUpdate(s.workers, w, Apply(s, Install(w)).workers[w]);
  }

  lemma SocketsConnectingStep(s: State, step: Step)
    requires Shape(s) && Sockets(s) && Enabled(s, step) && OfConnecting(step)
    ensures Sockets(Apply(s, step))
  {
    if step.OpenOk? {
      SocketsConnectingStepOpen(s, step);
    } else if step.WorkLook? {
      SocketsConnectingStepLook(s, step);
    } else {
      SocketsConnectingStepInstall(s, step);
    }
  }

  lemma SocketsClosed(s: State)
    requires Sockets(s)
    ensures Sockets(s.CloseStream()) && s.CloseStream().Formed()
  {
  }

  lemma SocketsSendingStepRecover(s: State, step: Step)
    requires Sockets(s) && Enabled(s, step) && step.Recover?
    ensures Sockets(Apply(s, step))
  {
    SocketsClosed(s);
    hide Sockets;
    var k := s.workers[step.w];
    var t := if s.stream.Some? && s.stream.value.sock == k.sock then s.CloseStream() else s;
    SocketsWorker(t, Apply(s, step), step.w);
  }

  lemma SocketsSendingStepSend(s: State, step: Step)
    requires Sockets(s) && Enabled(s, step) && OfSending(step) && !step.Recover?
    ensures Sockets(Apply(s, step))
  {
    hide Sockets;
    SocketsWorker(s, Apply(s, step), step.w);
  }

  lemma SocketsSendingStep(s: State, step: Step)
    requires Shape(s) && Sockets(s) && Enabled(s, step) && OfSending(step)
    ensures Sockets(Apply(s, step))
  {
    if step.Recover? {
      SocketsSendingStepRecover(s, step);
    } else {
      SocketsSendingStepSend(s, step);
    }
  }

  lemma SocketsWorkStep(s: State, step: Step)
    requires Shape(s) && Sockets(s) && Enabled(s, step) && OfWorker(step)
    ensures Sockets(Apply(s, step))
  {
    if OfTaking(step) {
      SocketsTakingStep(s, step);
    } else if OfConnecting(step) {
      SocketsConnectingStep(s, step);
    } else {
      SocketsSendingStep(s, step);
    }
  }

  lemma PushAscending(entries: seq<Entry>, e: Entry, generation: nat, low: int, high: nat)
    requires Ascending(entries, generation, low, high) && low < high
    requires e.Event? && e.item.generation == generation ==> e.item.ticket == high
    ensures Ascending(entries + [e], generation, low, high + 1)
    ensures !(e.Event? && e.item.generation == generation) ==> Ascending(entries + [e], generation, low, high)
    ensures NoneOf(entries, generation) && !(e.Event? && e.item.generation == generation) ==>
      NoneOf(entries + [e], generation)
  {
  }

  lemma PopAscending(entries: seq<Entry>, generation: nat, low: int, high: nat)
    requires entries != [] && Ascending(entries, generation, low, high)
    ensures Ascending(entries[1..], generation, if entries[0].Event? &&
      entries[0].item.generation == generation then entries[0].item.ticket else low, high)
    ensures NoneOf(entries, generation) ==> NoneOf(entries[1..], generation)
  {
  }

  lemma NewGeneration(s: State, entries: seq<Entry>, low: int, high: nat)
    requires forall i :: 0 <= i < |entries| && entries[i].Event? ==> ItemFormed(s.configs, entries[i].item)
    ensures NoneOf(entries, |s.configs|) && Ascending(entries, |s.configs|, low, high)
  {
  }

  lemma OrderStep(s: State, step: Step)
    requires Shape(s) && Order(s) && Enabled(s, step)
    ensures Order(Apply(s, step))
  {
    if step.WorkGet? {
      OrderGet(s, step.w);
    } else if step.EnqPut? {
      OrderPut(s, step.thread);
    } else if OfResize(step) {
      OrderResizeStep(s, step);
    } else {
      OrderOtherStep(s, step);
    }
  }

  lemma OrderResizeStep(s: State, step: Step)
    requires Shape(s) && Order(s) && Enabled(s, step) && OfResize(step)
    ensures Order(Apply(s, step))
  {
    if step.ConfigBegin? {
      OrderBegin(s, step);
    } else if step.DrainOne? {
      OrderDrain(s);
    } else {
      OrderRefill(s, step);
    }
  }

  lemma OrderBegin(s: State, step: Step)
    requires Shape(s) && Order(s) && Enabled(s, step) && step.ConfigBegin?
    ensures Order(Apply(s, step))
  {
    forall q | 0 <= q < |s.queues|
      ensures NoneOf(s.queues[q].entries, |s.configs|)
      ensures Ascending(s.queues[q].entries, |s.configs|, LastTicket(s.live), |s.accepted|)
    {
      NewGeneration(s, s.queues[q].entries, LastTicket(s.live), |s.accepted|);
    }
    hide Ascending, NoneOf;
  }

  lemma OrderDrain(s: State)
    requires Order(s) && Enabled(s, DrainOne)
    ensures Order(Apply(s, DrainOne))
  {
    var top := s.queues[s.Top()].entries;
    PopAscending(top, |s.configs| - 1, LastTicket(s.live), |s.accepted|);
    NoneOfPop(top, |s.configs| - 1);
    hide Ascending, NoneOf;
  }

  lemma OrderRefill(s: State, step: Step)
    requires Order(s) && Enabled(s, step) && (step.DrainDone? || step.RefillOne? || step.RefillDone?)
    ensures Order(Apply(s, step))
  {
    if step.RefillOne? && !s.Full(s.Top()) {
      OrderRefillOne(s);
    } else {
      OrderNewQueue(s, step);
    }
  }

  lemma OrderNewQueue(s: State, step: Step)
    requires Order(s) && Enabled(s, step)
    requires step.DrainDone? || step.RefillDone? || (step.RefillOne? && s.Full(s.Top()))
    ensures Order(Apply(s, step))
  {
    assert Ascending([], |s.configs| - 1, LastTicket(s.live), |s.accepted|) && NoneOf([], |s.configs| - 1);
    hide Ascending, NoneOf, LastTicket;
  }

  lemma OrderRefillOne(s: State)
    requires Order(s) && Enabled(s, RefillOne) && !s.Full(s.Top())
    ensures Order(Apply(s, RefillOne))
  {
    var rest := s.lock.rest;
    OrderPush(s, Event(rest[0]));
    var t := s.Push(s.Top(), Event(rest[0]));
    hide Ascending, NoneOf;
    assert forall i :: 0 <= i < |rest[1..]| ==> rest[1..][i] == rest[i + 1];
    assert Order(t.(lock := Refilling(rest[1..])));
  }

  lemma OrderPush(s: State, e: Entry)
    requires Order(s) && !(e.Event? && Fresh(s, e.item))
    ensures Order(s.Push(s.Top(), e))
  {
    PushAscending(s.queues[s.Top()].entries, e, |s.configs| - 1, LastTicket(s.live), |s.accepted|);
    hide Ascending, NoneOf;
  }

  lemma OrderOtherStep(s: State, step: Step)
    requires Shape(s) && Order(s) && Enabled(s, step) && !OfResize(step) && !step.WorkGet? && !step.EnqPut?
    ensures Order(Apply(s, step))
  {
    assert s.Current().generation == |s.configs| - 1;
    hide Order, Shape, Apply;
    if step.StopSignal? {
      OrderStopSignal(s);
    } else if step.EnqRead? {
      OrderEnqRead(s, step);
    } else if step.EnqRef? {
      OrderEnqRef(s, step);
    } else if OfTaking(step) {
      OrderTaking(s, step);
    } else if OfConnecting(step) {
      OrderConnecting(s, step);
    } else {
      OrderSending(s, step);
    }
  }

  lemma OrderStopSignal(s: State)
    requires Order(s) && Enabled(s, StopSignal)
    ensures Order(Apply(s, StopSignal))
  {
    hide Order;
    OrderPush(s, Sentinel);
  }

  lemma OrderTaking(s: State, step: Step)
    requires Order(s) && Enabled(s, step) && OfTaking(step) && !step.WorkGet?
    ensures Order(Apply(s, step))
  {
    hide Order;
    OrderUntouched(s, Apply(s, step));
  }

  lemma OrderConnecting(s: State, step: Step)
    requires Order(s) && Enabled(s, step) && OfConnecting(step)
    ensures Order(Apply(s, step))
  {
    hide Order;
    OrderUntouched(s, Apply(s, step));
  }

  lemma OrderSending(s: State, step: Step)
    requires Order(s) && Enabled(s, step)
    requires OfSending(step) || step.ConfigEnd? || step.Spawn? || step.StopClose?
    ensures Order(Apply(s, step))
  {
    hide Order;
    OrderUntouched(s, Apply(s, step));
  }

  lemma OrderEnqRead(s: State, step: Step)
    requires Order(s) && Enabled(s, step) && step.EnqRead? && s.Current().generation == |s.configs| - 1
    ensures Order(Apply(s, step))
  {
    hide Ascending, NoneOf;
  }

  lemma OrderEnqRef(s: State, step: Step)
    requires Order(s) && Enabled(s, step) && step.EnqRef?
    ensures Order(Apply(s, step))
  {
    hide Ascending, NoneOf;
  }

  lemma OrderUntouched(s: State, t: State)
    requires Order(s) && t.configs == s.configs && t.queues == s.queues && (t.lock == s.lock || t.lock == Unlocked)
    requires t.enqueuers == s.enqueuers && t.accepted == s.accepted && t.live == s.live
    ensures Order(t)
  {
    hide Ascending, NoneOf;
  }

  lemma OrderPut(s: State, t: nat)
    requires Shape(s) && Order(s) && Enabled(s, EnqPut(t))
    ensures Order(Apply(s, EnqPut(t)))
  {
    hide Ascending, NoneOf;
    var e := s.enqueuers[t];
    var item := Item(|s.accepted|, e.generation, e.level);
    var gen, low, high := |s.configs| - 1, LastTicket(s.live), |s.accepted|;
    PushAscending(s.queues[s.Top()].entries, Event(item), gen, low, high);
    AscendingWider(s.queues[s.Top()].entries, gen, low, high);
    if e.queue != s.Top() {
      NoneOfPush(s.queues[e.queue].entries, Event(item), gen);
    }
  }

  lemma AscendingWider(entries: seq<Entry>, generation: nat, low: int, high: nat)
    requires Ascending(entries, generation, low, high)
    ensures Ascending(entries, generation, low, high + 1)
  {
  }

  lemma NoneOfPush(entries: seq<Entry>, e: Entry, generation: nat)
    requires NoneOf(entries, generation) && e.Event? && e.item.generation != generation
    ensures NoneOf(entries + [e], generation)
  {
  }

  lemma OrderGet(s: State, w: nat)
    requires Shape(s) && Order(s) && Enabled(s, WorkGet(w))
    ensures Order(Apply(s, WorkGet(w)))
  {
    if s.workers[w].queue == s.Top() {
      OrderGetTop(s, w);
    } else {
      OrderGetOld(s, w);
    }
  }

  lemma OrderGetTop(s: State, w: nat)
    requires Order(s) && Enabled(s, WorkGet(w)) && s.workers[w].queue == s.Top()
    requires s.Current().generation == |s.configs| - 1
    ensures Order(Apply(s, WorkGet(w)))
  {
    hide Ascending, NoneOf;
    var entries := s.queues[s.Top()].entries;
    PopAscending(entries, |s.configs| - 1, LastTicket(s.live), |s.accepted|);
    TakenAfterLive(s, entries[0]);
  }

  lemma OrderGetOld(s: State, w: nat)
    requires Order(s) && Enabled(s, WorkGet(w)) && s.workers[w].queue != s.Top()
    requires s.Current().generation == |s.configs| - 1
    ensures Order(Apply(s, WorkGet(w)))
  {
    var entries := s.queues[s.workers[w].queue].entries;
    NoneOfPop(entries, |s.configs| - 1);
    hide Ascending, NoneOf;
  }

  lemma NoneOfPop(entries: seq<Entry>, generation: nat)
    requires entries != [] && NoneOf(entries, generation)
    ensures NoneOf(entries[1..], generation)
    ensures entries[0].Event? ==> entries[0].item.generation != generation
  {
  }

  lemma TakenAfterLive(s: State, e: Entry)
    requires Order(s) && e in s.queues[s.Top()].entries
    ensures e.Event? && Fresh(s, e.item) ==> LastTicket(s.live) < e.item.ticket < |s.accepted|
    ensures forall i :: 0 <= i < |s.live| ==> s.live[i].ticket <= LastTicket(s.live)
  {
  }

  lemma TrafficStep(s: State, step: Step)
    requires Shape(s) && Traffic(s) && Enabled(s, step)
    ensures Traffic(Apply(s, step))
  {
    hide Ascending, NoneOf;
    if OfWorker(step) {
      TrafficWorkStep(s, step);
    } else {
      TrafficLockStep(s, step);
    }
  }

  lemma TrafficLockStep(s: State, step: Step)
    requires Shape(s) && Traffic(s) && Enabled(s, step)
    requires !OfWorker(step)
    ensures Traffic(Apply(s, step))
  {
    GotFormed(s);
    hide Shape, Traffic, WorkerFormed, ItemFormed;
    if OfResize(step) {
      TrafficUntouched(s, Apply(s, step));
    } else {
      TrafficEnqueue(s, step);
    }
  }

  lemma GotFormed(s: State)
    requires Shape(s)
    ensures forall w :: 0 <= w < |s.workers| && s.workers[w].Got? ==> s.workers[w].item.generation < |s.configs|
  {
    forall w | 0 <= w < |s.workers| && s.workers[w].Got? ensures s.workers[w].item.generation < |s.configs| {
      assert WorkerFormed(s.configs, s.sockets, |s.queues|, s.workers[w]);
    }
  }

  lemma TrafficEnqueue(s: State, step: Step)
    requires Traffic(s) && Enabled(s, step) && !OfWorker(step) && !OfResize(step)
    requires forall w :: 0 <= w < |s.workers| && s.workers[w].Got? ==> s.workers[w].item.generation < |s.configs|
    ensures Traffic(Apply(s, step))
  {
    hide Traffic;
    TrafficUntouched(s, Apply(s, step));
  }

  lemma TrafficUntouched(s: State, t: State)
    requires Traffic(s) && t.Formed() && s.configs <= t.configs
    requires t.workers == s.workers || t.workers == s.workers + [Idle]
    requires forall w :: 0 <= w < |s.workers| && s.workers[w].Got? ==> s.workers[w].item.generation < |s.configs|
    requires t.live == s.live && t.wire == s.wire && t.sent == s.sent
    ensures Traffic(t)
  {
  }

  /** What a worker step may add to the traffic. */
  lemma TrafficWorker(s: State, t: State, w: nat)
    requires Traffic(s) && w < |s.workers| == |t.workers| && t.workers == s.workers[w := t.workers[w]]
    requires t.Formed() && t.configs == s.configs && s.live <= t.live
    requires Past(t.workers[w]) || (t.workers[w].Got? && Fresh(t, t.workers[w].item)) ==> t.workers[w].item in t.live
    requires forall i :: |s.wire| <= i < |t.wire| ==>
      (t.wire[i].0 in t.live && ItemFormed(s.configs,
          t.wire[i].0) && t.wire[i].1 == s.configs[t.wire[i].0.generation].target)
    requires s.wire <= t.wire
    requires s.sent <= t.sent && forall i :: |s.sent| <= i < |t.sent| ==> t.sent[i] in t.live
    ensures Traffic(t)
  {
    hide ItemFormed;
    assert forall x :: x in s.live ==> x in t.live;
  }

  lemma TrafficWorkStep(s: State, step: Step)
    requires Shape(s) && Traffic(s) && Enabled(s, step) && OfWorker(step)
    ensures Traffic(Apply(s, step))
  {
    var k := s.workers[step.w];
    assert WorkerFormed(s.configs, s.sockets, |s.queues|, k);
    assert s.Current().generation == |s.configs| - 1;
    assert Past(k) || (k.Got? && Fresh(s, k.item)) ==> k.item in s.live;
    if OfTaking(step) {
      TrafficTaking(s, step);
    } else if OfConnecting(step) {
      TrafficConnecting(s, step);
    } else {
      TrafficSending(s, step);
    }
  }

  lemma TrafficTaking(s: State, step: Step)
    requires Traffic(s) && Enabled(s, step) && OfTaking(step) && s.Current().generation == |s.configs| - 1
    requires var k := s.workers[step.w]; Past(k) || (k.Got? && Fresh(s, k.item)) ==> k.item in s.live
    ensures Traffic(Apply(s, step))
  {
    hide Traffic;
    TrafficWorker(s, Apply(s, step), step.w);
  }

  lemma TrafficConnecting(s: State, step: Step)
    requires Traffic(s) && Enabled(s, step) && OfConnecting(step)
    requires Past(s.workers[step.w]) ==> s.workers[step.w].item in s.live
    ensures Traffic(Apply(s, step))
  {
    hide Traffic;
    TrafficWorker(s, Apply(s, step), step.w);
  }

  lemma TrafficSending(s: State, step: Step)
    requires Traffic(s) && Enabled(s, step) && OfSending(step)
    requires s.workers[step.w].item in s.live && WorkerFormed(s.configs, s.sockets, |s.queues|, s.workers[step.w])
    ensures Traffic(Apply(s, step))
  {
    if step.Recover? {
      hide Traffic, ItemFormed, WorkerFormed;
      TrafficWorker(s, Apply(s, step), step.w);
    } else {
      TrafficSent(s, step);
    }
  }

  lemma TrafficSent(s: State, step: Step)
    requires Traffic(s) && Enabled(s, step) && (step.SendOk? || step.SendFail?)
    requires s.workers[step.w].item in s.live && WorkerFormed(s.configs, s.sockets, |s.queues|, s.workers[step.w])
    ensures Traffic(Apply(s, step))
  {
    hide Traffic, ItemFormed;
    TrafficWorker(s, Apply(s, step), step.w);
  }

  lemma ConservedStep(s: State, step: Step)
    requires Conserved(s) && Enabled(s, step)
    ensures Conserved(Apply(s, step))
  {
    TicketsStep(s, step);
    hide Apply, Enabled;
    forall x: Item ensures Accounted(Apply(s, step), x) {
      assert Accounted(s, x);
      if OfResize(step) {
        AccountedResize(s, step, x);
      } else if step.WorkGet? {
        AccountedGet(s, step.w, x);
      } else if OfWorker(step) {
        AccountedWork(s, step, x);
      } else {
        AccountedEnqueue(s, step, x);
      }
    }
  }

  lemma TicketsStep(s: State, step: Step)
    requires Enabled(s, step) && forall i :: 0 <= i < |s.accepted| ==> s.accepted[i].ticket == i
    ensures forall i :: 0 <= i < |Apply(s, step).accepted| ==> Apply(s, step).accepted[i].ticket == i
  {
  }

  lemma AccountedResize(s: State, step: Step, x: Item)
    requires Accounted(s, x) && Enabled(s, step) && OfResize(step)
    ensures Accounted(Apply(s, step), x)
  {
    hide Count, OnQueue, OnQueues, OnWorkers;
    NothingYet(x);
    match step {
      case DrainOne => AccountedDrain(s, x);
      case DrainDone =>
        var n := s.Current().queueSize;
        var old_, new_ := Oldest(s.lock.pending, n), Newest(s.lock.pending, n);
        OnQueuesNew(s.queues, if n < 1 then 1 else n, x);
        assert s.lock.pending == old_ + new_;
        CountJoin(old_, new_, x);
        CountJoin(s.displaced, old_, x);
      case RefillOne => AccountedRefill(s, x);
      case _ =>
    }
  }

  lemma AccountedDrain(s: State, x: Item)
    requires Accounted(s, x) && Enabled(s, DrainOne)
    ensures Accounted(Apply(s, DrainOne), x)
  {
    hide Count, OnQueue, OnQueues, OnWorkers;
    var top := s.queues[s.Top()];
    OnQueuePop(top.entries, x);
    OnQueuesUpdate(s.queues, s.Top(), top.(entries := top.entries[1..]), x);
    if top.entries[0].Event? {
      CountSnoc(s.lock.pending, top.entries[0].item, x);
    }
  }

  lemma AccountedRefill(s: State, x: Item)
    requires Accounted(s, x) && Enabled(s, RefillOne)
    ensures Accounted(Apply(s, RefillOne), x)
  {
    hide Count, OnQueue, OnQueues, OnWorkers;
    var top := s.queues[s.Top()];
    var e := Event(s.lock.rest[0]);
    CountJoin(s.displaced, s.lock.rest, x);
    CountHead(s.lock.rest, x);
    OnQueuePush(top.entries, e, x);
    OnQueuesUpdate(s.queues, s.Top(), top.(entries := top.entries + [e]), x);
  }

  lemma AccountedGet(s: State, w: nat, x: Item)
    requires Accounted(s, x) && Enabled(s, WorkGet(w))
    ensures Accounted(Apply(s, WorkGet(w)), x)
  {
    hide Count, OnQueue, OnQueues, OnWorkers;
    var queue := s.queues[s.workers[w].queue];
    OnQueuePop(queue.entries, x);
    OnQueuesUpdate(s.queues, s.workers[w].queue, queue.(entries := queue.entries[1..]), x);
    OnWorkersUpdate(s.workers, w, Apply(s, WorkGet(w)).workers[w], x);
    if queue.entries[0].Event? {
      CountSnoc(s.live, queue.entries[0].item, x);
    }
  }

  lemma AccountedWork(s: State, step: Step, x: Item)
    requires Accounted(s, x) && Enabled(s, step) && OfWorker(step) && !step.WorkGet?
    ensures Accounted(Apply(s, step), x)
  {
    if OfTaking(step) {
      AccountedTaking(s, step, x);
    } else if OfConnecting(step) {
      AccountedConnecting(s, step, x);
    } else {
      AccountedSending(s, step, x);
    }
  }

  /** What a worker step leaves as it is, and what it moves between its worker and the outcomes. */
  ghost predicate Moves(s: State, t: State, w: nat, x: Item)
    requires w < |s.workers| == |t.workers|
  {
    && t.queues == s.queues && t.lock == s.lock && t.displaced == s.displaced && t.accepted == s.accepted &&
          t.live == s.live
    && t.workers == s.workers[w := t.workers[w]]
    && Count(t.sent, x) + Count(t.failed, x) + Count(t.discarded, x) + OnWorker(t.workers[w], x)
       == Count(s.sent, x) + Count(s.failed, x) + Count(s.discarded, x) + OnWorker(s.workers[w], x)
  }

  lemma MovesAccounted(s: State, t: State, w: nat, x: Item)
    requires w < |s.workers| == |t.workers| && Moves(s, t, w, x) && Accounted(s, x)
    ensures Accounted(t, x)
  {
    hide Count, OnQueue, OnQueues, OnWorkers;
    OnWorkersUpdate(s.workers, w, t.workers[w], x);
  }

  lemma AccountedTaking(s: State, step: Step, x: Item)
    requires Accounted(s, x) && Enabled(s, step) && OfTaking(step) && !step.WorkGet?
    ensures Accounted(Apply(s, step), x)
  {
    hide Count, Accounted;
    var k := s.workers[step.w];
    if k.Got? || k.Checked? || k.Opening? {
      CountSnoc(s.failed, k.item, x);
      CountSnoc(s.discarded, k.item, x);
    }
    MovesAccounted(s, Apply(s, step), step.w, x);
  }

  lemma AccountedConnecting(s: State, step: Step, x: Item)
    requires Accounted(s, x) && Enabled(s, step) && OfConnecting(step)
    ensures Accounted(Apply(s, step), x)
  {
    hide Count, Accounted;
    CountSnoc(s.discarded, s.workers[step.w].item, x);
    MovesAccounted(s, Apply(s, step), step.w, x);
  }

  lemma AccountedSending(s: State, step: Step, x: Item)
    requires Accounted(s, x) && Enabled(s, step) && OfSending(step)
    ensures Accounted(Apply(s, step), x)
  {
    hide Count, Accounted;
    var item := s.workers[step.w].item;
    CountSnoc(s.sent, item, x);
    CountSnoc(s.failed, item, x);
    CountSnoc(s.discarded, item, x);
    MovesAccounted(s, Apply(s, step), step.w, x);
  }

  lemma AccountedEnqueue(s: State, step: Step, x: Item)
    requires Accounted(s, x) && Enabled(s, step) && !OfResize(step) && !OfWorker(step)
    ensures Accounted(Apply(s, step), x)
  {
    hide Count, OnQueue, OnQueues, OnWorkers;
    match step {
      case Spawn => OnWorkersNew(s.workers, x);
      case StopSignal =>
        var top := s.queues[s.Top()];
        OnQueuePush(top.entries, Sentinel, x);
        OnQueuesUpdate(s.queues, s.Top(), top.(entries := top.entries + [Sentinel]), x);
      case EnqPut(t) => AccountedPut(s, t, x);
      case _ =>
    }
  }

  lemma AccountedPut(s: State, t: nat, x: Item)
    requires Accounted(s, x) && Enabled(s, EnqPut(t))
    ensures Accounted(Apply(s, EnqPut(t)), x)
  {
    hide Count, OnQueue, OnQueues, OnWorkers;
    var e := s.enqueuers[t];
    var item := Item(|s.accepted|, e.generation, e.level);
    var queue := s.queues[e.queue];
    CountSnoc(s.accepted, item, x);
    OnQueuePush(queue.entries, Event(item), x);
    OnQueuesUpdate(s.queues, e.queue, queue.(entries := queue.entries + [Event(item)]), x);
  }

  // ---------------------------------------------------------------- whole runs

  ghost predicate Inv(s: State) {
    Shape(s) && Sockets(s) && Order(s) && Traffic(s) && Conserved(s)
  }

  const DEFAULT_CONFIG := Config(false, Target("", 6514, Tls), Informational, 1000, 0)

  const INITIAL :=
    State([DEFAULT_CONFIG], [Queue([], 1000)], Unlocked, map[], [], None, [], {}, [], [], [], [], [], [], [])

  lemma InitialInv()
    ensures Inv(INITIAL)
  {
    assert INITIAL.queues[1..] == [];
    forall x: Item ensures Accounted(INITIAL, x) {
      NothingYet(x);
    }
  }

  lemma InvStep(s: State, step: Step)
    requires Inv(s) && Enabled(s, step)
    ensures Inv(Apply(s, step))
  {
    hide Shape, Sockets, Order, Traffic, Conserved, Apply, Enabled;
    ShapeStep(s, step);
    SocketsStep(s, step);
    OrderStep(s, step);
    TrafficStep(s, step);
    ConservedStep(s, step);
  }

  ghost predicate Run(states: seq<State>, steps: seq<Step>) {
    && |states| == |steps| + 1 && states[0] == INITIAL
    && forall i :: 0 <= i < |steps| ==> Enabled(states[i], steps[i]) && states[i + 1] == Apply(states[i], steps[i])
  }

  /** Every reachable state satisfies the invariants. */
  lemma {:induction false} Safety(states: seq<State>, steps: seq<Step>, i: nat)
    requires Run(states, steps) && i < |states|
    ensures Inv(states[i])
  {
    hide Inv, Enabled, Apply;
    if i == 0 {
      InitialInv();
    } else {
      Safety(states, steps, i - 1);
      InvStep(states[i - 1], steps[i - 1]);
    }
  }

  /** Whenever the lock is free, an installed stream is open and connected to the current, enabled
      target; every socket ever opened is closed, installed, or in the hands of one worker about to install it. */
  lemma InstalledStreamIsCurrent(states: seq<State>, steps: seq<Step>, i: nat)
    requires Run(states, steps) && i < |states|
    ensures var s := states[i];
      && s.configs != []
      && (s.stream.Some? && s.lock.Unlocked? ==>
            && s.Current().enabled && s.stream.value.addr == s.Current().target
            && s.stream.value.sock < |s.sockets| && s.sockets[s.stream.value.sock] == s.Current().target
            && s.stream.value.sock !in s.closed)
      && (forall k :: 0 <= k < |s.sockets| ==>
            k in s.closed || (s.stream.Some? && s.stream.value.sock == k) || Held(s.workers, k))
      && (forall v, w :: 0 <= v < w < |s.workers| && s.workers[v].Opened? && s.workers[w].Opened? ==>
            s.workers[v].sock != s.workers[w].sock)
  {
    Safety(states, steps, i);
    hide Shape, Order, Traffic, Conserved, Run;
  }

  /** A socket about to be installed is not one that another worker sends on. */
  ghost predicate Apart(workers: seq<Worker>) {
    forall v, w :: 0 <= v < |workers| && 0 <= w < |workers| && workers[v].Ready? && workers[w].Opened? ==>
      workers[v].sock != workers[w].sock
  }

  lemma ApartUpdate(workers: seq<Worker>, w: nat, k: Worker)
    requires Apart(workers) && w < |workers|
    requires forall v :: 0 <= v < |workers| && v != w && k.Ready? && workers[v].Opened? ==> workers[v].sock != k.sock
    requires forall v :: 0 <= v < |workers| && v != w && k.Opened? && workers[v].Ready? ==> workers[v].sock != k.sock
    ensures Apart(workers[w := k])
  {
  }

  lemma ApartStep(s: State, step: Step)
    requires Shape(s) && Sockets(s) && Apart(s.workers) && Enabled(s, step)
    ensures Apart(Apply(s, step).workers)
  {
    if OfTaking(step) {
      ApartTaking(s, step);
    } else if OfSending(step) {
      ApartSending(s, step);
    } else if step.WorkLook? {
      ApartLook(s, step);
    } else if step.OpenOk? {
      ApartOpen(s, step);
    } else if step.Install? {
      ApartInstall(s, step);
    } else {
      hide Shape, Sockets;
      ApartOther(s, step);
    }
  }

  lemma ApartOther(s: State, step: Step)
    requires Apart(s.workers) && Enabled(s, step) && !OfWorker(step)
    ensures Apart(Apply(s, step).workers)
  {
    hide Apart;
    assert Apply(s, step).workers == s.workers || Apply(s, step).workers == s.workers + [Idle];
    ApartIdle(s.workers);
  }

  lemma ApartIdle(workers: seq<Worker>)
    requires Apart(workers)
    ensures Apart(workers + [Idle])
  {
  }

  lemma ApartTaking(s: State, step: Step)
    requires Apart(s.workers) && Enabled(s, step) && OfTaking(step)
    ensures Apart(Apply(s, step).workers)
  {
    hide Apart;
    ApartUpdate(s.workers, step.w, Apply(s, step).workers[step.w]);
  }

  lemma ApartSending(s: State, step: Step)
    requires Apart(s.workers) && Enabled(s, step) && OfSending(step)
    ensures Apart(Apply(s, step).workers)
  {
    hide Apart;
    ApartUpdate(s.workers, step.w, Apply(s, step).workers[step.w]);
  }

  lemma ApartLook(s: State, step: Step)
    requires Sockets(s) && Apart(s.workers) && Enabled(s, step) && step.WorkLook?
    ensures Apart(Apply(s, step).workers)
  {
    hide Apart;
    ApartUpdate(s.workers, step.w, Apply(s, step).workers[step.w]);
  }

  lemma ApartOpen(s: State, step: Step)
    requires Shape(s) && Apart(s.workers) && Enabled(s, step) && step.OpenOk?
    ensures Apart(Apply(s, step).workers)
  {
    hide Apart;
    ApartUpdate(s.workers, step.w, Apply(s, step).workers[step.w]);
  }

  lemma ApartInstall(s: State, step: Step)
    requires Sockets(s) && Apart(s.workers) && Enabled(s, step) && step.Install?
    ensures Apart(Apply(s, step).workers)
  {
    hide Apart;
    ApartUpdate(s.workers, step.w, Apply(s, step).workers[step.w]);
  }

  lemma {:induction false} AlwaysApart(states: seq<State>, steps: seq<Step>, i: nat)
    requires Run(states, steps) && i < |states|
    ensures Apart(states[i].workers)
  {
    if i > 0 {
      AlwaysApart(states, steps, i - 1);
      Safety(states, steps, i - 1);
      hide Shape, Sockets, Order, Traffic, Conserved, Apart, Enabled, Apply;
      ApartStep(states[i - 1], steps[i - 1]);
    }
  }

  /** A worker on a stream can deliver exactly while its stream is the installed one; with the lock free that
      stream leads to the current, enabled target. So nothing is delivered over a stream a change has closed. */
  lemma DeliversIffInstalled(states: seq<State>, steps: seq<Step>, i: nat, w: nat)
    requires Run(states, steps) && i < |states| && w < |states[i].workers| && states[i].workers[w].Ready?
    ensures var s, k := states[i], states[i].workers[w];
      && (Enabled(s, SendOk(w)) <==> s.stream == Some(Installed(k.sock, k.config.target)))
      && (Enabled(s, SendOk(w)) && s.lock.Unlocked? ==> s.Current().enabled && s.Current().target == k.config.target)
  {
    Safety(states, steps, i);
    AlwaysApart(states, steps, i);
    hide Order, Traffic, Conserved, Run;
  }

  /** Bytes of an event only ever go to the target of the configuration that accepted it, and that
      configuration was enabled and wanted the event's level. */
  lemma BytesReachAcceptingTarget(states: seq<State>, steps: seq<Step>, i: nat, k: nat)
    requires Run(states, steps) && i < |states| && k < |states[i].wire|
    ensures var (item, peer) := states[i].wire[k];
      && item.generation < |states[i].configs|
      && var config := states[i].configs[item.generation];
      peer == config.target && config.enabled && Severity(item.level) <= Severity(config.minimum)
  {
    Safety(states, steps, i);
    hide Shape, Sockets, Order, Conserved, Run;
  }

  /** Conservation, with no event accepted, taken, sent or displaced twice. */
  lemma EveryEventIsInOnePlace(states: seq<State>, steps: seq<Step>, i: nat, x: Item)
    requires Run(states, steps) && i < |states|
    ensures Taken(states[i], x) + Untaken(states[i], x) == if x in states[i].accepted then 1 else 0
  {
    Safety(states, steps, i);
    assert Accounted(states[i], x);
    TicketsAreUnique(states[i].accepted, x);
    hide Shape, Sockets, Order, Traffic, Run;
  }

  lemma TicketsAreUnique(items: seq<Item>, x: Item)
    requires forall i :: 0 <= i < |items| ==> items[i].ticket == i
    ensures Count(items, x) == if x in items then 1 else 0
  {
    if x in items {
      var i :| 0 <= i < |items| && items[i] == x;
      assert items == items[..i] + [x] + items[i + 1..];
      assert x !in items[..i] && x !in items[i + 1..];
    }
  }

  /** Queues never exceed their bound, and events taken while current are taken in acceptance order. */
  lemma BoundedAndInOrder(states: seq<State>, steps: seq<Step>, i: nat)
    requires Run(states, steps) && i < |states|
    ensures var s := states[i];
      && (forall q :: 0 <= q < |s.queues| ==> |s.queues[q].entries| <= s.queues[q].maxsize)
      && (forall j, k :: 0 <= j < k < |s.live| ==> s.live[j].ticket < s.live[k].ticket)
      && (forall j :: 0 <= j < |s.sent| ==> s.sent[j] in s.live)
  {
    Safety(states, steps, i);
    hide Sockets, Conserved, Run, Ascending, NoneOf;
  }

  /** Only events of the current generation are ever taken live, and generations only grow. */
  lemma LiveStep(s: State, step: Step, x: Item)
    requires Shape(s) && Enabled(s, step)
    requires x.generation < |s.configs| - 1 && x !in s.live
    ensures x.generation < |Apply(s, step).configs| - 1 && x !in Apply(s, step).live
  {
    assert s.Current().generation == |s.configs| - 1;
    hide Shape;
    if OfWorker(step) {
      LiveWorkStep(s, step, x);
    }
  }

  lemma LiveWorkStep(s: State, step: Step, x: Item)
    requires Enabled(s, step) && OfWorker(step) && s.Current().generation == |s.configs| - 1
    requires x.generation < |s.configs| - 1 && x !in s.live
    ensures x.generation < |Apply(s, step).configs| - 1 && x !in Apply(s, step).live
  {
  }

  lemma {:induction false} StaleStaysUntaken(states: seq<State>, steps: seq<Step>, i: nat, j: nat, x: Item)
    requires Run(states, steps) && i <= j < |states|
    requires x.generation < |states[i].configs| - 1 && x !in states[i].live
    ensures x !in states[j].live
    ensures x.generation < |states[j].configs| - 1
  {
    hide Shape, Sockets, Order, Traffic, Conserved, Apply, Enabled;
    if i < j {
      StaleStaysUntaken(states, steps, i, j - 1, x);
      Safety(states, steps, j - 1);
      LiveStep(states[j - 1], steps[j - 1], x);
    }
  }

  /** An event still pending when a newer configuration is in force is never encoded or sent. */
  lemma PendingStaleIsNeverSent(states: seq<State>, steps: seq<Step>, i: nat, j: nat, x: Item)
    requires Run(states, steps) && i <= j < |states|
    requires x.generation < |states[i].configs| - 1
    requires OnQueues(states[i].queues, x) + OnLock(states[i].lock, x) > 0
    ensures forall k :: 0 <= k < |states[j].wire| ==> states[j].wire[k].0 != x
    ensures x !in states[j].sent
    ensures forall w :: 0 <= w < |states[j].workers| && Past(states[j].workers[w]) ==> states[j].workers[w].item != x
  {
    Safety(states, steps, i);
    assert Accounted(states[i], x);
    TicketsAreUnique(states[i].accepted, x);
    assert Count(states[i].live, x) == 0;
    StaleStaysUntaken(states, steps, i, j, x);
    Safety(states, steps, j);
    hide Shape, Sockets, Order, Conserved, Run;
  }

  /** `configure` keeps pending events across a resize, yet not one of them is ever sent: each carries
      an older generation than the configuration that resized the queue. */
  lemma ResizeKeepsNothingAlive(states: seq<State>, steps: seq<Step>, i: nat, j: nat, k: nat)
    requires Run(states, steps) && i <= j < |states|
    requires states[i].lock.Refilling? && k < |states[i].lock.rest|
    ensures states[i].lock.rest[k] !in states[j].sent
    ensures forall l :: 0 <= l < |states[j].wire| ==> states[j].wire[l].0 != states[i].lock.rest[k]
  {
    var s, x := states[i], states[i].lock.rest[k];
    Safety(states, steps, i);
    assert !Fresh(s, x) && ItemFormed(s.configs, x);
    assert x in multiset(s.lock.rest);
    PendingStaleIsNeverSent(states, steps, i, j, x);
  }

  // ---------------------------------------------------------------- what the forwarder delivers

  /** The event is accepted while reading the configuration exactly if that is enabled and the event is as
      severe as it asks; otherwise nothing changes. */
  lemma AcceptedIffWanted(s: State, t: nat, level: Level)
    requires s.Formed() && s.lock.Unlocked? && t !in s.enqueuers
    ensures Enabled(s, EnqRead(t, level))
    ensures var c, now := s.configs[|s.configs| - 1], Apply(s, EnqRead(t, level));
      if c.enabled && Severity(level) <= Severity(c.minimum)
      then now == s.(enqueuers := s.enqueuers[t := Accepting(c.generation, level)])
      else now == s
  {
    MeetsIffAsSevere(level, s.Current().minimum);
    hide Rank, Severity;
  }

  /** A put adds exactly one item, at the tail of the queue it read, exactly when that queue has room;
      otherwise it changes no queue. */
  lemma PutAddsAtTail(s: State, t: nat)
    requires Enabled(s, EnqPut(t))
    ensures var e, now := s.enqueuers[t], Apply(s, EnqPut(t));
      var q, item := e.queue, Item(|s.accepted|, e.generation, e.level);
      && |now.queues| == |s.queues| && t !in now.enqueuers
      && (forall p :: 0 <= p < |s.queues| && p != q ==> now.queues[p] == s.queues[p])
      && (if |s.queues[q].entries| < s.queues[q].maxsize
          then now.queues[q].entries == s.queues[q].entries + [Event(item)] && now.accepted == s.accepted + [item]
          else now.queues[q] == s.queues[q] && now.accepted == s.accepted)
  {
  }

  /** `stop` puts its sentinel at the tail of the current queue if there is room. Later it closes the installed
      stream, so that every socket opened is closed or still held by a worker about to install it. */
  lemma StopReleasesSockets(s: State)
    requires Sockets(s) && s.lock.Unlocked?
    ensures Enabled(s, StopSignal) && Enabled(s, StopClose)
    ensures var q, now := |s.queues| - 1, Apply(s, StopSignal);
      if |s.queues[q].entries| < s.queues[q].maxsize
      then now.queues == s.queues[..q] + [s.queues[q].(entries := s.queues[q].entries + [Sentinel])]
           && now.(queues := s.queues) == s
      else now == s
    ensures var now := Apply(s, StopClose);
      && now.stream.None? && now.(stream := s.stream, closed := s.closed) == s
      && forall k :: 0 <= k < |s.sockets| ==> k in now.closed || Held(s.workers, k)
  {
    hide Held;
  }

  /** A sentinel is taken without ending any event; a worker that finds nothing, or fails on its event, is idle
      again, and only the failure is recorded. */
  lemma TurnsEnd(s: State, w: nat)
    requires s.Formed() && w < |s.workers|
    ensures s.workers[w].Waiting? ==>
      Enabled(s, WorkTimeout(w)) && Apply(s, WorkTimeout(w)) == s.(workers := s.workers[w := Idle])
    ensures var k := s.workers[w]; k.Waiting? && k.queue < |s.queues| && [Sentinel] <= s.queues[k.queue].entries ==>
      && Enabled(s, WorkGet(w))
      && var now := Apply(s, WorkGet(w));
      now.workers == s.workers[w := Idle] && [Sentinel] + now.queues[k.queue].entries == s.queues[k.queue].entries
      && now.(workers := s.workers, queues := s.queues) == s
    ensures s.workers[w].Checked? || s.workers[w].Opening? ==>
      && Enabled(s, WorkFail(w))
      && Apply(s, WorkFail(w)) == s.(workers := s.workers[w := Idle], failed := s.failed + [s.workers[w].item])
  {
  }

  ghost predicate Path(states: seq<State>, steps: seq<Step>) {
    && |states| == |steps| + 1
    && forall i :: 0 <= i < |steps| ==> Enabled(states[i], steps[i]) && states[i + 1] == Apply(states[i], steps[i])
  }

  lemma Start(s: State)
    ensures Path([s], [])
  {
  }

  lemma Then(states: seq<State>, steps: seq<Step>, step: Step) returns (now: seq<State>, all: seq<Step>)
    requires Path(states, steps) && |states| == |steps| + 1 && Enabled(states[|steps|], step)
    ensures Path(now, all) && |now| == |all| + 1 && states <= now && all == steps + [step]
    ensures now[|all|] == Apply(states[|steps|], step)
  {
    hide Enabled, Apply;
    now, all := states + [Apply(states[|steps|], step)], steps + [step];
    assert forall k :: 0 <= k < |steps| ==> all[k] == steps[k];
    assert forall k :: 0 <= k < |states| ==> now[k] == states[k];
  }

  /** An uninterrupted enqueue into a queue with room. */
  lemma EnqueueInTurns(s: State, t: nat, level: Level) returns (mid: State, late: State)
    requires s.Formed() && s.lock.Unlocked? && t !in s.enqueuers && !s.Full(s.Top())
    requires s.Current().enabled && Severity(level) <= Severity(s.Current().minimum)
    ensures Enabled(s, EnqRead(t, level)) && Apply(s, EnqRead(t, level)) == mid
    ensures Enabled(mid, EnqRef(t)) && Apply(mid, EnqRef(t)) == late && Enabled(late, EnqPut(t))
    ensures var item := Item(|s.accepted|, s.Current().generation, level);
      Apply(late, EnqPut(t)) == s.Push(s.Top(), Event(item)).(accepted := s.accepted + [item])
  {
    hide Severity, MeetsMinimumLevel;
    AcceptedIffWanted(s, t, level);
    mid, late := Apply(s, EnqRead(t, level)), Apply(Apply(s, EnqRead(t, level)), EnqRef(t));
    assert late.enqueuers - {t} == s.enqueuers;
  }

  /** An idle worker takes the only event of the current queue and finds its configuration in force. */
  lemma TakeInTurns(s: State, w: nat, item: Item) returns (mid: State, late: State)
    requires s.Formed() && s.lock.Unlocked? && w < |s.workers| && s.workers[w].Idle?
    requires s.Current().enabled && item.generation == s.Current().generation
    requires s.queues[s.Top()].entries == [Event(item)]
    ensures Enabled(s, WorkRef(w)) && Apply(s, WorkRef(w)) == mid
    ensures Enabled(mid, WorkGet(w)) && Apply(mid, WorkGet(w)) == late && Enabled(late, WorkCheck(w))
    ensures Apply(late, WorkCheck(w)) ==
      s.Pop(s.Top()).(workers := s.workers[w := Checked(item, s.Current())], live := s.live + [item])
  {
    mid := s.Work(w, Waiting(s.Top()));
    late := s.Pop(s.Top()).(workers := s.workers[w := Got(item)], live := s.live + [item]);
    assert mid.workers[w := Got(item)] == s.workers[w := Got(item)];
    assert late.workers[w := Checked(item, s.Current())] == s.workers[w := Checked(item, s.Current())];
  }

  /** Both together: the event is in the hands of the worker, checked. */
  lemma HandedOver(s: State, t: nat, w: nat, level: Level) returns (states: seq<State>, steps: seq<Step>)
    requires s.Formed() && s.lock.Unlocked? && t !in s.enqueuers && w < |s.workers| && s.workers[w].Idle?
    requires s.Current().enabled && Severity(level) <= Severity(s.Current().minimum)
    requires s.queues[s.Top()].entries == [] && s.queues[s.Top()].maxsize > 0
    ensures Path(states, steps) && |states| == |steps| + 1 && states[0] == s
    ensures steps == [EnqRead(t, level), EnqRef(t), EnqPut(t), WorkRef(w), WorkGet(w), WorkCheck(w)]
    ensures var item := Item(|s.accepted|, s.Current().generation, level);
      states[6] == s.(workers := s.workers[w := Checked(item, s.Current())], accepted := s.accepted + [item],
                      live := s.live + [item])
  {
    hide Enabled, Apply, Severity, Path;
    var item := Item(|s.accepted|, s.Current().generation, level);
    var one := s.Push(s.Top(), Event(item)).(accepted := s.accepted + [item]);
    var s1, s2 := EnqueueInTurns(s, t, level);
    var s4, s5 := TakeInTurns(one, w, item);
    assert one.queues[s.Top()] == Queue([Event(item)], s.queues[s.Top()].maxsize);
    assert one.queues[s.Top()].entries[1..] == s.queues[s.Top()].entries;
    assert one.Pop(s.Top()).queues == s.queues;
    Start(s);
    states, steps := [s], [];
    states, steps := Then(states, steps, EnqRead(t, level));
    states, steps := Then(states, steps, EnqRef(t));
    states, steps := Then(states, steps, EnqPut(t));
    states, steps := Then(states, steps, WorkRef(w));
    states, steps := Then(states, steps, WorkGet(w));
    states, steps := Then(states, steps, WorkCheck(w));
  }

  /** The event is sent, to the current target, and the worker is idle again. */
  ghost predicate Delivered(s: State, w: nat, item: Item, now: State)
    requires s.configs != [] && w < |s.workers|
  {
    && now.sent == s.sent + [item] && now.wire == s.wire + [(item, s.Current().target)]
    && now.workers == s.workers[w := Idle] && now.queues == s.queues
    && now.accepted == s.accepted && now.failed == s.failed && now.discarded == s.discarded
    && now.configs == s.configs && now.lock == s.lock
  }

  /** From there over UDP, ... */
  lemma UdpInTurns(s: State, w: nat, item: Item)
    requires s.Formed() && s.lock.Unlocked? && w < |s.workers| && s.workers[w] == Checked(item, s.Current())
    requires s.Current().target.protocol == Udp
    ensures Enabled(s, WorkLook(w)) && Enabled(Apply(s, WorkLook(w)), SendOk(w))
    ensures var now := Apply(Apply(s, WorkLook(w)), SendOk(w));
      Delivered(s, w, item, now) && now.stream == s.stream
  {
  }

  /** ... over the installed stream, ... */
  lemma InstalledInTurns(s: State, w: nat, item: Item)
    requires s.Formed() && s.lock.Unlocked? && w < |s.workers| && s.workers[w] == Checked(item, s.Current())
    requires s.Current().target.protocol != Udp && s.stream.Some? && s.stream.value.addr == s.Current().target
    requires s.stream.value.sock < |s.sockets| && s.stream.value.sock !in s.closed
    requires s.sockets[s.stream.value.sock] == s.Current().target
    ensures Enabled(s, WorkLook(w)) && Enabled(Apply(s, WorkLook(w)), SendOk(w))
    ensures var now := Apply(Apply(s, WorkLook(w)), SendOk(w));
      Delivered(s, w, item, now) && now.stream == s.stream
  {
  }

  /** ... or over one still to open. */
  lemma OpeningInTurns(s: State, w: nat, item: Item) returns (mid: State, late: State)
    requires s.Formed() && s.lock.Unlocked? && w < |s.workers| && s.workers[w] == Checked(item, s.Current())
    requires s.Current().target.protocol != Udp && s.stream.None?
    ensures Enabled(s, WorkLook(w)) && Apply(s, WorkLook(w)) == mid
    ensures Enabled(mid, OpenOk(w)) && Apply(mid, OpenOk(w)) == late
    ensures late == s.(workers := s.workers[w := Opened(item, s.Current(), false, |s.sockets|)],
                       sockets := s.sockets + [s.Current().target])
  {
    mid := s.Work(w, Opening(item, s.Current(), false));
    late := mid.Work(w, Opened(item, s.Current(), false, |s.sockets|)).(sockets := s.sockets + [s.Current().target]);
    assert late.workers == s.workers[w := Opened(item, s.Current(), false, |s.sockets|)];
  }

  lemma InstallsInTurns(s: State, w: nat, item: Item, again: bool, sock: nat) returns (mid: State)
    requires s.Formed() && s.lock.Unlocked? && s.Current().enabled && s.stream.None?
    requires w < |s.workers| && s.workers[w] == Opened(item, s.Current(), again, sock)
    requires sock < |s.sockets| && sock !in s.closed && s.sockets[sock] == s.Current().target
    ensures Enabled(s, Install(w)) && Apply(s, Install(w)) == mid && Enabled(mid, SendOk(w))
    ensures var now := Apply(mid, SendOk(w));
      Delivered(s, w, item, now) && now.stream == Some(Installed(sock, s.Current().target))
  {
    mid := Apply(s, Install(w));
  }

  /** While the lock is free, an installed stream can be used as it is. */
  lemma StreamUsable(s: State)
    requires Inv(s) && s.lock.Unlocked?
    ensures s.Formed()
    ensures |s.sockets| !in s.closed
    ensures s.stream.Some? ==>
      && s.stream.value.addr == s.Current().target && s.stream.value.sock !in s.closed
      && s.stream.value.sock < |s.sockets| && s.sockets[s.stream.value.sock] == s.Current().target
  {
    hide Shape, Order, Traffic, Conserved, Held;
  }

  /** Sending, uninterrupted and without errors: over UDP or the installed stream at once, and otherwise over a
      stream opened and installed for it. */
  lemma Sends(states0: seq<State>, steps0: seq<Step>, w: nat, item: Item) returns (states: seq<State>, steps: seq<Step>)
    requires Path(states0, steps0) && |states0| == |steps0| + 1 && Inv(states0[|steps0|])
    requires var s := states0[|steps0|];
      && s.Formed() && s.lock.Unlocked? && s.Current().enabled
      && w < |s.workers| && s.workers[w] == Checked(item, s.Current())
    ensures Path(states, steps) && |states| == |steps| + 1 && states0 <= states
    ensures Delivered(states0[|steps0|], w, item, states[|steps|])
    ensures var s := states0[|steps0|];
      if s.Current().target.protocol == Udp || s.stream.Some?
      then steps == steps0 + [WorkLook(w), SendOk(w)] && states[|steps|].stream == s.stream
      else && steps == steps0 + [WorkLook(w), OpenOk(w), Install(w), SendOk(w)]
           && states[|steps|].stream == Some(Installed(|s.sockets|, s.Current().target))
  {
    hide Inv, Path, Enabled, Apply;
    var s := states0[|steps0|];
    StreamUsable(s);
    states, steps := states0, steps0;
    if s.Current().target.protocol == Udp || s.stream.Some? {
      if s.Current().target.protocol == Udp {
        UdpInTurns(s, w, item);
      } else {
        InstalledInTurns(s, w, item);
      }
      states, steps := Then(states, steps, WorkLook(w));
      states, steps := Then(states, steps, SendOk(w));
    } else {
      var mid, late := OpeningInTurns(s, w, item);
      var last := InstallsInTurns(late, w, item, false, |s.sockets|);
      states, steps := Then(states, steps, WorkLook(w));
      states, steps := Then(states, steps, OpenOk(w));
      states, steps := Then(states, steps, Install(w));
      states, steps := Then(states, steps, SendOk(w));
    }
  }

  /** Every queue has room for at least one event. */
  ghost predicate Roomy(s: State) {
    forall q :: 0 <= q < |s.queues| ==> s.queues[q].maxsize > 0
  }

  lemma RoomyStep(s: State, step: Step)
    requires Roomy(s) && Enabled(s, step)
    ensures Roomy(Apply(s, step))
  {
    hide MeetsMinimumLevel, Newest, Oldest, Usable, Peer;
  }

  lemma {:induction false} AlwaysRoomy(states: seq<State>, steps: seq<Step>, i: nat)
    requires Run(states, steps) && i < |states|
    ensures Roomy(states[i])
  {
    hide Roomy, Enabled, Apply;
    if i == 0 {
      InitiallyRoomy();
    } else {
      AlwaysRoomy(states, steps, i - 1);
      RoomyStep(states[i - 1], steps[i - 1]);
    }
  }

  lemma InitiallyRoomy()
    ensures Roomy(INITIAL)
  {
  }

  /** The forwarder delivers: from any reachable state in which nobody holds the lock, the current configuration
      is enabled and wants the event, a worker is idle and the current queue is empty, enqueueing the event and
      letting the worker go on without errors or interruption sends it to the current target. */
  lemma EventIsDelivered(run: seq<State>, history: seq<Step>, i: nat, t: nat, w: nat, level: Level)
    returns (states: seq<State>, steps: seq<Step>)
    requires Run(run, history) && i < |run| && run[i].Formed() && run[i].lock.Unlocked? && t !in run[i].enqueuers
    requires run[i].Current().enabled && Severity(level) <= Severity(run[i].Current().minimum)
    requires w < |run[i].workers| && run[i].workers[w].Idle? && run[i].queues[run[i].Top()].entries == []
    ensures Path(states, steps) && |states| == |steps| + 1 && states[0] == run[i]
    ensures var s, now := run[i], states[|steps|];
      var item := Item(|s.accepted|, s.Current().generation, level);
      && now.accepted == s.accepted + [item] && now.sent == s.sent + [item]
      && now.wire == s.wire + [(item, s.Current().target)]
      && now.workers == s.workers && now.queues == s.queues && now.failed == s.failed && now.discarded == s.discarded
      && now.configs == s.configs && now.lock.Unlocked?
    ensures var s := run[i];
      steps == [EnqRead(t, level), EnqRef(t), EnqPut(t), WorkRef(w), WorkGet(w), WorkCheck(w), WorkLook(w)]
        + (if s.Current().target.protocol == Udp || s.stream.Some? then [] else [OpenOk(w), Install(w)]) + [SendOk(w)]
  {
    hide Inv, Run, Enabled, Apply, Severity, Path, Roomy;
    AlwaysRoomy(run, history, i);
    RoomyAt(run[i]);
    Safety(run, history, i);
    states, steps := HandedOver(run[i], t, w, level);
    PathSafe(states, steps, 6);
    assert run[i].workers[w := Idle] == run[i].workers;
    states, steps := Sends(states, steps, w, Item(|run[i].accepted|, run[i].Current().generation, level));
  }

  /** A path from where a run ends goes on with it. */
  lemma Continues(run: seq<State>, history: seq<Step>, path: seq<State>, more: seq<Step>)
    requires Run(run, history) && Path(path, more) && run[|history|] == path[0]
    ensures Run(run + path[1..], history + more)
    ensures (run + path[1..])[|history| + |more|] == path[|more|]
  {
    hide Enabled, Apply;
    var states, steps := run + path[1..], history + more;
    forall k | 0 <= k < |steps| ensures Enabled(states[k], steps[k]) && states[k + 1] == Apply(states[k], steps[k]) {
      if k < |history| {
        assert steps[k] == history[k] && states[k] == run[k] && states[k + 1] == run[k + 1];
      } else {
        assert steps[k] == more[k - |history|] && states[k + 1] == path[k - |history| + 1];
        assert states[k] == path[k - |history|];
      }
    }
  }

  /** A forwarder just started is configured, gets a worker, and delivers the first event it wants. */
  lemma FreshForwarderDelivers(config: Config, t: nat, level: Level) returns (states: seq<State>, steps: seq<Step>)
    requires config.enabled && Severity(level) <= Severity(config.minimum)
    ensures Run(states, steps) && steps != [] && steps[0] == ConfigBegin(config)
    ensures var now, item := states[|steps|], Item(0, 1, level);
      && now.configs == [DEFAULT_CONFIG, config.(generation := 1)] && now.lock.Unlocked?
      && now.accepted == [item] && now.sent == [item] && now.wire == [(item, config.target)]
  {
    hide Severity, Inv, Roomy;
    var run, history := Configured(config);
    var path, more := EventIsDelivered(run, history, |history|, t, 0, level);
    Continues(run, history, path, more);
    states, steps := run + path[1..], history + more;
  }

  lemma Configured(config: Config) returns (states: seq<State>, steps: seq<Step>)
    ensures Run(states, steps) && steps != [] && steps[0] == ConfigBegin(config)
    ensures states[|steps|] == INITIAL.(configs := INITIAL.configs + [config.(generation := 1)],
      queues := states[|steps|].queues, workers := [Idle])
    ensures states[|steps|].queues != [] && states[|steps|].queues[|states[|steps|].queues| - 1].entries == []
  {
    Start(INITIAL);
    BeginIs(INITIAL, config);
    states, steps := Then([INITIAL], [], ConfigBegin(config));
    hide Enabled, Apply, Path;
    if states[|steps|].lock.Draining? {
      states, steps := ResizedEmpty(states, steps);
    }
    EndIs(states[|steps|]);
    states, steps := Then(states, steps, ConfigEnd);
    SpawnIs(states[|steps|]);
    states, steps := Then(states, steps, Spawn);
    PathsAreRuns(states, steps);
  }

  lemma PathsAreRuns(states: seq<State>, steps: seq<Step>)
    requires Path(states, steps) && states[0] == INITIAL
    ensures Run(states, steps)
  {
    hide Enabled, Apply;
  }

  lemma SpawnIs(s: State)
    requires s.Formed() && s.lock.Unlocked?
    ensures Enabled(s, Spawn) && Apply(s, Spawn) == s.(workers := s.workers + [Idle])
  {
  }

  lemma ResizedEmpty(states0: seq<State>, steps0: seq<Step>) returns (states: seq<State>, steps: seq<Step>)
    requires Path(states0, steps0) && |states0| == |steps0| + 1 && steps0 != []
    requires var s := states0[|steps0|]; s.Formed() && s.lock == Draining([]) && s.queues[s.Top()].entries == []
    ensures Path(states, steps) && |states| == |steps| + 1 && states0 <= states && steps0 <= steps
    ensures var s, now := states0[|steps0|], states[|steps|];
      now.queues != [] && now.queues[|now.queues| - 1].entries == []
      && now.(queues := s.queues, lock := s.lock) == s && now.lock.Closing?
  {
    hide Path;
    var s := states0[|steps0|];
    DrainedIs(s);
    states, steps := Then(states0, steps0, DrainDone);
    states, steps := Then(states, steps, RefillDone);
  }

  lemma DrainedIs(s: State)
    requires s.Formed() && s.lock == Draining([]) && s.queues[s.Top()].entries == []
    ensures Enabled(s, DrainDone) && var now := Apply(s, DrainDone);
      && now.queues != [] && now.queues[|now.queues| - 1].entries == [] && now.lock == Refilling([])
      && now.(queues := s.queues, lock := s.lock) == s
  {
    assert Newest([], s.Current().queueSize) == [] && Oldest([], s.Current().queueSize) == [];
  }

  lemma RoomyAt(s: State)
    requires Roomy(s) && s.queues != []
    ensures s.queues[s.Top()].maxsize > 0
  {
  }

  lemma {:induction false} PathSafe(states: seq<State>, steps: seq<Step>, i: nat)
    requires Path(states, steps) && i < |states| && Inv(states[0])
    ensures Inv(states[i])
  {
    hide Inv, Enabled, Apply;
    if i > 0 {
      PathSafe(states, steps, i - 1);
      InvStep(states[i - 1], steps[i - 1]);
    }
  }

  /** A first send that fails on a stream is tried once more, over a new one: the worker closes the stream if it
      is still installed, and then opens another while its configuration is in force. */
  lemma RetriesOnce(s: State, w: nat, item: Item, sock: nat) returns (broken: State, again: State)
    requires s.Formed() && s.lock.Unlocked? && s.Current().enabled
    requires w < |s.workers| && s.workers[w] == Ready(item, s.Current(), false, sock)
    requires sock < |s.sockets| && s.sockets[sock] == s.Current().target
    ensures Enabled(s, SendFail(w)) && Apply(s, SendFail(w)) == broken
    ensures Enabled(broken, Recover(w)) && Apply(broken, Recover(w)) == again
    ensures again.workers == s.workers[w := Opening(item, s.Current(), true)]
    ensures again.wire == s.wire + [(item, s.Current().target)] && again.sent == s.sent && again.failed == s.failed
    ensures s.stream.Some? && s.stream.value.sock == sock ==> again.stream.None? && sock in again.closed
    ensures s.stream.Some? && s.stream.value.sock != sock ==> again.stream == s.stream && again.closed == s.closed
  {
    broken := Apply(s, SendFail(w));
    again := Apply(broken, Recover(w));
  }

  /** A taken event is dropped exactly when its configuration is no longer in force, or is disabled. */
  lemma DiscardedIffStale(s: State, w: nat)
    requires Enabled(s, WorkCheck(w))
    ensures var item, c, now := s.workers[w].item, s.configs[|s.configs| - 1], Apply(s, WorkCheck(w));
      if item.generation == c.generation && c.enabled
      then now == s.(workers := s.workers[w := Checked(item, c)])
      else now == s.(workers := s.workers[w := Idle], discarded := s.discarded + [item])
  {
  }

  /** A second failure, or one over UDP, ends the event as failed; nothing else changes. */
  lemma SecondFailureEnds(s: State, w: nat)
    requires s.Formed() && w < |s.workers|
    requires s.workers[w].ReadyUdp? || (s.workers[w].Ready? && s.workers[w].again && s.workers[w].sock < |s.sockets|)
    ensures Enabled(s, SendFail(w))
    ensures var now := Apply(s, SendFail(w));
      && now.failed == s.failed + [s.workers[w].item] && now.workers == s.workers[w := Idle]
      && now.sent == s.sent && now.stream == s.stream && now.closed == s.closed && now.queues == s.queues
  {
  }

  // ---------------------------------------------------------------- configure without interference

  function Events(entries: seq<Entry>): seq<Item> {
    if entries == [] then []
    else if entries[0].Sentinel? then Events(entries[1..])
    else [entries[0].item] + Events(entries[1..])
  }

  lemma {:induction false} EventsPush(entries: seq<Entry>, item: Item)
    ensures Events(entries + [Event(item)]) == Events(entries) + [item]
  {
    if entries == [] {
      assert entries + [Event(item)] == [Event(item)] && [Event(item)][1..] == [];
    } else {
      var rest := Events(entries[1..]);
      assert (entries + [Event(item)])[1..] == entries[1..] + [Event(item)];
      EventsPush(entries[1..], item);
      assert entries[0].Event? ==> [entries[0].item] + (rest + [item]) == ([entries[0].item] + rest) + [item];
    }
  }

  /** `configure` run without interference: a resize leaves exactly the newest pending events, in order,
      in a queue of the new size, and counts the others as displaced; otherwise the queue is as before. */
  method Configure(s0: State, config: Config) returns (s: State)
    requires Inv(s0) && s0.Formed() && s0.lock.Unlocked? && config.queueSize >= 1
    ensures Inv(s) && s.Formed() && s.lock.Unlocked? && s.stream.None?
    ensures s.configs == s0.configs + [config.(generation := |s0.configs|)]
    ensures var before, after := s0.queues[s0.Top()], s.queues[s.Top()];
      if config.queueSize == s0.Current().queueSize == before.maxsize then s.queues == s0.queues &&
        s.displaced == s0.displaced
      else
        && after.maxsize == config.queueSize
        && Events(after.entries) == Newest(Events(before.entries), config.queueSize)
        && s.displaced == s0.displaced + Oldest(Events(before.entries), config.queueSize)
  {
    hide Inv, Events, Oldest, Newest;
    BeginIs(s0, config);
    s := StepOnce(s0, ConfigBegin(config));
    hide Enabled, Apply;
    if s.lock.Draining? {
      s := Resize(s);
    }
    EndIs(s);
    s := StepOnce(s, ConfigEnd);
  }

  lemma BeginIs(s: State, config: Config)
    requires s.Formed() && s.lock.Unlocked?
    ensures Enabled(s, ConfigBegin(config))
    ensures Apply(s, ConfigBegin(config)) == s.(configs := s.configs + [config.(generation := |s.configs|)],
      lock := if config.queueSize == s.Current().queueSize == s.queues[s.Top()].maxsize then Closing else Draining([]))
  {
  }

  lemma EndIs(s: State)
    requires s.Formed() && s.lock.Closing?
    ensures Enabled(s, ConfigEnd) && var now := Apply(s, ConfigEnd);
      now.stream.None? && now.(stream := s.stream, closed := s.closed, lock := Closing) == s && now.lock.Unlocked?
  {
  }

  /** The part of `configure` that empties the old queue and fills the new one. */
  method Resize(begun: State) returns (s: State)
    requires Inv(begun) && begun.Formed() && begun.lock == Draining([]) && begun.Current().queueSize >= 1
    ensures Inv(s) && s.Formed() && s.lock.Closing? && s.configs == begun.configs
    ensures var before, after, n := begun.queues[begun.Top()], s.queues[s.Top()], begun.Current().queueSize;
      && after.maxsize == n && Events(after.entries) == Newest(Events(before.entries), n)
      && s.displaced == begun.displaced + Oldest(Events(before.entries), n)
  {
    hide Inv, Events, Oldest;
    s := DrainAll(begun);
    EmptyBefore(Events(begun.queues[begun.Top()].entries));
    s := StepOnce(s, DrainDone);
    s := RefillAll(s);
    s := StepOnce(s, RefillDone);
  }

  lemma EmptyBefore(items: seq<Item>)
    ensures [] + items == items
  {
  }

  method DrainAll(s0: State) returns (s: State)
    requires Inv(s0) && s0.Formed() && s0.lock.Draining?
    ensures Inv(s) && s.Formed() && s.lock.Draining? && s.queues[s.Top()].entries == []
    ensures s.lock.pending == s0.lock.pending + Events(s0.queues[s0.Top()].entries)
    ensures s.configs == s0.configs && s.displaced == s0.displaced && s.stream == s0.stream
  {
    hide Inv;
    s := s0;
    while s.queues[s.Top()].entries != []
      invariant Inv(s) && s.Formed() && s.lock.Draining?
      invariant s.configs == s0.configs && s.displaced == s0.displaced && s.stream == s0.stream
      invariant s.lock.pending + Events(s.queues[s.Top()].entries) ==
        s0.lock.pending + Events(s0.queues[s0.Top()].entries)
      decreases |s.queues[s.Top()].entries|
    {
      s := StepOnce(s, DrainOne);
    }
  }

  method RefillAll(s0: State) returns (s: State)
    requires Inv(s0) && s0.Formed() && s0.lock.Refilling? && s0.queues[s0.Top()].entries == []
    requires |s0.lock.rest| <= s0.queues[s0.Top()].maxsize
    ensures Inv(s) && s.Formed() && s.lock == Refilling([])
    ensures Events(s.queues[s.Top()].entries) == s0.lock.rest &&
      s.queues[s.Top()].maxsize == s0.queues[s0.Top()].maxsize
    ensures s.configs == s0.configs && s.displaced == s0.displaced && s.stream == s0.stream
  {
    hide Inv;
    s := s0;
    while s.lock.rest != []
      invariant Inv(s) && s.Formed() && s.lock.Refilling? && s.queues[s.Top()].maxsize == s0.queues[s0.Top()].maxsize
      invariant s.configs == s0.configs && s.displaced == s0.displaced && s.stream == s0.stream
      invariant Events(s.queues[s.Top()].entries) + s.lock.rest == s0.lock.rest
      invariant |s.queues[s.Top()].entries| + |s.lock.rest| == |s0.lock.rest|
      decreases |s.lock.rest|
    {
      EventsPush(s.queues[s.Top()].entries, s.lock.rest[0]);
      s := StepOnce(s, RefillOne);
    }
  }

  lemma InvFormed(s: State)
    requires Inv(s)
    ensures s.Formed()
  {
    hide Sockets, Order, Traffic, Conserved;
  }

  method StepOnce(s: State, step: Step) returns (t: State)
    requires Inv(s) && Enabled(s, step)
    ensures t == Apply(s, step) && Inv(t) && t.Formed()
  {
    t := Apply(s, step);
    InvStep(s, step);
    InvFormed(t);
  }
}
