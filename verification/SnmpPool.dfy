/** The SNMP connection pool: a semaphore and a channel of connections, shared by any number of callers. */
module SnmpPool {
  import opened Ordering

  const DEFAULT_POOL_SIZE: nat := 4
  const DEFAULT_MAX_CONCURRENT: nat := 5
  const DEFAULT_MAX_REPETITIONS: nat := 20

  /** Where one caller of Get or BulkWalk is: about to send on the semaphore, about to receive a connection,
      using one, or done with it and about to free its semaphore slot. */
  datatype Phase = Idle | Entered | Holding(conn: int) | Released

  /** A caller and how many operations it has yet to finish. */
  datatype Client = Client(phase: Phase, todo: nat)

  /** The two channels and the callers. */
  datatype State = State(idle: seq<int>, tokens: int, clients: seq<Client>)

  /** What the constructor fixed: the connections made, and the semaphore's size. */
  datatype Sizes = Sizes(conns: set<int>, maxConcurrent: int)

  // ----- steps -----

  /** A send blocks on a full channel, a receive on an empty one. */
  predicate Enabled(sizes: Sizes, s: State, i: int) {
    && 0 <= i < |s.clients|
    && match s.clients[i].phase
       case Idle => s.clients[i].todo > 0 && s.tokens < sizes.maxConcurrent
       case Entered => s.idle != []
       case Holding(_) => |s.idle| < DEFAULT_POOL_SIZE
       case Released => s.tokens > 0
  }

  /** One caller moves: into the semaphore, to a connection, back with it, out of the semaphore. */
  function Next(sizes: Sizes, s: State, i: int): State
    requires Enabled(sizes, s, i)
  {
    var c := s.clients[i];
    match c.phase
    case Idle => State(s.idle, s.tokens + 1, s.clients[i := c.(phase := Entered)])
    case Entered => State(s.idle[1..], s.tokens, s.clients[i := c.(phase := Holding(s.idle[0]))])
    case Holding(conn) => State(s.idle + [conn], s.tokens, s.clients[i := c.(phase := Released)])
    case Released => State(s.idle, s.tokens - 1, s.clients[i := Client(Idle, if c.todo > 0 then c.todo - 1 else 0)])
  }

  // ----- what every step keeps -----

  function HeldBy(c: Client): multiset<int> {
    if c.phase.Holding? then multiset{c.phase.conn} else multiset{}
  }

  function Held(clients: seq<Client>): multiset<int> {
    if clients == [] then multiset{} else Held(clients[..|clients| - 1]) + HeldBy(clients[|clients| - 1])
  }

  function Slot(c: Client): nat {
    if c.phase.Idle? then 0 else 1
  }

  function InFlight(clients: seq<Client>): nat {
    if clients == [] then 0 else InFlight(clients[..|clients| - 1]) + Slot(clients[|clients| - 1])
  }

  /** Steps a caller has yet to make. */
  function ClientWork(c: Client): int {
    match c.phase
    case Idle => 4 * c.todo
    case Entered => 4 * c.todo - 1
    case Holding(_) => 4 * c.todo - 2
    case Released => 4 * c.todo - 3
  }

  function Work(clients: seq<Client>): int {
    if clients == [] then 0 else Work(clients[..|clients| - 1]) + ClientWork(clients[|clients| - 1])
  }

  /** Connections are conserved: each is in the channel or with one caller. Every caller that is not idle holds
      one semaphore slot and has an operation to finish. */
  ghost predicate Inv(sizes: Sizes, s: State) {
    && 1 <= |sizes.conns| <= DEFAULT_POOL_SIZE && sizes.maxConcurrent >= 1
    && multiset(s.idle) + Held(s.clients) == multiset(sizes.conns)
    && s.tokens == InFlight(s.clients) <= sizes.maxConcurrent
    && forall i :: 0 <= i < |s.clients| ==> s.clients[i].phase.Idle? || s.clients[i].todo > 0
  }

  /** Moving one caller changes the sums by that caller's part. */
  lemma {:induction false} MovedHeld(clients: seq<Client>, i: nat, c: Client, x: int)
    requires i < |clients|
    ensures Held(clients[i := c])[x] + HeldBy(clients[i])[x] == Held(clients)[x] + HeldBy(c)[x]
  {
    hide HeldBy;
    var n := |clients| - 1;
    if i < n {
      MovedHeld(clients[..n], i, c, x);
      assert clients[i := c][..n] == clients[..n][i := c];
    } else {
      assert clients[i := c][..n] == clients[..n];
    }
  }

  lemma {:induction false} MovedCounts(clients: seq<Client>, i: nat, c: Client)
    requires i < |clients|
    ensures InFlight(clients[i := c]) + Slot(clients[i]) == InFlight(clients) + Slot(c)
    ensures Work(clients[i := c]) + ClientWork(clients[i]) == Work(clients) + ClientWork(c)
  {
    hide Slot, ClientWork;
    var n := |clients| - 1;
    if i < n {
      MovedCounts(clients[..n], i, c);
      assert clients[i := c][..n] == clients[..n][i := c];
    } else {
      assert clients[i := c][..n] == clients[..n];
    }
  }

  lemma {:induction false} HeldHas(clients: seq<Client>, i: nat)
    requires i < |clients|
    ensures HeldBy(clients[i]) <= Held(clients)
    ensures Slot(clients[i]) <= InFlight(clients)
  {
    if i < |clients| - 1 {
      HeldHas(clients[..|clients| - 1], i);
    }
  }

  /** A caller holding a connection always finds room to return it. */
  lemma {:induction false} ReleaseNeverBlocks(sizes: Sizes, s: State, i: nat)
    requires Inv(sizes, s) && i < |s.clients| && s.clients[i].phase.Holding?
    ensures Enabled(sizes, s, i)
  {
    HeldHas(s.clients, i);
    assert |multiset(s.idle) + Held(s.clients)| == |s.idle| + |Held(s.clients)|;
    assert s.clients[i].phase.conn in Held(s.clients);
    assert |Held(s.clients)| >= 1;
    assert |multiset(sizes.conns)| == |sizes.conns|;
  }

  /** A caller leaving the semaphore never blocks either. */
  lemma {:induction false} LeaveNeverBlocks(sizes: Sizes, s: State, i: nat)
    requires Inv(sizes, s) && i < |s.clients| && s.clients[i].phase.Released?
    ensures Enabled(sizes, s, i)
  {
    HeldHas(s.clients, i);
  }

  /** A step moves a connection between the channel and a caller, or none. */
  lemma {:induction false} StepConserves(sizes: Sizes, s: State, i: nat)
    requires Enabled(sizes, s, i)
    ensures multiset(Next(sizes, s, i).idle) + Held(Next(sizes, s, i).clients) == multiset(s.idle) + Held(s.clients)
  {
    var next := Next(sizes, s, i);
    if s.clients[i].phase.Entered? {
      assert s.idle == [s.idle[0]] + next.idle;
    }
    forall x ensures multiset(next.idle)[x] + Held(next.clients)[x] == multiset(s.idle)[x] + Held(s.clients)[x] {
      MovedHeld(s.clients, i, next.clients[i], x);
      assert next.clients == s.clients[i := next.clients[i]];
    }
  }

  lemma {:induction false} StepCounts(sizes: Sizes, s: State, i: nat)
    requires Enabled(sizes, s, i) && (s.clients[i].phase.Idle? || s.clients[i].todo > 0)
    ensures var next := Next(sizes, s, i);
            && next.tokens - InFlight(next.clients) == s.tokens - InFlight(s.clients)
            && next.tokens <= Max(s.tokens, sizes.maxConcurrent)
            && Work(next.clients) == Work(s.clients) - 1
            && (next.clients[i].phase.Idle? || next.clients[i].todo > 0)
            && next.clients == s.clients[i := next.clients[i]]
  {
    hide InFlight, Work;
    MovedCounts(s.clients, i, Next(sizes, s, i).clients[i]);
  }

  lemma {:induction false} StepKeepsInv(sizes: Sizes, s: State, i: nat)
    requires Inv(sizes, s) && Enabled(sizes, s, i)
    ensures Inv(sizes, Next(sizes, s, i))
    ensures Work(Next(sizes, s, i).clients) == Work(s.clients) - 1
    ensures |Next(sizes, s, i).clients| == |s.clients|
  {
    EnabledIndex(sizes, s, i);
    hide Next, Enabled, Held, InFlight, Work;
    StepConserves(sizes, s, i);
    StepCounts(sizes, s, i);
  }

  // ----- all runs -----

  /** A caller moves, or a new one arrives with operations to do one after the other. */
  datatype Step = Move(caller: int) | Join(todo: nat)

  predicate CanStep(sizes: Sizes, s: State, step: Step) {
    step.Move? ==> Enabled(sizes, s, step.caller)
  }

  function After(sizes: Sizes, s: State, step: Step): State
    requires CanStep(sizes, s, step)
  {
    match step
    case Move(i) => Next(sizes, s, i)
    case Join(n) => s.(clients := s.clients + [Client(Idle, n)])
  }

  /** Any interleaving of enabled moves and arrivals. */
  ghost predicate Runs(sizes: Sizes, s: State, schedule: seq<Step>, end: State)
    decreases |schedule|
  {
    if schedule == [] then s == end
    else CanStep(sizes, s, schedule[0]) && Runs(sizes, After(sizes, s, schedule[0]), schedule[1..], end)
  }

  function Moves(schedule: seq<Step>): nat {
    if schedule == [] then 0 else (if schedule[0].Move? then 1 else 0) + Moves(schedule[1..])
  }

  /** The moves the arrivals of a schedule ask for. */
  function Brought(schedule: seq<Step>): nat {
    if schedule == [] then 0 else (if schedule[0].Join? then 4 * schedule[0].todo else 0) + Brought(schedule[1..])
  }

  predicate Fresh(sizes: Sizes, s: State) {
    && 1 <= |sizes.conns| <= DEFAULT_POOL_SIZE && sizes.maxConcurrent >= 1
    && multiset(s.idle) == multiset(sizes.conns) && s.tokens == 0
    && forall i :: 0 <= i < |s.clients| ==> s.clients[i].phase.Idle?
  }

  predicate Finished(s: State) {
    forall i :: 0 <= i < |s.clients| ==> s.clients[i] == Client(Idle, 0)
  }

  lemma {:induction false} AllIdle(clients: seq<Client>)
    requires forall i :: 0 <= i < |clients| ==> clients[i].phase.Idle?
    ensures Held(clients) == multiset{} && InFlight(clients) == 0
  {
    if clients != [] {
      AllIdle(clients[..|clients| - 1]);
    }
  }

  lemma {:induction false} NoneHolding(clients: seq<Client>)
    requires forall i :: 0 <= i < |clients| ==> !clients[i].phase.Holding?
    ensures Held(clients) == multiset{}
  {
    if clients != [] {
      NoneHolding(clients[..|clients| - 1]);
    }
  }

  lemma {:induction false} ArrivalKeepsInv(sizes: Sizes, s: State, n: nat)
    requires Inv(sizes, s)
    ensures Inv(sizes, s.(clients := s.clients + [Client(Idle, n)]))
    ensures Work(s.clients + [Client(Idle, n)]) == Work(s.clients) + 4 * n
  {
    var all := s.clients + [Client(Idle, n)];
    assert all[..|s.clients|] == s.clients;
    assert Held(all) == Held(s.clients);
    assert InFlight(all) == InFlight(s.clients);
    hide Held, InFlight;
  }

  lemma {:induction false} RunKeepsInv(sizes: Sizes, s: State, schedule: seq<Step>, end: State)
    requires Inv(sizes, s) && Runs(sizes, s, schedule, end)
    ensures Inv(sizes, end)
    ensures Moves(schedule) + Work(end.clients) == Work(s.clients) + Brought(schedule)
    decreases |schedule|
  {
    hide Inv, Next, Enabled, Work;
    if schedule != [] {
      match schedule[0]
      case Move(i) =>
        EnabledIndex(sizes, s, i);
        StepKeepsInv(sizes, s, i);
      case Join(n) =>
        ArrivalKeepsInv(sizes, s, n);
    }
    if schedule != [] {
      RunKeepsInv(sizes, After(sizes, s, schedule[0]), schedule[1..], end);
    }
  }

  lemma {:induction false} EnabledIndex(sizes: Sizes, s: State, i: int)
    requires Enabled(sizes, s, i)
    ensures 0 <= i < |s.clients|
  {
  }

  /** While any caller is unfinished, some step is enabled. */
  lemma {:induction false} Progress(sizes: Sizes, s: State)
    requires Inv(sizes, s) && !Finished(s)
    ensures exists i :: Enabled(sizes, s, i)
  {
    if i :| 0 <= i < |s.clients| && s.clients[i].phase.Holding? {
      ReleaseNeverBlocks(sizes, s, i);
    } else if i :| 0 <= i < |s.clients| && s.clients[i].phase.Released? {
      LeaveNeverBlocks(sizes, s, i);
    } else if i :| 0 <= i < |s.clients| && s.clients[i].phase.Entered? {
      NoneHolding(s.clients);
      assert |multiset(s.idle)| == |multiset(sizes.conns)| == |sizes.conns|;
      assert Enabled(sizes, s, i);
    } else {
      AllIdle(s.clients);
      var i :| 0 <= i < |s.clients| && s.clients[i] != Client(Idle, 0);
      assert Enabled(sizes, s, i);
    }
  }

  /** In the channel or with one caller, never both and never with two. */
  ghost predicate Exclusive(sizes: Sizes, s: State) {
    && (forall c :: c in sizes.conns ==>
        c in s.idle || exists i :: 0 <= i < |s.clients| && s.clients[i].phase == Holding(c))
    && (forall i :: 0 <= i < |s.clients| && s.clients[i].phase.Holding? ==>
        s.clients[i].phase.conn in sizes.conns && s.clients[i].phase.conn !in s.idle)
    && (forall i, j :: 0 <= i < j < |s.clients| && s.clients[i].phase.Holding? ==>
        s.clients[j].phase != s.clients[i].phase)
    && (forall i, j :: 0 <= i < j < |s.idle| ==> s.idle[i] != s.idle[j])
  }

  lemma {:induction false} HolderOf(clients: seq<Client>, conn: int)
    requires conn in Held(clients)
    ensures exists i :: 0 <= i < |clients| && clients[i].phase == Holding(conn)
  {
    var n := |clients| - 1;
    if clients[n].phase != Holding(conn) {
      HolderOf(clients[..n], conn);
      var i :| 0 <= i < n && clients[..n][i].phase == Holding(conn);
      assert clients[i].phase == Holding(conn);
    }
  }

  lemma {:induction false} OneHolder(clients: seq<Client>, i: nat, conn: int)
    requires i < |clients| && clients[i].phase == Holding(conn)
    ensures Held(clients)[conn] >= 1
  {
    if i < |clients| - 1 {
      OneHolder(clients[..|clients| - 1], i, conn);
    }
  }

  lemma {:induction false} TwoHolders(clients: seq<Client>, i: nat, j: nat, conn: int)
    requires i < j < |clients| && clients[i].phase == clients[j].phase == Holding(conn)
    ensures Held(clients)[conn] >= 2
  {
    var front := clients[..|clients| - 1];
    if j < |front| {
      TwoHolders(front, i, j, conn);
    } else {
      OneHolder(front, i, conn);
    }
  }

  lemma {:induction false} Repeated(list: seq<int>, i: nat, j: nat)
    requires i < j < |list| && list[i] == list[j]
    ensures multiset(list)[list[i]] >= 2
  {
    assert list == list[..j] + [list[j]] + list[j + 1..];
    assert list[..j][i] == list[i];
  }

  lemma {:induction false} Conserved(sizes: Sizes, s: State, c: int)
    requires Inv(sizes, s)
    ensures multiset(s.idle)[c] + Held(s.clients)[c] == if c in sizes.conns then 1 else 0
  {
    assert (multiset(s.idle) + Held(s.clients))[c] == multiset(sizes.conns)[c];
  }

  lemma {:induction false} InvExclusive(sizes: Sizes, s: State)
    requires Inv(sizes, s)
    ensures Exclusive(sizes, s)
  {
    forall c | c in sizes.conns
      ensures c in s.idle || exists i :: 0 <= i < |s.clients| && s.clients[i].phase == Holding(c) {
      Conserved(sizes, s, c);
      if c !in s.idle {
        HolderOf(s.clients, c);
      }
    }
    forall i | 0 <= i < |s.clients| && s.clients[i].phase.Holding?
      ensures s.clients[i].phase.conn in sizes.conns && s.clients[i].phase.conn !in s.idle
    {
      HeldHas(s.clients, i);
      Conserved(sizes, s, s.clients[i].phase.conn);
    }
    forall i, j | 0 <= i < j < |s.clients| && s.clients[i].phase.Holding?
      ensures s.clients[j].phase != s.clients[i].phase {
      if s.clients[j].phase == s.clients[i].phase {
        TwoHolders(s.clients, i, j, s.clients[i].phase.conn);
        Conserved(sizes, s, s.clients[i].phase.conn);
      }
    }
    forall i, j | 0 <= i < j < |s.idle| ensures s.idle[i] != s.idle[j] {
      if s.idle[i] == s.idle[j] {
        Repeated(s.idle, i, j);
        Conserved(sizes, s, s.idle[i]);
      }
    }
  }

  /** Callers between receiving a connection and returning it. */
  function Using(clients: seq<Client>): nat {
    |Held(clients)|
  }

  /** Main result, over every interleaving from a fresh pool, callers arriving at any time: the operations in flight
      never exceed the limit, those using a connection never exceed the connections made, each connection is in
      the channel or with exactly one caller, and there are never more than four moves for each operation. */
  lemma {:induction false} PoolIsSafe(sizes: Sizes, s: State, schedule: seq<Step>, end: State)
    requires Fresh(sizes, s) && Runs(sizes, s, schedule, end)
    ensures InFlight(end.clients) == end.tokens <= sizes.maxConcurrent
    ensures Using(end.clients) <= |sizes.conns|
    ensures Exclusive(sizes, end)
    ensures Moves(schedule) + Work(end.clients) == Work(s.clients) + Brought(schedule) && Work(end.clients) >= 0
  {
    hide Runs, Next, Enabled, Exclusive, Moves, Brought;
    AllIdle(s.clients);
    assert Inv(sizes, s);
    RunKeepsInv(sizes, s, schedule, end);
    InvExclusive(sizes, end);
    assert |multiset(end.idle) + Held(end.clients)| == |multiset(sizes.conns)| == |sizes.conns|;
    WorkLeft(end.clients);
  }

  lemma {:induction false} WorkLeft(clients: seq<Client>)
    requires forall i :: 0 <= i < |clients| ==> clients[i].phase.Idle? || clients[i].todo > 0
    ensures Work(clients) >= 0
  {
    if clients != [] {
      WorkLeft(clients[..|clients| - 1]);
    }
  }

  /** Main result: when no caller can move, every operation of every caller so far is finished, in exactly four moves
      each, with every connection back in the channel and the semaphore empty. */
  lemma {:induction false} StoppedMeansFinished(sizes: Sizes, s: State, schedule: seq<Step>, end: State)
    requires Fresh(sizes, s) && Runs(sizes, s, schedule, end)
    requires !exists i :: Enabled(sizes, end, i)
    ensures Finished(end) && end.tokens == 0 && multiset(end.idle) == multiset(sizes.conns)
    ensures Moves(schedule) == Work(s.clients) + Brought(schedule)
  {
    hide Runs, Next, Enabled, Moves, Brought;
    AllIdle(s.clients);
    assert Inv(sizes, s);
    RunKeepsInv(sizes, s, schedule, end);
    if !Finished(end) {
      Progress(sizes, end);
    }
    AllIdle(end.clients);
    NothingLeft(end.clients);
  }

  lemma {:induction false} NothingLeft(clients: seq<Client>)
    requires forall i :: 0 <= i < |clients| ==> clients[i] == Client(Idle, 0)
    ensures Work(clients) == 0
  {
    if clients != [] {
      NothingLeft(clients[..|clients| - 1]);
    }
  }

  // ----- the pool itself -----

  /** What a connection is made with; the seed carries the same fields. */
  datatype Settings = Settings(target: string, port: int, community: string, timeout: int, retries: int, maxOids: int,
                               maxRepetitions: nat)

  /** A zero max-repetitions is never passed on. */
  function PoolSettings(seed: Settings): (r: Settings)
    ensures r.maxRepetitions > 0
    ensures r == seed.(maxRepetitions := r.maxRepetitions) && (seed.maxRepetitions > 0 ==> r == seed)
  {
    if seed.maxRepetitions == 0 then seed.(maxRepetitions := DEFAULT_MAX_REPETITIONS) else seed
  }

  class SnmpRepository {
    var pool: seq<int>
    var tokens: int
    var clients: seq<Client>
    var sizes: Sizes

    ghost function View(): State
      reads this
    {
      State(pool, tokens, clients)
    }

    /** The seed comes first; each further connection is attempted until one fails or the channel is full.
        Connections are numbered in the order they are made, the seed being 0. */
    constructor (seed: Settings, maxConcurrent: int, connect: (Settings, int) -> bool)
      ensures Fresh(sizes, View()) && clients == []
      ensures sizes.maxConcurrent == if maxConcurrent <= 0 then DEFAULT_MAX_CONCURRENT else maxConcurrent
      ensures forall k :: k in sizes.conns <==>
                0 <= k < DEFAULT_POOL_SIZE && forall j :: 0 < j <= k ==> connect(PoolSettings(seed), j)
    {
      tokens, clients := 0, [];
      pool := [0];
      sizes := Sizes({0}, if maxConcurrent <= 0 then DEFAULT_MAX_CONCURRENT else maxConcurrent);
      new;
      var cfg := PoolSettings(seed);
      var i := 1;
      while i < DEFAULT_POOL_SIZE && connect(cfg, i)
        invariant 1 <= i <= DEFAULT_POOL_SIZE && tokens == 0 && clients == []
        invariant sizes.maxConcurrent == if maxConcurrent <= 0 then DEFAULT_MAX_CONCURRENT else maxConcurrent
        invariant |sizes.conns| == i && multiset(pool) == multiset(sizes.conns)
        invariant forall k :: k in sizes.conns <==> 0 <= k < i
        invariant forall j :: 0 < j < i ==> connect(cfg, j)
      {
        pool := pool + [i];
        sizes := sizes.(conns := sizes.conns + {i});
        i := i + 1;
      }
    }

    /** A new caller, with n operations to do one after the other. */
    method Arrive(n: nat)
      requires Inv(sizes, View())
      modifies this`clients
      ensures Inv(sizes, View()) && View() == After(sizes, old(View()), Join(n))
    {
      hide Inv, Next, Enabled, Held, InFlight, Work;
      ArrivalKeepsInv(sizes, View(), n);
      clients := clients + [Client(Idle, n)];
    }

    method EnterSemaphore(i: nat)
      requires Enabled(sizes, View(), i) && clients[i].phase.Idle?
      modifies this`tokens, this`clients
      ensures View() == Next(sizes, old(View()), i)
    {
      tokens := tokens + 1;
      clients := clients[i := clients[i].(phase := Entered)];
    }

    method Acquire(i: nat)
      requires Enabled(sizes, View(), i) && clients[i].phase.Entered?
      modifies this`pool, this`clients
      ensures View() == Next(sizes, old(View()), i)
    {
      var conn := pool[0];
      pool := pool[1..];
      clients := clients[i := clients[i].(phase := Holding(conn))];
    }

    /** The operation has returned, with a result or an error. */
    method Release(i: nat)
      requires Enabled(sizes, View(), i) && clients[i].phase.Holding?
      modifies this`pool, this`clients
      ensures View() == Next(sizes, old(View()), i)
    {
      pool := pool + [clients[i].phase.conn];
      clients := clients[i := clients[i].(phase := Released)];
    }

    method LeaveSemaphore(i: nat)
      requires Enabled(sizes, View(), i) && clients[i].phase.Released?
      modifies this`tokens, this`clients
      ensures View() == Next(sizes, old(View()), i)
    {
      tokens := tokens - 1;
      clients := clients[i := Client(Idle, if clients[i].todo > 0 then clients[i].todo - 1 else 0)];
    }

    /** Lets some enabled caller move. */
    method MoveOne()
      requires Inv(sizes, View()) && !Finished(View())
      modifies this`pool, this`tokens, this`clients
      ensures Inv(sizes, View()) && 0 <= Work(clients) == Work(old(clients)) - 1
    {
      hide Inv;
      Progress(sizes, View());
      var i :| 0 <= i < |clients| && Enabled(sizes, State(pool, tokens, clients), i);
      StepKeepsInv(sizes, View(), i);
      WorkOfInv(sizes, Next(sizes, View(), i));
      match clients[i].phase
      case Idle => EnterSemaphore(i);
      case Entered => Acquire(i);
      case Holding(_) => Release(i);
      case Released => LeaveSemaphore(i);
    }

    /** Main result: callers arriving at any time and any enabled caller moving in between, it all ends with every
        operation of every caller finished. */
    method Serve(arrivals: seq<nat>)
      requires Inv(sizes, View())
      modifies this`pool, this`tokens, this`clients
      ensures Inv(sizes, View()) && Finished(View())
      ensures tokens == 0 && multiset(pool) == multiset(sizes.conns)
    {
      hide Inv, Finished;
      WorkOfInv(sizes, View());
      var next := 0;
      while next < |arrivals| || !Finished(State(pool, tokens, clients))
        invariant 0 <= next <= |arrivals|
        invariant Inv(sizes, View()) && Work(clients) >= 0
        decreases |arrivals| - next, Work(clients)
      {
        var arriving := next < |arrivals|;
        if arriving && !Finished(State(pool, tokens, clients)) {
          arriving := *;
        }
        if arriving {
          Arrive(arrivals[next]);
          WorkOfInv(sizes, View());
          next := next + 1;
        } else {
          MoveOne();
        }
      }
      FinishedPool(sizes, View());
    }
  }

  lemma {:induction false} WorkOfInv(sizes: Sizes, s: State)
    requires Inv(sizes, s)
    ensures Work(s.clients) >= 0
  {
    WorkLeft(s.clients);
  }

  lemma {:induction false} FinishedPool(sizes: Sizes, s: State)
    requires Inv(sizes, s) && Finished(s)
    ensures s.tokens == 0 && multiset(s.idle) == multiset(sizes.conns)
  {
    AllIdle(s.clients);
  }
}
