/**
 The life cycle of an SRT endpoint (srt_net/srt_net.cpp) as a state machine. API calls hold
 net_mtx_ from their first step to their last; the accept thread, the event thread and the
 client thread step in between. Every change of client_list_ is one step, made under
 client_list_mtx_. Results of the SRT library are arbitrary.
 */
module SrtNet {
  type Socket = int
  type Context = int

  // A call of clientDisconnected.
  datatype Goodbye = Goodbye(socket: Socket, ctx: Context)

  datatype Mode = Unknown | Server | Client

  // The thread behind worker_thread_, by where it is in its function.
  datatype Worker =
    | NoWorker
    | Starting                                  // waitForSRTClient, event thread not yet created
    | Clearing                                  // about to close the sockets of an earlier session
    | AtLoopHead                                // about to test server_active_
    | Waiting                                   // inside srt_accept
    | Connected(socket: Socket, ctx: Context)   // clientConnected returned a context, not yet listed
    | Receiving                                 // clientWorker
    | Returned                                  // function has returned, thread not yet joined

  // The thread behind event_thread_.
  datatype Event = NoEvent | Polling | Ended

  // Who holds net_mtx_, and how far stop() has come.
  datatype Api = Free | Closed | Cleared | WorkerJoined | ClientClosed

  datatype State = State(
    mode: Mode, serverActive: bool, clientActive: bool, api: Api,
    workerJoinable: bool, eventJoinable: bool, worker: Worker, event: Event,
    terminated: bool,                              // a joinable std::thread was assigned to
    clients: map<Socket, Context>,                 // client_list_
    accepted: map<Socket, Context>,                // every client clientConnected gave a context to
    disconnected: multiset<Goodbye>)               // every call of clientDisconnected

  const INITIAL := State(Unknown, false, false, Free, false, false, NoWorker, NoEvent, false, map[], map[], multiset{})

  datatype Action =
    | StartServer(ok: bool)
    | StartClient(ok: bool)
    | Stop(closes: bool)
    | StopClears
    | StopJoinsWorker
    | StopJoinsEvent
    | StopJoinsClient
    | WorkerSpawnsEvent
    | WorkerClears
    | WorkerWaits
    | WorkerGetsNone
    | WorkerAccepts(socket: Socket, ctx: Context)
    | WorkerLists
    | WorkerReturns
    | EventError(socket: Socket)
    | EventEnds
    | ClientFails

  // Which steps can be taken. An accepted socket id is new; joining waits for the thread.
  predicate Enabled(s: State, a: Action) {
    match a
    case StartServer(_) => s.api == Free
    case StartClient(_) => s.api == Free
    case Stop(_) => s.api == Free
    case StopClears => s.api == Closed
    case StopJoinsWorker => s.api == Cleared && (s.workerJoinable ==> s.worker == Returned)
    case StopJoinsEvent => s.api == WorkerJoined && (s.eventJoinable ==> s.event == Ended)
    case StopJoinsClient => s.api == ClientClosed && (s.workerJoinable ==> s.worker == Returned)
    case WorkerSpawnsEvent => s.worker == Starting
    case WorkerClears => s.worker == Clearing
    case WorkerWaits => s.worker == AtLoopHead && s.serverActive
    case WorkerGetsNone => s.worker == Waiting
    case WorkerAccepts(socket, _) => s.worker == Waiting && socket !in s.accepted
    case WorkerLists => s.worker.Connected?
    case WorkerReturns => (s.worker == AtLoopHead && !s.serverActive) || (s.worker == Receiving && !s.clientActive)
    case EventError(_) => s.event == Polling
    case EventEnds => s.event == Polling && !s.serverActive
    case ClientFails => s.worker == Receiving
  }

  function Listed(s: State): set<Goodbye> {
    set socket | socket in s.clients :: Goodbye(socket, s.clients[socket])
  }

  // closeAllClientSockets: every listed client is disconnected, and the list emptied.
  function CloseAll(s: State): State {
    s.(clients := map[], disconnected := s.disconnected + multiset(Listed(s)))
  }

  function Do(s: State, a: Action): State {
    match a
    case StartServer(ok) =>
      if s.mode != Unknown || !ok then s else
        s.(serverActive := true, mode := Server, worker := Starting, workerJoinable := true,
           terminated := s.terminated || s.workerJoinable)
    case StartClient(ok) =>
      if s.mode != Unknown || !ok then s else
        s.(clientActive := true, mode := Client, worker := Receiving, workerJoinable := true,
           terminated := s.terminated || s.workerJoinable)
    case Stop(closes) =>
      (match s.mode
       case Server => s.(serverActive := false, api := if closes then Closed else Free)
       case Client => s.(clientActive := false, api := if closes then ClientClosed else Free)
       case Unknown => s)
    case StopClears => CloseAll(s).(api := Cleared)
    case StopJoinsWorker => s.(workerJoinable := false, worker := NoWorker, api := WorkerJoined)
    case StopJoinsEvent => s.(eventJoinable := false, event := NoEvent, mode := Unknown, api := Free)
    case StopJoinsClient => s.(workerJoinable := false, worker := NoWorker, mode := Unknown, api := Free)
    case WorkerSpawnsEvent =>
      s.(event := Polling, eventJoinable := true, worker := Clearing, terminated := s.terminated || s.eventJoinable)
    case WorkerClears => CloseAll(s).(worker := AtLoopHead)
    case WorkerWaits => s.(worker := Waiting)
    case WorkerGetsNone => s.(worker := AtLoopHead)
    case WorkerAccepts(socket, ctx) => s.(worker := Connected(socket, ctx), accepted := s.accepted[socket := ctx])
    case WorkerLists =>
      if !s.worker.Connected? then s else
        s.(worker := AtLoopHead, clients := s.clients[s.worker.socket := s.worker.ctx])
    case WorkerReturns => s.(worker := Returned)
    case EventError(socket) =>
      if socket !in s.clients then s else
        s.(clients := s.clients - {socket},
           disconnected := s.disconnected + multiset{Goodbye(socket, s.clients[socket])})
    case EventEnds => s.(event := Ended)
    case ClientFails => s.(clientActive := false, worker := Returned)
  }

  predicate Run(s: State, actions: seq<Action>)
    decreases |actions|
  {
    actions != [] ==> Enabled(s, actions[0]) && Run(Do(s, actions[0]), actions[1..])
  }

  function After(s: State, actions: seq<Action>): State
    decreases |actions|
  {
    if actions == [] then s else After(Do(s, actions[0]), actions[1..])
  }

  // ---------- Thread handles ----------

  // A handle is joinable exactly while there is a thread behind it; the threads there are fit the mode.
  predicate HandlesOk(s: State) {
    !s.terminated
    && (s.workerJoinable <==> s.worker != NoWorker)
    && (s.eventJoinable <==> s.event != NoEvent)
    && match s.mode
       case Unknown => s.worker == NoWorker && s.event == NoEvent && s.api == Free
       case Client =>
         s.event == NoEvent && (s.worker == Receiving || s.worker == Returned)
           && (s.api == Free || s.api == ClientClosed)
       case Server =>
         s.api != ClientClosed && s.worker != Receiving
         && (s.worker == Starting ==> s.event == NoEvent)
         && (s.worker == NoWorker <==> s.api == WorkerJoined)
         && (s.api != Free ==> !s.serverActive)
  }

  lemma HandlesStep(s: State, a: Action)
    requires HandlesOk(s) && Enabled(s, a)
    ensures HandlesOk(Do(s, a))
  {
  }

  // ---------- Conservation of clients ----------

  // Where an accepted client can be: connected but not listed, listed, or disconnected.
  function Places(s: State, socket: Socket): nat
    requires socket in s.accepted
  {
    (if s.worker.Connected? && s.worker.socket == socket then 1 else 0)
    + (if socket in s.clients then 1 else 0)
    + s.disconnected[Goodbye(socket, s.accepted[socket])]
  }

  predicate ClientsOk(s: State) {
    (forall socket | socket in s.accepted :: Places(s, socket) == 1)
    && (forall socket | socket in s.clients :: socket in s.accepted && s.clients[socket] == s.accepted[socket])
    && (s.worker.Connected? ==> s.worker.socket in s.accepted && s.worker.ctx == s.accepted[s.worker.socket])
    && (forall g | g in s.disconnected :: g.socket in s.accepted && g.ctx == s.accepted[g.socket])
  }

  lemma CloseAllKeeps(s: State)
    requires ClientsOk(s)
    ensures ClientsOk(CloseAll(s))
  {
    var s' := CloseAll(s);
    forall socket | socket in s.accepted
      ensures Places(s', socket) == 1
    {
      CloseOne(s, socket);
    }
    forall g | g in s'.disconnected
      ensures g.socket in s.accepted && g.ctx == s.accepted[g.socket]
    {
      assert g in s.disconnected || g in Listed(s);
    }
  }

  lemma CloseOne(s: State, socket: Socket)
    requires ClientsOk(s) && socket in s.accepted
    ensures Places(CloseAll(s), socket) == 1
  {
    assert Places(s, socket) == 1;
    assert Goodbye(socket, s.accepted[socket]) in Listed(s) <==> socket in s.clients;
  }

  lemma ErrorKeeps(s: State, socket: Socket)
    requires ClientsOk(s) && socket in s.clients
    ensures ClientsOk(Do(s, EventError(socket)))
  {
    var s' := Do(s, EventError(socket));
    forall other | other in s.accepted
      ensures Places(s', other) == 1
    {
      assert Places(s, other) == 1;
    }
  }

  lemma AcceptKeeps(s: State, socket: Socket, ctx: Context)
    requires ClientsOk(s) && Enabled(s, WorkerAccepts(socket, ctx))
    ensures ClientsOk(Do(s, WorkerAccepts(socket, ctx)))
  {
    var s' := Do(s, WorkerAccepts(socket, ctx));
    assert Goodbye(socket, ctx) !in s.disconnected;
    forall other | other in s'.accepted
      ensures Places(s', other) == 1
    {
      if other != socket {
        assert Places(s, other) == 1;
      }
    }
  }

  lemma ListKeeps(s: State)
    requires ClientsOk(s) && s.worker.Connected?
    ensures ClientsOk(Do(s, WorkerLists))
  {
    var s' := Do(s, WorkerLists);
    assert Places(s, s.worker.socket) == 1;
    forall other | other in s.accepted
      ensures Places(s', other) == 1
    {
      assert Places(s, other) == 1;
    }
  }

  lemma ClientsSame(s: State, s': State)
    requires ClientsOk(s) && s'.clients == s.clients && s'.accepted == s.accepted && s'.disconnected == s.disconnected
    requires s'.worker == s.worker || (!s.worker.Connected? && !s'.worker.Connected?)
    ensures ClientsOk(s')
  {
    forall socket | socket in s'.accepted
      ensures Places(s', socket) == 1
    {
      assert Places(s, socket) == 1;
    }
  }

  lemma ClientsStep(s: State, a: Action)
    requires HandlesOk(s) && ClientsOk(s) && Enabled(s, a)
    ensures ClientsOk(Do(s, a))
  {
    var s' := Do(s, a);
    match a {
      case StopClears =>
        CloseAllKeeps(s);
        ClientsSame(CloseAll(s), s');
      case WorkerClears =>
        CloseAllKeeps(s);
        ClientsSame(CloseAll(s), s');
      case WorkerAccepts(socket, ctx) =>
        AcceptKeeps(s, socket, ctx);
      case WorkerLists =>
        ListKeeps(s);
      case EventError(socket) =>
        if socket in s.clients {
          ErrorKeeps(s, socket);
        }
      case _ =>
        ClientsSame(s, s');
    }
  }

  // ---------- Every run ----------

  lemma {:induction false} RunKeeps(s: State, actions: seq<Action>)
    requires HandlesOk(s) && ClientsOk(s) && Run(s, actions)
    ensures HandlesOk(After(s, actions)) && ClientsOk(After(s, actions))
    decreases |actions|
  {
    hide HandlesOk, ClientsOk, Do, Enabled;
    if actions != [] {
      HandlesStep(s, actions[0]);
      ClientsStep(s, actions[0]);
      RunKeeps(Do(s, actions[0]), actions[1..]);
    }
  }

  /**
   In every run of start and stop calls interleaved with worker steps, with failed starts
   and failed closes, no joinable handle is ever assigned to, and whenever the mode is
   unknown both handles are unjoinable and no thread is left.
   */
  lemma ThreadHandleSafety(actions: seq<Action>)
    requires Run(INITIAL, actions)
    ensures var s := After(INITIAL, actions);
            !s.terminated
            && (s.mode == Unknown ==>
                  !s.workerJoinable && !s.eventJoinable && s.worker == NoWorker && s.event == NoEvent)
            && (s.mode == Client ==> s.event == NoEvent)
  {
    hide Do, Enabled;
    RunKeeps(INITIAL, actions);
  }

  /**
   In every run, each client that was given a context is in exactly one place: still being
   listed, in the list, or disconnected by exactly one call, made with that context; and no
   one else is ever disconnected.
   */
  lemma ClientConservation(actions: seq<Action>, socket: Socket)
    requires Run(INITIAL, actions)
    ensures var s := After(INITIAL, actions);
            (socket in s.accepted ==> Places(s, socket) == 1)
            && (socket in s.clients ==> socket in s.accepted && s.clients[socket] == s.accepted[socket]
                                        && forall ctx :: s.disconnected[Goodbye(socket, ctx)] == 0)
            && (forall ctx :: s.disconnected[Goodbye(socket, ctx)] <= 1)
            && (forall ctx :: s.disconnected[Goodbye(socket, ctx)] > 0 ==>
                  socket in s.accepted && ctx == s.accepted[socket])
  {
    hide Do, Enabled;
    RunKeeps(INITIAL, actions);
    var s := After(INITIAL, actions);
    if socket in s.accepted {
      assert Places(s, socket) == 1;
      assert forall ctx | ctx != s.accepted[socket] :: Goodbye(socket, ctx) !in s.disconnected;
    } else {
      assert forall ctx :: Goodbye(socket, ctx) !in s.disconnected;
    }
  }

  // ---------- What single steps do at the end of a run ----------

  lemma {:induction false} LastOf(s: State, actions: seq<Action>, a: Action)
    requires Run(s, actions + [a])
    ensures Run(s, actions) && Enabled(After(s, actions), a)
    ensures After(s, actions + [a]) == Do(After(s, actions), a)
    decreases |actions|
  {
    hide Do, Enabled;
    var all := actions + [a];
    if actions == [] {
      assert all == [a] && all[0] == a && all[1..] == [];
    } else {
      assert all[0] == actions[0] && all[1..] == actions[1..] + [a];
      LastOf(Do(s, actions[0]), actions[1..], a);
    }
  }

  // Every client but one is where it was.
  ghost predicate OthersStay(s: State, s': State, socket: Socket) {
    (forall other | other != socket :: other in s'.clients <==> other in s.clients)
    && (forall other | other != socket && other in s.clients :: s'.clients[other] == s.clients[other])
    && (forall g: Goodbye | g.socket != socket :: s'.disconnected[g] == s.disconnected[g])
  }

  /**
   A receive error on a listed client, at the end of any run: the client is listed no more, it has
   been disconnected by exactly one call with its context, and every other client is where it was.
   */
  lemma ErrorDisconnects(actions: seq<Action>, socket: Socket)
    requires Run(INITIAL, actions + [EventError(socket)]) && socket in After(INITIAL, actions).clients
    ensures var s, s' := After(INITIAL, actions), After(INITIAL, actions + [EventError(socket)]);
            socket !in s'.clients && s'.disconnected[Goodbye(socket, s.clients[socket])] == 1
            && s'.accepted == s.accepted && OthersStay(s, s', socket)
  {
    hide Run, After, Enabled, HandlesOk;
    LastOf(INITIAL, actions, EventError(socket));
    ClientConservation(actions, socket);
  }

  // On a client that is listed no more it does nothing.
  lemma ErrorIgnored(actions: seq<Action>, socket: Socket)
    requires Run(INITIAL, actions + [EventError(socket)]) && socket !in After(INITIAL, actions).clients
    ensures After(INITIAL, actions + [EventError(socket)]) == After(INITIAL, actions)
  {
    hide Run, After, Enabled;
    LastOf(INITIAL, actions, EventError(socket));
  }

  /**
   Closing all clients, by stop or by a new accept thread, at the end of any run: the list is empty,
   each client that was listed has been disconnected by exactly one call with its context, and no
   one else has.
   */
  lemma ClearingDisconnects(actions: seq<Action>, a: Action, socket: Socket, ctx: Context)
    requires a in {StopClears, WorkerClears} && Run(INITIAL, actions + [a])
    ensures var s, s' := After(INITIAL, actions), After(INITIAL, actions + [a]);
            s'.clients == map[]
            && s'.disconnected[Goodbye(socket, ctx)]
               == if socket in s.clients && s.clients[socket] == ctx then 1 else s.disconnected[Goodbye(socket, ctx)]
  {
    hide Run, After, Enabled, HandlesOk;
    LastOf(INITIAL, actions, a);
    ClientConservation(actions, socket);
    var s := After(INITIAL, actions);
    assert Goodbye(socket, ctx) in Listed(s) <==> socket in s.clients && s.clients[socket] == ctx;
  }

  /** An accepted client is accounted for, and the next step of the accept thread lists it. */
  lemma AcceptedIsListed(actions: seq<Action>, socket: Socket, ctx: Context)
    requires Run(INITIAL, actions + [WorkerAccepts(socket, ctx)] + [WorkerLists])
    ensures var s, s' := After(INITIAL, actions), After(INITIAL, actions + [WorkerAccepts(socket, ctx)]
                                                        + [WorkerLists]);
            socket in s'.accepted && s'.accepted[socket] == ctx && socket in s'.clients && s'.clients[socket] == ctx
            && OthersStay(s, s', socket)
  {
    hide Run, After, Enabled;
    LastOf(INITIAL, actions + [WorkerAccepts(socket, ctx)], WorkerLists);
    LastOf(INITIAL, actions, WorkerAccepts(socket, ctx));
  }

  /**
   A start at the end of any run: if it succeeds and the mode was unknown, there is a session of its
   kind with its thread; otherwise nothing changes.
   */
  lemma StartStarts(actions: seq<Action>, server: bool, ok: bool)
    requires Run(INITIAL, actions + [if server then StartServer(ok) else StartClient(ok)])
    ensures var s, s' := After(INITIAL, actions), After(INITIAL, actions
                                                        + [if server then StartServer(ok) else StartClient(ok)]);
            if s.mode == Unknown && ok then
              s'.mode == (if server then Server else Client) && s'.workerJoinable && !s'.terminated
              && (server ==> s'.serverActive && s'.worker == Starting)
              && (!server ==> s'.clientActive && s'.worker == Receiving)
              && s'.clients == s.clients && s'.disconnected == s.disconnected && s'.api == Free
            else s' == s
  {
    hide Run, After;
    var a := if server then StartServer(ok) else StartClient(ok);
    LastOf(INITIAL, actions, a);
    ThreadHandleSafety(actions);
  }

  // A client's connection that fails ends its thread, and its session stays until it is stopped.
  lemma FailedClientEnds(actions: seq<Action>)
    requires Run(INITIAL, actions + [ClientFails])
    ensures var s, s' := After(INITIAL, actions), After(INITIAL, actions + [ClientFails]);
            s'.worker == Returned && !s'.clientActive && s'.mode == s.mode == Client && s'.workerJoinable
  {
    hide Run, After;
    StartsOk();
    LastOf(INITIAL, actions, ClientFails);
    RunKeeps(INITIAL, actions);
  }

  // A stop that cannot close the socket takes the flag down, and leaves the session and the list.
  lemma FailedStopStays(actions: seq<Action>)
    requires Run(INITIAL, actions + [Stop(false)])
    ensures var s, s' := After(INITIAL, actions), After(INITIAL, actions + [Stop(false)]);
            s'.mode == s.mode && s'.api == Free && s'.clients == s.clients && s'.worker == s.worker
              && s'.event == s.event
            && (s.mode == Server ==> !s'.serverActive) && (s.mode == Client ==> !s'.clientActive)
  {
    hide Run, After;
    LastOf(INITIAL, actions, Stop(false));
  }

  // A client is accepted, listed and lost.
  function ShortSession(): seq<Action> {
    [StartServer(true)]
    + ([WorkerSpawnsEvent] + ([WorkerClears] + ([WorkerWaits] + ([WorkerAccepts(7, 70)] + ([WorkerLists]
       + ([EventError(7)] + []))))))
  }

  /** Such a run is possible, and ends with no client listed and one goodbye. */
  lemma KnownSession()
    ensures Run(INITIAL, ShortSession())
    ensures var s := After(INITIAL, ShortSession());
            s.mode == Server && s.clients == map[] && s.disconnected == multiset{Goodbye(7, 70)}
  {
    hide Run, After, CloseAll;
    var s1 := Do(INITIAL, StartServer(true));
    var s2 := Do(s1, WorkerSpawnsEvent);
    NoneClosed(s2);
    var s3 := Do(s2, WorkerClears);
    var s4 := Do(s3, WorkerWaits);
    var s5 := Do(s4, WorkerAccepts(7, 70));
    var r5 := [WorkerLists] + ([EventError(7)] + []);
    var r4 := [WorkerAccepts(7, 70)] + r5;
    var r3 := [WorkerWaits] + r4;
    ListedAndLost(s5, 7, 70);
    Advance(s4, WorkerAccepts(7, 70), r5);
    Advance(s3, WorkerWaits, r4);
    Advance(s2, WorkerClears, r3);
    Advance(s1, WorkerSpawnsEvent, [WorkerClears] + r3);
    Advance(INITIAL, StartServer(true), [WorkerSpawnsEvent] + ([WorkerClears] + r3));
  }

  lemma ListedAndLost(s: State, socket: Socket, ctx: Context)
    requires s.worker == Connected(socket, ctx) && s.event == Polling && s.clients == map[]
    ensures var more := [WorkerLists] + ([EventError(socket)] + []);
            Run(s, more) && After(s, more) == s.(worker := AtLoopHead, disconnected := s.disconnected
                                                 + multiset{Goodbye(socket, ctx)})
  {
    hide Run, After;
    var listed := Do(s, WorkerLists);
    var lost := Do(listed, EventError(socket));
    assert listed.clients == map[socket := ctx];
    assert lost.clients == map[];
    Advance(s, WorkerLists, [EventError(socket)] + []);
    Advance(listed, EventError(socket), []);
    Finished(lost);
  }

  // ---------- A session can always be ended ----------

  // No session and no thread.
  predicate Home(s: State) {
    s.mode == Unknown && s.api == Free && !s.workerJoinable && !s.eventJoinable && s.worker == NoWorker
      && s.event == NoEvent
  }

  ghost predicate CanGoHome(s: State) {
    exists more :: Run(s, more) && Home(After(s, more))
  }

  // A next step on the way home.
  function Homeward(s: State): Action {
    if s.api == Free then Stop(true)
    else if s.api == Closed then StopClears
    else if s.api == ClientClosed then (if s.worker == Receiving then WorkerReturns else StopJoinsClient)
    else if s.api == WorkerJoined then (if s.event == Polling then EventEnds else StopJoinsEvent)
    else
      match s.worker
      case Starting => WorkerSpawnsEvent
      case Clearing => WorkerClears
      case AtLoopHead => WorkerReturns
      case Waiting => WorkerGetsNone
      case Connected(_, _) => WorkerLists
      case _ => StopJoinsWorker
  }

  function Distance(s: State): nat {
    if s.mode == Unknown then 0
    else if s.mode == Client then (if s.api == Free then 4 else 1) + (if s.worker == Receiving then 1 else 0)
    else
      (match s.api case Free => 5 case Closed => 4 case Cleared => 3 case _ => 1) * 10
      + (match s.worker
         case Starting => 4
         case Clearing => 3
         case Waiting => 2
         case Connected(_, _) => 2
         case AtLoopHead => 1
         case _ => 0)
      + (if s.event == Polling then 1 else if s.event == NoEvent then 2 else 0)
  }

  lemma HomewardStep(s: State)
    requires HandlesOk(s) && (s.mode == Client && s.api != Free ==> !s.clientActive) && s.mode != Unknown
    ensures var s' := Do(s, Homeward(s));
            Enabled(s, Homeward(s)) && Distance(s') < Distance(s)
              && (s'.mode == Client && s'.api != Free ==> !s'.clientActive)
  {
    hide CloseAll;
    AllClosed(s);
  }

  lemma {:induction false} GoesHome(s: State)
    requires HandlesOk(s) && (s.mode == Client && s.api != Free ==> !s.clientActive)
    ensures CanGoHome(s)
    decreases Distance(s)
  {
    hide Run, After, Do, Enabled, Distance, Homeward;
    if s.mode == Unknown {
      Finished(s);
    } else {
      hide HandlesOk;
      var a := Homeward(s);
      HomewardStep(s);
      HandlesStep(s, a);
      GoesHome(Do(s, a));
      var more :| Run(Do(s, a), more) && Home(After(Do(s, a), more));
      Advance(s, a, more);
    }
  }

  lemma {:induction false} StoppedClient(s: State, actions: seq<Action>)
    requires HandlesOk(s) && Run(s, actions) && (s.mode == Client && s.api != Free ==> !s.clientActive)
    ensures var s' := After(s, actions); s'.mode == Client && s'.api != Free ==> !s'.clientActive
    decreases |actions|
  {
    if actions != [] {
      StoppedClientStep(s, actions[0]);
      HandlesStep(s, actions[0]);
      hide Do, Enabled, HandlesOk;
      StoppedClient(Do(s, actions[0]), actions[1..]);
    }
  }

  lemma StoppedClientStep(s: State, a: Action)
    requires HandlesOk(s) && Enabled(s, a) && (s.mode == Client && s.api != Free ==> !s.clientActive)
    ensures var s' := Do(s, a); s'.mode == Client && s'.api != Free ==> !s'.clientActive
  {
  }

  /**
   From every state of every run, whatever call is under way and wherever the threads are, steps of
   these and at most one call of stop lead back to mode unknown with no thread and no joinable
   handle, so that a new session can be started.
   */
  lemma SessionCanEnd(actions: seq<Action>)
    requires Run(INITIAL, actions)
    ensures CanGoHome(After(INITIAL, actions))
  {
    hide Do, Enabled;
    StartsOk();
    RunKeeps(INITIAL, actions);
    StoppedClient(INITIAL, actions);
    GoesHome(After(INITIAL, actions));
  }

  // ---------- A client can outlive its session ----------

  // A run that ends where stop, having closed a server's socket, returns.
  predicate UntilReturn(actions: seq<Action>) {
    actions != [] && actions[|actions| - 1] == StopJoinsEvent && StopJoinsEvent !in actions[..|actions| - 1]
  }

  // stop can return with a client still in the list.
  ghost predicate CanLeaveAClient(s: State) {
    exists more :: UntilReturn(more) && Run(s, more) && After(s, more).clients != map[]
  }

  // The accept thread may still list a client: it is inside srt_accept, or holds a client to list.
  predicate MayStillList(s: State) {
    s.worker == Waiting || s.worker.Connected?
  }

  // While stop is under way: once the list is cleared it holds no client as long as one may
  // still be listed, and never more than one.
  predicate Stopping(s: State) {
    s.mode == Server && !s.serverActive && s.api in {Closed, Cleared, WorkerJoined}
    && (s.api != Closed ==> AtMostOne(s.clients) && (MayStillList(s) ==> s.clients == map[]))
  }

  predicate AtMostOne(clients: map<Socket, Context>) { |clients| <= 1 }

  // What a step does to a stop that is under way: it stays so, no listing becomes possible again, and
  // an empty list that none will follow stays empty.
  predicate StaysStopping(s: State, s': State) {
    Stopping(s') && (MayStillList(s') ==> MayStillList(s))
    && (!MayStillList(s) && (s.api != Closed ==> s.clients == map[]) ==> (s'.api != Closed ==> s'.clients == map[]))
  }

  lemma StoppingClears(s: State, a: Action)
    requires HandlesOk(s) && Stopping(s) && Enabled(s, a) && (a == StopClears || a == WorkerClears)
    ensures StaysStopping(s, Do(s, a))
  {
    hide CloseAll, AtMostOne;
    NoneIsAtMostOne();
    AllClosed(s);
  }

  lemma StoppingError(s: State, socket: Socket)
    requires HandlesOk(s) && Stopping(s) && Enabled(s, EventError(socket))
    ensures StaysStopping(s, Do(s, EventError(socket)))
  {
    hide AtMostOne;
    Fewer(s.clients, socket);
  }

  lemma StoppingLists(s: State)
    requires HandlesOk(s) && Stopping(s) && Enabled(s, WorkerLists)
    ensures StaysStopping(s, Do(s, WorkerLists))
  {
    hide AtMostOne;
    if s.api != Closed {
      OneListed(s.clients, s.worker.socket, s.worker.ctx);
    }
  }

  lemma StoppingStep(s: State, a: Action)
    requires HandlesOk(s) && Stopping(s) && Enabled(s, a) && a != StopJoinsEvent
    ensures StaysStopping(s, Do(s, a))
  {
    hide CloseAll, AtMostOne;
    match a {
      case StopClears =>
        StoppingClears(s, a);
      case WorkerClears =>
        StoppingClears(s, a);
      case EventError(socket) =>
        StoppingError(s, socket);
      case WorkerLists =>
        StoppingLists(s);
      case _ =>
    }
  }

  lemma AllClosed(s: State)
    ensures CloseAll(s) == s.(clients := map[], disconnected := CloseAll(s).disconnected)
  {
  }

  lemma NoneIsAtMostOne()
    ensures AtMostOne(map[])
  {
  }

  lemma Fewer(clients: map<Socket, Context>, socket: Socket)
    ensures AtMostOne(clients) ==> AtMostOne(clients - {socket})
  {
    assert (clients - {socket}).Keys == clients.Keys - {socket};
  }

  lemma OneListed(clients: map<Socket, Context>, socket: Socket, ctx: Context)
    requires clients == map[]
    ensures AtMostOne(clients[socket := ctx])
  {
    assert clients[socket := ctx] == map[socket := ctx];
  }

  // Nothing is listed any more: the list stays empty from the clearing on.
  lemma {:induction false} StopEmpties(s: State, more: seq<Action>)
    requires HandlesOk(s) && Stopping(s) && UntilReturn(more) && Run(s, more)
    requires !MayStillList(s) && (s.api != Closed ==> s.clients == map[])
    ensures After(s, more).clients == map[]
    decreases |more|
  {
    hide HandlesOk, Enabled, MayStillList;
    if |more| == 1 {
      LastStep(s, more);
    } else {
      FirstOfUntilReturn(more);
      StoppingStep(s, more[0]);
      HandlesStep(s, more[0]);
      hide Do, Stopping;
      StopEmpties(Do(s, more[0]), more[1..]);
    }
  }

  lemma FirstOfUntilReturn(more: seq<Action>)
    requires UntilReturn(more) && |more| > 1
    ensures more[0] != StopJoinsEvent && UntilReturn(more[1..])
  {
    var front, rest := more[..|more| - 1], more[1..];
    assert more[0] == front[0];
    assert rest[..|rest| - 1] == front[1..];
  }

  lemma LastStep(s: State, more: seq<Action>)
    requires |more| == 1 && UntilReturn(more) && Run(s, more)
    ensures s.api == WorkerJoined && After(s, more) == Do(s, StopJoinsEvent)
  {
    assert more[1..] == [];
  }

  /** However stop's run goes, at most one client is left. */
  lemma {:induction false} AtMostOneLeft(s: State, more: seq<Action>)
    requires HandlesOk(s) && Stopping(s) && UntilReturn(more) && Run(s, more)
    ensures |After(s, more).clients| <= 1
    decreases |more|
  {
    hide HandlesOk, Enabled, MayStillList;
    if |more| == 1 {
      LastStep(s, more);
    } else {
      FirstOfUntilReturn(more);
      StoppingStep(s, more[0]);
      HandlesStep(s, more[0]);
      hide Do, Stopping;
      AtMostOneLeft(Do(s, more[0]), more[1..]);
    }
  }

  lemma Advance(s: State, a: Action, rest: seq<Action>)
    requires Enabled(s, a)
    ensures Run(s, [a] + rest) <==> Run(Do(s, a), rest)
    ensures After(s, [a] + rest) == After(Do(s, a), rest)
  {
    hide Do, Enabled;
    assert ([a] + rest)[0] == a && ([a] + rest)[1..] == rest;
  }

  lemma Finished(s: State)
    ensures Run(s, []) && After(s, []) == s
  {
  }

  // The event thread ends, if it has not, and stop returns.
  function Ending(s: State): seq<Action> {
    (if s.event == Polling then [EventEnds] else []) + [StopJoinsEvent]
  }

  lemma EndingRuns(s: State)
    requires HandlesOk(s) && s.api == WorkerJoined && !s.serverActive
    ensures Run(s, Ending(s)) && After(s, Ending(s)).clients == s.clients
  {
    hide Run, After;
    var s' := if s.event == Polling then Do(s, EventEnds) else s;
    Advance(s', StopJoinsEvent, []);
    Finished(Do(s', StopJoinsEvent));
    assert [StopJoinsEvent] + [] == [StopJoinsEvent];
    if s.event == Polling {
      Advance(s, EventEnds, [StopJoinsEvent]);
    } else {
      assert [] + [StopJoinsEvent] == [StopJoinsEvent];
    }
  }

  // The list is cleared, the client listed, and the accept thread returns and is joined.
  function ListedLate(rest: seq<Action>): seq<Action> {
    [StopClears] + ([WorkerLists] + ([WorkerReturns] + ([StopJoinsWorker] + rest)))
  }

  function Joined(s: State): State
    requires s.worker.Connected?
  {
    CloseAll(s).(api := WorkerJoined, worker := NoWorker, workerJoinable := false,
                 clients := map[s.worker.socket := s.worker.ctx])
  }

  lemma LateListing(s: State, rest: seq<Action>)
    requires HandlesOk(s) && s.api == Closed && s.worker.Connected?
    ensures HandlesOk(Joined(s)) && !Joined(s).serverActive
    ensures (Run(s, ListedLate(rest)) <==> Run(Joined(s), rest)) && After(s, ListedLate(rest)) == After(Joined(s), rest)
  {
    hide Run, After;
    var s1 := Do(s, StopClears);
    var s2, r3 := Do(s1, WorkerLists), [StopJoinsWorker] + rest;
    var s3, r2 := Do(s2, WorkerReturns), [WorkerReturns] + r3;
    Advance(s3, StopJoinsWorker, rest);
    Advance(s2, WorkerReturns, r3);
    Advance(s1, WorkerLists, r2);
    Advance(s, StopClears, [WorkerLists] + r2);
  }

  // A client accepted before stop cleared the list, and not listed yet, can be left.
  lemma ConnectedCanStay(s: State)
    requires HandlesOk(s) && s.api == Closed && s.worker.Connected?
    ensures CanLeaveAClient(s)
  {
    hide Run, After, HandlesOk, Enabled, Do;
    var more := ListedLate(Ending(Joined(s)));
    LateListing(s, Ending(Joined(s)));
    EndingRuns(Joined(s));
    assert Joined(s).clients != map[] by {
      assert s.worker.socket in Joined(s).clients;
    }
    assert more == [StopClears, WorkerLists, WorkerReturns, StopJoinsWorker] + Ending(Joined(s));
    assert UntilReturn(more);
  }

  lemma {:induction false} Above(sockets: set<Socket>) returns (n: Socket)
    ensures forall x | x in sockets :: x < n
    decreases |sockets|
  {
    n := 0;
    if x :| x in sockets {
      n := Above(sockets - {x});
      assert forall y | y in sockets :: y == x || y in sockets - {x};
      if x >= n {
        n := x + 1;
      }
    }
  }

  // One still inside srt_accept can be accepted, and then left.
  lemma WaitingCanStay(s: State)
    requires HandlesOk(s) && s.api == Closed && s.worker == Waiting
    ensures CanLeaveAClient(s)
  {
    hide Run, After, HandlesOk, UntilReturn;
    var socket := Above(s.accepted.Keys);
    var a := WorkerAccepts(socket, 0);
    assert Enabled(s, a);
    HandlesStep(s, a);
    ConnectedCanStay(Do(s, a));
    var more :| UntilReturn(more) && Run(Do(s, a), more) && After(Do(s, a), more).clients != map[];
    Advance(s, a, more);
    OneMore(a, more);
  }

  lemma OneMore(a: Action, more: seq<Action>)
    requires a != StopJoinsEvent && UntilReturn(more)
    ensures UntilReturn([a] + more)
  {
    var all := [a] + more;
    assert all[..|all| - 1] == [a] + more[..|more| - 1];
  }

  lemma ClosedIsStopping(s: State)
    requires HandlesOk(s) && s.api == Closed
    ensures Stopping(s)
  {
  }

  /**
   In every run, at the moment stop has closed the server's socket: it can return with a
   client still in the list if and only if the accept thread is inside srt_accept or holds a
   client it has not listed yet; and it never leaves more than one.
   */
  lemma StopLeavesExactly(actions: seq<Action>)
    requires Run(INITIAL, actions) && After(INITIAL, actions).api == Closed
    ensures var s := After(INITIAL, actions);
            (CanLeaveAClient(s) <==> MayStillList(s))
            && forall more | UntilReturn(more) && Run(s, more) :: |After(s, more).clients| <= 1
  {
    hide Do, Enabled, HandlesOk, ClientsOk, UntilReturn, Stopping;
    var s := After(INITIAL, actions);
    StartsOk();
    RunKeeps(INITIAL, actions);
    hide Run, After;
    ClosedIsStopping(s);
    if s.worker == Waiting {
      WaitingCanStay(s);
    } else if s.worker.Connected? {
      ConnectedCanStay(s);
    }
    forall more | UntilReturn(more) && Run(s, more)
      ensures |After(s, more).clients| <= 1
      ensures !MayStillList(s) ==> After(s, more).clients == map[]
    {
      AtMostOneLeft(s, more);
      if !MayStillList(s) {
        StopEmpties(s, more);
      }
    }
  }

  lemma StartsOk()
    ensures HandlesOk(INITIAL) && ClientsOk(INITIAL)
  {
  }

  // The state once stop() has closed the listening socket and a client has just been accepted.
  const CAUGHT := State(Server, false, false, Closed, true, true, Connected(7, 70), Polling, false, map[], map[7 := 70],
                        multiset{})

  function LateClient(): seq<Action> {
    [StartServer(true)]
    + ([WorkerSpawnsEvent] + ([WorkerClears] + ([WorkerWaits] + ([WorkerAccepts(7, 70)] + ([Stop(true)] + [])))))
  }

  /** A run in which stop can return with a client still listed. */
  lemma StopCanLeaveAClient()
    ensures Run(INITIAL, LateClient()) && After(INITIAL, LateClient()) == CAUGHT && CanLeaveAClient(CAUGHT)
  {
    LateClientRuns();
    ConnectedCanStay(CAUGHT);
  }

  lemma LateClientRuns()
    ensures Run(INITIAL, LateClient()) && After(INITIAL, LateClient()) == CAUGHT
  {
    hide Run, After;
    var s1 := Do(INITIAL, StartServer(true));
    var s2 := Do(s1, WorkerSpawnsEvent);
    NoneClosed(s2);
    var s3 := Do(s2, WorkerClears);
    var s4 := Do(s3, WorkerWaits);
    var s5 := Do(s4, WorkerAccepts(7, 70));
    var r5 := [Stop(true)] + [];
    var r4 := [WorkerAccepts(7, 70)] + r5;
    var r3 := [WorkerWaits] + r4;
    Advance(s5, Stop(true), []);
    Advance(s4, WorkerAccepts(7, 70), r5);
    Advance(s3, WorkerWaits, r4);
    Advance(s2, WorkerClears, r3);
    Advance(s1, WorkerSpawnsEvent, [WorkerClears] + r3);
    Advance(INITIAL, StartServer(true), [WorkerSpawnsEvent] + ([WorkerClears] + r3));
    assert Do(s5, Stop(true)) == CAUGHT;
    Finished(CAUGHT);
  }

  lemma NoneClosed(s: State)
    requires s.clients == map[]
    ensures CloseAll(s) == s
  {
    assert Listed(s) == {};
    assert s.disconnected + multiset(Listed(s)) == s.disconnected;
  }
}
