/**
 * The two threads of UDPServer.cpp around `commandQueue`, as a machine whose steps
 * interleave freely. A step is what one thread does between two scheduling points.
 */
module UdpServer {
  import opened MessageTable
  import opened Tokenizer

  type Address = nat

  const BUFFER_SIZE: nat := 1024

  /** A queued command: what `std::string` makes of the buffer, and the sender. */
  datatype Command = Command(message: string, client: Address)

  /** The text up to the first NUL of the at most 1023 bytes that `recvfrom` leaves. */
  function CString(datagram: string): (s: string)
    ensures |s| < BUFFER_SIZE && '\0' !in s
    ensures s <= datagram
    ensures |s| < |datagram| && |s| < BUFFER_SIZE - 1 ==> datagram[|s|] == '\0'
  {
    var buffer := if |datagram| < BUFFER_SIZE then datagram else datagram[..BUFFER_SIZE - 1];
    buffer[..Find(buffer, '\0', 0)]
  }

  /** A datagram without a NUL is kept whole up to 1023 bytes, and cut there. */
  lemma CStringKeeps(datagram: string)
    requires '\0' !in datagram
    ensures CString(datagram) == if |datagram| <= 1023 then datagram else datagram[..1023]
  {
  }

  datatype Owner = Nobody | TheReceiver | TheProcessor

  /** Where `receiveMessages` stands; the command is the one at hand. */
  datatype Receiver =
    | LoopHead
    | Listening
    | Arrived(command: Command)
    | Owning(command: Command)
    | Pushed(command: Command)
    | Unlocked(command: Command)
    | Notified(command: Command)
    | Returned

  /** Where `processCommands` stands. */
  datatype Processor =
    | OuterLoop
    | Locking
    | Testing
    | Parking
    | Parked
    | InnerLoop
    | Copying
    | Popping(command: Command)
    | Unlocking(command: Command)
    | Handling(command: Command)
    | Relocking
    | Ended

  /** Where `stop` stands. */
  datatype Stopper = Idle | Flagged | Signalled

  datatype State<V> = State(
    running: bool,
    owner: Owner,
    queue: seq<Command>,
    receiver: Receiver,
    processor: Processor,
    stopper: Stopper,
    signalled: bool, // a notification reached the parked processor
    late: bool, // `notify_all` came while the processor was about to park
    received: seq<Command>,
    handled: seq<Command>,
    invoked: seq<Invocation<V>>,
    clients: set<Address>)

  function Initial<V>(): State<V> {
    State(true, Nobody, [], LoopHead, OuterLoop, Idle, false, false, [], [], [], {})
  }

  /** What wakes a thread up: `arrival` is what `recvfrom` returns, None for an error. */
  datatype Step = ReceiverMoves(arrival: Option<(string, Address)>) | ProcessorMoves | StopMoves

  /** The next step of the receiver, None while it is blocked. */
  function ReceiverNext<V>(s: State<V>, arrival: Option<(string, Address)>): Option<State<V>> {
    match s.receiver
    case LoopHead => Some(s.(receiver := if s.running then Listening else Returned))
    case Listening =>
      (match arrival
       case None => Some(s.(receiver := if s.running then LoopHead else Returned))
       case Some(datagram) =>
         var command := Command(CString(datagram.0), datagram.1);
         Some(s.(receiver := Arrived(command), received := s.received + [command])))
    case Arrived(command) =>
      if s.owner == Nobody then Some(s.(receiver := Owning(command), owner := TheReceiver)) else None
    case Owning(command) => Some(s.(receiver := Pushed(command), queue := s.queue + [command]))
    case Pushed(command) => Some(s.(receiver := Unlocked(command), owner := Nobody))
    case Unlocked(command) =>
      Some(s.(receiver := Notified(command), signalled := s.signalled || s.processor == Parked))
    case Notified(command) => Some(s.(receiver := LoopHead, clients := s.clients + {command.client}))
    case Returned => None
  }

  /** The next step of the processor, None while it is blocked. A parked one may wake up unasked. */
  function ProcessorNext<V>(s: State<V>, stof: string -> Option<V>): Option<State<V>> {
    match s.processor
    case OuterLoop => Some(s.(processor := if s.running then Locking else Ended))
    case Locking =>
      if s.owner == Nobody then Some(s.(processor := Testing, owner := TheProcessor)) else None
    case Testing =>
      Some(s.(processor := if s.queue != [] || !s.running then InnerLoop else Parking))
    case Parking => Some(s.(processor := Parked, owner := Nobody, signalled := false))
    case Parked =>
      if s.owner == Nobody then Some(s.(processor := Testing, owner := TheProcessor, signalled := false)) else None
    case InnerLoop =>
      if s.queue == [] then Some(s.(processor := OuterLoop, owner := Nobody))
      else Some(s.(processor := Copying))
    case Copying =>
      if s.queue == [] then None else Some(s.(processor := Popping(s.queue[0])))
    case Popping(command) =>
      if s.queue == [] then None else Some(s.(processor := Unlocking(command), queue := s.queue[1..]))
    case Unlocking(command) => Some(s.(processor := Handling(command), owner := Nobody))
    case Handling(command) =>
      var invocation := Dispatch(command.message, stof);
      Some(s.(processor := Relocking, handled := s.handled + [command], invoked := s.invoked + AsSeq(invocation)))
    case Relocking =>
      if s.owner == Nobody then Some(s.(processor := InnerLoop, owner := TheProcessor)) else None
    case Ended => None
  }

  /** The next step of `stop`: the flag, then `notify_all`, without the mutex. */
  function StopNext<V>(s: State<V>): Option<State<V>> {
    match s.stopper
    case Idle => Some(s.(stopper := Flagged, running := false))
    case Flagged =>
      Some(s.(stopper := Signalled, signalled := s.signalled || s.processor == Parked, late := s.processor == Parking))
    case Signalled => None
  }

  function AsSeq<T>(o: Option<T>): seq<T> {
    match o
    case Some(v) => [v]
    case None => []
  }

  function Next<V>(s: State<V>, step: Step, stof: string -> Option<V>): Option<State<V>> {
    match step
    case ReceiverMoves(arrival) => ReceiverNext(s, arrival)
    case ProcessorMoves => ProcessorNext(s, stof)
    case StopMoves => StopNext(s)
  }

  /** The state after a schedule, None when it runs a blocked thread. */
  function After<V>(s: State<V>, steps: seq<Step>, stof: string -> Option<V>): Option<State<V>>
    decreases |steps|
  {
    if steps == [] then Some(s)
    else
      match Next(s, steps[0], stof)
      case None => None
      case Some(s') => After(s', steps[1..], stof)
  }

  // ----- what every interleaving keeps -----

  /** The command popped and not yet handled. */
  function InFlight(p: Processor): seq<Command> {
    match p
    case Unlocking(command) => [command]
    case Handling(command) => [command]
    case _ => []
  }

  /** The command received and not yet queued. */
  function Pending(r: Receiver): seq<Command> {
    match r
    case Arrived(command) => [command]
    case Owning(command) => [command]
    case _ => []
  }

  /** The commands received, but for the one whose sender is not noted yet. */
  function Noted(received: seq<Command>, r: Receiver): seq<Command> {
    if r.LoopHead? || r.Listening? || r.Returned? || received == [] then received else received[..|received| - 1]
  }

  function Invocations<V>(commands: seq<Command>, stof: string -> Option<V>): seq<Invocation<V>> {
    if commands == [] then []
    else
      var last := |commands| - 1;
      Invocations(commands[..last], stof) + AsSeq(Dispatch(commands[last].message, stof))
  }

  function Clients(commands: seq<Command>): set<Address> {
    set c <- commands :: c.client
  }

  /** A thread is in its critical section exactly while it owns the mutex. */
  predicate Exclusive<V>(s: State<V>) {
    && (s.owner == TheReceiver <==> s.receiver.Owning? || s.receiver.Pushed?)
    && (s.owner == TheProcessor <==> s.processor.Testing? || s.processor.Parking? || s.processor.InnerLoop?
                                     || s.processor.Copying? || s.processor.Popping? || s.processor.Unlocking?)
  }

  /** Nothing is lost, doubled or reordered. */
  predicate Fifo<V>(s: State<V>) {
    && s.received == s.handled + InFlight(s.processor) + s.queue + Pending(s.receiver)
    && (s.processor.Copying? ==> s.queue != [])
    && (s.processor.Popping? ==> s.queue != [] && s.queue[0] == s.processor.command)
  }

  /** While the processor sleeps on a non-empty queue, a wake-up is on its way. */
  predicate Wakeful<V>(s: State<V>) {
    && (s.processor.Parking? ==> s.queue == [])
    && (s.processor.Parked? && !s.signalled && s.queue != [] ==> s.receiver.Pushed? || s.receiver.Unlocked?)
    && (s.running <==> s.stopper.Idle?)
    && (s.receiver.Returned? || s.processor.Ended? ==> !s.running)
    && (s.stopper.Signalled? && (s.processor.Parking? || (s.processor.Parked? && !s.signalled)) ==> s.late)
  }

  predicate SendersNoted<V>(s: State<V>) {
    && s.clients == Clients(Noted(s.received, s.receiver))
    && (s.receiver.Arrived? || s.receiver.Owning? || s.receiver.Pushed? || s.receiver.Unlocked? || s.receiver.Notified? ==>
          s.received != [] && s.received[|s.received| - 1] == s.receiver.command)
  }

  ghost predicate Invariant<V>(s: State<V>, stof: string -> Option<V>) {
    Exclusive(s) && Fifo(s) && Wakeful(s) && SendersNoted(s) && s.invoked == Invocations(s.handled, stof)
  }

  lemma ProcessorLeaves<V>(s: State<V>, stof: string -> Option<V>)
    requires ProcessorNext(s, stof).Some?
    ensures var s' := ProcessorNext(s, stof).value;
      && s'.receiver == s.receiver && s'.received == s.received && s'.clients == s.clients
      && (!s.processor.Handling? ==> s'.handled == s.handled && s'.invoked == s.invoked)
  {
    hide Dispatch, AsSeq;
  }

  lemma ReceiverLeaves<V>(s: State<V>, arrival: Option<(string, Address)>)
    requires ReceiverNext(s, arrival).Some?
    ensures var s' := ReceiverNext(s, arrival).value;
      s'.processor == s.processor && s'.handled == s.handled && s'.invoked == s.invoked
  {
    hide CString;
  }

  // What each thread leaves alone.
  lemma Frames<V>(s: State<V>, step: Step, stof: string -> Option<V>)
    requires Next(s, step, stof).Some?
    ensures var s' := Next(s, step, stof).value;
      && (!step.ReceiverMoves? ==> s'.receiver == s.receiver && s'.received == s.received && s'.clients == s.clients)
      && (!step.ProcessorMoves? ==> s'.processor == s.processor)
      && (!(step.ProcessorMoves? && s.processor.Handling?) ==> s'.handled == s.handled && s'.invoked == s.invoked)
  {
    hide ReceiverNext, ProcessorNext;
    match step {
      case ReceiverMoves(arrival) => ReceiverLeaves(s, arrival);
      case ProcessorMoves => ProcessorLeaves(s, stof);
      case StopMoves =>
    }
  }

  lemma ReceiverKeepsExclusion<V>(s: State<V>, arrival: Option<(string, Address)>)
    requires Exclusive(s) && ReceiverNext(s, arrival).Some?
    ensures Exclusive(ReceiverNext(s, arrival).value)
  {
    hide CString;
  }

  lemma ProcessorKeepsExclusion<V>(s: State<V>, stof: string -> Option<V>)
    requires Exclusive(s) && ProcessorNext(s, stof).Some?
    ensures Exclusive(ProcessorNext(s, stof).value)
  {
    hide Dispatch, AsSeq;
  }

  lemma ArrivalKeepsOrder<V>(s: State<V>, arrival: Option<(string, Address)>)
    requires Fifo(s) && ReceiverNext(s, arrival).Some? && s.receiver.Listening?
    ensures Fifo(ReceiverNext(s, arrival).value)
  {
    hide CString, InFlight;
    ArrivalMoves(s.handled + InFlight(s.processor) + s.queue, Pending(ReceiverNext(s, arrival).value.receiver));
  }

  lemma PushKeepsOrder<V>(s: State<V>, arrival: Option<(string, Address)>)
    requires Fifo(s) && ReceiverNext(s, arrival).Some? && s.receiver.Owning?
    ensures Fifo(ReceiverNext(s, arrival).value)
  {
    hide CString, InFlight;
    PushMoves(s.handled + InFlight(s.processor), s.queue, Pending(s.receiver));
  }

  lemma OtherMovesKeepOrder<V>(s: State<V>, arrival: Option<(string, Address)>)
    requires Fifo(s) && ReceiverNext(s, arrival).Some? && !s.receiver.Listening? && !s.receiver.Owning?
    ensures Fifo(ReceiverNext(s, arrival).value)
  {
    hide CString, InFlight;
  }

  lemma ReceiverKeepsOrder<V>(s: State<V>, arrival: Option<(string, Address)>)
    requires Fifo(s) && ReceiverNext(s, arrival).Some?
    ensures Fifo(ReceiverNext(s, arrival).value)
  {
    hide Fifo, ReceiverNext;
    if s.receiver.Listening? {
      ArrivalKeepsOrder(s, arrival);
    } else if s.receiver.Owning? {
      PushKeepsOrder(s, arrival);
    } else {
      OtherMovesKeepOrder(s, arrival);
    }
  }

  lemma PushMoves<T>(front: seq<T>, queue: seq<T>, pushed: seq<T>)
    ensures front + (queue + pushed) + [] == front + queue + pushed
  {
  }

  lemma ArrivalMoves<T>(front: seq<T>, arrived: seq<T>)
    ensures (front + []) + arrived == front + arrived
  {
  }

  lemma PopKeepsOrder<V>(s: State<V>, stof: string -> Option<V>)
    requires Fifo(s) && ProcessorNext(s, stof).Some? && s.processor.Popping?
    ensures Fifo(ProcessorNext(s, stof).value)
  {
    hide Dispatch, AsSeq, Pending;
    PopMoves(s.handled, s.queue);
  }

  lemma HandlingKeepsOrder<V>(s: State<V>, stof: string -> Option<V>)
    requires Fifo(s) && ProcessorNext(s, stof).Some? && s.processor.Handling?
    ensures Fifo(ProcessorNext(s, stof).value)
  {
    hide Dispatch, AsSeq, Pending;
    HandlingMoves(s.handled, s.processor.command, s.queue);
  }

  lemma OtherTurnsKeepOrder<V>(s: State<V>, stof: string -> Option<V>)
    requires Fifo(s) && ProcessorNext(s, stof).Some? && !s.processor.Popping? && !s.processor.Handling?
    ensures Fifo(ProcessorNext(s, stof).value)
  {
    hide Dispatch, AsSeq, Pending;
  }

  lemma ProcessorKeepsOrder<V>(s: State<V>, stof: string -> Option<V>)
    requires Fifo(s) && ProcessorNext(s, stof).Some?
    ensures Fifo(ProcessorNext(s, stof).value)
  {
    hide Fifo, ProcessorNext;
    if s.processor.Popping? {
      PopKeepsOrder(s, stof);
    } else if s.processor.Handling? {
      HandlingKeepsOrder(s, stof);
    } else {
      OtherTurnsKeepOrder(s, stof);
    }
  }

  lemma PopMoves<T>(handled: seq<T>, queue: seq<T>)
    ensures queue != [] ==> handled + [] + queue == handled + [queue[0]] + queue[1..]
  {
  }

  lemma HandlingMoves<T>(handled: seq<T>, command: T, queue: seq<T>)
    ensures handled + [command] + queue == (handled + [command]) + [] + queue
  {
  }

  lemma ReceiverKeepsWakeful<V>(s: State<V>, arrival: Option<(string, Address)>)
    requires Exclusive(s) && Wakeful(s) && ReceiverNext(s, arrival).Some?
    ensures Wakeful(ReceiverNext(s, arrival).value)
  {
    hide CString;
  }

  lemma ProcessorKeepsWakeful<V>(s: State<V>, stof: string -> Option<V>)
    requires Exclusive(s) && Wakeful(s) && ProcessorNext(s, stof).Some?
    ensures Wakeful(ProcessorNext(s, stof).value)
  {
    hide Dispatch, AsSeq;
  }

  lemma StopKeeps<V>(s: State<V>)
    requires Exclusive(s) && Fifo(s) && Wakeful(s) && StopNext(s).Some?
    ensures Exclusive(StopNext(s).value) && Fifo(StopNext(s).value) && Wakeful(StopNext(s).value)
  {
    hide InFlight, Pending;
  }

  lemma StepKeepsProtocol<V>(s: State<V>, step: Step, stof: string -> Option<V>)
    requires Exclusive(s) && Fifo(s) && Wakeful(s) && Next(s, step, stof).Some?
    ensures var s' := Next(s, step, stof).value; Exclusive(s') && Fifo(s') && Wakeful(s')
  {
    hide Exclusive, Fifo, Wakeful, ReceiverNext, ProcessorNext, StopNext;
    match step {
      case ReceiverMoves(arrival) =>
        ReceiverKeepsExclusion(s, arrival);
        ReceiverKeepsOrder(s, arrival);
        ReceiverKeepsWakeful(s, arrival);
      case ProcessorMoves =>
        ProcessorKeepsExclusion(s, stof);
        ProcessorKeepsOrder(s, stof);
        ProcessorKeepsWakeful(s, stof);
      case StopMoves =>
        StopKeeps(s);
    }
  }

  lemma ArrivalKeepsSenders<V>(s: State<V>, arrival: Option<(string, Address)>)
    requires SendersNoted(s) && ReceiverNext(s, arrival).Some? && s.receiver.Listening?
    ensures SendersNoted(ReceiverNext(s, arrival).value)
  {
    hide CString, Clients;
    if arrival.Some? {
      AllButLast(s.received, ReceiverNext(s, arrival).value.receiver.command);
    }
  }

  lemma NotingKeepsSenders<V>(s: State<V>, arrival: Option<(string, Address)>)
    requires SendersNoted(s) && ReceiverNext(s, arrival).Some? && s.receiver.Notified?
    ensures SendersNoted(ReceiverNext(s, arrival).value)
  {
    hide CString, Clients;
    ClientsOfOneMore(s.received);
  }

  lemma OtherMovesKeepSenders<V>(s: State<V>, arrival: Option<(string, Address)>)
    requires SendersNoted(s) && ReceiverNext(s, arrival).Some? && !s.receiver.Listening? && !s.receiver.Notified?
    ensures SendersNoted(ReceiverNext(s, arrival).value)
  {
    hide CString, Clients;
  }

  lemma ReceiverKeepsSenders<V>(s: State<V>, arrival: Option<(string, Address)>)
    requires SendersNoted(s) && ReceiverNext(s, arrival).Some?
    ensures SendersNoted(ReceiverNext(s, arrival).value)
  {
    hide SendersNoted, ReceiverNext;
    if s.receiver.Listening? {
      ArrivalKeepsSenders(s, arrival);
    } else if s.receiver.Notified? {
      NotingKeepsSenders(s, arrival);
    } else {
      OtherMovesKeepSenders(s, arrival);
    }
  }

  lemma AllButLast<T>(s: seq<T>, x: T)
    ensures (s + [x])[..|s + [x]| - 1] == s
  {
  }

  lemma StepKeepsSenders<V>(s: State<V>, step: Step, stof: string -> Option<V>)
    requires SendersNoted(s) && Next(s, step, stof).Some?
    ensures SendersNoted(Next(s, step, stof).value)
  {
    hide Clients, ReceiverNext, ProcessorNext, StopNext;
    Frames(s, step, stof);
    if step.ReceiverMoves? {
      ReceiverKeepsSenders(s, step.arrival);
    }
  }

  lemma ClientsOfOneMore(commands: seq<Command>)
    requires commands != []
    ensures var last := |commands| - 1; Clients(commands) == Clients(commands[..last]) + {commands[last].client}
  {
    var last := |commands| - 1;
    assert commands == commands[..last] + [commands[last]];
  }

  lemma StepKeepsInvocations<V>(s: State<V>, step: Step, stof: string -> Option<V>)
    requires s.invoked == Invocations(s.handled, stof) && Next(s, step, stof).Some?
    ensures var s' := Next(s, step, stof).value; s'.invoked == Invocations(s'.handled, stof)
  {
    hide Invocations, Dispatch, AsSeq, ReceiverNext, StopNext;
    if step.ProcessorMoves? && s.processor.Handling? {
      InvocationsOfOneMore(s.handled, s.processor.command, stof);
    } else {
      Frames(s, step, stof);
    }
  }

  lemma InvocationsOfOneMore<V>(commands: seq<Command>, command: Command, stof: string -> Option<V>)
    ensures Invocations(commands + [command], stof) == Invocations(commands, stof) + AsSeq(Dispatch(command.message, stof))
  {
    assert (commands + [command])[..|commands|] == commands;
  }

  /** Every reachable state keeps the invariant, whatever the schedule. */
  lemma {:induction false} EveryRunKeeps<V>(s: State<V>, steps: seq<Step>, stof: string -> Option<V>)
    requires Invariant(s, stof) && After(s, steps, stof).Some?
    ensures Invariant(After(s, steps, stof).value, stof)
    decreases |steps|
  {
    hide Exclusive, Fifo, Wakeful, SendersNoted, Next;
    if steps != [] {
      StepKeepsProtocol(s, steps[0], stof);
      StepKeepsSenders(s, steps[0], stof);
      StepKeepsInvocations(s, steps[0], stof);
      EveryRunKeeps(Next(s, steps[0], stof).value, steps[1..], stof);
    }
  }

  lemma InitialKeeps<V>(stof: string -> Option<V>)
    ensures Invariant(Initial<V>(), stof)
  {
  }

  /** What `recvfrom` delivers while the receiver listens, as it is to be queued: the arrivals of a schedule. */
  function Heard<V>(s: State<V>, steps: seq<Step>, stof: string -> Option<V>): seq<Command>
    decreases |steps|
  {
    if steps == [] then []
    else
      match Next(s, steps[0], stof)
      case None => []
      case Some(s') => Arrival(s, steps[0]) + Heard(s', steps[1..], stof)
  }

  function Arrival<V>(s: State<V>, step: Step): seq<Command> {
    match step
    case ReceiverMoves(Some(datagram)) =>
      if s.receiver.Listening? then [Command(CString(datagram.0), datagram.1)] else []
    case _ => []
  }

  lemma StepHears<V>(s: State<V>, step: Step, stof: string -> Option<V>)
    requires Next(s, step, stof).Some?
    ensures Next(s, step, stof).value.received == s.received + Arrival(s, step)
  {
    hide CString, Dispatch, AsSeq;
  }

  /** The log of received commands is what was delivered. */
  lemma {:induction false} AllIsHeard<V>(s: State<V>, steps: seq<Step>, stof: string -> Option<V>)
    requires After(s, steps, stof).Some?
    ensures After(s, steps, stof).value.received == s.received + Heard(s, steps, stof)
    decreases |steps|
  {
    hide Next, Arrival;
    if steps != [] {
      StepHears(s, steps[0], stof);
      AllIsHeard(Next(s, steps[0], stof).value, steps[1..], stof);
    }
  }

  lemma HeardFromTheStart<V>(steps: seq<Step>, stof: string -> Option<V>)
    requires After(Initial<V>(), steps, stof).Some?
    ensures After(Initial<V>(), steps, stof).value.received == Heard(Initial<V>(), steps, stof)
  {
    hide After, Heard;
    AllIsHeard(Initial<V>(), steps, stof);
  }

  /** From the start: the commands handled, in flight and queued are those delivered, in order. */
  lemma NoLossNoReordering<V>(steps: seq<Step>, stof: string -> Option<V>)
    requires After(Initial<V>(), steps, stof).Some?
    ensures var s, heard := After(Initial<V>(), steps, stof).value, Heard(Initial<V>(), steps, stof);
      && heard == s.handled + InFlight(s.processor) + s.queue + Pending(s.receiver)
      && |s.handled| <= |heard| && s.invoked == Invocations(heard[..|s.handled|], stof)
  {
    hide After, Heard;
    InitialKeeps(stof);
    EveryRunKeeps(Initial<V>(), steps, stof);
    HeardFromTheStart(steps, stof);
    var s := After(Initial<V>(), steps, stof).value;
    assert s.received[..|s.handled|] == s.handled;
  }

  lemma StepIsGuarded<V>(s: State<V>, step: Step, stof: string -> Option<V>)
    requires Exclusive(s) && Fifo(s) && Next(s, step, stof).Some?
    ensures var s' := Next(s, step, stof).value;
      && (s'.queue != s.queue ==> s.owner == if step.ProcessorMoves? then TheProcessor else TheReceiver)
      && (s'.owner == Nobody != s.owner ==> s.owner == if step.ProcessorMoves? then TheProcessor else TheReceiver)
      && (step.ProcessorMoves? && s.processor.Copying? ==> s.owner == TheProcessor)
      && (step.ProcessorMoves? && s.processor.Popping? ==>
            s.owner == TheProcessor && s.queue == [s.processor.command] + s'.queue)
  {
    hide CString, Dispatch, AsSeq;
  }

  /** A thread that pushes, reads, pops or unlocks owns the mutex, and what is popped is there and is what was copied. */
  lemma QueueIsGuarded<V>(steps: seq<Step>, step: Step, stof: string -> Option<V>)
    requires After(Initial<V>(), steps, stof).Some?
    requires Next(After(Initial<V>(), steps, stof).value, step, stof).Some?
    ensures var s := After(Initial<V>(), steps, stof).value; var s' := Next(s, step, stof).value;
      && (s'.queue != s.queue ==> s.owner == if step.ProcessorMoves? then TheProcessor else TheReceiver)
      && (s'.owner == Nobody != s.owner ==> s.owner == if step.ProcessorMoves? then TheProcessor else TheReceiver)
      && (step.ProcessorMoves? && s.processor.Copying? ==> s.owner == TheProcessor)
      && (step.ProcessorMoves? && s.processor.Popping? ==>
            s.owner == TheProcessor && s.queue == [s.processor.command] + s'.queue)
  {
    hide *;
    InitialKeeps(stof);
    EveryRunKeeps(Initial<V>(), steps, stof);
    FromInvariant(After(Initial<V>(), steps, stof).value, stof);
    StepIsGuarded(After(Initial<V>(), steps, stof).value, step, stof);
  }

  lemma FromInvariant<V>(s: State<V>, stof: string -> Option<V>)
    requires Invariant(s, stof)
    ensures Exclusive(s) && Fifo(s) && Wakeful(s) && SendersNoted(s) && s.invoked == Invocations(s.handled, stof)
  {
  }

  /** When both threads sleep, every command received was handled once, in order, and every sender is known. */
  lemma QuietMeansDone<V>(steps: seq<Step>, stof: string -> Option<V>)
    requires After(Initial<V>(), steps, stof).Some?
    ensures var s := After(Initial<V>(), steps, stof).value;
      s.processor.Parked? && !s.signalled && s.receiver.Listening? ==>
        var heard := Heard(Initial<V>(), steps, stof);
        s.handled == heard && s.invoked == Invocations(heard, stof) && s.clients == Clients(heard)
  {
    hide After, Heard;
    HeardFromTheStart(steps, stof);
    InitialKeeps(stof);
    EveryRunKeeps(Initial<V>(), steps, stof);
  }

  lemma ReceiverIsFree<V>(s: State<V>, arrival: Option<(string, Address)>)
    requires Exclusive(s) && s.owner != TheProcessor
    ensures ReceiverNext(s, arrival).None? ==> s.receiver.Returned?
    ensures s.owner == TheReceiver ==> ReceiverNext(s, arrival).Some?
  {
    hide CString;
  }

  lemma ProcessorIsFree<V>(s: State<V>, stof: string -> Option<V>)
    requires Exclusive(s) && Fifo(s) && s.owner != TheReceiver
    ensures ProcessorNext(s, stof).None? ==> s.processor.Ended?
    ensures s.owner == TheProcessor ==> ProcessorNext(s, stof).Some?
  {
    hide Dispatch, AsSeq, InFlight, Pending;
  }

  /** No deadlock: a thread that waits for the mutex waits for one that can move and will give it back. */
  lemma OwnerCanMove<V>(steps: seq<Step>, arrival: Option<(string, Address)>, stof: string -> Option<V>)
    requires After(Initial<V>(), steps, stof).Some?
    ensures var s := After(Initial<V>(), steps, stof).value;
      && (ReceiverNext(s, arrival).None? && !s.receiver.Returned? ==> s.owner == TheProcessor && ProcessorNext(s, stof).Some?)
      && (ProcessorNext(s, stof).None? && !s.processor.Ended? ==> s.owner == TheReceiver && ReceiverNext(s, arrival).Some?)
  {
    hide *;
    InitialKeeps(stof);
    EveryRunKeeps(Initial<V>(), steps, stof);
    var s := After(Initial<V>(), steps, stof).value;
    FromInvariant(s, stof);
    if s.owner != TheReceiver {
      ProcessorIsFree(s, stof);
    }
    if s.owner != TheProcessor {
      ReceiverIsFree(s, arrival);
    }
  }

  /** After `notify_all`, a processor asleep and not woken had not yet parked when it came. */
  lemma StopWakesUnlessLate<V>(steps: seq<Step>, stof: string -> Option<V>)
    requires After(Initial<V>(), steps, stof).Some?
    ensures var s := After(Initial<V>(), steps, stof).value;
      s.stopper.Signalled? && s.processor.Parked? && !s.signalled ==> s.late
  {
    hide After;
    InitialKeeps(stof);
    EveryRunKeeps(Initial<V>(), steps, stof);
  }

  lemma StopStays<V>(s: State<V>, step: Step, stof: string -> Option<V>)
    requires s.stopper.Signalled? && Next(s, step, stof).Some?
    ensures Next(s, step, stof).value.stopper.Signalled? && Next(s, step, stof).value.late == s.late
  {
    hide CString, Dispatch, AsSeq;
  }

  lemma {:induction false} LateStays<V>(s: State<V>, steps: seq<Step>, stof: string -> Option<V>)
    requires s.stopper.Signalled? && After(s, steps, stof).Some?
    ensures After(s, steps, stof).value.stopper.Signalled? && After(s, steps, stof).value.late == s.late
    decreases |steps|
  {
    hide Next;
    if steps != [] {
      StopStays(s, steps[0], stof);
      LateStays(Next(s, steps[0], stof).value, steps[1..], stof);
    }
  }

  /** The processor sleeps and no notification has reached it. */
  ghost predicate Stranded<V>(s: State<V>) {
    s.processor.Parked? && !s.signalled
  }

  /** From some state that a schedule leads to, nothing but a stray wake-up goes on. */
  ghost predicate CanStrand<V>(s: State<V>, stof: string -> Option<V>) {
    exists steps :: After(s, steps, stof).Some? && Stranded(After(s, steps, stof).value)
  }

  /** `notify_all` misses the processor exactly when it falls between its test of the flag and its going to sleep;
      the flag is not set under the mutex. At any other moment no schedule leaves the processor asleep. */
  lemma StopIsMissedExactly<V>(steps: seq<Step>, stof: string -> Option<V>)
    requires After(Initial<V>(), steps, stof).Some? && After(Initial<V>(), steps, stof).value.stopper.Flagged?
    ensures var s := After(Initial<V>(), steps, stof).value;
      StopNext(s).Some? && (CanStrand(StopNext(s).value, stof) <==> s.processor.Parking?)
  {
    hide *;
    InitialKeeps(stof);
    EveryRunKeeps(Initial<V>(), steps, stof);
    MissedExactly(After(Initial<V>(), steps, stof).value, stof);
  }

  lemma MissedExactly<V>(s: State<V>, stof: string -> Option<V>)
    requires Invariant(s, stof) && s.stopper.Flagged?
    ensures StopNext(s).Some? && (CanStrand(StopNext(s).value, stof) <==> s.processor.Parking?)
  {
    hide Exclusive, Fifo, SendersNoted, After;
    var s' := StopNext(s).value;
    if s.processor.Parking? {
      Strands(s', stof);
    }
    if CanStrand(s', stof) {
      var steps :| After(s', steps, stof).Some? && Stranded(After(s', steps, stof).value);
      NotifyKeeps(s, stof);
      EveryRunKeeps(s', steps, stof);
      LateStays(s', steps, stof);
    }
  }

  lemma NotifyKeeps<V>(s: State<V>, stof: string -> Option<V>)
    requires Invariant(s, stof) && s.stopper.Flagged?
    ensures Invariant(StopNext(s).value, stof)
  {
    hide Exclusive, Fifo, Wakeful, SendersNoted, Invocations;
    StepKeepsProtocol(s, StopMoves, stof);
    StepKeepsSenders(s, StopMoves, stof);
  }

  lemma Strands<V>(s: State<V>, stof: string -> Option<V>)
    requires s.processor.Parking?
    ensures CanStrand(s, stof)
  {
    hide After;
    Then(s, ProcessorMoves, [], stof);
    var after := Next(s, ProcessorMoves, stof).value;
    Done(after, stof);
    assert Stranded(after);
  }

  /** The processor tests the flag, `stop` runs, the processor parks, the receiver leaves. */
  function LateSchedule(): seq<Step> {
    [ProcessorMoves] + ([ProcessorMoves] + ([ProcessorMoves] + ([StopMoves] + ([StopMoves]
    + ([ProcessorMoves] + ([ReceiverMoves(None)] + []))))))
  }

  lemma Then<V>(s: State<V>, step: Step, rest: seq<Step>, stof: string -> Option<V>)
    requires Next(s, step, stof).Some?
    ensures After(s, [step] + rest, stof) == After(Next(s, step, stof).value, rest, stof)
  {
    assert ([step] + rest)[1..] == rest;
  }

  lemma Done<V>(s: State<V>, stof: string -> Option<V>)
    ensures After(s, [], stof) == Some(s)
  {
  }

  /** And then it does sleep on: only a stray wake-up could still end the join in `stop`. */
  lemma StopCanBeLate<V>(stof: string -> Option<V>)
    ensures var end := After(Initial<V>(), LateSchedule(), stof);
      && end.Some? && end.value.late && end.value.stopper.Signalled? && end.value.receiver.Returned?
      && end.value.processor.Parked? && !end.value.signalled && !end.value.running
  {
    hide After, Dispatch, CString;
    var s0 := Initial<V>();
    var s1 := Next(s0, ProcessorMoves, stof).value;
    var s2 := Next(s1, ProcessorMoves, stof).value;
    var s3 := Next(s2, ProcessorMoves, stof).value;
    var s4 := Next(s3, StopMoves, stof).value;
    var s5 := Next(s4, StopMoves, stof).value;
    var s6 := Next(s5, ProcessorMoves, stof).value;
    var s7 := Next(s6, ReceiverMoves(None), stof).value;
    Then(s0, ProcessorMoves, [ProcessorMoves] + ([ProcessorMoves] + ([StopMoves] + ([StopMoves] + ([ProcessorMoves] + ([ReceiverMoves(None)] + []))))), stof);
    Then(s1, ProcessorMoves, [ProcessorMoves] + ([StopMoves] + ([StopMoves] + ([ProcessorMoves] + ([ReceiverMoves(None)] + [])))), stof);
    Then(s2, ProcessorMoves, [StopMoves] + ([StopMoves] + ([ProcessorMoves] + ([ReceiverMoves(None)] + []))), stof);
    Then(s3, StopMoves, [StopMoves] + ([ProcessorMoves] + ([ReceiverMoves(None)] + [])), stof);
    Then(s4, StopMoves, [ProcessorMoves] + ([ReceiverMoves(None)] + []), stof);
    Then(s5, ProcessorMoves, [ReceiverMoves(None)] + [], stof);
    Then(s6, ReceiverMoves(None), [], stof);
    Done(s7, stof);
  }

  // ----- progress -----

  /** Both threads run until `stop` clears the flag. */
  lemma ThreadsStayUp<V>(steps: seq<Step>, stof: string -> Option<V>)
    requires After(Initial<V>(), steps, stof).Some?
    ensures var s := After(Initial<V>(), steps, stof).value;
      s.running ==> !s.receiver.Returned? && !s.processor.Ended?
  {
    hide After;
    InitialKeeps(stof);
    EveryRunKeeps(Initial<V>(), steps, stof);
  }

  /** Nothing is left to do: the receiver waits for a datagram and the processor for a notification. */
  predicate Quiet<V>(s: State<V>) {
    s.processor.Parked? && !s.signalled && (s.receiver.LoopHead? || s.receiver.Listening?)
  }

  function ReceiverWork(r: Receiver): nat {
    match r
    case Arrived(_) => 5
    case Owning(_) => 4
    case Pushed(_) => 3
    case Unlocked(_) => 2
    case Notified(_) => 1
    case _ => 0
  }

  function ProcessorWork(p: Processor, empty: bool, signalled: bool): nat {
    match p
    case Unlocking(_) => 13
    case Handling(_) => 12
    case Relocking => 11
    case InnerLoop => if empty then 10 else 6
    case OuterLoop => 9
    case Locking => 8
    case Testing => 7
    case Parking => 6
    case Copying => 5
    case Popping(_) => 4
    case Parked => if signalled then 8 else 0
    case Ended => 0
  }

  /** A bound on the steps until all is quiet, if nothing new arrives. */
  function Work<V>(s: State<V>): nat {
    100 * ReceiverWork(s.receiver) + 20 * |s.queue| + ProcessorWork(s.processor, s.queue == [], s.signalled)
  }

  /** The receiver finishes what it has at hand, as soon as the mutex is free for it; else the processor moves. */
  function Chosen<V>(s: State<V>): Step {
    if ReceiverWork(s.receiver) > 0 && !(s.receiver.Arrived? && s.owner == TheProcessor) then ReceiverMoves(None)
    else ProcessorMoves
  }

  lemma ReceiverAdvances<V>(s: State<V>)
    requires Exclusive(s) && Wakeful(s) && s.running && ReceiverWork(s.receiver) > 0
    requires !(s.receiver.Arrived? && s.owner == TheProcessor)
    ensures var next := ReceiverNext(s, None);
      next.Some? && next.value.running && next.value.received == s.received && Work(next.value) < Work(s)
  {
    hide CString;
  }

  lemma ProcessorAdvances<V>(s: State<V>, stof: string -> Option<V>)
    requires Exclusive(s) && Fifo(s) && Wakeful(s) && s.running && !Quiet(s)
    requires ReceiverWork(s.receiver) == 0 || (s.receiver.Arrived? && s.owner == TheProcessor)
    ensures var next := ProcessorNext(s, stof);
      next.Some? && next.value.running && next.value.received == s.received && Work(next.value) < Work(s)
  {
    hide Dispatch, AsSeq, InFlight, Pending;
  }

  /** From every state that is not quiet one of the threads can bring it nearer to quiet. */
  lemma ChosenAdvances<V>(s: State<V>, stof: string -> Option<V>)
    requires Exclusive(s) && Fifo(s) && Wakeful(s) && s.running && !Quiet(s)
    ensures var next := Next(s, Chosen(s), stof);
      next.Some? && next.value.running && next.value.received == s.received && Work(next.value) < Work(s)
  {
    hide Exclusive, Fifo, Wakeful, Quiet, ReceiverNext, ProcessorNext, ReceiverWork, Work;
    if Chosen(s) == ProcessorMoves {
      ProcessorAdvances(s, stof);
    } else {
      ReceiverAdvances(s);
    }
  }

  ghost predicate CanFinish<V>(s: State<V>, stof: string -> Option<V>) {
    exists steps ::
      var end := After(s, steps, stof); end.Some? && Quiet(end.value) && end.value.handled == s.received
  }

  lemma {:induction false} Finishes<V>(s: State<V>, stof: string -> Option<V>)
    requires Invariant(s, stof) && s.running
    ensures CanFinish(s, stof)
    decreases Work(s)
  {
    hide Exclusive, Fifo, Wakeful, SendersNoted, Invocations, Work, After, Next, Quiet;
    if Quiet(s) {
      Done(s, stof);
      QuietIsDone(s);
      assert After(s, [], stof) == Some(s);
    } else {
      ChosenAdvances(s, stof);
      var step := Chosen(s);
      var next := Next(s, step, stof).value;
      OneStepKeeps(s, step, stof);
      Finishes(next, stof);
      var steps :| var end := After(next, steps, stof); end.Some? && Quiet(end.value) && end.value.handled == next.received;
      Then(s, step, steps, stof);
      assert After(s, [step] + steps, stof) == After(next, steps, stof);
    }
  }

  lemma QuietIsDone<V>(s: State<V>)
    requires Fifo(s) && Wakeful(s) && Quiet(s)
    ensures s.handled == s.received
  {
  }

  lemma OneStepKeeps<V>(s: State<V>, step: Step, stof: string -> Option<V>)
    requires Invariant(s, stof) && Next(s, step, stof).Some?
    ensures Invariant(Next(s, step, stof).value, stof)
  {
    hide Exclusive, Fifo, Wakeful, SendersNoted, Next;
    StepKeepsProtocol(s, step, stof);
    StepKeepsSenders(s, step, stof);
    StepKeepsInvocations(s, step, stof);
  }

  /** No livelock: while the server runs, whatever the schedule so far, there is a way on that handles everything delivered. */
  lemma EverythingCanBeHandled<V>(steps: seq<Step>, stof: string -> Option<V>)
    requires After(Initial<V>(), steps, stof).Some? && After(Initial<V>(), steps, stof).value.running
    ensures var s := After(Initial<V>(), steps, stof).value;
      CanFinish(s, stof) && s.received == Heard(Initial<V>(), steps, stof)
  {
    hide After, Heard, Next, CanFinish;
    InitialKeeps(stof);
    EveryRunKeeps(Initial<V>(), steps, stof);
    HeardFromTheStart(steps, stof);
    Finishes(After(Initial<V>(), steps, stof).value, stof);
  }

  // ----- requests -----

  lemma {:induction false} InvocationsAppend<V>(before: seq<Command>, after: seq<Command>, stof: string -> Option<V>)
    ensures Invocations(before + after, stof) == Invocations(before, stof) + Invocations(after, stof)
  {
    if after == [] {
      assert before + after == before;
    } else {
      var last := |after| - 1;
      assert (before + after)[..|before + after| - 1] == before + after[..last];
      InvocationsAppend(before, after[..last], stof);
    }
  }

  /** A request that was delivered in one datagram and handled raises its event once, after those of the commands
      delivered before it and before the later ones. */
  lemma RequestIsServedOnce<V>(steps: seq<Step>, at: nat, name: string, fields: seq<string>, values: seq<V>, stof: string -> Option<V>)
    requires After(Initial<V>(), steps, stof).Some?
    requires at < |After(Initial<V>(), steps, stof).value.handled| && at < |Heard(Initial<V>(), steps, stof)|
    requires Heard(Initial<V>(), steps, stof)[at].message == CString(name + ":" + Join(fields, ','))
    requires |name + ":" + Join(fields, ',')| < BUFFER_SIZE && '\0' !in name + ":" + Join(fields, ',')
    requires ':' !in name && Without(fields, ',') && stof("") == None
    requires |values| == |fields| && forall i :: 0 <= i < |fields| ==> stof(fields[i]) == Some(values[i])
    ensures var s, heard := After(Initial<V>(), steps, stof).value, Heard(Initial<V>(), steps, stof);
      && |s.handled| <= |heard|
      && s.invoked == Invocations(heard[..at], stof) + [Named(name, values)] + Invocations(heard[at + 1..|s.handled|], stof)
  {
    hide *;
    NoLossNoReordering(steps, stof);
    var s, heard := After(Initial<V>(), steps, stof).value, Heard(Initial<V>(), steps, stof);
    var handled := heard[..|s.handled|];
    RequestIsUnderstood(name, fields, values, stof);
    WholeText(name + ":" + Join(fields, ','));
    InvocationsAround(handled, at, stof);
    OneInvocation(Named(name, values));
    assert handled[..at] == heard[..at] && handled[at + 1..] == heard[at + 1..|s.handled|];
  }

  lemma WholeText(datagram: string)
    requires |datagram| < BUFFER_SIZE && '\0' !in datagram
    ensures CString(datagram) == datagram
  {
  }

  lemma OneInvocation<V>(invocation: Invocation<V>)
    ensures AsSeq(Some(invocation)) == [invocation]
  {
  }

  lemma InvocationsAround<V>(commands: seq<Command>, at: nat, stof: string -> Option<V>)
    requires at < |commands|
    ensures Invocations(commands, stof) == Invocations(commands[..at], stof)
      + AsSeq(Dispatch(commands[at].message, stof)) + Invocations(commands[at + 1..], stof)
  {
    hide Invocations, Dispatch, AsSeq;
    var before, command, after := commands[..at], commands[at], commands[at + 1..];
    CutAt(commands, at);
    InvocationsOfOneMore(before, command, stof);
    InvocationsAppend(before + [command], after, stof);
  }

  lemma CutAt<T>(s: seq<T>, at: nat)
    requires at < |s|
    ensures s == s[..at] + [s[at]] + s[at + 1..]
  {
  }
}
