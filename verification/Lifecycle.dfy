/**
 * The three threads of the device: the module worker translates events, the control thread
 * turns them into atomic flags, the clock loop reads the flags. Threads interleave freely;
 * each step below touches shared state once, in one sequentially consistent operation.
 */
module Lifecycle {
  // ----- events -----

  datatype ModuleEvent =
    | SetCallback | StartPlayout | StopPlayout | StartRecording | WarmupRecording
    | StopRecording | PlayoutDelay | Terminate | DeviceManagement

  datatype ControlEvent =
    | PlayoutStarted | PlayoutStopped | RecordingStarted(send: bool) | RecordingStopped | Terminated

  /** What the worker forwards for one module event; some events are handled in place. */
  function Translate(e: ModuleEvent): seq<ControlEvent>
  {
    match e
    case StartPlayout => [PlayoutStarted]
    case StopPlayout => [PlayoutStopped]
    case StartRecording => [RecordingStarted(true)]
    case WarmupRecording => [RecordingStarted(false)]
    case StopRecording => [RecordingStopped]
    case Terminate => [Terminated]
    case SetCallback => []
    case PlayoutDelay => []
    case DeviceManagement => []
  }

  function TranslateAll(events: seq<ModuleEvent>): seq<ControlEvent>
  {
    if events == [] then [] else TranslateAll(events[..|events| - 1]) + Translate(events[|events| - 1])
  }

  // ----- shared accesses, in the order they happen -----

  datatype Mark =
    | StorePlaying(value: bool) | StoreSend(value: bool) | StoreRecording(value: bool) | StoreTerminate(value: bool)
    | LoadTerminate(value: bool) | LoadPlaying(value: bool) | Pull
    | LoadRecording(value: bool) | LoadSend(value: bool) | Push

  // ----- state -----

  datatype WorkerPhase = Receiving | SendingTerminate | DroppingSender | JoiningDriver | WorkerDone

  datatype ControlPhase = AwaitingEvent | StoringRecording | StoringTerminate | ControlDone

  /** Where the clock loop stands; `JoiningControl` is past the loop, before `run` returns. */
  datatype ClockPhase =
    | AtTop | AtPlaying | AtPull | AtRecording | AtSend | AtPush | JoiningControl | DriverDone

  /** The channel of module events: what was posted, and how much of it the worker has taken. */
  datatype Inbox = Inbox(posted: seq<ModuleEvent>, consumed: nat, closed: bool)

  datatype Flags = Flags(playing: bool, recording: bool, send: bool, terminate: bool)

  datatype System = System(
    inbox: Inbox, worker: WorkerPhase,
    channel: seq<ControlEvent>, handled: seq<ControlEvent>, control: ControlPhase,
    flags: Flags, clock: ClockPhase, log: seq<Mark>)

  const INITIAL := System(Inbox([], 0, false), Receiving, [], [], AwaitingEvent,
                          Flags(false, false, true, false), AtTop, [])

  predicate WellFormed(s: System) { s.inbox.consumed <= |s.inbox.posted| }

  /** Who moves next. The module may post an event or close its channel at any time. */
  datatype Actor = Post(event: ModuleEvent) | Close | Worker | Control | ClockThread

  // ----- steps; a blocked thread does not move -----

  function WorkerStep(s: System): System
    requires WellFormed(s)
  {
    match s.worker
    case Receiving =>
      if s.inbox.consumed < |s.inbox.posted| then
        var e := s.inbox.posted[s.inbox.consumed];
        s.(inbox := s.inbox.(consumed := s.inbox.consumed + 1),
           channel := s.channel + Translate(e),
           worker := if e.Terminate? then SendingTerminate else Receiving)
      else if s.inbox.closed then s.(worker := SendingTerminate)
      else s
    case SendingTerminate => s.(channel := s.channel + [Terminated], worker := DroppingSender)
    case DroppingSender => s.(worker := JoiningDriver)
    case JoiningDriver => if s.clock.DriverDone? then s.(worker := WorkerDone) else s
    case WorkerDone => s
  }

  predicate SenderDropped(s: System) { s.worker.JoiningDriver? || s.worker.WorkerDone? }

  /** The flags after the first store that handling `e` makes. */
  function FirstStore(f: Flags, e: ControlEvent): Flags
  {
    match e
    case PlayoutStarted => f.(playing := true)
    case PlayoutStopped => f.(playing := false)
    case RecordingStarted(send) => f.(send := send)
    case RecordingStopped => f.(recording := false)
    case Terminated => f
  }

  function FirstMark(e: ControlEvent): seq<Mark>
  {
    match e
    case RecordingStarted(send) => [StoreSend(send)]
    case RecordingStopped => [StoreRecording(false)]
    case PlayoutStarted => [StorePlaying(true)]
    case PlayoutStopped => [StorePlaying(false)]
    case Terminated => []
  }

  function AfterFirstStore(e: ControlEvent): ControlPhase
  {
    match e
    case RecordingStarted(_) => StoringRecording
    case Terminated => StoringTerminate
    case PlayoutStarted => AwaitingEvent
    case PlayoutStopped => AwaitingEvent
    case RecordingStopped => AwaitingEvent
  }

  function ControlStep(s: System): System
  {
    match s.control
    case AwaitingEvent =>
      if s.channel != [] then
        var e := s.channel[0];
        s.(channel := s.channel[1..], handled := s.handled + [e],
           flags := FirstStore(s.flags, e), log := s.log + FirstMark(e), control := AfterFirstStore(e))
      else if SenderDropped(s) then s.(control := StoringTerminate)
      else s
    case StoringRecording =>
      s.(flags := s.flags.(recording := true), log := s.log + [StoreRecording(true)], control := AwaitingEvent)
    case StoringTerminate =>
      s.(flags := s.flags.(terminate := true), log := s.log + [StoreTerminate(true)], control := ControlDone)
    case ControlDone => s
  }

  function ClockStep(s: System): System
  {
    match s.clock
    case AtTop =>
      s.(log := s.log + [LoadTerminate(s.flags.terminate)],
         clock := if s.flags.terminate then JoiningControl else AtPlaying)
    case AtPlaying =>
      s.(log := s.log + [LoadPlaying(s.flags.playing)], clock := if s.flags.playing then AtPull else AtRecording)
    case AtPull => s.(log := s.log + [Pull], clock := AtRecording)
    case AtRecording =>
      s.(log := s.log + [LoadRecording(s.flags.recording)], clock := if s.flags.recording then AtSend else AtTop)
    case AtSend =>
      s.(log := s.log + [LoadSend(s.flags.send)], clock := if s.flags.send then AtPush else AtTop)
    case AtPush => s.(log := s.log + [Push], clock := AtTop)
    case JoiningControl => if s.control.ControlDone? then s.(clock := DriverDone) else s
    case DriverDone => s
  }

  function EnvironmentStep(inbox: Inbox, a: Actor): Inbox
  {
    match a
    case Post(e) => if inbox.closed then inbox else inbox.(posted := inbox.posted + [e])
    case _ => inbox.(closed := true)
  }

  function Next(s: System, a: Actor): (r: System)
    requires WellFormed(s)
    ensures WellFormed(r)
  {
    match a
    case Worker => WorkerStep(s)
    case Control => ControlStep(s)
    case ClockThread => ClockStep(s)
    case _ => s.(inbox := EnvironmentStep(s.inbox, a))
  }

  function Run(actors: seq<Actor>): (r: System)
    ensures WellFormed(r)
  {
    if actors == [] then INITIAL else Next(Run(actors[..|actors| - 1]), actors[|actors| - 1])
  }
}
