/**
 The shared-memory Zygote service of Xposed (namespace membased): one server, the looper thread, and
 one client exchange requests and responses through a shared record guarded by one mutex and one
 condition variable. Both sides are modelled as threads of atomic steps; waiting releases the mutex
 and may end without a signal.
 */
module Membased {
  import opened Wrappers

  datatype Thread = Server | Client

  datatype State = NotRunning | Idle | ServiceAction | ServerResponse

  datatype Action = OpNone | OpAccessFile | OpStatFile | OpReadFile

  /** What a client writes into the shared record, and what the server leaves there. */
  datatype Request = Request(action: Action, input: nat)
  datatype Response = Response(error: int, output: int)

  /** Where the looper stands. */
  datatype Looper =
    | Starting          // wants the mutex
    | SettingIdle
    | SignallingIdle
    | Checking          // at the test of the inner loop
    | Sleeping          // in pthread_cond_wait
    | Waking            // signalled, wants the mutex back
    | Serving
    | Responding
    | SignallingResponse

  /** Where the client stands. */
  datatype Caller =
    | Outside
    | EnteringRunning | CheckingRunning | SleepingRunning | WakingRunning | LeavingRunning
    | EnteringIdle | CheckingIdle | SleepingIdle | WakingIdle
    | Writing
    | Posting
    | SignallingAction
    | CheckingResponse | SleepingResponse | WakingResponse
    | Answered
    | Rejecting         // the answer would not fit the client's buffer
    | SignallingMadeIdle
    | Unlocking
    | Reading           // after the mutex has been released

  /**
   The mutex, the shared record, both threads, the client's locals (the request it is making, rc != 0
   in waitForRunning, and whether readFile has put its own EBUSY into the record), and the history of
   requests and responses.
   */
  datatype Machine = Machine(
    holder: Option<Thread>,
    state: State, action: Action, error: int, input: nat, output: int,
    looper: Looper, caller: Caller, request: Request, timedOut: bool, busy: bool,
    sent: seq<Request>, served: seq<(Request, Response)>, returned: seq<Response>)

  const EBUSY: int := 16

  const INIT :=
    Machine(None, NotRunning, OpNone, 0, 0, 0, Starting, Outside, Request(OpNone, 0), false, false, [], [], [])

  datatype Step =
    // the looper
    | Start | SetIdle | SignalIdle | CheckAction | RelockServer | Serve(response: Response) | Respond | SignalResponse
    // the client
    | CallWaitForRunning | LockRunning | CheckRunning | RelockRunning | UnlockRunning
    | Call | LockIdle | CheckIdle | RelockIdle | Write(request: Request) | Post | SignalAction
    | CheckResponse | RelockResponse | CallAgain | SetBusy | MakeIdle | SignalMadeIdle | Unlock | Read
    // not caused by any thread
    | SpuriousServer | SpuriousClient | Timeout

  /** pthread_cond_signal by the client wakes the looper if it waits. */
  function WakeLooper(m: Machine): Machine {
    if m.looper.Sleeping? then m.(looper := Waking) else m
  }

  /** pthread_cond_signal by the looper wakes the client if it waits. */
  function WakeCaller(m: Machine): Machine {
    match m.caller
    case SleepingRunning => m.(caller := WakingRunning)
    case SleepingIdle => m.(caller := WakingIdle)
    case SleepingResponse => m.(caller := WakingResponse)
    case _ => m
  }

  function LooperStep(m: Machine, step: Step): Option<Machine> {
    match step
    case Start =>
      if m.looper.Starting? && m.holder.None? then Some(m.(looper := SettingIdle, holder := Some(Server))) else None
    case SetIdle =>
      if m.looper.SettingIdle? then Some(m.(looper := SignallingIdle, state := Idle)) else None
    case SignalIdle =>
      if m.looper.SignallingIdle? then Some(WakeCaller(m.(looper := Checking))) else None
    case CheckAction =>
      if !m.looper.Checking? then None
      else if !m.state.ServiceAction? then Some(m.(looper := Sleeping, holder := None))
      else Some(m.(looper := Serving))
    case RelockServer =>
      if m.looper.Waking? && m.holder.None? then Some(m.(looper := Checking, holder := Some(Server))) else None
    case Serve(response) =>
      if m.looper.Serving? then
        Some(m.(looper := Responding, error := response.error, output := response.output,
                served := m.served + [(Request(m.action, m.input), response)]))
      else None
    case Respond =>
      if m.looper.Responding? then Some(m.(looper := SignallingResponse, state := ServerResponse)) else None
    case SignalResponse =>
      if m.looper.SignallingResponse? then Some(WakeCaller(m.(looper := Checking))) else None
    case SpuriousServer =>
      if m.looper.Sleeping? then Some(m.(looper := Waking)) else None
    case _ => None
  }

  /** waitForRunning */
  function RunningStep(m: Machine, step: Step): Option<Machine> {
    match step
    case CallWaitForRunning =>
      if m.caller.Outside? then Some(m.(caller := EnteringRunning)) else None
    case LockRunning =>
      if m.caller.EnteringRunning? && m.holder.None?
      then Some(m.(caller := CheckingRunning, timedOut := false, holder := Some(Client)))
      else None
    case CheckRunning =>
      if !m.caller.CheckingRunning? then None
      else if m.state.NotRunning? && !m.timedOut then Some(m.(caller := SleepingRunning, holder := None))
      else Some(m.(caller := LeavingRunning))
    case RelockRunning =>
      if m.caller.WakingRunning? && m.holder.None?
      then Some(m.(caller := CheckingRunning, holder := Some(Client)))
      else None
    case UnlockRunning =>
      if m.caller.LeavingRunning? then Some(m.(caller := Outside, holder := None)) else None
    case Timeout =>
      if m.caller.SleepingRunning? then Some(m.(caller := WakingRunning, timedOut := true)) else None
    case _ => None
  }

  /** waitForIdle, callService, makeIdle, and reading the result */
  function CallerStep(m: Machine, step: Step): Option<Machine> {
    match step
    case Call =>
      if m.caller.Outside? then Some(m.(caller := EnteringIdle)) else None
    case LockIdle =>
      if m.caller.EnteringIdle? && m.holder.None?
      then Some(m.(caller := CheckingIdle, holder := Some(Client)))
      else None
    case CheckIdle =>
      if !m.caller.CheckingIdle? then None
      else if !m.state.Idle? then Some(m.(caller := SleepingIdle, holder := None))
      else Some(m.(caller := Writing))
    case RelockIdle =>
      if m.caller.WakingIdle? && m.holder.None? then Some(m.(caller := CheckingIdle, holder := Some(Client))) else None
    case Write(request) =>
      if m.caller.Writing? then Some(m.(caller := Posting, request := request, input := request.input)) else None
    case Post =>
      if m.caller.Posting? then
        Some(m.(caller := SignallingAction, action := m.request.action, state := ServiceAction, error := 0,
                busy := false, sent := m.sent + [m.request]))
      else None
    case SignalAction =>
      if m.caller.SignallingAction? then Some(WakeLooper(m.(caller := CheckingResponse))) else None
    case CheckResponse =>
      if !m.caller.CheckingResponse? then None
      else if !m.state.ServerResponse? then Some(m.(caller := SleepingResponse, holder := None))
      else Some(m.(caller := Answered))
    case RelockResponse =>
      if m.caller.WakingResponse? && m.holder.None?
      then Some(m.(caller := CheckingResponse, holder := Some(Client)))
      else None
    case CallAgain =>
      if m.caller.Answered? then Some(m.(caller := Writing)) else None
    case SetBusy =>
      if m.caller.Answered? then Some(m.(caller := Rejecting, error := EBUSY, busy := true)) else None
    case MakeIdle =>
      if m.caller.Answered? || m.caller.Rejecting?
      then Some(m.(caller := SignallingMadeIdle, action := OpNone, state := Idle))
      else None
    case SignalMadeIdle =>
      if m.caller.SignallingMadeIdle? then Some(WakeLooper(m.(caller := Unlocking))) else None
    case Unlock =>
      if m.caller.Unlocking? then Some(m.(caller := Reading, holder := None)) else None
    case Read =>
      if m.caller.Reading?
      then Some(m.(caller := Outside, returned := m.returned + [Response(m.error, m.output)]))
      else None
    case _ => None
  }

  /** A wakeup nobody asked for. */
  function SpuriousStep(m: Machine): Option<Machine> {
    match m.caller
    case SleepingRunning => Some(m.(caller := WakingRunning))
    case SleepingIdle => Some(m.(caller := WakingIdle))
    case SleepingResponse => Some(m.(caller := WakingResponse))
    case _ => None
  }

  predicate OfLooper(step: Step) {
    match step
    case Start | SetIdle | SignalIdle | CheckAction | RelockServer | Serve(_) | Respond | SignalResponse
       | SpuriousServer => true
    case _ => false
  }

  predicate OfRunning(step: Step) {
    match step
    case CallWaitForRunning | LockRunning | CheckRunning | RelockRunning | UnlockRunning | Timeout => true
    case _ => false
  }

  function Do(m: Machine, step: Step): Option<Machine> {
    if OfLooper(step) then LooperStep(m, step)
    else if OfRunning(step) then RunningStep(m, step)
    else if step.SpuriousClient? then SpuriousStep(m)
    else CallerStep(m, step)
  }

  function Run(m: Machine, steps: seq<Step>): Option<Machine> {
    if steps == [] then Some(m)
    else
      var before := Run(m, steps[..|steps| - 1]);
      if before.None? then None else Do(before.value, steps[|steps| - 1])
  }

  // ----- the invariant -----

  predicate LooperHolds(m: Machine) {
    !m.looper.Starting? && !m.looper.Sleeping? && !m.looper.Waking?
  }

  predicate CallerHolds(m: Machine) {
    && !m.caller.Outside? && !m.caller.EnteringRunning? && !m.caller.SleepingRunning? && !m.caller.WakingRunning?
    && !m.caller.EnteringIdle? && !m.caller.SleepingIdle? && !m.caller.WakingIdle?
    && !m.caller.SleepingResponse? && !m.caller.WakingResponse? && !m.caller.Reading?
  }

  /** The client is between posting a request and learning of the response. */
  predicate Waiting(m: Machine) {
    m.caller.SignallingAction? || m.caller.CheckingResponse? || m.caller.SleepingResponse? || m.caller.WakingResponse?
  }

  predicate Exclusion(m: Machine) {
    && (m.holder.Some? && m.holder.value.Server? <==> LooperHolds(m))
    && (m.holder.Some? && m.holder.value.Client? <==> CallerHolds(m))
  }

  /** Which states go with which places. */
  predicate Phases(m: Machine) {
    && (m.state.NotRunning? <==> m.looper.Starting? || m.looper.SettingIdle?)
    && (m.looper.Serving? || m.looper.Responding? ==> m.state.ServiceAction?)
    && (m.looper.SignallingIdle? ==> m.state.Idle?)
    && (m.looper.SignallingResponse? ==> m.state.ServerResponse?)
    && (m.state.ServiceAction? ==> Waiting(m))
    && (m.state.ServerResponse? ==>
          Waiting(m) || m.caller.Answered? || m.caller.Rejecting? || m.caller.Writing? || m.caller.Posting?)
    && (Waiting(m) ==> m.state.ServiceAction? || m.state.ServerResponse?)
    && (m.caller.SignallingAction? ==> m.state.ServiceAction?)
    && (m.caller.Answered? || m.caller.Rejecting? ==> m.state.ServerResponse?)
    && (m.caller.Writing? || m.caller.Posting? ==> m.state.Idle? || m.state.ServerResponse?)
    && (m.caller.SignallingMadeIdle? || m.caller.Unlocking? || m.caller.Reading? ==> m.state.Idle?)
  }

  /** A thread sleeps through the state it waits for only until the other has signalled. */
  predicate NoLostWakeup(m: Machine) {
    && (m.state.ServiceAction? && m.looper.Sleeping? ==> m.caller.SignallingAction?)
    && (m.state.ServerResponse? && m.caller.SleepingResponse? ==> m.looper.SignallingResponse?)
    && (!m.state.NotRunning? && m.caller.SleepingRunning? ==> m.looper.SignallingIdle?)
    && (m.state.Idle? && m.caller.SleepingIdle? ==> m.looper.SignallingIdle?)
  }

  /** Every request is served once, in order, as it was sent. */
  predicate InStep(m: Machine) {
    && |m.served| <= |m.sent| <= |m.served| + 1
    && (|m.served| < |m.sent| <==> m.state.ServiceAction? && !m.looper.Responding?)
    && (forall i :: 0 <= i < |m.served| ==> m.served[i].0 == m.sent[i])
  }

  /** The request in the shared record is the one being waited for, the response there the latest one. */
  predicate Record(m: Machine) {
    && (|m.served| < |m.sent| ==> Request(m.action, m.input) == m.sent[|m.sent| - 1])
    && (m.caller.Posting? ==> m.input == m.request.input)
    && (m.looper.Responding? || (m.state.ServerResponse? && !m.caller.Writing? && !m.caller.Posting?) ==>
      LatestThere(m))
    && (m.caller.SignallingMadeIdle? || m.caller.Unlocking? || m.caller.Reading? ==> LatestThere(m))
    && (Waiting(m) || m.caller.Answered? ==> !m.busy)
  }

  /** The latest response is in the record, but for an error that the client put over its own. */
  predicate LatestThere(m: Machine) {
    && |m.served| > 0
    && m.output == m.served[|m.served| - 1].1.output
    && m.error == if m.busy then EBUSY else m.served[|m.served| - 1].1.error
  }

  predicate Control(m: Machine) {
    Exclusion(m) && Phases(m) && NoLostWakeup(m)
  }

  datatype Clause = Exclusive | Phased | Woken | Ordered | Recorded

  predicate Holds(m: Machine, c: Clause) {
    match c
    case Exclusive => Exclusion(m)
    case Phased => Phases(m)
    case Woken => NoLostWakeup(m)
    case Ordered => InStep(m)
    case Recorded => Record(m)
  }

  /** What holds in every reachable state. */
  ghost predicate Inv(m: Machine) {
    forall c :: Holds(m, c)
  }

  lemma {:induction false} InvControl(m: Machine)
    requires Inv(m)
    ensures Control(m)
  {
    assert Holds(m, Exclusive) && Holds(m, Phased) && Holds(m, Woken);
  }

  lemma {:induction false} InvHistory(m: Machine)
    requires Inv(m)
    ensures InStep(m) && Record(m)
  {
    assert Holds(m, Ordered) && Holds(m, Recorded);
  }

  lemma {:induction false} LooperExclusion(m: Machine, step: Step)
    requires Control(m) && LooperStep(m, step).Some?
    ensures Exclusion(LooperStep(m, step).value)
  {
  }

  lemma {:induction false} LooperPhases(m: Machine, step: Step)
    requires Control(m) && LooperStep(m, step).Some?
    ensures Phases(LooperStep(m, step).value)
  {
  }

  lemma {:induction false} LooperWakeups(m: Machine, step: Step)
    requires Control(m) && LooperStep(m, step).Some?
    ensures NoLostWakeup(LooperStep(m, step).value)
  {
  }

  lemma {:induction false} ServeOrder(m: Machine, response: Response)
    requires Phases(m) && InStep(m) && Record(m) && m.looper.Serving?
    ensures InStep(LooperStep(m, Serve(response)).value)
  {
  }

  lemma {:induction false} LooperOrder(m: Machine, step: Step)
    requires Phases(m) && InStep(m) && Record(m) && LooperStep(m, step).Some?
    ensures InStep(LooperStep(m, step).value)
  {
    if step.Serve? {
      ServeOrder(m, step.response);
    } else {
      assert LooperStep(m, step).value.served == m.served && LooperStep(m, step).value.sent == m.sent;
    }
  }

  lemma {:induction false} ServeRecord(m: Machine, response: Response)
    requires Phases(m) && InStep(m) && Record(m) && m.looper.Serving?
    ensures Record(LooperStep(m, Serve(response)).value)
  {
  }

  lemma {:induction false} LooperRecord(m: Machine, step: Step)
    requires Phases(m) && InStep(m) && Record(m) && LooperStep(m, step).Some?
    ensures Record(LooperStep(m, step).value)
  {
    if step.Serve? {
      ServeRecord(m, step.response);
    } else {
      assert LooperStep(m, step).value.served == m.served && LooperStep(m, step).value.sent == m.sent;
    }
  }

  lemma {:induction false} LooperKeeps(m: Machine, step: Step)
    requires Inv(m) && LooperStep(m, step).Some?
    ensures Inv(LooperStep(m, step).value)
  {
    InvControl(m);
    InvHistory(m);
    forall c ensures Holds(LooperStep(m, step).value, c) {
      match c
      case Exclusive => LooperExclusion(m, step);
      case Phased => LooperPhases(m, step);
      case Woken => LooperWakeups(m, step);
      case Ordered => LooperOrder(m, step);
      case Recorded => LooperRecord(m, step);
    }
  }

  lemma {:induction false} RunningExclusion(m: Machine, step: Step)
    requires Control(m) && RunningStep(m, step).Some?
    ensures Exclusion(RunningStep(m, step).value)
  {
  }

  lemma {:induction false} RunningPhases(m: Machine, step: Step)
    requires Control(m) && RunningStep(m, step).Some?
    ensures Phases(RunningStep(m, step).value)
  {
  }

  lemma {:induction false} RunningWakeups(m: Machine, step: Step)
    requires Control(m) && RunningStep(m, step).Some?
    ensures NoLostWakeup(RunningStep(m, step).value)
  {
  }

  lemma {:induction false} RunningOrder(m: Machine, step: Step)
    requires Phases(m) && InStep(m) && Record(m) && RunningStep(m, step).Some?
    ensures InStep(RunningStep(m, step).value)
  {
  }

  lemma {:induction false} RunningRecord(m: Machine, step: Step)
    requires Phases(m) && InStep(m) && Record(m) && RunningStep(m, step).Some?
    ensures Record(RunningStep(m, step).value)
  {
  }

  lemma {:induction false} RunningKeeps(m: Machine, step: Step)
    requires Inv(m) && RunningStep(m, step).Some?
    ensures Inv(RunningStep(m, step).value)
  {
    InvControl(m);
    InvHistory(m);
    forall c ensures Holds(RunningStep(m, step).value, c) {
      match c
      case Exclusive => RunningExclusion(m, step);
      case Phased => RunningPhases(m, step);
      case Woken => RunningWakeups(m, step);
      case Ordered => RunningOrder(m, step);
      case Recorded => RunningRecord(m, step);
    }
  }

  lemma {:induction false} CallerExclusion(m: Machine, step: Step)
    requires Control(m) && CallerStep(m, step).Some?
    ensures Exclusion(CallerStep(m, step).value)
  {
  }

  lemma {:induction false} CallerPhases(m: Machine, step: Step)
    requires Control(m) && CallerStep(m, step).Some?
    ensures Phases(CallerStep(m, step).value)
  {
  }

  lemma {:induction false} CallerWakeups(m: Machine, step: Step)
    requires Control(m) && CallerStep(m, step).Some?
    ensures NoLostWakeup(CallerStep(m, step).value)
  {
  }

  lemma {:induction false} CallerOrder(m: Machine, step: Step)
    requires Phases(m) && InStep(m) && Record(m) && CallerStep(m, step).Some?
    ensures InStep(CallerStep(m, step).value)
  {
  }

  lemma {:induction false} PostRecord(m: Machine)
    requires Phases(m) && InStep(m) && Record(m) && m.caller.Posting?
    ensures Record(CallerStep(m, Post).value)
  {
  }

  lemma {:induction false} CallerRecord(m: Machine, step: Step)
    requires Phases(m) && InStep(m) && Record(m) && CallerStep(m, step).Some?
    ensures Record(CallerStep(m, step).value)
  {
    if step.Post? {
      PostRecord(m);
    } else {
      assert CallerStep(m, step).value.served == m.served && CallerStep(m, step).value.sent == m.sent;
    }
  }

  lemma {:induction false} CallerKeeps(m: Machine, step: Step)
    requires Inv(m) && CallerStep(m, step).Some?
    ensures Inv(CallerStep(m, step).value)
  {
    InvControl(m);
    InvHistory(m);
    forall c ensures Holds(CallerStep(m, step).value, c) {
      match c
      case Exclusive => CallerExclusion(m, step);
      case Phased => CallerPhases(m, step);
      case Woken => CallerWakeups(m, step);
      case Ordered => CallerOrder(m, step);
      case Recorded => CallerRecord(m, step);
    }
  }

  lemma {:induction false} SpuriousExclusion(m: Machine)
    requires Control(m) && SpuriousStep(m).Some?
    ensures Exclusion(SpuriousStep(m).value)
  {
  }

  lemma {:induction false} SpuriousPhases(m: Machine)
    requires Control(m) && SpuriousStep(m).Some?
    ensures Phases(SpuriousStep(m).value)
  {
  }

  lemma {:induction false} SpuriousWakeups(m: Machine)
    requires Control(m) && SpuriousStep(m).Some?
    ensures NoLostWakeup(SpuriousStep(m).value)
  {
  }

  lemma {:induction false} SpuriousOrder(m: Machine)
    requires Phases(m) && InStep(m) && Record(m) && SpuriousStep(m).Some?
    ensures InStep(SpuriousStep(m).value)
  {
  }

  lemma {:induction false} SpuriousRecord(m: Machine)
    requires Phases(m) && InStep(m) && Record(m) && SpuriousStep(m).Some?
    ensures Record(SpuriousStep(m).value)
  {
  }

  lemma {:induction false} SpuriousKeeps(m: Machine)
    requires Inv(m) && SpuriousStep(m).Some?
    ensures Inv(SpuriousStep(m).value)
  {
    InvControl(m);
    InvHistory(m);
    forall c ensures Holds(SpuriousStep(m).value, c) {
      match c
      case Exclusive => SpuriousExclusion(m);
      case Phased => SpuriousPhases(m);
      case Woken => SpuriousWakeups(m);
      case Ordered => SpuriousOrder(m);
      case Recorded => SpuriousRecord(m);
    }
  }

  lemma {:induction false} StepKeeps(m: Machine, step: Step)
    requires Inv(m) && Do(m, step).Some?
    ensures Inv(Do(m, step).value)
  {
    if OfLooper(step) {
      LooperKeeps(m, step);
    } else if OfRunning(step) {
      RunningKeeps(m, step);
    } else if step.SpuriousClient? {
      SpuriousKeeps(m);
    } else {
      CallerKeeps(m, step);
    }
  }

  lemma {:induction false} InitHolds()
    ensures Inv(INIT)
  {
    forall c ensures Holds(INIT, c) { }
  }

  /** The invariant holds after every run, whatever the interleaving. */
  lemma {:induction false} RunKeeps(steps: seq<Step>)
    requires Run(INIT, steps).Some?
    ensures Inv(Run(INIT, steps).value)
    decreases |steps|
  {
    if steps == [] {
      InitHolds();
    } else {
      var n := |steps| - 1;
      RunKeeps(steps[..n]);
      StepKeeps(Run(INIT, steps[..n]).value, steps[n]);
    }
  }

  // ----- what follows for every run -----

  /** Steps that a thread takes on its own account, and that do not begin a new call. */
  predicate IsProgress(step: Step) {
    match step
    case SpuriousServer | SpuriousClient | Timeout | Call | CallWaitForRunning | CallAgain => false
    case _ => true
  }

  function LooperNext(looper: Looper, response: Response): Step {
    match looper
    case Starting => Start
    case SettingIdle => SetIdle
    case SignallingIdle => SignalIdle
    case Checking => CheckAction
    case Serving => Serve(response)
    case Responding => Respond
    case SignallingResponse => SignalResponse
    case Waking => RelockServer
    case Sleeping => SpuriousServer
  }

  function CallerNext(caller: Caller, request: Request): Step {
    match caller
    case Outside => Call
    case EnteringRunning => LockRunning
    case CheckingRunning => CheckRunning
    case SleepingRunning => SpuriousClient
    case WakingRunning => RelockRunning
    case LeavingRunning => UnlockRunning
    case EnteringIdle => LockIdle
    case CheckingIdle => CheckIdle
    case SleepingIdle => SpuriousClient
    case WakingIdle => RelockIdle
    case Writing => Write(request)
    case Posting => Post
    case SignallingAction => SignalAction
    case CheckingResponse => CheckResponse
    case SleepingResponse => SpuriousClient
    case WakingResponse => RelockResponse
    case Answered => MakeIdle
    case Rejecting => MakeIdle
    case SignallingMadeIdle => SignalMadeIdle
    case Unlocking => Unlock
    case Reading => Read
  }

  lemma {:induction false} LooperCan(m: Machine, response: Response)
    requires Exclusion(m) && !m.looper.Sleeping? && (LooperHolds(m) || m.holder.None?)
    ensures IsProgress(LooperNext(m.looper, response)) && Do(m, LooperNext(m.looper, response)).Some?
  {
  }

  lemma {:induction false} CallerCan(m: Machine, request: Request)
    requires Exclusion(m) && (CallerHolds(m) || m.holder.None?)
    requires !m.caller.Outside? && !m.caller.SleepingRunning? && !m.caller.SleepingIdle? && !m.caller.SleepingResponse?
    ensures IsProgress(CallerNext(m.caller, request)) && Do(m, CallerNext(m.caller, request)).Some?
  {
  }

  /** While a call is in progress, some thread can take a step that is not a stray wakeup. */
  lemma {:induction false} NeverStuck(m: Machine, request: Request, response: Response) returns (step: Step)
    requires Inv(m) && !m.caller.Outside?
    ensures IsProgress(step) && Do(m, step).Some?
  {
    InvControl(m);
    if LooperHolds(m) || (m.holder.None? && !m.looper.Sleeping?) {
      step := LooperNext(m.looper, response);
      LooperCan(m, response);
    } else {
      step := CallerNext(m.caller, request);
      CallerCan(m, request);
    }
  }

  /**
   What a call returns, though read after the mutex is released, is the response to its own last request; only the
   error may be the EBUSY of the client itself.
   */
  lemma {:induction false} AnswersOwn(m: Machine)
    requires Inv(m) && m.caller.Reading?
    ensures |m.served| == |m.sent| > 0
    ensures var answer := Response(m.error, m.output);
            && Do(m, Read) == Some(m.(caller := Outside, returned := m.returned + [answer]))
            && m.served[|m.served| - 1].0 == m.sent[|m.sent| - 1]
            && answer.output == m.served[|m.served| - 1].1.output
            && answer.error == if m.busy then EBUSY else m.served[|m.served| - 1].1.error
  {
    InvControl(m);
    InvHistory(m);
  }

  /** The looper writes a response only while a request is pending and it has the mutex. */
  lemma {:induction false} LooperWrites(m: Machine, step: Step)
    requires Inv(m) && Do(m, step).Some?
    ensures OfLooper(step) && (Do(m, step).value.error != m.error || Do(m, step).value.output != m.output) ==>
              m.state.ServiceAction? && m.holder == Some(Server)
  {
    InvControl(m);
  }

  /** The client writes the error only while it has the mutex and no request is pending. */
  lemma {:induction false} ClientWrites(m: Machine, step: Step)
    requires Inv(m) && Do(m, step).Some? && !OfLooper(step)
    ensures Do(m, step).value.output == m.output
    ensures Do(m, step).value.error != m.error ==> !m.state.ServiceAction? && m.holder == Some(Client)
    ensures Do(m, step).value.busy && !m.busy ==>
      step.SetBusy? && m.caller.Answered? && Do(m, step).value.error == EBUSY
  {
    InvControl(m);
  }

  /** While a client reads its result without the mutex, nothing changes the result. */
  lemma {:induction false} StableWhileReading(m: Machine, step: Step)
    requires Inv(m) && m.caller.Reading? && Do(m, step).Some?
    ensures Do(m, step).value.error == m.error && Do(m, step).value.output == m.output
  {
    InvControl(m);
  }

  /** Once running, the service never goes back to not running. */
  lemma {:induction false} StaysRunning(m: Machine, step: Step)
    requires Do(m, step).Some? && !m.state.NotRunning?
    ensures !Do(m, step).value.state.NotRunning?
  {
  }

  // ----- every call comes back -----

  /** How many steps the looper may still take unless it is signalled again. */
  function LooperRank(looper: Looper, state: State): nat {
    match looper
    case Starting => 4
    case SettingIdle => 3
    case SignallingIdle => 2
    case Checking => if state.ServiceAction? then 5 else 1
    case Sleeping => if state.ServiceAction? then 7 else 0
    case Waking => if state.ServiceAction? then 6 else 2
    case Serving => 4
    case Responding => 3
    case SignallingResponse => 2
  }

  /** The same for the client, counting what its signals and requests may add to the looper. */
  function CallerRank(caller: Caller, state: State): nat {
    match caller
    case Outside => 0
    case EnteringRunning => 7
    case CheckingRunning => if state.NotRunning? then 5 else 2
    case SleepingRunning => 4
    case WakingRunning => if state.NotRunning? then 6 else 3
    case LeavingRunning => 1
    case EnteringIdle => 27
    case CheckingIdle => if state.Idle? then 22 else 25
    case SleepingIdle => 24
    case WakingIdle => if state.Idle? then 23 else 26
    case Writing => 21
    case Posting => 20
    case SignallingAction => 12
    case CheckingResponse => if state.ServerResponse? then 8 else 11
    case SleepingResponse => 10
    case WakingResponse => if state.ServerResponse? then 9 else 12
    case Answered => 7
    case Rejecting => 6
    case SignallingMadeIdle => 5
    case Unlocking => 2
    case Reading => 1
  }

  function Rank(m: Machine): nat {
    LooperRank(m.looper, m.state) + CallerRank(m.caller, m.state)
  }

  lemma {:induction false} LooperRanks(m: Machine, step: Step)
    requires Control(m) && LooperStep(m, step).Some? && IsProgress(step)
    ensures Rank(LooperStep(m, step).value) < Rank(m)
  {
  }

  lemma {:induction false} RunningRanks(m: Machine, step: Step)
    requires Control(m) && RunningStep(m, step).Some? && IsProgress(step)
    ensures Rank(RunningStep(m, step).value) < Rank(m)
  {
  }

  lemma {:induction false} CallerRanks(m: Machine, step: Step)
    requires Control(m) && CallerStep(m, step).Some? && IsProgress(step)
    ensures Rank(CallerStep(m, step).value) < Rank(m)
  {
  }

  lemma {:induction false} StepRanks(m: Machine, step: Step)
    requires Inv(m) && Do(m, step).Some? && IsProgress(step)
    ensures Rank(Do(m, step).value) < Rank(m)
  {
    InvControl(m);
    if OfLooper(step) {
      LooperRanks(m, step);
    } else if OfRunning(step) {
      RunningRanks(m, step);
    } else {
      CallerRanks(m, step);
    }
  }

  /** Without stray wakeups and new calls, a run from any reachable state is short. */
  lemma {:induction false} ShortRun(m: Machine, steps: seq<Step>)
    requires Inv(m) && Run(m, steps).Some? && forall i :: 0 <= i < |steps| ==> IsProgress(steps[i])
    ensures Inv(Run(m, steps).value) && |steps| + Rank(Run(m, steps).value) <= Rank(m)
    decreases |steps|
  {
    if steps != [] {
      var n := |steps| - 1;
      ShortRun(m, steps[..n]);
      StepKeeps(Run(m, steps[..n]).value, steps[n]);
      StepRanks(Run(m, steps[..n]).value, steps[n]);
    }
  }

  /** A run that can go no further without stray wakeups has brought every call back to its caller. */
  lemma {:induction false} CallReturns(m: Machine, steps: seq<Step>)
    requires Inv(m) && Run(m, steps).Some? && forall i :: 0 <= i < |steps| ==> IsProgress(steps[i])
    requires forall step :: IsProgress(step) ==> Do(Run(m, steps).value, step).None?
    ensures Run(m, steps).value.caller.Outside? && |steps| <= 34
  {
    ShortRun(m, steps);
    var end := Run(m, steps).value;
    if !end.caller.Outside? {
      var step := NeverStuck(end, Request(OpNone, 0), Response(0, 0));
    }
  }
}
