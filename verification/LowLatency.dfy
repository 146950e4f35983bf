/** The latency marker state machine of src/engine/lowlatency.cpp, over the hooks of two threads. */
module LowLatency {
  import opened Bytes

  datatype Kind =
    | SimulationStart | SimulationEnd
    | RenderSubmitStart | RenderSubmitEnd
    | PresentStart | PresentEnd
    | TriggerFlash | PcLatencyPing

  // A GeForce_SetLatencyMarker call
  datatype Marker = Marker(kind: Kind, id: nat)

  // 0 stands for no device and for no render frame.
  datatype State = State(
    useLowLatency: bool,
    materialSystemInitialized: bool,
    presentHookInstalled: bool,
    presentMarkersEnabled: bool,
    statsAvailable: bool,
    device: nat,
    simulationFrameID: nat,
    simulationFrameStarted: bool,
    renderFrameQueued: bool,
    renderFrameID: nat,
    pendingFlash: bool,
    pendingPing: bool,
    // The environment: the render thread's callbacks, every id ever given to it, the frames of the Present calls
    // that are inside the original function, and all markers set.
    queue: seq<nat>,
    submitted: seq<nat>,
    presenting: seq<nat>,
    trace: seq<Marker>)

  const INITIAL := State(false, false, false, false, false, 0, 0, false, false, 0, false, false, [], [], [], [])

  function Emit(s: State, kind: Kind, id: nat): State {
    s.(trace := s.trace + [Marker(kind, id)])
  }

  // LowLatency_BeginRenderFrame
  function AfterRenderFrame(s: State, id: nat): State {
    if s.presentMarkersEnabled then Emit(s.(renderFrameID := id), RenderSubmitStart, id) else s
  }

  function AfterRenderOne(s: State): State
    requires s.queue != []
  {
    AfterRenderFrame(s.(queue := s.queue[1..]), s.queue[0])
  }

  // FlushMaterialSystemRenderCommands: every callback, in order
  function Flush(s: State): State
    decreases |s.queue|
  {
    if s.queue == [] then s else Flush(AfterRenderOne(s))
  }

  // With the markers disabled a flush only empties the queue.
  lemma {:induction false} DisabledFlushIsSilent(s: State)
    requires !s.presentMarkersEnabled
    ensures Flush(s) == s.(queue := [])
    decreases |s.queue|
  {
    if s.queue != [] {
      DisabledFlushIsSilent(AfterRenderOne(s));
    }
  }

  function AfterRunFrame(s: State, device: nat, configured: bool): (r: (State, bool)) {
    if !s.useLowLatency || !s.materialSystemInitialized || !configured || device == 0 then (s, false)
    else
      var flushed :=
        if device != s.device && s.device != 0
        then Flush(s.(presentMarkersEnabled := false)).(renderFrameID := 0)
        else s;
      (flushed.(device := device), true)
  }

  // `dispatched` is what hooking Present came to, None when it was not tried.
  function AfterInstallPresentHook(s: State, dispatched: Option<bool>): State {
    if s.presentHookInstalled then s.(presentMarkersEnabled := true)
    else if dispatched.None? then s
    else s.(presentHookInstalled := dispatched.value, presentMarkersEnabled := dispatched.value)
  }

  // What can happen, one atomic piece of a hook each: PumpMessages and Present are cut around the original
  // function they call, as the other thread runs meanwhile.
  datatype Event =
    | MaterialSystemInit(disabled: bool, ok: bool)
    | PumpBegin(device: nat, configured: bool)
    | PumpEnd
    | Frame(result: bool)
    | BeginFrame(dispatched: Option<bool>)
    | RenderCallback
    | PresentCall(ourSwapChain: bool, presentTest: bool)
    | PresentReturn(which: nat)
    | InputEvent
    | PingMessage
    | MaterialSystemShutdown

  function AfterInit(s: State, disabled: bool, ok: bool): State {
    s.(useLowLatency := !disabled, materialSystemInitialized := ok,
       statsAvailable := s.statsAvailable || (!disabled && ok))
  }

  function AfterPumpBegin(s: State, device: nat, configured: bool): State {
    if s.simulationFrameStarted then s
    else
      var (t, ran) := AfterRunFrame(s, device, configured);
      if !ran then t
      else
        var id := t.simulationFrameID + 1;
        Emit(t.(simulationFrameID := id, simulationFrameStarted := true, renderFrameQueued := false),
             SimulationStart, id)
  }

  function AfterPumpEnd(s: State): State {
    if !s.simulationFrameStarted then s
    else
      var t := if s.pendingFlash then Emit(s, TriggerFlash, s.simulationFrameID) else s;
      var u := if s.pendingPing then Emit(t, PcLatencyPing, s.simulationFrameID) else t;
      u.(pendingFlash := false, pendingPing := false)
  }

  function AfterFrame(s: State, result: bool): State {
    if result && s.simulationFrameStarted
    then Emit(s, SimulationEnd, s.simulationFrameID).(simulationFrameStarted := false)
    else s
  }

  function AfterBeginFrame(s: State, dispatched: Option<bool>): State {
    if s.simulationFrameStarted && !s.renderFrameQueued then
      AfterInstallPresentHook(s, dispatched).(
        renderFrameQueued := true,
        queue := s.queue + [s.simulationFrameID],
        submitted := s.submitted + [s.simulationFrameID])
    else s
  }

  function AfterPresentCall(s: State, ourSwapChain: bool, presentTest: bool): State {
    if !s.presentMarkersEnabled || s.renderFrameID == 0 || !ourSwapChain || presentTest then s
    else
      var id := s.renderFrameID;
      Emit(Emit(s.(renderFrameID := 0, presenting := s.presenting + [id]), RenderSubmitEnd, id), PresentStart, id)
  }

  function Without(ids: seq<nat>, i: nat): seq<nat>
    requires i < |ids|
  {
    ids[..i] + ids[i + 1..]
  }

  // One of the Present calls under way comes back from the original function.
  function AfterPresentReturn(s: State, which: nat): State {
    if which >= |s.presenting| then s
    else Emit(s.(presenting := Without(s.presenting, which)), PresentEnd, s.presenting[which])
  }

  function AfterStop(s: State): State {
    s.(presentMarkersEnabled := false, materialSystemInitialized := false, simulationFrameStarted := false,
       pendingFlash := false, pendingPing := false)
  }

  function AfterDeviceRelease(s: State): State {
    if s.device != 0 then Flush(s).(renderFrameID := 0, device := 0) else s
  }

  function AfterShutdown(s: State): State {
    AfterDeviceRelease(AfterStop(s)).(statsAvailable := false)
  }

  function Next(s: State, e: Event): State {
    match e
    case MaterialSystemInit(disabled, ok) => AfterInit(s, disabled, ok)
    case PumpBegin(device, configured) => AfterPumpBegin(s, device, configured)
    case PumpEnd => AfterPumpEnd(s)
    case Frame(result) => AfterFrame(s, result)
    case BeginFrame(dispatched) => AfterBeginFrame(s, dispatched)
    case RenderCallback => if s.queue == [] then s else AfterRenderOne(s)
    case PresentCall(ours, test) => AfterPresentCall(s, ours, test)
    case PresentReturn(which) => AfterPresentReturn(s, which)
    case InputEvent => s.(pendingFlash := s.pendingFlash || s.statsAvailable)
    case PingMessage => s.(pendingPing := s.pendingPing || s.statsAvailable)
    case MaterialSystemShutdown => AfterShutdown(s)
  }

  function Run(s: State, events: seq<Event>): State
    decreases |events|
  {
    if events == [] then s else Run(Next(s, events[0]), events[1..])
  }

  // When each switch changes

  // A frame begins: none is under way, and everything the source asks for is there.
  predicate Begins(s: State, e: Event) {
    e.PumpBegin? && !s.simulationFrameStarted
    && s.useLowLatency && s.materialSystemInitialized && e.configured && e.device != 0
  }

  // The frame under way is given to the render thread.
  predicate Queues(s: State, e: Event) {
    e.BeginFrame? && s.simulationFrameStarted && !s.renderFrameQueued
  }

  // What the two events that may flush leave
  lemma PumpBeginIs(s: State, device: nat, configured: bool)
    ensures var begins := Begins(s, PumpBegin(device, configured));
            var changes := begins && s.device != 0 && s.device != device;
            var id := s.simulationFrameID + 1;
            AfterPumpBegin(s, device, configured) ==
            if !begins then s
            else s.(device := device, simulationFrameID := id, simulationFrameStarted := true,
                    renderFrameQueued := false,
                    presentMarkersEnabled := s.presentMarkersEnabled && !changes,
                    queue := if changes then [] else s.queue,
                    renderFrameID := if changes then 0 else s.renderFrameID,
                    trace := s.trace + [Marker(SimulationStart, id)])
  {
    DisabledFlushIsSilent(s.(presentMarkersEnabled := false));
    hide Flush;
  }

  lemma ShutdownIs(s: State)
    ensures AfterShutdown(s) ==
            s.(presentMarkersEnabled := false, materialSystemInitialized := false, simulationFrameStarted := false,
               pendingFlash := false, pendingPing := false, statsAvailable := false, device := 0,
               queue := if s.device != 0 then [] else s.queue,
               renderFrameID := if s.device != 0 then 0 else s.renderFrameID)
  {
    DisabledFlushIsSilent(AfterStop(s));
    hide Flush;
  }

  // Frames begin, end, and are given to the render thread once.
  ghost predicate FrameEdges(s: State, e: Event, t: State) {
    && (t.simulationFrameStarted <==>
          Begins(s, e) || (s.simulationFrameStarted && e != Frame(true) && !e.MaterialSystemShutdown?))
    && t.simulationFrameID == s.simulationFrameID + (if Begins(s, e) then 1 else 0)
    && (t.renderFrameQueued <==> Queues(s, e) || (s.renderFrameQueued && !Begins(s, e)))
    && t.submitted == s.submitted + (if Queues(s, e) then [s.simulationFrameID] else [])
    && t.device == if Begins(s, e) then e.device else if e.MaterialSystemShutdown? then 0 else s.device
  }

  // Markers are set from the first frame queued with Present hooked until the device changes or the material
  // system shuts down; the hook, once installed, stays.
  ghost predicate MarkerEdges(s: State, e: Event, t: State) {
    var hooked := s.presentHookInstalled || (Queues(s, e) && e.dispatched == Some(true));
    && (t.presentHookInstalled <==> hooked)
    && (t.presentMarkersEnabled <==>
          || (Queues(s, e) && hooked)
          || (s.presentMarkersEnabled && !e.MaterialSystemShutdown?
              && !(Begins(s, e) && s.device != 0 && s.device != e.device)
              && !(Queues(s, e) && e.dispatched == Some(false))))
  }

  // The switches of the material system; statistics are there from a successful start to the shutdown.
  ghost predicate SystemEdges(s: State, e: Event, t: State) {
    && (t.useLowLatency <==> if e.MaterialSystemInit? then !e.disabled else s.useLowLatency)
    && (t.materialSystemInitialized <==>
          if e.MaterialSystemInit? then e.ok else s.materialSystemInitialized && !e.MaterialSystemShutdown?)
    && (t.statsAvailable <==>
          e == MaterialSystemInit(false, true) || (s.statsAvailable && !e.MaterialSystemShutdown?))
  }

  // An input event or a ping waits until the next pump of a frame, which sets one marker for it, or the shutdown.
  ghost predicate InputEdges(s: State, e: Event, t: State) {
    var over := e.MaterialSystemShutdown? || (e.PumpEnd? && s.simulationFrameStarted);
    && (t.pendingFlash <==> (e.InputEvent? && s.statsAvailable) || (s.pendingFlash && !over))
    && (t.pendingPing <==> (e.PingMessage? && s.statsAvailable) || (s.pendingPing && !over))
    && (e.PumpEnd? ==>
          t.trace == s.trace
                     + (if s.simulationFrameStarted && s.pendingFlash
                        then [Marker(TriggerFlash, s.simulationFrameID)] else [])
                     + (if s.simulationFrameStarted && s.pendingPing
                        then [Marker(PcLatencyPing, s.simulationFrameID)] else []))
  }

  ghost predicate Edges(s: State, e: Event, t: State) {
    FrameEdges(s, e, t) && MarkerEdges(s, e, t) && SystemEdges(s, e, t) && InputEdges(s, e, t)
  }

  // The fields the edges are about
  ghost predicate SameSwitches(s: State, t: State) {
    && t.useLowLatency == s.useLowLatency && t.materialSystemInitialized == s.materialSystemInitialized
    && t.presentHookInstalled == s.presentHookInstalled && t.presentMarkersEnabled == s.presentMarkersEnabled
    && t.statsAvailable == s.statsAvailable && t.device == s.device && t.simulationFrameID == s.simulationFrameID
    && t.simulationFrameStarted == s.simulationFrameStarted && t.renderFrameQueued == s.renderFrameQueued
    && t.pendingFlash == s.pendingFlash && t.pendingPing == s.pendingPing && t.submitted == s.submitted
  }

  lemma RenderingEdges(s: State, e: Event, t: State)
    requires (e.RenderCallback? || e.PresentCall? || e.PresentReturn?) && SameSwitches(s, t)
    ensures Edges(s, e, t)
  {
    assert s.submitted + [] == s.submitted;
  }

  lemma EndedEdges(s: State, e: Event, t: State)
    requires e.Frame? && SameSwitches(s.(simulationFrameStarted := s.simulationFrameStarted && !e.result), t)
    ensures Edges(s, e, t)
  {
    assert s.submitted + [] == s.submitted;
  }

  // What the edges are about after a pump
  function Pumped(s: State, e: Event): State
    requires e.PumpBegin?
  {
    if !Begins(s, e) then s
    else s.(device := e.device, simulationFrameID := s.simulationFrameID + 1, simulationFrameStarted := true,
            renderFrameQueued := false,
            presentMarkersEnabled := s.presentMarkersEnabled && (s.device == 0 || s.device == e.device))
  }

  lemma BegunEdges(s: State, e: Event, t: State)
    requires e.PumpBegin? && SameSwitches(Pumped(s, e), t)
    ensures Edges(s, e, t)
  {
    assert s.submitted + [] == s.submitted;
  }

  lemma PumpBeginSame(s: State, e: Event)
    requires e.PumpBegin?
    ensures SameSwitches(Pumped(s, e), AfterPumpBegin(s, e.device, e.configured))
  {
    PumpBeginIs(s, e.device, e.configured);
    hide AfterPumpBegin;
  }

  lemma PumpBeginEdges(s: State, e: Event)
    requires e.PumpBegin?
    ensures Edges(s, e, Next(s, e))
  {
    hide Edges, AfterPumpBegin, Pumped, SameSwitches;
    PumpBeginSame(s, e);
    BegunEdges(s, e, AfterPumpBegin(s, e.device, e.configured));
  }

  lemma ShutdownEdges(s: State, e: Event)
    requires e.MaterialSystemShutdown?
    ensures Edges(s, e, Next(s, e))
  {
    ShutdownIs(s);
    hide AfterShutdown;
  }

  lemma PumpEndEdges(s: State, e: Event)
    requires e.PumpEnd?
    ensures Edges(s, e, Next(s, e))
  {
  }

  lemma BeginFrameEdges(s: State, e: Event)
    requires e.BeginFrame?
    ensures Edges(s, e, Next(s, e))
  {
  }

  lemma InitEdges(s: State, e: Event)
    requires e.MaterialSystemInit?
    ensures Edges(s, e, Next(s, e))
  {
  }

  lemma FrameEndEdges(s: State, e: Event)
    requires e.Frame?
    ensures Edges(s, e, Next(s, e))
  {
    assert Next(s, e) == AfterFrame(s, e.result);
    hide Edges, Next;
    EndedEdges(s, e, AfterFrame(s, e.result));
  }

  lemma InputEventEdges(s: State, e: Event)
    requires e.InputEvent?
    ensures Edges(s, e, Next(s, e))
  {
  }

  lemma PingEdges(s: State, e: Event)
    requires e.PingMessage?
    ensures Edges(s, e, Next(s, e))
  {
  }

  lemma RenderOneSame(s: State)
    requires s.queue != []
    ensures SameSwitches(s, AfterRenderOne(s))
  {
  }

  lemma PresentCallSame(s: State, ours: bool, test: bool)
    ensures SameSwitches(s, AfterPresentCall(s, ours, test))
  {
  }

  lemma PresentReturnSame(s: State, which: nat)
    ensures SameSwitches(s, AfterPresentReturn(s, which))
  {
    if which < |s.presenting| {
      var left, id := Without(s.presenting, which), s.presenting[which];
      assert AfterPresentReturn(s, which) == Emit(s.(presenting := left), PresentEnd, id);
      hide AfterPresentReturn, Without;
      EmitSame(s, left, id);
    }
  }

  lemma EmitSame(s: State, presenting: seq<nat>, id: nat)
    ensures SameSwitches(s, Emit(s.(presenting := presenting), PresentEnd, id))
  {
  }

  lemma RenderEdges(s: State, e: Event)
    requires e.RenderCallback? || e.PresentCall? || e.PresentReturn?
    ensures Edges(s, e, Next(s, e))
  {
    hide Edges, AfterRenderOne, AfterPresentCall, AfterPresentReturn;
    if e.PresentCall? {
      PresentCallSame(s, e.ourSwapChain, e.presentTest);
    } else if e.PresentReturn? {
      PresentReturnSame(s, e.which);
    } else if s.queue != [] {
      RenderOneSame(s);
    }
    assert SameSwitches(s, Next(s, e));
    hide Next, SameSwitches;
    RenderingEdges(s, e, Next(s, e));
  }

  lemma EveryEdge(s: State, e: Event)
    ensures Edges(s, e, Next(s, e))
  {
    hide Edges, Next;
    match e
    case MaterialSystemInit(_, _) => InitEdges(s, e);
    case PumpBegin(_, _) => PumpBeginEdges(s, e);
    case PumpEnd => PumpEndEdges(s, e);
    case Frame(_) => FrameEndEdges(s, e);
    case BeginFrame(_) => BeginFrameEdges(s, e);
    case RenderCallback => RenderEdges(s, e);
    case PresentCall(_, _) => RenderEdges(s, e);
    case PresentReturn(_) => RenderEdges(s, e);
    case InputEvent => InputEventEdges(s, e);
    case PingMessage => PingEdges(s, e);
    case MaterialSystemShutdown => ShutdownEdges(s, e);
  }

  // The order of markers

  // The marker of the same frame that a marker follows
  function Cause(k: Kind): Option<Kind> {
    match k
    case SimulationStart => None
    case SimulationEnd => Some(SimulationStart)
    case RenderSubmitStart => Some(SimulationStart)
    case RenderSubmitEnd => Some(RenderSubmitStart)
    case PresentStart => Some(RenderSubmitEnd)
    case PresentEnd => Some(PresentStart)
    case TriggerFlash => Some(SimulationStart)
    case PcLatencyPing => Some(SimulationStart)
  }

  predicate IsInput(k: Kind) {
    k == TriggerFlash || k == PcLatencyPing
  }

  // Except for input markers, none is set twice for a frame, and ids strictly increase marker kind by marker kind;
  // only the ends of presents come as those return.
  ghost predicate Increasing(t: seq<Marker>) {
    forall i, j | 0 <= i < j < |t| && t[i].kind == t[j].kind && !IsInput(t[i].kind) ::
      if t[i].kind == PresentEnd then t[i].id != t[j].id else t[i].id < t[j].id
  }

  // Every marker comes after its cause, and input markers before the end of their simulation frame.
  ghost predicate Caused(t: seq<Marker>) {
    && (forall i | 0 <= i < |t| && Cause(t[i].kind).Some? :: Marker(Cause(t[i].kind).value, t[i].id) in t[..i])
    && (forall i | 0 <= i < |t| && IsInput(t[i].kind) :: Marker(SimulationEnd, t[i].id) !in t[..i])
  }

  ghost predicate Below(t: seq<Marker>, k: Kind, n: nat) {
    forall i | 0 <= i < |t| && t[i].kind == k :: t[i].id < n
  }

  // The queue is what is left of the ids submitted; `waiting` says the current frame is not among them yet.
  ghost predicate QueueOk(submitted: seq<nat>, queue: seq<nat>, frame: nat, waiting: bool, t: seq<Marker>) {
    && Sorted(submitted)
    && |queue| <= |submitted|
    && queue == submitted[|submitted| - |queue|..]
    && (forall i | 0 <= i < |submitted| :: 0 < submitted[i] <= frame && Marker(SimulationStart, submitted[i]) in t)
    && (waiting ==> frame !in submitted)
    && (forall i | 0 <= i < |queue| :: Below(t, RenderSubmitStart, queue[i]))
    && (forall i | 0 <= i < |t| && t[i].kind == RenderSubmitStart :: t[i].id in submitted)
  }

  ghost predicate SimulationOk(frame: nat, started: bool, t: seq<Marker>) {
    && Below(t, SimulationStart, frame + 1)
    && (started ==> frame > 0 && Marker(SimulationStart, frame) in t && Below(t, SimulationEnd, frame))
  }

  ghost predicate RenderOk(frame: nat, t: seq<Marker>) {
    frame != 0 ==> Marker(RenderSubmitStart, frame) in t && Below(t, RenderSubmitEnd, frame)
  }

  // Presents under way are of different frames, and have started and not ended.
  ghost predicate PresentingOk(presenting: seq<nat>, t: seq<Marker>) {
    && (forall i, j | 0 <= i < j < |presenting| :: presenting[i] != presenting[j])
    && (forall i | 0 <= i < |presenting| ::
          Marker(PresentStart, presenting[i]) in t && Marker(PresentEnd, presenting[i]) !in t)
  }

  // Without a device nothing is under way.
  ghost predicate DeviceOk(s: State) {
    s.device == 0 ==> !s.simulationFrameStarted && s.queue == [] && s.renderFrameID == 0
  }

  ghost predicate Inv(s: State) {
    && Increasing(s.trace) && Caused(s.trace)
    && QueueOk(s.submitted, s.queue, s.simulationFrameID, s.simulationFrameStarted && !s.renderFrameQueued, s.trace)
    && SimulationOk(s.simulationFrameID, s.simulationFrameStarted, s.trace)
    && RenderOk(s.renderFrameID, s.trace) && PresentingOk(s.presenting, s.trace)
    && DeviceOk(s)
  }

  // What follows a cause stays below what the cause stays below.
  lemma CauseBelow(t: seq<Marker>, k: Kind, n: nat)
    requires Caused(t) && Cause(k).Some? && Below(t, Cause(k).value, n)
    ensures Below(t, k, n)
  {
    forall i | 0 <= i < |t| && t[i].kind == k ensures t[i].id < n {
      assert Marker(Cause(k).value, t[i].id) in t[..i];
    }
  }

  lemma EmitIncreasing(t: seq<Marker>, m: Marker)
    requires Increasing(t)
    requires if m.kind == PresentEnd then m !in t else !IsInput(m.kind) ==> Below(t, m.kind, m.id)
    ensures Increasing(t + [m])
  {
    if m.kind == PresentEnd {
      forall i | 0 <= i < |t| && t[i].kind == PresentEnd ensures t[i].id != m.id {
        assert t[i] in t;
      }
    }
  }

  lemma EmitCaused(t: seq<Marker>, m: Marker)
    requires Caused(t)
    requires Cause(m.kind).Some? ==> Marker(Cause(m.kind).value, m.id) in t
    requires IsInput(m.kind) ==> Below(t, SimulationEnd, m.id)
    ensures Caused(t + [m])
  {
    var u := t + [m];
    assert forall i | 0 <= i < |t| :: u[i] == t[i] && u[..i] == t[..i];
    assert u[..|t|] == t;
  }

  lemma EmitOrdered(t: seq<Marker>, m: Marker)
    requires Increasing(t) && Caused(t)
    requires if m.kind == PresentEnd then m !in t else !IsInput(m.kind) ==> Below(t, m.kind, m.id)
    requires Cause(m.kind).Some? ==> Marker(Cause(m.kind).value, m.id) in t
    requires IsInput(m.kind) ==> Below(t, SimulationEnd, m.id)
    ensures Increasing(t + [m]) && Caused(t + [m])
  {
    hide Increasing, Caused, Below;
    EmitIncreasing(t, m);
    EmitCaused(t, m);
  }

  lemma EmitBelow(t: seq<Marker>, m: Marker, k: Kind, n: nat)
    requires Below(t, k, n) && (m.kind == k ==> m.id < n)
    ensures Below(t + [m], k, n)
  {
  }

  // A marker that is no render submission leaves the queue's conditions alone.
  lemma EmitQueueOk(submitted: seq<nat>, queue: seq<nat>, frame: nat, waiting: bool, t: seq<Marker>, m: Marker)
    requires QueueOk(submitted, queue, frame, waiting, t) && m.kind != RenderSubmitStart
    ensures QueueOk(submitted, queue, frame, waiting, t + [m])
  {
    hide Sorted, Below;
    forall i | 0 <= i < |queue| ensures Below(t + [m], RenderSubmitStart, queue[i]) {
      EmitBelow(t, m, RenderSubmitStart, queue[i]);
    }
  }

  lemma EmitSimulationOk(frame: nat, started: bool, t: seq<Marker>, m: Marker)
    requires SimulationOk(frame, started, t) && m.kind != SimulationStart && m.kind != SimulationEnd
    ensures SimulationOk(frame, started, t + [m])
  {
  }

  lemma EmitRenderOk(frame: nat, presenting: seq<nat>, t: seq<Marker>, m: Marker)
    requires RenderOk(frame, t) && PresentingOk(presenting, t)
    requires m.kind != PresentEnd && (m.kind == RenderSubmitEnd ==> frame == 0)
    ensures RenderOk(frame, t + [m]) && PresentingOk(presenting, t + [m])
  {
  }

  lemma PoppedQueueOk(submitted: seq<nat>, queue: seq<nat>, frame: nat, waiting: bool, t: seq<Marker>)
    requires QueueOk(submitted, queue, frame, waiting, t) && queue != []
    ensures QueueOk(submitted, queue[1..], frame, waiting, t)
    ensures var id := queue[0];
            && id > 0 && id in submitted && Marker(SimulationStart, id) in t
            && Below(t, RenderSubmitStart, id)
            && QueueOk(submitted, queue[1..], frame, waiting, t + [Marker(RenderSubmitStart, id)])
  {
    var id := queue[0];
    var at := |submitted| - |queue|;
    assert id == submitted[at];
    forall i | 0 < i < |queue| ensures Below(t + [Marker(RenderSubmitStart, id)], RenderSubmitStart, queue[i]) {
      assert queue[i] == submitted[at + i];
      EmitBelow(t, Marker(RenderSubmitStart, id), RenderSubmitStart, queue[i]);
    }
    hide Sorted, Below;
    assert queue[1..] == submitted[at + 1..];
  }

  lemma RenderOneKeepsInv(s: State)
    requires Inv(s) && s.queue != []
    ensures Inv(AfterRenderOne(s))
  {
    hide Increasing, Caused, Below, QueueOk;
    var id := s.queue[0];
    var m := Marker(RenderSubmitStart, id);
    PoppedQueueOk(s.submitted, s.queue, s.simulationFrameID, s.simulationFrameStarted && !s.renderFrameQueued, s.trace);
    EmitOrdered(s.trace, m);
    EmitSimulationOk(s.simulationFrameID, s.simulationFrameStarted, s.trace, m);
    EmitRenderOk(0, s.presenting, s.trace, m);
    CauseBelow(s.trace, RenderSubmitEnd, id);
    EmitBelow(s.trace, m, RenderSubmitEnd, id);
  }

  // Forgetting the queue, the frame being rendered and the simulation frame, as a flush does.
  lemma ForgetKeepsInv(s: State, t: State)
    requires Inv(s)
    requires t.trace == s.trace && t.submitted == s.submitted && t.presenting == s.presenting
    requires t.queue == [] && t.renderFrameID == 0
    requires t.simulationFrameID == s.simulationFrameID && t.renderFrameQueued == s.renderFrameQueued
    requires t.simulationFrameStarted ==> s.simulationFrameStarted
    requires t.device == 0 ==> !t.simulationFrameStarted
    ensures Inv(t)
  {
    hide Increasing, Caused, Below, Sorted;
    assert s.submitted[|s.submitted|..] == [];
  }

  lemma RunFrameKeepsInv(s: State, device: nat, configured: bool)
    requires Inv(s) && !s.simulationFrameStarted
    ensures var (t, ran) := AfterRunFrame(s, device, configured);
            && Inv(t) && !t.simulationFrameStarted && t.simulationFrameID == s.simulationFrameID
            && t.trace == s.trace && t.presenting == s.presenting && t.submitted == s.submitted
            && (ran ==> t.device != 0)
            && (ran && s.device != device ==> t.queue == [] && t.renderFrameID == 0)
            && (!ran || s.device == device ==> t == s)
  {
    hide Increasing, Caused, Below, Sorted, Flush;
    var (t, ran) := AfterRunFrame(s, device, configured);
    if ran && device != s.device {
      if s.device != 0 {
        DisabledFlushIsSilent(s.(presentMarkersEnabled := false));
      }
      ForgetKeepsInv(s, t);
    }
  }

  lemma PumpBeginKeepsInv(s: State, device: nat, configured: bool)
    requires Inv(s)
    ensures Inv(AfterPumpBegin(s, device, configured))
  {
    hide Increasing, Caused, Below, Sorted, AfterRunFrame;
    if !s.simulationFrameStarted {
      RunFrameKeepsInv(s, device, configured);
      var (t, ran) := AfterRunFrame(s, device, configured);
      if ran {
        StartKeepsInv(t);
      }
    }
  }

  lemma StartKeepsInv(t: State)
    requires Inv(t) && !t.simulationFrameStarted && t.device != 0
    ensures var id := t.simulationFrameID + 1;
            Inv(Emit(t.(simulationFrameID := id, simulationFrameStarted := true, renderFrameQueued := false),
                     SimulationStart, id))
  {
    hide Increasing, Caused, QueueOk, Below, SimulationOk, RenderOk;
    var id := t.simulationFrameID + 1;
    var m := Marker(SimulationStart, id);
    NewFrame(t.submitted, t.queue, t.simulationFrameID, t.trace);
    StartSimulationOk(t.simulationFrameID, t.trace);
    EmitOrdered(t.trace, m);
    EmitQueueOk(t.submitted, t.queue, id, true, t.trace, m);
    EmitRenderOk(t.renderFrameID, t.presenting, t.trace, m);
  }

  lemma NewFrame(submitted: seq<nat>, queue: seq<nat>, frame: nat, t: seq<Marker>)
    requires QueueOk(submitted, queue, frame, false, t)
    ensures QueueOk(submitted, queue, frame + 1, true, t)
  {
    hide Sorted, Below;
  }

  lemma StartSimulationOk(frame: nat, t: seq<Marker>)
    requires SimulationOk(frame, false, t) && Caused(t)
    ensures Below(t, SimulationStart, frame + 1)
    ensures SimulationOk(frame + 1, true, t + [Marker(SimulationStart, frame + 1)])
  {
    CauseBelow(t, SimulationEnd, frame + 1);
  }

  lemma InputOrdered(s: State, kind: Kind)
    requires Inv(s) && s.simulationFrameStarted && IsInput(kind)
    ensures var t := s.trace + [Marker(kind, s.simulationFrameID)]; Increasing(t) && Caused(t)
  {
    hide Increasing, Caused, Below, QueueOk, RenderOk, PresentingOk;
    EmitOrdered(s.trace, Marker(kind, s.simulationFrameID));
  }

  lemma InputKeepsInv(s: State, kind: Kind)
    requires Inv(s) && s.simulationFrameStarted && IsInput(kind)
    ensures Inv(Emit(s, kind, s.simulationFrameID))
  {
    hide Increasing, Caused, Below, QueueOk, RenderOk, PresentingOk, SimulationOk, Cause;
    var m := Marker(kind, s.simulationFrameID);
    var t := Emit(s, kind, s.simulationFrameID);
    InputOrdered(s, kind);
    EmitQueueOk(s.submitted, s.queue, s.simulationFrameID, s.simulationFrameStarted && !s.renderFrameQueued,
                s.trace, m);
    EmitSimulationOk(s.simulationFrameID, s.simulationFrameStarted, s.trace, m);
    EmitRenderOk(s.renderFrameID, s.presenting, s.trace, m);
    assert t.trace == s.trace + [m];
    hide Emit;
    assert DeviceOk(t);
  }

  // The fields the invariant does not mention
  lemma OtherFields(s: State, t: State)
    requires Inv(s)
    requires t.trace == s.trace && t.submitted == s.submitted && t.presenting == s.presenting
    requires t.queue == s.queue && t.renderFrameID == s.renderFrameID && t.device == s.device
    requires t.simulationFrameID == s.simulationFrameID && t.renderFrameQueued == s.renderFrameQueued
    requires t.simulationFrameStarted == s.simulationFrameStarted
    ensures Inv(t)
  {
    hide Increasing, Caused, Below, Sorted;
  }

  lemma PumpEndKeepsInv(s: State)
    requires Inv(s)
    ensures Inv(AfterPumpEnd(s))
  {
    hide Inv;
    if s.simulationFrameStarted {
      if s.pendingFlash {
        InputKeepsInv(s, TriggerFlash);
      }
      var t := if s.pendingFlash then Emit(s, TriggerFlash, s.simulationFrameID) else s;
      if s.pendingPing {
        InputKeepsInv(t, PcLatencyPing);
      }
      OtherFields(if s.pendingPing then Emit(t, PcLatencyPing, s.simulationFrameID) else t, AfterPumpEnd(s));
    }
  }

  lemma FrameKeepsInv(s: State, result: bool)
    requires Inv(s)
    ensures Inv(AfterFrame(s, result))
  {
    hide Increasing, Caused, Below, QueueOk;
    if result && s.simulationFrameStarted {
      var m := Marker(SimulationEnd, s.simulationFrameID);
      EmitOrdered(s.trace, m);
      NotWaiting(s.submitted, s.queue, s.simulationFrameID, s.simulationFrameStarted && !s.renderFrameQueued, s.trace);
      EmitQueueOk(s.submitted, s.queue, s.simulationFrameID, false, s.trace, m);
      EmitRenderOk(s.renderFrameID, s.presenting, s.trace, m);
      EmitBelow(s.trace, m, SimulationStart, s.simulationFrameID + 1);
    }
  }

  lemma NotWaiting(submitted: seq<nat>, queue: seq<nat>, frame: nat, waiting: bool, t: seq<Marker>)
    requires QueueOk(submitted, queue, frame, waiting, t)
    ensures QueueOk(submitted, queue, frame, false, t)
  {
  }

  lemma BeginFrameKeepsInv(s: State, dispatched: Option<bool>)
    requires Inv(s)
    ensures Inv(AfterBeginFrame(s, dispatched))
  {
    hide Increasing, Caused, Below, QueueOk;
    if s.simulationFrameStarted && !s.renderFrameQueued {
      SubmitKeepsQueueOk(s.submitted, s.queue, s.simulationFrameID, s.trace);
    }
  }

  lemma SubmitKeepsQueueOk(submitted: seq<nat>, queue: seq<nat>, frame: nat, t: seq<Marker>)
    requires QueueOk(submitted, queue, frame, true, t) && SimulationOk(frame, true, t)
    ensures QueueOk(submitted + [frame], queue + [frame], frame, false, t)
  {
    assert forall i | 0 <= i < |submitted| :: submitted[i] < frame;
    assert Below(t, RenderSubmitStart, frame);
    hide Below;
    var all := submitted + [frame];
    var left := queue + [frame];
    assert left == all[|all| - |left|..];
  }

  lemma SubmitEndKeepsInv(s: State)
    requires Inv(s) && s.renderFrameID != 0
    ensures var id := s.renderFrameID;
            var t := Emit(s.(renderFrameID := 0), RenderSubmitEnd, id);
            && Inv(t) && Marker(RenderSubmitEnd, id) in t.trace && Below(t.trace, PresentStart, id)
  {
    hide Increasing, Caused, Below, QueueOk, PresentingOk;
    var id := s.renderFrameID;
    var m := Marker(RenderSubmitEnd, id);
    CauseBelow(s.trace, PresentStart, id);
    EmitBelow(s.trace, m, PresentStart, id);
    EmitOrdered(s.trace, m);
    EmitQueueOk(s.submitted, s.queue, s.simulationFrameID, s.simulationFrameStarted && !s.renderFrameQueued,
                s.trace, m);
    EmitSimulationOk(s.simulationFrameID, s.simulationFrameStarted, s.trace, m);
    EmitRenderOk(0, s.presenting, s.trace, m);
  }

  lemma PresentStartIsNew(presenting: seq<nat>, t: seq<Marker>, id: nat)
    requires PresentingOk(presenting, t) && Caused(t) && Below(t, PresentStart, id)
    ensures PresentingOk(presenting + [id], t + [Marker(PresentStart, id)])
  {
    CauseBelow(t, PresentEnd, id);
    forall i | 0 <= i < |presenting| ensures presenting[i] < id {
      assert Marker(PresentStart, presenting[i]) in t;
    }
  }

  lemma EmitRenderFrame(frame: nat, t: seq<Marker>, m: Marker)
    requires RenderOk(frame, t) && m.kind != RenderSubmitEnd
    ensures RenderOk(frame, t + [m])
  {
  }

  lemma PresentStartKeepsInv(s: State, id: nat)
    requires Inv(s) && Marker(RenderSubmitEnd, id) in s.trace && Below(s.trace, PresentStart, id)
    ensures Inv(Emit(s.(presenting := s.presenting + [id]), PresentStart, id))
  {
    hide Increasing, Caused, Below, QueueOk, SimulationOk, RenderOk, PresentingOk;
    var m := Marker(PresentStart, id);
    EmitOrdered(s.trace, m);
    EmitQueueOk(s.submitted, s.queue, s.simulationFrameID, s.simulationFrameStarted && !s.renderFrameQueued,
                s.trace, m);
    EmitSimulationOk(s.simulationFrameID, s.simulationFrameStarted, s.trace, m);
    EmitRenderFrame(s.renderFrameID, s.trace, m);
    PresentStartIsNew(s.presenting, s.trace, id);
  }

  lemma PresentCallKeepsInv(s: State, ourSwapChain: bool, presentTest: bool)
    requires Inv(s)
    ensures Inv(AfterPresentCall(s, ourSwapChain, presentTest))
  {
    hide Inv, Below;
    if AfterPresentCall(s, ourSwapChain, presentTest) != s {
      var id := s.renderFrameID;
      SubmitEndKeepsInv(s);
      PresentStartKeepsInv(Emit(s.(renderFrameID := 0), RenderSubmitEnd, id), id);
    }
  }

  lemma PresentReturnKeepsInv(s: State, which: nat)
    requires Inv(s)
    ensures Inv(AfterPresentReturn(s, which))
  {
    hide Increasing, Caused, Below, QueueOk, SimulationOk, RenderOk, Without;
    if which < |s.presenting| {
      var m := Marker(PresentEnd, s.presenting[which]);
      EmitOrdered(s.trace, m);
      PresentEndIsLast(s.presenting, s.trace, which);
      hide PresentingOk;
      EmitQueueOk(s.submitted, s.queue, s.simulationFrameID, s.simulationFrameStarted && !s.renderFrameQueued,
                  s.trace, m);
      EmitSimulationOk(s.simulationFrameID, s.simulationFrameStarted, s.trace, m);
      EmitRenderFrame(s.renderFrameID, s.trace, m);
    }
  }

  lemma PresentEndIsLast(presenting: seq<nat>, t: seq<Marker>, which: nat)
    requires PresentingOk(presenting, t) && which < |presenting|
    ensures PresentingOk(Without(presenting, which), t + [Marker(PresentEnd, presenting[which])])
  {
    var rest := Without(presenting, which);
    assert forall i | 0 <= i < |rest| :: rest[i] == presenting[if i < which then i else i + 1];
  }

  lemma ShutdownKeepsInv(s: State)
    requires Inv(s)
    ensures Inv(AfterShutdown(s))
    ensures var t := AfterShutdown(s);
            && t.trace == s.trace && t.queue == [] && t.renderFrameID == 0 && !t.simulationFrameStarted
            && t.simulationFrameID == s.simulationFrameID && !t.presentMarkersEnabled && t.device == 0
  {
    hide Increasing, Caused, Below, Sorted, Flush;
    DisabledFlushIsSilent(AfterStop(s));
    ForgetKeepsInv(s, AfterShutdown(s));
  }

  lemma StepKeepsInv(s: State, e: Event)
    requires Inv(s)
    ensures Inv(Next(s, e))
  {
    hide Inv, AfterPumpBegin, AfterPumpEnd, AfterFrame, AfterBeginFrame, AfterPresentCall, AfterPresentReturn,
         AfterShutdown, AfterRenderOne;
    match e
    case MaterialSystemInit(disabled, ok) => OtherFields(s, Next(s, e));
    case PumpBegin(device, configured) => PumpBeginKeepsInv(s, device, configured);
    case PumpEnd => PumpEndKeepsInv(s);
    case Frame(result) => FrameKeepsInv(s, result);
    case BeginFrame(dispatched) => BeginFrameKeepsInv(s, dispatched);
    case RenderCallback => if s.queue != [] { RenderOneKeepsInv(s); }
    case PresentCall(ours, test) => PresentCallKeepsInv(s, ours, test);
    case PresentReturn(which) => PresentReturnKeepsInv(s, which);
    case InputEvent => OtherFields(s, Next(s, e));
    case PingMessage => OtherFields(s, Next(s, e));
    case MaterialSystemShutdown => ShutdownKeepsInv(s);
  }

  lemma {:induction false} RunKeepsInv(s: State, events: seq<Event>)
    requires Inv(s)
    ensures Inv(Run(s, events))
    decreases |events|
  {
    hide Inv, Next;
    if events != [] {
      StepKeepsInv(s, events[0]);
      RunKeepsInv(Next(s, events[0]), events[1..]);
    }
  }

  /**
    Over every run of the hooks, however the threads interleave: every marker but the input ones is set at most
    once for a frame, in the order of frames (the ends of presents as those return); every marker follows its cause
    of the same frame; input markers come inside their simulation frame; and no frame is given to the render thread
    twice.
   */
  lemma EveryRunIsOrdered(events: seq<Event>)
    ensures var s := Run(INITIAL, events); Increasing(s.trace) && Caused(s.trace) && Sorted(s.submitted)
  {
    RunKeepsInv(INITIAL, events);
    hide Increasing, Caused, Sorted, Below, Run;
  }

  // Frames that a shutdown or a change of device leaves behind

  // Nothing under way is of a frame up to `last`.
  ghost predicate Forgotten(s: State, last: nat) {
    && last <= s.simulationFrameID
    && (forall i | 0 <= i < |s.queue| :: s.queue[i] > last)
    && (s.renderFrameID == 0 || s.renderFrameID > last)
    && (s.simulationFrameStarted && !s.renderFrameQueued ==> s.simulationFrameID > last)
  }

  predicate IsRender(k: Kind) {
    k == RenderSubmitStart || k == RenderSubmitEnd || k == PresentStart
  }

  ghost predicate OnlyLater(t: seq<Marker>, last: nat) {
    forall i | 0 <= i < |t| && IsRender(t[i].kind) :: t[i].id > last
  }

  lemma OnlyLaterConcat(a: seq<Marker>, b: seq<Marker>, last: nat)
    requires OnlyLater(a, last) && OnlyLater(b, last)
    ensures OnlyLater(a + b, last)
  {
  }

  // From s to t only markers of later frames were set, and t still has nothing under way of earlier ones.
  ghost predicate Follows(s: State, t: State, last: nat) {
    s.trace <= t.trace && OnlyLater(t.trace[|s.trace|..], last) && Forgotten(t, last)
  }

  lemma SilentFollows(s: State, t: State, last: nat)
    requires t.trace == s.trace && Forgotten(t, last)
    ensures Follows(s, t, last)
  {
    hide Forgotten;
  }

  lemma EmitFollows(s: State, t: State, u: State, m: Marker, last: nat)
    requires Follows(s, t, last) && u.trace == t.trace + [m] && Forgotten(u, last)
    requires IsRender(m.kind) ==> m.id > last
    ensures Follows(s, u, last)
  {
    hide Forgotten;
    assert u.trace[|s.trace|..] == t.trace[|s.trace|..] + [m];
  }

  lemma FollowsTransitive(s: State, t: State, u: State, last: nat)
    requires Follows(s, t, last) && Follows(t, u, last)
    ensures Follows(s, u, last)
  {
    hide Forgotten;
    OnlyLaterConcat(t.trace[|s.trace|..], u.trace[|t.trace|..], last);
    assert u.trace[|s.trace|..] == t.trace[|s.trace|..] + u.trace[|t.trace|..];
  }

  lemma RenderOneForgets(s: State, last: nat)
    requires Forgotten(s, last) && s.queue != []
    ensures Follows(s, AfterRenderOne(s), last)
  {
    hide Follows;
    var popped := s.(queue := s.queue[1..]);
    SilentFollows(s, popped, last);
    if s.presentMarkersEnabled {
      EmitFollows(s, popped, AfterRenderOne(s), Marker(RenderSubmitStart, s.queue[0]), last);
    }
  }

  lemma {:induction false} FlushForgets(s: State, last: nat)
    requires Forgotten(s, last)
    ensures Follows(s, Flush(s), last)
    decreases |s.queue|
  {
    hide Follows, Forgotten;
    if s.queue == [] {
      SilentFollows(s, s, last);
    } else {
      RenderOneForgets(s, last);
      assert Forgotten(AfterRenderOne(s), last) by { FollowsForgotten(s, AfterRenderOne(s), last); }
      FlushForgets(AfterRenderOne(s), last);
      FollowsTransitive(s, AfterRenderOne(s), Flush(s), last);
    }
  }

  lemma FollowsForgotten(s: State, t: State, last: nat)
    requires Follows(s, t, last)
    ensures Forgotten(t, last) && s.trace <= t.trace && OnlyLater(t.trace[|s.trace|..], last)
  {
    hide Forgotten, OnlyLater;
  }

  lemma RunFrameForgets(s: State, last: nat, device: nat, configured: bool)
    requires Forgotten(s, last)
    ensures Follows(s, AfterRunFrame(s, device, configured).0, last)
  {
    hide Follows, Flush;
    var t := AfterRunFrame(s, device, configured).0;
    if t == s {
      SilentFollows(s, t, last);
    } else if s.device == 0 || s.device == device {
      SilentFollows(s, t, last);
    } else {
      var quiet := s.(presentMarkersEnabled := false);
      SilentFollows(s, quiet, last);
      FlushForgets(quiet, last);
      FollowsTransitive(s, quiet, Flush(quiet), last);
      FollowsForgotten(quiet, Flush(quiet), last);
      SilentFollows(Flush(quiet), t, last);
      FollowsTransitive(s, Flush(quiet), t, last);
    }
  }

  lemma PumpBeginForgets(s: State, last: nat, device: nat, configured: bool)
    requires Forgotten(s, last)
    ensures Follows(s, AfterPumpBegin(s, device, configured), last)
  {
    hide Follows, AfterRunFrame;
    if s.simulationFrameStarted {
      SilentFollows(s, s, last);
    } else {
      var (t, ran) := AfterRunFrame(s, device, configured);
      RunFrameForgets(s, last, device, configured);
      FollowsForgotten(s, t, last);
      if ran {
        EmitFollows(s, t, AfterPumpBegin(s, device, configured), Marker(SimulationStart, t.simulationFrameID + 1),
            last);
      }
    }
  }

  lemma PumpEndForgets(s: State, last: nat)
    requires Forgotten(s, last)
    ensures Follows(s, AfterPumpEnd(s), last)
  {
    hide Follows;
    SilentFollows(s, s, last);
    if s.simulationFrameStarted {
      var id := s.simulationFrameID;
      var t := if s.pendingFlash then Emit(s, TriggerFlash, id) else s;
      if s.pendingFlash {
        EmitFollows(s, s, t, Marker(TriggerFlash, id), last);
      }
      var u := if s.pendingPing then Emit(t, PcLatencyPing, id) else t;
      if s.pendingPing {
        EmitFollows(s, t, u, Marker(PcLatencyPing, id), last);
      }
      SilentFollows(u, AfterPumpEnd(s), last);
      FollowsTransitive(s, u, AfterPumpEnd(s), last);
    }
  }

  lemma FrameForgets(s: State, last: nat, result: bool)
    requires Forgotten(s, last)
    ensures Follows(s, AfterFrame(s, result), last)
  {
    hide Follows;
    SilentFollows(s, s, last);
    if result && s.simulationFrameStarted {
      EmitFollows(s, s, AfterFrame(s, result), Marker(SimulationEnd, s.simulationFrameID), last);
    }
  }

  lemma BeginFrameForgets(s: State, last: nat, dispatched: Option<bool>)
    requires Forgotten(s, last)
    ensures Follows(s, AfterBeginFrame(s, dispatched), last)
  {
    hide Follows;
    SilentFollows(s, AfterBeginFrame(s, dispatched), last);
  }

  lemma PresentCallForgets(s: State, last: nat, ours: bool, test: bool)
    requires Forgotten(s, last)
    ensures Follows(s, AfterPresentCall(s, ours, test), last)
  {
    hide Follows;
    SilentFollows(s, s, last);
    if AfterPresentCall(s, ours, test) != s {
      var id := s.renderFrameID;
      var t := Emit(s.(renderFrameID := 0, presenting := s.presenting + [id]), RenderSubmitEnd, id);
      EmitFollows(s, s, t, Marker(RenderSubmitEnd, id), last);
      EmitFollows(s, t, AfterPresentCall(s, ours, test), Marker(PresentStart, id), last);
    }
  }

  lemma PresentReturnForgets(s: State, last: nat, which: nat)
    requires Forgotten(s, last)
    ensures Follows(s, AfterPresentReturn(s, which), last)
  {
    hide Follows, Without;
    SilentFollows(s, s, last);
    if which < |s.presenting| {
      EmitFollows(s, s, AfterPresentReturn(s, which), Marker(PresentEnd, s.presenting[which]), last);
    }
  }

  lemma ShutdownForgets(s: State, last: nat)
    requires Forgotten(s, last)
    ensures Follows(s, AfterShutdown(s), last)
  {
    hide Follows, Flush;
    var t := AfterStop(s);
    SilentFollows(s, t, last);
    FlushForgets(t, last);
    FollowsTransitive(s, t, Flush(t), last);
    FollowsForgotten(t, Flush(t), last);
    var u := if s.device != 0 then Flush(t) else t;
    SilentFollows(u, AfterShutdown(s), last);
    FollowsTransitive(s, u, AfterShutdown(s), last);
  }

  lemma StepForgets(s: State, last: nat, e: Event)
    requires Forgotten(s, last)
    ensures Follows(s, Next(s, e), last)
  {
    hide AfterPumpBegin, AfterShutdown, AfterPumpEnd, AfterFrame, AfterBeginFrame, AfterRenderOne, AfterPresentReturn,
         AfterPresentCall, Follows;
    match e
    case MaterialSystemInit(disabled, ok) => SilentFollows(s, Next(s, e), last);
    case PumpBegin(device, configured) => PumpBeginForgets(s, last, device, configured);
    case PumpEnd => PumpEndForgets(s, last);
    case Frame(result) => FrameForgets(s, last, result);
    case BeginFrame(dispatched) => BeginFrameForgets(s, last, dispatched);
    case RenderCallback => if s.queue != [] { RenderOneForgets(s, last); } else { SilentFollows(s, s, last); }
    case PresentCall(ours, test) => PresentCallForgets(s, last, ours, test);
    case PresentReturn(which) => PresentReturnForgets(s, last, which);
    case InputEvent => SilentFollows(s, Next(s, e), last);
    case PingMessage => SilentFollows(s, Next(s, e), last);
    case MaterialSystemShutdown => ShutdownForgets(s, last);
  }

  lemma {:induction false} RunForgets(s: State, last: nat, events: seq<Event>)
    requires Forgotten(s, last)
    ensures Follows(s, Run(s, events), last)
    decreases |events|
  {
    hide Next, Forgotten, Follows;
    if events == [] {
      SilentFollows(s, s, last);
    } else {
      var t := Next(s, events[0]);
      StepForgets(s, last, events[0]);
      FollowsForgotten(s, t, last);
      RunForgets(t, last, events[1..]);
      FollowsTransitive(s, t, Run(s, events), last);
    }
  }

  /**
    A shutdown, or a frame begun on another device, leaves no trace of earlier frames: whatever runs afterwards,
    no render submission or present starts for a frame from before it.
   */
  lemma FlushedFramesStayFlushed(before: seq<Event>, e: Event, after: seq<Event>)
    ensures var s := Run(INITIAL, before);
            var t := Next(s, e);
            e.MaterialSystemShutdown? || (e.PumpBegin? && t.device != s.device) ==>
              && t.trace <= Run(t, after).trace
              && OnlyLater(Run(t, after).trace[|t.trace|..], s.simulationFrameID)
  {
    var s := Run(INITIAL, before);
    RunKeepsInv(INITIAL, before);
    hide Run, Inv, Next, Forgotten, Follows;
    if e.MaterialSystemShutdown? || (e.PumpBegin? && Next(s, e).device != s.device) {
      FlushForgetsFrames(s, e);
      RunForgets(Next(s, e), s.simulationFrameID, after);
      FollowsForgotten(Next(s, e), Run(Next(s, e), after), s.simulationFrameID);
    }
  }

  lemma FlushForgetsFrames(s: State, e: Event)
    requires Inv(s) && (e.MaterialSystemShutdown? || (e.PumpBegin? && Next(s, e).device != s.device))
    ensures Forgotten(Next(s, e), s.simulationFrameID)
  {
    if e.MaterialSystemShutdown? {
      hide Increasing, Caused, Below, QueueOk, RenderOk, OnlyLater, Flush, AfterPumpBegin;
      ShutdownKeepsInv(s);
    } else {
      hide Increasing, Caused, Below, QueueOk, RenderOk, OnlyLater, Flush, AfterShutdown;
      RunFrameKeepsInv(s, e.device, e.configured);
    }
  }

  // An undisturbed frame gets every marker, in this order: it begins and is queued,

  lemma FrameBegins(s: State, dispatched: Option<bool>)
    requires s.useLowLatency && s.materialSystemInitialized && s.device != 0
    requires !s.simulationFrameStarted && s.queue == [] && !s.pendingFlash && !s.pendingPing
    requires s.presentHookInstalled || dispatched == Some(true)
    ensures var id := s.simulationFrameID + 1;
            var t := AfterBeginFrame(AfterPumpEnd(AfterPumpBegin(s, s.device, true)), dispatched);
            && t.trace == s.trace + [Marker(SimulationStart, id)]
            && t.queue == [id] && t.simulationFrameID == id && t.simulationFrameStarted
            && t.presentMarkersEnabled && t.presenting == s.presenting
  {
    var t := AfterPumpBegin(s, s.device, true);
    assert t.simulationFrameStarted && t.trace == s.trace + [Marker(SimulationStart, s.simulationFrameID + 1)];
    assert AfterPumpEnd(t) == t;
    hide AfterPumpEnd, AfterPumpBegin;
  }

  // is then submitted and presented,
  lemma FrameSubmits(t: State)
    requires t.simulationFrameStarted && t.simulationFrameID != 0 && t.queue == [t.simulationFrameID]
    requires t.presentMarkersEnabled && t.presenting == []
    ensures var id := t.simulationFrameID;
            var v := AfterPresentCall(AfterRenderOne(t), true, false);
            && v.trace == t.trace + [Marker(RenderSubmitStart, id), Marker(RenderSubmitEnd, id),
                                     Marker(PresentStart, id)]
            && v.presenting == [id] && v.simulationFrameID == id && v.simulationFrameStarted
  {
    var id := t.simulationFrameID;
    var u := AfterRenderOne(t);
    assert u.trace == t.trace + [Marker(RenderSubmitStart, id)] && u.renderFrameID == id && u.simulationFrameID == id;
    hide AfterRenderOne;
  }

  // before the present returns and the frame ends.
  lemma FramePresents(v: State, id: nat)
    requires v.simulationFrameStarted && v.simulationFrameID == id && v.presenting == [id]
    ensures AfterFrame(AfterPresentReturn(v, 0), true).trace
         == v.trace + [Marker(PresentEnd, id), Marker(SimulationEnd, id)]
  {
  }

  // The globals of the file and the hooks that update them, each tied to its event.
  class Globals {
    var useLowLatency: bool
    var materialSystemInitialized: bool
    var presentHookInstalled: bool
    var presentMarkersEnabled: bool
    var statsAvailable: bool
    var device: nat
    var simulationFrameID: nat
    var simulationFrameStarted: bool
    var renderFrameQueued: bool
    var renderFrameID: nat
    var pendingFlash: bool
    var pendingPing: bool
    var queue: seq<nat>
    var presenting: seq<nat>
    ghost var submitted: seq<nat>
    ghost var trace: seq<Marker>

    ghost function Model(): State
      reads this
    {
      State(useLowLatency, materialSystemInitialized, presentHookInstalled, presentMarkersEnabled, statsAvailable,
            device, simulationFrameID, simulationFrameStarted, renderFrameQueued, renderFrameID, pendingFlash,
            pendingPing, queue, submitted, presenting, trace)
    }

    constructor ()
      ensures Model() == INITIAL
      ensures !useLowLatency && !materialSystemInitialized && !presentHookInstalled && !presentMarkersEnabled
      ensures !statsAvailable && !simulationFrameStarted && !renderFrameQueued && !pendingFlash && !pendingPing
      ensures device == simulationFrameID == renderFrameID == 0 && queue == presenting == [] && trace == []
    {
      useLowLatency, materialSystemInitialized, presentHookInstalled := false, false, false;
      presentMarkersEnabled, statsAvailable, device := false, false, 0;
      simulationFrameID, simulationFrameStarted, renderFrameQueued, renderFrameID := 0, false, false, 0;
      pendingFlash, pendingPing, queue, presenting := false, false, [], [];
      submitted, trace := [], [];
    }

    method SetLatencyMarker(kind: Kind, id: nat)
      modifies this`trace
      ensures trace == old(trace) + [Marker(kind, id)]
    {
      trace := trace + [Marker(kind, id)];
    }

    method BeginRenderFrame(id: nat)
      modifies this`renderFrameID, this`trace
      ensures Model() == AfterRenderFrame(old(Model()), id)
    {
      if presentMarkersEnabled {
        renderFrameID := id;
        SetLatencyMarker(RenderSubmitStart, id);
      }
    }

    // The render thread takes the next callback.
    method RenderOne()
      requires queue != []
      modifies this`queue, this`renderFrameID, this`trace
      ensures Model() == AfterRenderOne(old(Model())) && queue == old(queue)[1..]
    {
      var id := queue[0];
      queue := queue[1..];
      BeginRenderFrame(id);
    }

    method FlushRenderCommands()
      modifies this`queue, this`renderFrameID, this`trace
      ensures Model() == Flush(old(Model()))
    {
      hide AfterRenderOne;
      while queue != []
        invariant Flush(Model()) == Flush(old(Model()))
        decreases |queue|
      {
        RenderOne();
      }
    }

    method FlushAndForget()
      modifies this`queue, this`renderFrameID, this`trace
      ensures Model() == Flush(old(Model())).(renderFrameID := 0)
    {
      hide Flush;
      FlushRenderCommands();
      renderFrameID := 0;
    }

    method ChangeDevice(currentDevice: nat)
      modifies this`presentMarkersEnabled, this`queue, this`renderFrameID, this`trace, this`device
      ensures var flushed := if old(device) == 0 then old(Model())
                             else Flush(old(Model()).(presentMarkersEnabled := false)).(renderFrameID := 0);
              Model() == flushed.(device := currentDevice)
    {
      hide Flush;
      if device == 0 {
        device := currentDevice;
      } else {
        presentMarkersEnabled := false;
        assert Model() == old(Model()).(presentMarkersEnabled := false);
        FlushAndForget();
        ghost var flushed := Model();
        device := currentDevice;
        assert Model() == flushed.(device := currentDevice);
      }
    }

    method RunFrame(currentDevice: nat, configured: bool) returns (ran: bool)
      modifies this`presentMarkersEnabled, this`queue, this`renderFrameID, this`trace, this`device
      ensures (Model(), ran) == AfterRunFrame(old(Model()), currentDevice, configured)
    {
      hide Flush;
      if !useLowLatency || !materialSystemInitialized || !configured {
        return false;
      }
      if currentDevice == 0 {
        return false;
      }
      if currentDevice != device {
        ChangeDevice(currentDevice);
      }
      ran := true;
    }

    method StartFrame()
      modifies this`simulationFrameID, this`simulationFrameStarted, this`renderFrameQueued, this`trace
      ensures var id := old(simulationFrameID) + 1;
              Model() == Emit(old(Model()).(simulationFrameID := id, simulationFrameStarted := true,
                                            renderFrameQueued := false), SimulationStart, id)
    {
      simulationFrameID := simulationFrameID + 1;
      simulationFrameStarted := true;
      renderFrameQueued := false;
      SetLatencyMarker(SimulationStart, simulationFrameID);
    }

    // CEngineAPI__PumpMessages up to its original
    method PumpBegin(currentDevice: nat, configured: bool)
      modifies this
      ensures Model() == AfterPumpBegin(old(Model()), currentDevice, configured)
    {
      hide AfterRunFrame;
      if !simulationFrameStarted {
        var ran := RunFrame(currentDevice, configured);
        if ran {
          StartFrame();
        }
      }
    }

    // CEngineAPI__PumpMessages after its original
    method PumpEnd()
      modifies this
      ensures Model() == AfterPumpEnd(old(Model()))
    {
      if simulationFrameStarted {
        var flash, ping := pendingFlash, pendingPing;
        pendingFlash, pendingPing := false, false;
        if flash {
          SetLatencyMarker(TriggerFlash, simulationFrameID);
        }
        if ping {
          SetLatencyMarker(PcLatencyPing, simulationFrameID);
        }
      }
    }

    method Frame(result: bool)
      modifies this
      ensures Model() == AfterFrame(old(Model()), result)
    {
      if result && simulationFrameStarted {
        SetLatencyMarker(SimulationEnd, simulationFrameID);
        simulationFrameStarted := false;
      }
    }

    method InstallPresentHook(dispatched: Option<bool>)
      modifies this`presentHookInstalled, this`presentMarkersEnabled
      ensures Model() == AfterInstallPresentHook(old(Model()), dispatched)
    {
      if presentHookInstalled {
        presentMarkersEnabled := true;
        return;
      }
      if dispatched.None? {
        return;
      }
      presentHookInstalled := dispatched.value;
      presentMarkersEnabled := presentHookInstalled;
    }

    method BeginFrame(dispatched: Option<bool>)
      modifies this
      ensures Model() == AfterBeginFrame(old(Model()), dispatched)
    {
      if simulationFrameStarted && !renderFrameQueued {
        InstallPresentHook(dispatched);
        renderFrameQueued := true;
        queue := queue + [simulationFrameID];
        submitted := submitted + [simulationFrameID];
      }
    }

    // IDXGISwapChain__Present up to its original
    method PresentCall(ourSwapChain: bool, presentTest: bool)
      modifies this
      ensures Model() == AfterPresentCall(old(Model()), ourSwapChain, presentTest)
    {
      if !presentMarkersEnabled || renderFrameID == 0 || !ourSwapChain || presentTest {
        return;
      }
      var id := renderFrameID;
      renderFrameID := 0;
      presenting := presenting + [id];
      SetLatencyMarker(RenderSubmitEnd, id);
      SetLatencyMarker(PresentStart, id);
    }

    // IDXGISwapChain__Present after its original, for one of the calls inside it
    method PresentReturn(which: nat)
      modifies this
      ensures Model() == AfterPresentReturn(old(Model()), which)
    {
      if which < |presenting| {
        SetLatencyMarker(PresentEnd, presenting[which]);
        presenting := Without(presenting, which);
      }
    }

    method MarkInputEvent()
      modifies this`pendingFlash
      ensures Model() == Next(old(Model()), InputEvent)
    {
      if statsAvailable {
        pendingFlash := true;
      }
    }

    // CInputSystem__WindowProc on a ping message
    method WindowProc()
      modifies this`pendingPing
      ensures Model() == Next(old(Model()), PingMessage)
    {
      if statsAvailable {
        pendingPing := true;
      }
    }

    method MaterialSystemInit(disabled: bool, ok: bool)
      modifies this
      ensures Model() == AfterInit(old(Model()), disabled, ok)
    {
      useLowLatency := !disabled;
      materialSystemInitialized := ok;
      if useLowLatency && materialSystemInitialized {
        statsAvailable := true;
      }
    }

    method ReleaseDevice()
      modifies this`queue, this`renderFrameID, this`trace, this`device
      ensures Model() == AfterDeviceRelease(old(Model()))
    {
      hide Flush;
      if device != 0 {
        FlushAndForget();
        ghost var flushed := Model();
        device := 0;
        assert Model() == flushed.(device := 0);
      }
    }

    method StopMarkers()
      modifies this`presentMarkersEnabled, this`materialSystemInitialized, this`simulationFrameStarted,
               this`pendingFlash, this`pendingPing
      ensures Model() == AfterStop(old(Model()))
    {
      presentMarkersEnabled := false;
      materialSystemInitialized := false;
      simulationFrameStarted := false;
      pendingFlash, pendingPing := false, false;
    }

    method MaterialSystemShutdown()
      modifies this
      ensures Model() == AfterShutdown(old(Model()))
    {
      hide AfterDeviceRelease, AfterStop;
      StopMarkers();
      ReleaseDevice();
      statsAvailable := false;
    }
  }
}
