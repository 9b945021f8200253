/** The command mailbox: thirty-two slots shared by an external writer, the user-interface owner that
    serves them, the source threads whose hooks record what the application did, and the consumer
    that seals and reclaims them.

    Every actor is a small program whose `Move` performs one atomic access and may be scheduled at any
    time.  One hook program stands for each lane: a lane has one live thread (`LanesAreExclusive` in
    module AdmissionClose).  The owner is alone by its guard, the writer by the external gate. */
module Mailbox {
  import opened Requests

  const SLOTS: nat := 32
  const LANES: nat := 8
  const EVENTS: nat := 128
  const LAST_SEQUENCE: nat := 0xFFFF_FFFE

  // ---------------------------------------------------------------- shared words

  datatype EventKind =
    | Attempt | Returning | OwnerBegin | OwnerEnd | Queue | Body | Commit | OtherCommit | Done

  datatype Event = Event(kind: EventKind, request: nat, capture: nat, bits: nat)

  /** One lane's evidence for one slot; `sequence` names the request it belongs to. */
  datatype Log = Log(sequence: nat, events: seq<Event>)

  datatype Slot = Slot(
    request: Request,
    published: nat, processed: nat, rejected: nat, dispatched: nat, returned: nat,
    done: nat, sealed: nat, settled: nat, reclaimed: nat,
    active: nat,                       // active_request
    accepted: Request, program: nat,   // what the owner admitted, for the hooks to match
    started: nat,                      // native_started
    raised: nat,                       // history: the last request ever made active here
    logs: seq<Log>)

  /** The words that belong to no slot.  `counted` and `freed` are history: what the counters counted. */
  datatype Env = Env(
    running: bool, broken: bool,       // observer_running; trace_error is set
    inHook: bool,                      // command_in_hook
    published: nat, consumed: nat, reclaimed: nat,
    counted: set<nat>, freed: set<nat>)

  function EmptySlot(): Slot {
    Slot(NOTHING, 0, 0, 0, 0, 0, 0, 0, 0, 0, 0, NOTHING, 0, 0, 0, seq(LANES, _ => Log(0, [])))
  }

  /** event(): append to the own lane's log of the slot `id` is published in, or latch a trace error. */
  function Append(x: Slot, lane: nat, e: Event): Slot
    requires lane < |x.logs|
  {
    x.(logs := x.logs[lane := Log(x.logs[lane].sequence, x.logs[lane].events + [e])])
  }

  predicate Appendable(x: Slot, lane: nat, id: nat)
    requires lane < |x.logs|
  {
    id != 0 && x.published == id && |x.logs[lane].events| < EVENTS && x.accepted.number == id &&
      x.logs[lane].sequence == id
  }

  function Recorded(x: Slot, lane: nat, e: Event): Slot
    requires lane < |x.logs|
  {
    if Appendable(x, lane, e.request) then Append(x, lane, e) else x
  }

  function Recording(x: Slot, lane: nat, e: Event, env: Env): Env
    requires lane < |x.logs|
  {
    if Appendable(x, lane, e.request) then env else env.(broken := true)
  }

  // ---------------------------------------------------------------- the owner

  datatype OwnerPc =
    | OIdle | OMark | OConfirm | OReady | OExit
    | OPublished | OProcessed | OReclaimed
    | ORead | OResolve | OScan | OScanReclaimed | OScanRead | OAccept
    | OReset | OClear | OActivate | OAttempt | OValidate | OWithdraw
    | OStart | OBegin | OCall | OEnd | OSyncClear | OSyncDone | ONative
    | ODispatched | OReturning | OReturned | OProcess
    | ORefuse | ORefused | OCount | OFail

  /** service_one's locals. `other` is the sequence read from the slot the conflict scan looks at. */
  datatype Owner = Owner(pc: OwnerPc, at: nat, number: nat, req: Request, why: nat, late: bool,
                         program: nat, i: nat, other: nat)

  datatype OwnerMoved = OwnerMoved(x: Slot, o: Owner, env: Env)

  /** The guard, the choice of a slot and the loads that decide whether it holds new work.  Which slot
      comes next is left to the schedule, so every rotating start is covered. */
  function OwnerVisit(x: Slot, o: Owner, env: Env, choice: nat): OwnerMoved {
    match o.pc
    case OIdle => OwnerMoved(x, if env.running then o.(pc := OMark) else o, env)
    case OMark => OwnerMoved(x, o.(pc := OConfirm), env.(inHook := true))
    case OConfirm => OwnerMoved(x, o.(pc := if env.running then OReady else OExit), env)
    case OReady => OwnerMoved(x, if choice < SLOTS then o.(pc := OPublished, at := choice) else o.(pc := OExit), env)
    case OExit => OwnerMoved(x, o.(pc := OIdle), env.(inHook := false))
    case OPublished =>
      OwnerMoved(x, if x.published == 0 then o.(pc := OReady) else o.(pc := OProcessed, number := x.published), env)
    case OProcessed => OwnerMoved(x, o.(pc := if x.processed == o.number then OReady else OReclaimed), env)
    case OReclaimed => OwnerMoved(x, o.(pc := if x.reclaimed == o.number then OReady else ORead), env)
    case _ => OwnerMoved(x, o, env)
  }

  /** Reading and resolving the request, then the scan for an older conflicting one. `y` is the slot the
      scan is at.  Resolution may accept (0), wait (1) or refuse (any other code). */
  function OwnerDecide(x: Slot, y: Slot, o: Owner, env: Env, choice: nat, program: nat): OwnerMoved {
    match o.pc
    case ORead =>
      if x.request.number != o.number then OwnerMoved(x, o.(pc := OReady), env.(running := false))
      else OwnerMoved(x, if Ordinary(x.request) then o.(pc := OResolve, req := x.request) else o.(pc := OReady), env)
    case OResolve =>
      OwnerMoved(x, if choice == 1 then o.(pc := OReady)
                    else o.(pc := OScan, why := choice, late := false, program := program, i := 0), env)
    case OScan =>
      OwnerMoved(x, if o.i >= SLOTS then o.(pc := OAccept)
                    else if o.i != o.at && y.published != 0 && y.published < o.number
                    then o.(pc := OScanReclaimed, other := y.published)
                    else o.(i := o.i + 1), env)
    case OScanReclaimed =>
      OwnerMoved(x, if y.reclaimed == o.other then o.(pc := OScan, i := o.i + 1) else o.(pc := OScanRead), env)
    case OScanRead =>
      OwnerMoved(x, if y.request.number != o.other || Conflict(y.request, o.req) then o.(pc := OReady)
                    else o.(pc := OScan, i := o.i + 1), env)
    case _ => OwnerMoved(x, o, env)
  }

  function ResetLog(log: Log, part: nat, number: nat): Log {
    if part == 0 then log.(sequence := 0) else if part == 1 then log.(events := []) else log.(sequence := number)
  }

  /** Admission: the metadata and logs first, then either the refusal or the request made active. */
  function OwnerPrepare(x: Slot, o: Owner, env: Env, choice: nat): OwnerMoved
    requires |x.logs| == LANES
  {
    match o.pc
    case OAccept => OwnerMoved(x.(accepted := o.req, program := o.program, started := 0), o.(pc := OReset, i := 0), env)
    case OReset =>
      if o.i >= 3 * LANES then OwnerMoved(x, o.(pc := OClear), env)
      else OwnerMoved(x.(logs := x.logs[o.i / 3 := ResetLog(x.logs[o.i / 3], o.i % 3, o.number)]), o.(i := o.i + 1),
        env)
    case OClear => OwnerMoved(x.(rejected := 0), o.(pc := if o.why != 0 then ORefuse else OActivate), env)
    case OActivate => OwnerMoved(x.(active := o.number, raised := o.number), o.(pc := OAttempt), env)
    case OAttempt =>
      var e := Event(Attempt, o.number, 0, x.accepted.bits);
      OwnerMoved(Recorded(x, 0, e), o.(pc := OValidate), Recording(x, 0, e, env))
    case OValidate =>
      OwnerMoved(x, if choice == 0 then o.(pc := OStart) else o.(pc := OWithdraw, why := choice, late := true), env)
    case OWithdraw => OwnerMoved(x.(active := 0), o.(pc := ORefuse), env)
    case ORefuse => OwnerMoved(x.(rejected := o.why), o.(pc := ORefused), env)
    case ORefused => OwnerMoved(x.(processed := o.number), o.(pc := OCount), env)
    case _ => OwnerMoved(x, o, env)
  }

  /** The native call and what is published after it returned. */
  function OwnerRun(x: Slot, o: Owner, env: Env, choice: nat): OwnerMoved
    requires |x.logs| == LANES
  {
    match o.pc
    case OStart => OwnerMoved(x.(started := o.number), o.(pc := if Synchronous(o.req) then OBegin else ONative), env)
    case OBegin =>
      var e := Event(OwnerBegin, o.number, 0, o.req.bits);
      OwnerMoved(Recorded(x, 0, e), o.(pc := OCall), Recording(x, 0, e, env))
    case OCall => OwnerMoved(x, if choice == 0 then o.(pc := OEnd) else o, env)
    case OEnd =>
      var e := Event(OwnerEnd, o.number, 0, o.req.bits);
      OwnerMoved(Recorded(x, 0, e), o.(pc := OSyncClear), Recording(x, 0, e, env))
    case OSyncClear => OwnerMoved(x.(active := 0), o.(pc := OSyncDone), env)
    case OSyncDone => OwnerMoved(x.(done := o.number), o.(pc := ODispatched), env)
    case ONative => OwnerMoved(x, if choice == 0 then o.(pc := ODispatched) else o, env)
    case ODispatched => OwnerMoved(x.(dispatched := o.number), o.(pc := OReturning), env)
    case OReturning =>
      var e := Event(Returning, o.number, 0, x.accepted.bits);
      OwnerMoved(Recorded(x, 0, e), o.(pc := OReturned), Recording(x, 0, e, env))
    case OReturned => OwnerMoved(x.(returned := o.number), o.(pc := OProcess), env)
    case OProcess => OwnerMoved(x.(processed := o.number), o.(pc := OCount), env)
    case OCount =>
      OwnerMoved(x, o.(pc := if o.late then OFail else OReady),
                 env.(consumed := env.consumed + 1, counted := env.counted + {o.number}))
    case OFail => OwnerMoved(x, o.(pc := OReady), env.(running := false))
    case _ => OwnerMoved(x, o, env)
  }

  /** The order service_one goes through; 20 to 43 is a request taken up and not yet processed. */
  function Rank(pc: OwnerPc): nat {
    match pc
    case OIdle => 0 case OMark => 1 case OConfirm => 2 case OReady => 3 case OExit => 4
    case OPublished => 10 case OProcessed => 11 case OReclaimed => 12
    case ORead => 20 case OResolve => 21 case OScan => 22 case OScanReclaimed => 22 case OScanRead => 22
    case OAccept => 23 case OReset => 24 case OClear => 25
    case OActivate => 30 case OAttempt => 31 case OValidate => 32 case OWithdraw => 33 case OStart => 34
    case OBegin => 35 case OCall => 35 case OEnd => 35 case OSyncClear => 35 case OSyncDone => 36 case ONative => 37
    case ODispatched => 38 case OReturning => 39 case OReturned => 40 case OProcess => 41
    case ORefuse => 42 case ORefused => 43 case OCount => 50 case OFail => 51
  }

  function OwnerMove(x: Slot, y: Slot, o: Owner, env: Env, choice: nat, program: nat): OwnerMoved
    requires |x.logs| == LANES
  {
    var rank := Rank(o.pc);
    if rank < 20 then OwnerVisit(x, o, env, choice)
    else if rank < 23 then OwnerDecide(x, y, o, env, choice, program)
    else if rank < 34 || rank == 42 || rank == 43 then OwnerPrepare(x, o, env, choice)
    else OwnerRun(x, o, env, choice)
  }

  // ---------------------------------------------------------------- a source hook

  datatype HookPc =
    | HOut | HTest | HMark | HConfirm | HRetreat | HSample | HIn | HClear | HDone | HLeave | HDrop

  /** What a queued call is being followed, across the hooks of one thread. */
  datatype Invocation = Invocation(request: nat, capture: nat, phase: nat)

  const NO_INVOCATION := Invocation(0, 0, 0)

  /** `samples` is source_requests; `at` and `id` are the locals of a completion in progress. */
  datatype Hook = Hook(flag: bool, pc: HookPc, i: nat, samples: seq<nat>, inv: Invocation, at: nat, id: nat)

  /** An item entering the native queue; `framed` is whether its counter belongs to its program. */
  datatype Item = Item(program: nat, controller: nat, kind: nat, bits: nat, capture: nat, framed: bool)

  /** What the body of one hook call does.  `mine` says that the registers name this invocation's own
      call, `framed` that its stack frame does. */
  datatype Doing =
    | Leaving | Nested
    | Queueing(item: Item)
    | Running(mine: bool, framed: bool)
    | Completing(mine: bool, framed: bool)
    | Committing(at: nat, bits: nat, known: bool)

  function NoSamples(): (r: seq<nat>)
    ensures |r| == SLOTS && forall i | 0 <= i < SLOTS :: r[i] == 0
  {
    seq(SLOTS, _ => 0)
  }

  datatype HookMoved = HookMoved(x: Slot, h: Hook, env: Env)

  /** trace_enter and trace_leave around the hook's body; `x` is the slot being sampled or completed.
      A meter callback (choice 1) takes no samples. */
  function HookEnter(x: Slot, h: Hook, env: Env, choice: nat): HookMoved
    requires |h.samples| == SLOTS
  {
    match h.pc
    case HOut => HookMoved(x, if env.running then h.(pc := HTest) else h, env)
    case HTest =>
      if h.flag then HookMoved(x, h.(pc := HOut), env.(broken := true, running := false))
      else HookMoved(x, h.(pc := HMark), env)
    case HMark => HookMoved(x, h.(pc := HConfirm, flag := true), env)
    case HConfirm =>
      HookMoved(x, h.(pc := if !env.running then HRetreat else if choice == 1 then HIn else HSample, i := 0), env)
    case HRetreat => HookMoved(x, h.(pc := HOut, flag := false), env)
    case HSample =>
      if h.i >= SLOTS then HookMoved(x, h.(pc := HIn), env)
      else HookMoved(x, h.(samples := h.samples[h.i := x.active], i := h.i + 1), env)
    case HClear => HookMoved(x.(active := 0), h.(pc := HDone), env)
    case HDone => HookMoved(x.(done := h.id), h.(pc := HLeave), env)
    case HLeave => HookMoved(x, h.(pc := HDrop, samples := NoSamples()), env)
    case HDrop => HookMoved(x, h.(pc := HOut, flag := false), env)
    case HIn => HookMoved(x, h, env)
  }

  datatype Match = Silent | Ambiguous | Hit(at: nat)

  predicate Fits(x: Slot, item: Item) {
    x.program == item.program && x.accepted.controller == item.controller && x.accepted.argKind == item.kind
  }

  /** The attribution loop of queue_point: an item belongs to the one open request it matches. */
  function MatchFrom(slots: seq<Slot>, samples: seq<nat>, item: Item, i: nat, found: Match): Match
    requires |slots| == |samples| == SLOTS && i <= SLOTS
    decreases SLOTS - i
  {
    if i == SLOTS then found
    else if samples[i] == 0 || !Fits(slots[i], item) then MatchFrom(slots, samples, item, i + 1, found)
    else if slots[i].accepted.number != samples[i] then Ambiguous
    else if slots[i].accepted.bits != item.bits then MatchFrom(slots, samples, item, i + 1, found)
    else if found.Hit? then Ambiguous
    else MatchFrom(slots, samples, item, i + 1, Hit(i))
  }

  /** M_QUEUE_ENTER once the item is attributed to slot `x` by sample `id`. */
  function HookQueue(x: Slot, h: Hook, env: Env, lane: nat, id: nat, item: Item): HookMoved
    requires lane < |x.logs|
  {
    if h.inv.request != 0 || !item.framed then HookMoved(x, h.(pc := HLeave), env.(broken := true))
    else
      var e := Event(Queue, id, item.capture, item.bits);
      HookMoved(Recorded(x, lane, e), h.(pc := HLeave, inv := Invocation(id, item.capture, 1)),
        Recording(x, lane, e, env))
  }

  /** M_COMMAND_BODY for the open invocation, whose request is published in slot `x`. */
  function HookBody(x: Slot, h: Hook, env: Env, lane: nat, sampled: bool, mine: bool, framed: bool): HookMoved
    requires lane < |x.logs|
  {
    if !sampled then HookMoved(x, h.(pc := HLeave), env.(broken := true))
    else if !mine then HookMoved(x, h.(pc := HLeave), env)
    else if h.inv.phase != 1 || !framed then HookMoved(x, h.(pc := HLeave), env.(broken := true))
    else
      var e := Event(Body, h.inv.request, h.inv.capture, x.accepted.bits);
      HookMoved(Recorded(x, lane, e), h.(pc := HLeave, inv := h.inv.(phase := 2)), Recording(x, lane, e, env))
  }

  /** M_QUEUE_DONE up to the event; the two stores that follow are HClear and HDone. */
  function HookComplete(
    x: Slot, h: Hook, env: Env, lane: nat, at: nat, sampled: bool, mine: bool, framed: bool): HookMoved
    requires lane < |x.logs|
  {
    if !sampled then HookMoved(x, h.(pc := HLeave), env.(broken := true))
    else if !mine then HookMoved(x, h.(pc := HLeave), env)
    else if h.inv.phase != 2 || !framed then HookMoved(x, h.(pc := HLeave), env.(broken := true))
    else
      var e := Event(Done, h.inv.request, h.inv.capture, x.accepted.bits);
      HookMoved(Recorded(x, lane, e), h.(pc := HClear, inv := NO_INVOCATION, at := at, id := h.inv.request),
                Recording(x, lane, e, env))
  }

  /** A source commit seen while slot `x` is sampled; `known` is whether its revision was found. */
  function HookCommit(x: Slot, h: Hook, env: Env, lane: nat, id: nat, owner: bool, bits: nat, known: bool): HookMoved
    requires lane < |x.logs|
  {
    if id == 0 || x.accepted.number != id then HookMoved(x, h, env)
    else if !known then HookMoved(x, h, env.(broken := true))
    else
      var followed := h.inv.request == id && h.inv.phase == 2;
      var linked := followed || (Synchronous(x.accepted) && owner);
      var e := Event(if linked then Commit else OtherCommit, id,
                     if linked && !Synchronous(x.accepted) then h.inv.capture else 0, bits);
      HookMoved(Recorded(x, lane, e), h, Recording(x, lane, e, env))
  }

  // ---------------------------------------------------------------- the consumer

  datatype RetirePc =
    | RIdle | RPublished | RReclaimed | RProcessed | RActive | REnrolling | RInHook | RLanes
    | RRejected | RDispatched | RStarted | RRunning | RReturned | RDone | RReceipts
    | RSealed | RSeal | RSettled | RCount | RStore

  datatype Retire = Retire(pc: RetirePc, at: nat, number: nat, i: nat)

  datatype RetireMoved = RetireMoved(x: Slot, c: Retire, env: Env)

  /** command_retire for one slot, load by load; `flag` is the flag of lane `c.i`.  Enrolment and the
      receipts of other families are answers from outside this model (choice 0 is "clear"). */
  function RetireCheck(x: Slot, c: Retire, env: Env, flag: bool, choice: nat): RetireMoved {
    match c.pc
    case RIdle => RetireMoved(x, if choice < SLOTS then c.(pc := RPublished, at := choice) else c, env)
    case RPublished =>
      RetireMoved(x, if x.published == 0 then c.(pc := RIdle) else c.(pc := RReclaimed, number := x.published), env)
    case RReclaimed => RetireMoved(x, c.(pc := if x.reclaimed == c.number then RIdle else RProcessed), env)
    case RProcessed => RetireMoved(x, c.(pc := if x.processed != c.number then RIdle else RActive), env)
    case RActive => RetireMoved(x, c.(pc := if x.active != 0 then RIdle else REnrolling), env)
    case REnrolling => RetireMoved(x, c.(pc := if choice != 0 then RIdle else RInHook), env)
    case RInHook => RetireMoved(x, c.(pc := if env.inHook then RIdle else RLanes, i := 0), env)
    case RLanes =>
      RetireMoved(x, if c.i >= LANES then c.(pc := RRejected) else if flag then c.(pc := RIdle)
        else c.(i := c.i + 1), env)
    case _ => RetireMoved(x, c, env)
  }

  function RetireFree(x: Slot, c: Retire, env: Env, choice: nat): RetireMoved {
    match c.pc
    case RRejected => RetireMoved(x, c.(pc := if x.rejected != 0 then RDispatched else RRunning), env)
    case RDispatched => RetireMoved(x, c.(pc := if x.dispatched != c.number then RStarted else RRunning), env)
    case RStarted => RetireMoved(x, c.(pc := if x.started != c.number then RCount else RRunning), env)
    case RRunning => RetireMoved(x, c.(pc := if env.running then RReturned else RIdle), env)
    case RReturned => RetireMoved(x, c.(pc := if x.returned == c.number then RDone else RIdle), env)
    case RDone => RetireMoved(x, c.(pc := if x.done == c.number then RReceipts else RIdle), env)
    case RReceipts => RetireMoved(x, c.(pc := if choice == 0 then RSealed else RIdle), env)
    case RSealed => RetireMoved(x, c.(pc := if x.sealed == c.number then RSettled else RSeal), env)
    case RSeal => RetireMoved(x.(sealed := c.number), c.(pc := RSettled), env)
    case RSettled => RetireMoved(x, c.(pc := if x.settled == c.number then RCount else RIdle), env)
    case RCount =>
      RetireMoved(x, c.(pc := RStore), env.(reclaimed := env.reclaimed + 1, freed := env.freed + {c.number}))
    case RStore => RetireMoved(x.(reclaimed := c.number), c.(pc := RIdle), env)
    case _ => RetireMoved(x, c, env)
  }

  function Past(pc: RetirePc): nat {
    match pc
    case RIdle => 0 case RPublished => 1 case RReclaimed => 2 case RProcessed => 3 case RActive => 4
    case REnrolling => 5 case RInHook => 6 case RLanes => 7 case RRejected => 8 case RDispatched => 9
    case RStarted => 10 case RRunning => 11 case RReturned => 12 case RDone => 13 case RReceipts => 14
    case RSealed => 15 case RSeal => 16 case RSettled => 17 case RCount => 18 case RStore => 19
  }

  // ---------------------------------------------------------------- the external writer

  datatype WriterPc = WIdle | WRequest | WCounter | WPublish | WSealed | WSettle

  datatype Writer = Writer(pc: WriterPc, at: nat, req: Request, number: nat)

  datatype WriterMoved = WriterMoved(x: Slot, wr: Writer, env: Env)

  /** command_publish_request_at and command_publish_settlement inside the gate.  The loads that only the
      writer itself or a monotone `reclaimed` can change are taken together; its own refusal of a
      conflicting request is not relied on here.  A writer that gives up (choice 1) publishes nothing. */
  function WriterMove(x: Slot, wr: Writer, env: Env, choice: nat): WriterMoved {
    match wr.pc
    case WRequest =>
      if choice == 1 then WriterMoved(x, wr.(pc := WIdle), env)
      else WriterMoved(x.(request := wr.req), wr.(pc := WCounter), env)
    case WCounter =>
      if choice == 1 then WriterMoved(x, wr.(pc := WIdle), env)
      else WriterMoved(x, wr.(pc := WPublish), env.(published := wr.req.number))
    case WPublish => WriterMoved(x.(published := wr.req.number), wr.(pc := WIdle), env)
    case WSealed => WriterMoved(x, wr.(pc := if x.sealed == wr.number then WSettle else WIdle), env)
    case WSettle => WriterMoved(x.(settled := wr.number), wr.(pc := WIdle), env)
    case WIdle => WriterMoved(x, wr, env)
  }

  // ---------------------------------------------------------------- the whole machine

  datatype State = State(slots: seq<Slot>, hooks: seq<Hook>, o: Owner, c: Retire, wr: Writer, env: Env)

  datatype Action =
    | OwnerActs(choice: nat, program: nat)
    | HookActs(lane: nat, choice: nat, doing: Doing)
    | RetireActs(choice: nat)
    | WriterPublishes(at: nat, req: Request)
    | WriterSettles(number: nat)
    | WriterActs(choice: nat)

  predicate Shape(s: State) {
    && |s.slots| == SLOTS && |s.hooks| == LANES
    && (forall i | 0 <= i < SLOTS :: |s.slots[i].logs| == LANES)
    && (forall l | 0 <= l < LANES :: |s.hooks[l].samples| == SLOTS)
    && s.o.at < SLOTS && s.c.at < SLOTS && s.wr.at < SLOTS
  }

  function Initial(): State {
    State(
      seq(SLOTS, _ => EmptySlot()),
      seq(LANES, _ => Hook(false, HOut, 0, NoSamples(), NO_INVOCATION, 0, 0)),
      Owner(OIdle, 0, 0, NOTHING, 0, false, 0, 0, 0),
      Retire(RIdle, 0, 0, 0), Writer(WIdle, 0, NOTHING, 0),
      Env(true, false, false, 0, 0, 0, {}, {}))
  }

  /** command_find */
  function Find(slots: seq<Slot>, number: nat, i: nat): nat
    requires i <= |slots|
    ensures i <= Find(slots, number, i) <= |slots|
    ensures Find(slots, number, i) < |slots| ==> slots[Find(slots, number, i)].published == number
    ensures forall k | i <= k < Find(slots, number, i) :: slots[k].published != number
    decreases |slots| - i
  {
    if i == |slots| then i else if slots[i].published == number then i else Find(slots, number, i + 1)
  }

  /** The slot the lane's next access concerns; any slot when it concerns none. */
  function HookSlot(s: State, lane: nat, doing: Doing): nat
    requires Shape(s) && lane < LANES
  {
    var h := s.hooks[lane];
    if h.pc.HSample? then h.i
    else if h.pc.HClear? || h.pc.HDone? then h.at
    else if h.pc != HIn then 0
    else match doing
      case Queueing(item) =>
        var m := MatchFrom(s.slots, h.samples, item, 0, Silent);
        if m.Hit? then m.at else SLOTS
      case Running(_, _) => if h.inv.request == 0 then SLOTS else Find(s.slots, h.inv.request, 0)
      case Completing(_, _) => if h.inv.request == 0 then SLOTS else Find(s.slots, h.inv.request, 0)
      case Committing(at, _, _) => at
      case _ => SLOTS
  }

  /** The hook's own body, once the slot it concerns is known. */
  function HookWork(x: Slot, h: Hook, env: Env, lane: nat, at: nat, doing: Doing, ownerInside: bool): HookMoved
    requires lane < |x.logs| && |h.samples| == SLOTS && at < SLOTS
  {
    match doing
    case Queueing(item) => HookQueue(x, h, env, lane, h.samples[at], item)
    case Running(mine, framed) => HookBody(x, h, env, lane, h.samples[at] == h.inv.request, mine, framed)
    case Completing(mine, framed) => HookComplete(x, h, env, lane, at, h.samples[at] == h.inv.request, mine, framed)
    case Committing(_, bits, known) => HookCommit(x, h, env, lane, h.samples[at], lane == 0 && ownerInside, bits, known)
    case _ => HookMoved(x, h, env)
  }

  /** The hook's body when it concerns no slot: nothing attributed, nothing open, or a fault. */
  function HookIdle(s: State, lane: nat, doing: Doing): HookMoved
    requires Shape(s) && lane < LANES
  {
    var h := s.hooks[lane];
    var x := s.slots[0];
    match doing
    case Queueing(item) =>
      HookMoved(x, h.(pc := HLeave),
                if MatchFrom(s.slots, h.samples, item, 0, Silent).Ambiguous? then s.env.(broken := true) else s.env)
    case Running(_, _) => HookMoved(x, h.(pc := HLeave), if h.inv.request != 0 then s.env.(broken := true) else s.env)
    case Completing(_, _) =>
      HookMoved(x, h.(pc := HLeave), if h.inv.request != 0 then s.env.(broken := true) else s.env)
    case Nested => HookMoved(x, h, s.env.(broken := true, running := false))
    case Leaving => HookMoved(x, h.(pc := HLeave), s.env)
    case Committing(_, _, _) => HookMoved(x, h, s.env)
  }

  function HookMove(s: State, lane: nat, choice: nat, doing: Doing): HookMoved
    requires Shape(s) && lane < LANES
  {
    var h := s.hooks[lane];
    var at := HookSlot(s, lane, doing);
    if h.pc != HIn then
      if at < SLOTS then HookEnter(s.slots[at], h, s.env, choice) else HookMoved(s.slots[0], h.(pc := HIn), s.env)
    else if at < SLOTS then HookWork(s.slots[at], h, s.env, lane, at, doing, s.env.inHook)
    else HookIdle(s, lane, doing)
  }

  function HookStep(s: State, lane: nat, choice: nat, doing: Doing): State
    requires Shape(s) && lane < LANES
  {
    var at := HookSlot(s, lane, doing);
    var m := HookMove(s, lane, choice, doing);
    s.(slots := if at < SLOTS then s.slots[at := m.x] else s.slots, hooks := s.hooks[lane := m.h], env := m.env)
  }

  function OwnerStep(s: State, choice: nat, program: nat): State
    requires Shape(s)
  {
    var m := OwnerMove(s.slots[s.o.at], s.slots[if s.o.i < SLOTS then s.o.i else 0], s.o, s.env, choice, program);
    s.(slots := s.slots[s.o.at := m.x], o := m.o, env := m.env)
  }

  function RetireStep(s: State, choice: nat): State
    requires Shape(s)
  {
    var x := s.slots[s.c.at];
    var m := if Past(s.c.pc) < 8 then RetireCheck(x, s.c, s.env, s.c.i < LANES && s.hooks[s.c.i].flag, choice)
             else RetireFree(x, s.c, s.env, choice);
    s.(slots := s.slots[s.c.at := m.x], c := m.c, env := m.env)
  }

  function Step(s: State, a: Action): State
    requires Shape(s)
  {
    match a
    case OwnerActs(choice, program) => OwnerStep(s, choice, program)
    case HookActs(lane, choice, doing) => if lane < LANES then HookStep(s, lane, choice, doing) else s
    case RetireActs(choice) => RetireStep(s, choice)
    case WriterPublishes(at, req) =>
      if s.wr.pc.WIdle? && at < SLOTS && s.slots[at].published == s.slots[at].reclaimed
         && req.number == s.env.published + 1 && req.number <= LAST_SEQUENCE
      then s.(wr := Writer(WRequest, at, req, 0)) else s
    case WriterSettles(number) =>
      var at := Find(s.slots, number, 0);
      if s.wr.pc.WIdle? && number != 0 && at < SLOTS then s.(wr := Writer(WSealed, at, NOTHING, number)) else s
    case WriterActs(choice) =>
      var m := WriterMove(s.slots[s.wr.at], s.wr, s.env, choice);
      s.(slots := s.slots[s.wr.at := m.x], wr := m.wr, env := m.env)
  }
}
