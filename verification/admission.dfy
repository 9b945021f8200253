/** Lane admission and closure of the program observer.

    A source thread enters a hook by raising a shared enrolment count (first use only), taking a
    lane for good, marking the lane's flag and only then confirming that the observer still runs.
    The single user-interface owner uses a flag of its own and an external writer a gate word.  The
    closer clears `running` and then scans those words one load at a time.

    The state is the set of shared words together with what each thread holds locally, and every
    `Step` performs at most one atomic load, store or exclusive attempt, in any order the schedule
    asks for.  All memory orders are taken to be sequentially consistent. */
module Admission {
  import opened Wrappers

  const LANES: nat := 8

  // ---------------------------------------------------------------- state

  /** Where a source thread stands inside trace_enter / trace_leave: the next access it makes. */
  datatype Pc =
    | Out                     // outside every hook; next: load running
    | Raise                   // next: add one to the enrolment count
    | Recheck                 // enrolled; next: reload running
    | Find(i: nat)            // next: compare lane token i with the own token
    | Claim(i: nat)           // next: exclusive attempt on lane i
    | Publish(l: nat)         // lane l claimed; next: store the own token
    | NoLane                  // nothing to claim; next: clear running
    | Abandon                 // next: subtract one from the enrolment count, then return
    | Test(first: bool)       // next: load the own lane's flag
    | Busy(first: bool)       // the flag was set; next: clear running
    | Mark(first: bool)       // next: store 1 into the own lane's flag
    | Hand                    // next: subtract one from the enrolment count, then confirm
    | Confirm                 // next: reload running
    | Retreat                 // next: store 0 into the own lane's flag, then return
    | Inside                  // publishing
    | Leave                   // next: store 0 into the own lane's flag
    | Halt(hand: bool)        // an exclusive count change failed; next: clear running

  /** Thread-local: the lane (local_lane) and the pc.  `leaked` records a failed decrement. */
  datatype Thread = Thread(token: nat, live: bool, lane: Option<nat>, pc: Pc, leaked: bool)

  /** The words source threads share. */
  datatype Words = Words(
    running: bool,           // observer_running
    enrolling: nat,
    flags: seq<bool>,        // lane_in_hook
    claimed: seq<bool>,      // lane_claims
    tokens: seq<nat>)        // lane_tokens

  /** The guard at the end of observer_hook, taken by the user-interface owner alone. */
  datatype UiPc = UiOut | UiTest | UiMark | UiConfirm | UiInside | UiLeave

  /** command_writer_enter / command_writer_leave in another process. */
  datatype WriterPc = WriterCheck | WriterInside | WriterDrop

  /** command_quiescent; `Quiet` once it has returned 1. */
  datatype ScanPc =
    | ScanIdle | ScanOwner | ScanStop | ScanGate | ScanShut | ScanGlobal | ScanEnrolling
    | ScanLane(i: nat) | Quiet

  /** The words of the two other admissions and of the closer, with who stands where. */
  datatype Guard = Guard(
    inHook: bool, ui: UiPc,          // command_in_hook and its owner
    stop: bool, gate: nat,           // external_stop, external_gate
    writers: map<nat, WriterPc>,
    scan: ScanPc)

  datatype State = State(
    w: Words,
    threads: map<nat, Thread>,
    enrolled: set<nat>,              // the threads the enrolment count stands for
    g: Guard)

  /** Thread 0 is the owner: command_initialize reserves lane 0 and its token for it. */
  ghost function Initial(owner: nat): (s: State)
    requires owner != 0
    ensures Inv(s)
  {
    State(Words(true, 0, seq(LANES, _ => false), seq(LANES, i => i == 0), seq(LANES, i => if i == 0 then owner else 0)),
          map[0 := Thread(owner, true, Some(0), Out, false)], {},
          Guard(false, UiOut, false, 0, map[], ScanIdle))
  }

  // ---------------------------------------------------------------- steps

  predicate Shape(w: Words) {
    |w.flags| == |w.claimed| == |w.tokens| == LANES
  }

  /** A thread's next access: the words after it, and the thread after it. */
  type Moved = (Words, Thread)

  /** enrollment_change(-1): a failed exclusive attempt leaves the count raised. */
  function Lower(w: Words, th: Thread, hand: bool, choice: nat): Moved {
    if choice == 0 && w.enrolling > 0
    then (w.(enrolling := w.enrolling - 1), th.(pc := if hand then Confirm else Out))
    else (w, th.(pc := Halt(hand), leaked := true))
  }

  function StopObserver(w: Words): Words {
    w.(running := false)
  }

  /** Entering, up to the lane search, and the ways out before a lane is held. */
  function Enter(w: Words, th: Thread, choice: nat): Moved {
    match th.pc
    case Out => (w, if !w.running then th else if th.lane.None? then th.(pc := Raise) else th.(pc := Test(false)))
    case Raise =>
      if choice == 0 then (w.(enrolling := w.enrolling + 1), th.(pc := Recheck))
      else (w, th.(pc := Halt(false)))
    case Recheck => (w, th.(pc := if w.running then Find(0) else Abandon))
    case Abandon => Lower(w, th, false, choice)
    case Halt(hand) => (StopObserver(w), th.(pc := if hand then Confirm else Out))
    case _ => (w, th)
  }

  /** trace_lane: find the own token, or claim a lane and publish the token there. */
  function Register(w: Words, th: Thread, choice: nat): Moved
    requires Shape(w)
  {
    match th.pc
    case Find(i) =>
      if i >= LANES then (w, th)
      else if w.tokens[i] == th.token then (w, th.(lane := Some(i), pc := Test(true)))
      else (w, th.(pc := if i + 1 == LANES then Claim(0) else Find(i + 1)))
    case Claim(i) =>
      if i >= LANES then (w, th)
      else if !w.claimed[i] && choice == 0 then (w.(claimed := w.claimed[i := true]), th.(pc := Publish(i)))
      else (w, th.(pc := if i + 1 == LANES then NoLane else Claim(i + 1)))
    case Publish(l) =>
      if l >= LANES then (w, th)
      else (w.(tokens := w.tokens[l := th.token]), th.(lane := Some(l), pc := Test(true)))
    case NoLane => (StopObserver(w), th.(pc := Abandon))
    case _ => (w, th)
  }

  /** With a lane in hand: test, mark, hand over, confirm, publish, leave. */
  function Hold(w: Words, th: Thread, l: nat, choice: nat): Moved
    requires Shape(w) && l < LANES
  {
    match th.pc
    case Test(first) => (w, th.(pc := if w.flags[l] then Busy(first) else Mark(first)))
    case Busy(first) => (StopObserver(w), th.(pc := if first then Abandon else Out))
    case Mark(first) => (w.(flags := w.flags[l := true]), th.(pc := if first then Hand else Confirm))
    case Hand => Lower(w, th, true, choice)
    case Confirm => (w, th.(pc := if w.running then Inside else Retreat))
    case Inside =>
      if choice == 0 then (w, th.(pc := Leave))
      else if choice == 1 then (StopObserver(w), th)   // the lane is re-entered
      else (w, th)                                     // a publication
    case Retreat => (w.(flags := w.flags[l := false]), th.(pc := Out))
    case Leave => (w.(flags := w.flags[l := false]), th.(pc := Out))
    case _ => (w, th)
  }

  predicate Entering(pc: Pc) {
    pc.Out? || pc.Raise? || pc.Recheck? || pc.Abandon? || pc.Halt?
  }

  predicate Searching(pc: Pc) {
    pc.Find? || pc.Claim? || pc.Publish? || pc.NoLane?
  }

  function MoveThread(w: Words, th: Thread, choice: nat): Moved
    requires Shape(w)
  {
    if Entering(th.pc) then Enter(w, th, choice)
    else if Searching(th.pc) then Register(w, th, choice)
    else if th.lane.Some? && th.lane.value < LANES then Hold(w, th, th.lane.value, choice)
    else (w, th)
  }

  /** One access of the owner at the end of observer_hook; the flag is whether it leaves `running` set. */
  function MoveUi(g: Guard, running: bool, choice: nat): (Guard, bool) {
    match g.ui
    case UiOut => (if running then g.(ui := UiTest) else g, running)
    case UiTest => if g.inHook then (g.(ui := UiOut), false) else (g.(ui := UiMark), running)
    case UiMark => (g.(inHook := true, ui := UiConfirm), running)
    case UiConfirm => (g.(ui := if running then UiInside else UiLeave), running)
    case UiInside => (if choice == 0 then g.(ui := UiLeave) else g, running && choice != 1)
    case UiLeave => (g.(inHook := false, ui := UiOut), running)
  }

  function MoveWriter(g: Guard, x: nat, choice: nat): Guard {
    if x !in g.writers then
      if g.gate == 0 && choice == 0 then g.(gate := 1, writers := g.writers[x := WriterCheck]) else g
    else match g.writers[x]
      case WriterCheck =>
        g.(writers := g.writers[x := if g.stop || choice != 0 then WriterDrop else WriterInside])
      case WriterInside => if choice == 0 then g.(writers := g.writers[x := WriterDrop]) else g
      case WriterDrop => g.(gate := 0, writers := g.writers - {x})
  }

  /** One access of command_quiescent, in the order it makes them. */
  function MoveScan(g: Guard, w: Words, choice: nat): Guard
    requires Shape(w)
  {
    match g.scan
    case ScanIdle => if w.running then g else g.(scan := ScanOwner)
    case ScanOwner => g.(scan := if g.inHook then ScanIdle else ScanStop)
    case ScanStop => g.(stop := true, scan := ScanGate)
    case ScanGate => g.(scan := if g.gate == 2 then ScanGlobal else if g.gate == 0 then ScanShut else ScanIdle)
    case ScanShut => if g.gate == 0 && choice == 0 then g.(gate := 2, scan := ScanGlobal) else g.(scan := ScanIdle)
    case ScanGlobal => g.(scan := if choice == 0 then ScanEnrolling else ScanIdle)
    case ScanEnrolling => g.(scan := if w.enrolling == 0 then ScanLane(0) else ScanIdle)
    case ScanLane(i) =>
      if i >= LANES then g
      else if w.flags[i] then g.(scan := ScanIdle)
      else g.(scan := if i + 1 == LANES then Quiet else ScanLane(i + 1))
    case Quiet => g
  }

  datatype Action =
    | Spawn(t: nat, token: nat)
    | Exit(t: nat)
    | Move(t: nat, choice: nat)     // `choice` stands for what the hardware or the hook body decides
    | Ui(choice: nat)
    | Foreign                       // another thread at an owner-only site
    | Writer(x: nat, choice: nat)
    | Close
    | Scan(choice: nat)

  predicate TokenFree(s: State, token: nat) {
    forall u | u in s.threads :: s.threads[u].live ==> s.threads[u].token != token
  }

  function Moving(s: State, t: nat, choice: nat): State
    requires Shape(s.w) && t in s.threads
  {
    var (w, th) := MoveThread(s.w, s.threads[t], choice);
    s.(w := w, threads := s.threads[t := th],
       enrolled := if w.enrolling > s.w.enrolling then s.enrolled + {t}
                   else if w.enrolling < s.w.enrolling then s.enrolled - {t}
                   else s.enrolled)
  }

  /** An action that is not enabled changes nothing. */
  function Step(s: State, a: Action): State
    requires Shape(s.w)
  {
    match a
    case Spawn(t, token) =>
      if t !in s.threads && token != 0 && TokenFree(s, token)
      then s.(threads := s.threads[t := Thread(token, true, None, Out, false)]) else s
    case Exit(t) =>
      if t in s.threads && t != 0 && s.threads[t].pc == Out
      then s.(threads := s.threads[t := s.threads[t].(live := false)]) else s
    case Move(t, choice) => if t in s.threads && s.threads[t].live then Moving(s, t, choice) else s
    case Ui(choice) =>
      var (g, running) := MoveUi(s.g, s.w.running, choice);
      s.(g := g, w := s.w.(running := running))
    case Foreign => s.(w := StopObserver(s.w))
    case Writer(x, choice) => s.(g := MoveWriter(s.g, x, choice))
    case Close => s.(w := StopObserver(s.w))
    case Scan(choice) => s.(g := MoveScan(s.g, s.w, choice))
  }

  // ---------------------------------------------------------------- invariants

  /** The pcs at which a thread stands for one unit of the enrolment count. */
  predicate Enrolled(pc: Pc) {
    pc.Recheck? || pc.Abandon? || Searching(pc) || pc == Test(true) || pc == Busy(true) || pc == Mark(true) || pc.Hand?
  }

  /** Enrolled and already past the second load of `running`. */
  predicate Registering(pc: Pc) {
    Enrolled(pc) && !pc.Recheck? && !pc.Abandon?
  }

  /** The pcs at which the own lane's flag is set. */
  predicate Marked(pc: Pc) {
    pc.Hand? || pc.Confirm? || pc.Retreat? || pc.Inside? || pc.Leave? || pc == Halt(true)
  }

  predicate Publishing(pc: Pc) {
    pc.Inside? || pc.Leave?
  }

  predicate Laneless(pc: Pc) {
    pc.Raise? || pc.Recheck? || pc.Find? || pc.Claim? || pc.Publish?
  }

  ghost predicate NoToken(w: Words, token: nat, upTo: nat) {
    forall j | 0 <= j < upTo && j < |w.tokens| :: w.tokens[j] != token
  }

  /** What one thread may rely on. */
  ghost predicate ThreadInv(w: Words, th: Thread)
    requires Shape(w)
  {
    && th.token != 0
    && (!th.live ==> th.pc == Out)
    && (th.lane.Some? ==> th.lane.value < LANES && (th.live ==> w.tokens[th.lane.value] == th.token))
    && (th.pc.Test? || th.pc.Busy? || th.pc.Mark? || Marked(th.pc) ==> th.lane.Some?)
    && (Laneless(th.pc) ==> th.lane.None?)
    && (th.pc.Find? ==> th.pc.i < LANES && NoToken(w, th.token, th.pc.i))
    && (th.pc.Claim? ==> th.pc.i < LANES && NoToken(w, th.token, LANES))
    && (th.pc.Publish? ==>
         th.pc.l < LANES && w.claimed[th.pc.l] && w.tokens[th.pc.l] == 0 && NoToken(w, th.token, LANES))
    && (th.lane.Some? && Marked(th.pc) ==> w.flags[th.lane.value])
    && (th.leaked ==> !Enrolled(th.pc) && !th.pc.Raise? && (!w.running || th.pc.Halt?))
  }

  /** What two different live threads never share. */
  ghost predicate Apart(a: Thread, b: Thread) {
    && a.token != b.token
    && (a.pc.Publish? && b.pc.Publish? ==> a.pc.l != b.pc.l)
  }

  ghost predicate WordsInv(w: Words)
    requires Shape(w)
  {
    && (forall l | 0 <= l < LANES :: w.tokens[l] != 0 ==> w.claimed[l])
    && (forall l, m | 0 <= l < m < LANES :: w.tokens[l] != 0 ==> w.tokens[l] != w.tokens[m])
  }

  ghost predicate ThreadsInv(s: State)
    requires Shape(s.w)
  {
    && WordsInv(s.w)
    && (forall t | t in s.threads :: ThreadInv(s.w, s.threads[t]))
    && (forall t, u | t in s.threads && u in s.threads && t != u && s.threads[t].live && s.threads[u].live ::
          Apart(s.threads[t], s.threads[u]))
  }

  ghost predicate EnrolInv(s: State) {
    && s.w.enrolling == |s.enrolled|
    && (forall t | t in s.enrolled :: t in s.threads)
    && (forall t | t in s.threads :: t in s.enrolled <==> Enrolled(s.threads[t].pc) || s.threads[t].leaked)
  }

  /** How far the closer's scan has come. */
  function Stage(scan: ScanPc): nat {
    match scan
    case ScanIdle => 0
    case ScanOwner => 1
    case ScanStop => 2
    case ScanGate => 3
    case ScanShut => 4
    case ScanGlobal => 5
    case ScanEnrolling => 6
    case ScanLane(_) => 7
    case Quiet => 8
  }

  function Scanned(scan: ScanPc): nat {
    match scan
    case ScanLane(i) => i
    case Quiet => LANES
    case _ => 0
  }

  /** What the loads already made by the scan have established about one thread, for good. */
  ghost predicate PassedBy(scan: ScanPc, th: Thread) {
    && (Stage(scan) >= 7 ==> !Registering(th.pc))
    && (th.lane.Some? && th.lane.value < Scanned(scan) ==> !Publishing(th.pc))
  }

  ghost predicate GuardInv(g: Guard, running: bool) {
    && (g.ui in {UiConfirm, UiInside, UiLeave} ==> g.inHook)
    && (forall x | x in g.writers :: g.gate == 1)
    && (forall x, y | x in g.writers && y in g.writers :: x == y)
    && (Stage(g.scan) >= 1 ==> !running)
    && (Stage(g.scan) >= 2 ==> g.ui != UiInside)
    && (Stage(g.scan) >= 5 ==> g.gate == 2)
    && Scanned(g.scan) <= LANES
  }

  ghost predicate PassedAll(s: State) {
    forall t | t in s.threads && s.threads[t].live :: PassedBy(s.g.scan, s.threads[t])
  }

  ghost predicate Inv(s: State) {
    Shape(s.w) && ThreadsInv(s) && EnrolInv(s) && GuardInv(s.g, s.w.running) && PassedAll(s)
  }

  // ---------------------------------------------------------------- a thread's move

  /** What a move of `th` can do to the words other threads rely on. */
  ghost predicate Effect(w: Words, th: Thread, w': Words, th': Thread)
    requires Shape(w)
  {
    && Shape(w')
    && th'.token == th.token && th'.live == th.live
    && (w'.running ==> w.running)
    && (w'.tokens == w.tokens || (th.pc.Publish? && th.pc.l < LANES && w'.tokens == w.tokens[th.pc.l := th.token]))
    && (if th'.pc.Publish? then th'.pc.l < LANES && !w.claimed[th'.pc.l] && w'.claimed == w.claimed[th'.pc.l := true]
        else w'.claimed == w.claimed)
    && (forall j | 0 <= j < LANES && th.lane != Some(j) :: w'.flags[j] == w.flags[j])
  }

  lemma EnterEffect(w: Words, th: Thread, choice: nat)
    requires Shape(w) && ThreadInv(w, th) && th.live && Entering(th.pc)
    ensures var (w', th') := Enter(w, th, choice); Effect(w, th, w', th') && ThreadInv(w', th')
  {
  }

  lemma RegisterEffect(w: Words, th: Thread, choice: nat)
    requires Shape(w) && WordsInv(w) && ThreadInv(w, th) && th.live && Searching(th.pc)
    ensures var (w', th') := Register(w, th, choice); Effect(w, th, w', th') && ThreadInv(w', th')
  {
  }

  lemma HoldEffect(w: Words, th: Thread, l: nat, choice: nat)
    requires Shape(w) && ThreadInv(w, th) && th.live && th.lane == Some(l) && !Entering(th.pc) && !Searching(th.pc)
    ensures var (w', th') := Hold(w, th, l, choice); Effect(w, th, w', th') && ThreadInv(w', th')
  {
  }

  /** A move disturbs nothing another thread relies on. */
  lemma Undisturbed(w: Words, th: Thread, w': Words, th': Thread, other: Thread)
    requires Shape(w) && Effect(w, th, w', th') && ThreadInv(w, th) && ThreadInv(w, other) && WordsInv(w)
    requires th.live && (other.live ==> Apart(th, other))
    ensures ThreadInv(w', other)
    ensures other.live ==> Apart(th', other)
  {
  }

  lemma MoveEffect(w: Words, th: Thread, choice: nat)
    requires Shape(w) && WordsInv(w) && ThreadInv(w, th) && th.live
    ensures var (w', th') := MoveThread(w, th, choice);
            Effect(w, th, w', th') && ThreadInv(w', th') && WordsInv(w')
  {
    if Entering(th.pc) { EnterEffect(w, th, choice); }
    else if Searching(th.pc) { RegisterEffect(w, th, choice); }
    else { HoldEffect(w, th, th.lane.value, choice); }
  }

  lemma MoveKeepsThreads(s: State, t: nat, choice: nat)
    requires Inv(s) && t in s.threads && s.threads[t].live
    ensures Shape(Moving(s, t, choice).w) && ThreadsInv(Moving(s, t, choice))
  {
    var th := s.threads[t];
    var (w', th') := MoveThread(s.w, th, choice);
    MoveEffect(s.w, th, choice);
    forall u | u in s.threads && u != t
      ensures ThreadInv(w', s.threads[u]) && (s.threads[u].live ==> Apart(th', s.threads[u]))
    {
      Undisturbed(s.w, th, w', th', s.threads[u]);
    }
  }

  /** The enrolment count moves exactly with who it stands for. */
  lemma MoveCounts(w: Words, th: Thread, choice: nat)
    requires Shape(w) && ThreadInv(w, th) && th.live
    ensures var (w', th') := MoveThread(w, th, choice);
            var before, after := Enrolled(th.pc) || th.leaked, Enrolled(th'.pc) || th'.leaked;
            w'.enrolling == w.enrolling + (if after then 1 else 0) - (if before then 1 else 0)
  {
  }

  lemma MovePassed(w: Words, th: Thread, choice: nat, scan: ScanPc)
    requires Shape(w) && ThreadInv(w, th) && th.live && PassedBy(scan, th) && (Stage(scan) >= 1 ==> !w.running)
    ensures PassedBy(scan, MoveThread(w, th, choice).1)
  {
  }

  lemma MoveKeepsInv(s: State, t: nat, choice: nat)
    requires Inv(s) && t in s.threads && s.threads[t].live
    ensures Inv(Moving(s, t, choice))
  {
    MoveKeepsThreads(s, t, choice);
    MoveEffect(s.w, s.threads[t], choice);
    MoveCounts(s.w, s.threads[t], choice);
    MovePassed(s.w, s.threads[t], choice, s.g.scan);
  }

  // ---------------------------------------------------------------- the other actors

  /** Clearing `running` takes nothing a thread relies on. */
  lemma StopKeepsThreads(s: State)
    requires Inv(s)
    ensures ThreadsInv(s.(w := StopObserver(s.w)))
  {
    forall t | t in s.threads
      ensures ThreadInv(StopObserver(s.w), s.threads[t])
    {
      assert ThreadInv(s.w, s.threads[t]);
    }
  }

  lemma StopKeepsInv(s: State)
    requires Inv(s)
    ensures Inv(s.(w := StopObserver(s.w)))
  {
    StopKeepsThreads(s);
  }

  /** The threads do not look at the guard, so only the guard's own part is at stake. */
  lemma GuardKeepsInv(s: State, g: Guard)
    requires Inv(s) && GuardInv(g, s.w.running) && PassedAll(s.(g := g))
    ensures Inv(s.(g := g))
  {
    var r := s.(g := g);
    assert r.w == s.w && r.threads == s.threads;
  }

  lemma UiKeepsGuard(g: Guard, running: bool, choice: nat)
    requires GuardInv(g, running)
    ensures var (g', running') := MoveUi(g, running, choice);
            GuardInv(g', running') && g'.scan == g.scan && (running' ==> running)
  {
  }

  lemma WriterKeepsGuard(g: Guard, running: bool, x: nat, choice: nat)
    requires GuardInv(g, running)
    ensures GuardInv(MoveWriter(g, x, choice), running) && MoveWriter(g, x, choice).scan == g.scan
  {
  }

  lemma ScanKeepsGuard(g: Guard, w: Words, choice: nat)
    requires Shape(w) && GuardInv(g, w.running)
    ensures GuardInv(MoveScan(g, w, choice), w.running)
  {
  }

  /** Each load of the scan that succeeds settles its question for every thread. */
  lemma ScanPasses(s: State, choice: nat)
    requires Inv(s)
    ensures PassedAll(s.(g := MoveScan(s.g, s.w, choice)))
  {
    forall t | t in s.threads && s.threads[t].live
      ensures PassedBy(MoveScan(s.g, s.w, choice).scan, s.threads[t])
    {
      assert ThreadInv(s.w, s.threads[t]) && PassedBy(s.g.scan, s.threads[t]);
      if s.g.scan.ScanEnrolling? && s.w.enrolling == 0 {
        assert t !in s.enrolled;
      }
    }
  }

  lemma UiKeepsInv(s: State, choice: nat)
    requires Inv(s)
    ensures Inv(Step(s, Ui(choice)))
  {
    UiKeepsGuard(s.g, s.w.running, choice);
    var (g, running) := MoveUi(s.g, s.w.running, choice);
    if running {
      assert s.w.(running := running) == s.w;
      GuardKeepsInv(s, g);
    } else {
      StopKeepsInv(s);
      GuardKeepsInv(s.(w := StopObserver(s.w)), g);
    }
  }

  lemma SpawnKeepsThreads(s: State, t: nat, token: nat)
    requires Inv(s)
    ensures ThreadsInv(Step(s, Spawn(t, token)))
  {
  }

  lemma SpawnKeepsInv(s: State, t: nat, token: nat)
    requires Inv(s)
    ensures Inv(Step(s, Spawn(t, token)))
  {
    SpawnKeepsThreads(s, t, token);
  }

  lemma ExitKeepsInv(s: State, t: nat)
    requires Inv(s)
    ensures Inv(Step(s, Exit(t)))
  {
  }

  lemma StepKeepsInv(s: State, a: Action)
    requires Inv(s)
    ensures Inv(Step(s, a))
  {
    match a {
      case Spawn(t, token) => SpawnKeepsInv(s, t, token);
      case Exit(t) => ExitKeepsInv(s, t);
      case Move(t, choice) => if t in s.threads && s.threads[t].live { MoveKeepsInv(s, t, choice); }
      case Ui(choice) => UiKeepsInv(s, choice);
      case Foreign => StopKeepsInv(s);
      case Writer(x, choice) =>
        WriterKeepsGuard(s.g, s.w.running, x, choice);
        GuardKeepsInv(s, MoveWriter(s.g, x, choice));
      case Close => StopKeepsInv(s);
      case Scan(choice) =>
        ScanKeepsGuard(s.g, s.w, choice);
        ScanPasses(s, choice);
        GuardKeepsInv(s, MoveScan(s.g, s.w, choice));
    }
  }

  // ---------------------------------------------------------------- schedules

  /** Every word and local after a whole schedule. */
  ghost function Exec(s: State, schedule: seq<Action>): (r: State)
    requires Inv(s)
    ensures Inv(r)
    decreases |schedule|
  {
    if schedule == [] then s
    else StepKeepsInv(s, schedule[0]); Exec(Step(s, schedule[0]), schedule[1..])
  }
}
