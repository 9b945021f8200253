/** A run in which a refused request nevertheless carries `done`: the application queues an item of its
    own for the same program, controller, kind and value while the request is active, and the request is
    then refused by the validation that follows its activation. */
module MailboxRefusal {
  import opened Requests
  import opened Mailbox
  import opened MailboxWords
  import opened MailboxRetire
  import opened MailboxBarrier
  import opened MailboxCausal

  // ---------------------------------------------------------------- runs

  ghost function Run(schedule: seq<Action>): State {
    InitialInv();
    Exec(Initial(), schedule)
  }

  ghost predicate Reached(t: State) {
    exists schedule :: Run(schedule) == t
  }

  lemma {:induction false} ExecExtends(s: State, first: seq<Action>, a: Action)
    requires Inv(s)
    ensures Exec(s, first + [a]) == Step(Exec(s, first), a)
    decreases |first|
  {
    if first == [] {
      StepKeepsInv(s, a);
      assert [a][1..] == [] && first + [a] == [a];
      assert Exec(Step(s, a), []) == Step(s, a);
    } else {
      StepKeepsInv(s, first[0]);
      assert (first + [a])[1..] == first[1..] + [a];
      ExecExtends(Step(s, first[0]), first[1..], a);
    }
  }

  lemma ReachedKeeps(t: State)
    requires Reached(t)
    ensures Inv(t) && Receipts(t)
  {
    var schedule :| Run(schedule) == t;
    InitialInv();
    InitialReceipts();
    ExecReceipts(Initial(), schedule);
  }

  lemma ReachedShape(t: State)
    requires Reached(t)
    ensures Shape(t)
  {
    ReachedKeeps(t);
  }

  lemma ThenStep(t: State, a: Action) returns (u: State)
    requires Reached(t) && Shape(t)
    ensures u == Step(t, a) && Reached(u) && Shape(u)
  {
    var schedule :| Run(schedule) == t;
    u := Step(t, a);
    InitialInv();
    ExecExtends(Initial(), schedule, a);
    assert Run(schedule + [a]) == u;
    ReachedShape(u);
  }

  // ---------------------------------------------------------------- the request and the foreign item

  const FADER := Request(1, Field(0), 1, 1, 1, 0, 0, 0, 0, 0, 0, 0, 0, 0, 5, 2, 9)
  const ITEM := Item(7, 5, 2, 9, 40, true)

  /** Every slot but the first is unused, nobody has failed, and only the named actors have moved. */
  ghost predicate Stage(t: State) {
    Shape(t) && !t.env.broken && forall k | 1 <= k < SLOTS :: t.slots[k].published == 0 && t.slots[k].active == 0
  }

  ghost predicate HooksIdle(t: State) {
    |t.hooks| == LANES &&
      forall l | 0 <= l < LANES :: t.hooks[l] == Hook(false, HOut, 0, NoSamples(), NO_INVOCATION, 0, 0)
  }

  lemma Published() returns (t: State)
    ensures Reached(t) && Stage(t) && HooksIdle(t) && t.env.running && !t.env.inHook
    ensures t.o == Initial().o && t.c == Initial().c
    ensures t.slots[0] == EmptySlot().(published := 1, request := FADER)
  {
    var s := Initial();
    assert Run([]) == s by { InitialInv(); }
    assert forall k | 0 <= k < SLOTS :: s.slots[k] == EmptySlot();
    ReachedShape(s);
    t := ThenStep(s, WriterPublishes(0, FADER));
    t := ThenStep(t, WriterActs(0));
    t := ThenStep(t, WriterActs(0));
    t := ThenStep(t, WriterActs(0));
    assert t.slots[0] == EmptySlot().(published := 1, request := FADER);
    assert t.hooks == s.hooks;
  }

  // ---------------------------------------------------------------- the owner makes it active

  lemma OwnerTurn(t: State, choice: nat, program: nat) returns (u: State)
    requires Reached(t) && Stage(t) && t.o.at == 0
    ensures |t.slots[0].logs| == LANES
    ensures var m := OwnerMove(t.slots[0], t.slots[if t.o.i < SLOTS then t.o.i else 0], t.o, t.env, choice, program);
            && u == t.(slots := t.slots[0 := m.x], o := m.o, env := m.env)
            && Reached(u) && (!m.env.broken ==> Stage(u))
  {
    u := ThenStep(t, OwnerActs(choice, program));
  }

  /** The owner at `o`, serving slot 0 whose words are `x`. */
  ghost predicate Owning(t: State, o: Owner, x: Slot) {
    Stage(t) && t.o == o && o.at == 0 && t.slots[0] == x
  }

  lemma OwnerGoes(t: State, o: Owner, x: Slot, choice: nat, m: OwnerMoved) returns (u: State)
    requires Reached(t) && Owning(t, o, x) && Rank(o.pc) != 22 && |x.logs| == LANES
    requires m == OwnerMove(x, x, o, t.env, choice, 0) && !m.env.broken && m.o.at == 0
    ensures Reached(u) && Owning(u, m.o, m.x) && u.env == m.env && u.hooks == t.hooks && u.c == t.c
  {
    u := OwnerTurn(t, choice, 0);
  }

  lemma Visits(t: State, o: Owner, x: Slot, choice: nat, o': Owner, env': Env) returns (u: State)
    requires Reached(t) && Owning(t, o, x) && Rank(o.pc) < 20 && |x.logs| == LANES
    requires OwnerVisit(x, o, t.env, choice) == OwnerMoved(x, o', env') && !env'.broken && o'.at == 0
    ensures Reached(u) && Owning(u, o', x) && u.env == env' && u.hooks == t.hooks && u.c == t.c
  {
    u := OwnerGoes(t, o, x, choice, OwnerMoved(x, o', env'));
  }

  lemma Prepares(t: State, o: Owner, x: Slot, choice: nat, o': Owner, x': Slot) returns (u: State)
    requires Reached(t) && Owning(t, o, x) && (23 <= Rank(o.pc) < 34 || 42 <= Rank(o.pc) <= 43) && |x.logs| == LANES
    requires OwnerPrepare(x, o, t.env, choice) == OwnerMoved(x', o', t.env) && o'.at == 0
    ensures Reached(u) && Owning(u, o', x') && u.env == t.env && u.hooks == t.hooks && u.c == t.c
  {
    u := OwnerGoes(t, o, x, choice, OwnerMoved(x', o', t.env));
  }

  lemma Ends(t: State, o: Owner, x: Slot, o': Owner, env': Env) returns (u: State)
    requires Reached(t) && Owning(t, o, x) && 50 <= Rank(o.pc) && |x.logs| == LANES
    requires OwnerRun(x, o, t.env, 0) == OwnerMoved(x, o', env') && !env'.broken && o'.at == 0
    ensures Reached(u) && Owning(u, o', x) && u.env == env' && u.hooks == t.hooks && u.c == t.c
  {
    u := OwnerGoes(t, o, x, 0, OwnerMoved(x, o', env'));
  }

  ghost predicate SameBackground(t: State, u: State) {
    u.hooks == t.hooks && u.c == t.c && u.env.(inHook := t.env.inHook) == t.env
  }

  lemma Arrived(t: State) returns (u: State)
    requires Reached(t) && Stage(t) && t.o == Initial().o && t.env.running
    ensures Reached(u) && Stage(u) && SameBackground(t, u) && u.slots[0] == t.slots[0]
    ensures u.o == t.o.(pc := OPublished)
  {
    var x, o, env := t.slots[0], t.o, t.env.(inHook := true);
    u := Visits(t, o, x, 0, o.(pc := OMark), t.env);
    u := Visits(u, o.(pc := OMark), x, 0, o.(pc := OConfirm), env);
    u := Visits(u, o.(pc := OConfirm), x, 0, o.(pc := OReady), env);
    u := Visits(u, o.(pc := OReady), x, 0, o.(pc := OPublished), env);
  }

  lemma TakenUp(t: State) returns (u: State)
    requires Reached(t) && Stage(t) && t.o == Initial().o && t.env.running
    requires t.slots[0] == EmptySlot().(published := 1, request := FADER)
    ensures Reached(u) && Stage(u) && SameBackground(t, u) && u.slots[0] == t.slots[0]
    ensures u.o == Owner(ORead, 0, 1, NOTHING, 0, false, 0, 0, 0)
  {
    u := Arrived(t);
    u := OwnerTurn(u, 0, 0);
    u := OwnerTurn(u, 0, 0);
    u := OwnerTurn(u, 0, 0);
  }

  lemma Scanned(t: State) returns (u: State)
    requires Reached(t) && Stage(t) && t.o == Owner(ORead, 0, 1, NOTHING, 0, false, 0, 0, 0)
    requires t.slots[0] == EmptySlot().(published := 1, request := FADER)
    ensures Reached(u) && Stage(u) && SameBackground(t, u) && u.slots[0] == t.slots[0]
    ensures u.o == Owner(OAccept, 0, 1, FADER, 0, false, 7, SLOTS, 0)
  {
    u := OwnerTurn(t, 0, 0);
    u := OwnerTurn(u, 0, 7);
    while u.o.i < SLOTS
      invariant Reached(u) && Stage(u) && SameBackground(t, u) && u.slots[0] == t.slots[0]
      invariant u.o.i <= SLOTS && u.o == Owner(OScan, 0, 1, FADER, 0, false, 7, u.o.i, 0)
      decreases SLOTS - u.o.i
    {
      u := OwnerTurn(u, 0, 0);
    }
    u := OwnerTurn(u, 0, 0);
  }

  /** Admitted as `FADER` for program 7, and nothing more yet. */
  ghost predicate Prepared(x: Slot) {
    && x.published == 1 && x.accepted == FADER && x.program == 7
    && x.processed == 0 && x.started == 0 && x.reclaimed == 0
  }

  ghost predicate Resetting(x: Slot, i: nat) {
    Prepared(x) && |x.logs| == LANES &&
    forall l | 0 <= l < LANES :: x.logs[l].events == [] && (3 * l + 3 <= i ==> x.logs[l].sequence == 1)
  }

  lemma Cleared(t: State) returns (u: State)
    requires Reached(t) && Stage(t) && t.o == Owner(OAccept, 0, 1, FADER, 0, false, 7, SLOTS, 0)
    requires t.slots[0] == EmptySlot().(published := 1, request := FADER)
    ensures Reached(u) && Stage(u) && SameBackground(t, u) && Resetting(u.slots[0], 3 * LANES)
    ensures u.o == Owner(OClear, 0, 1, FADER, 0, false, 7, 3 * LANES, 0)
  {
    u := OwnerTurn(t, 0, 0);
    while u.o.i < 3 * LANES
      invariant Reached(u) && Stage(u) && SameBackground(t, u) && Resetting(u.slots[0], u.o.i)
      invariant u.o.i <= 3 * LANES && u.o == Owner(OReset, 0, 1, FADER, 0, false, 7, u.o.i, 0)
      decreases 3 * LANES - u.o.i
    {
      ghost var v := OwnerTurn(u, 0, 0);
      ResetOnce(u.slots[0], u.o.i);
      u := v;
    }
    u := OwnerTurn(u, 0, 0);
  }

  lemma ResetOnce(x: Slot, i: nat)
    requires Resetting(x, i) && i < 3 * LANES
    ensures Resetting(x.(logs := x.logs[i / 3 := ResetLog(x.logs[i / 3], i % 3, 1)]), i + 1)
  {
  }

  lemma Activated(t: State) returns (u: State)
    requires Reached(t) && Stage(t) && t.o == Owner(OClear, 0, 1, FADER, 0, false, 7, 3 * LANES, 0)
    requires Resetting(t.slots[0], 3 * LANES)
    ensures Reached(u) && Stage(u) && SameBackground(t, u)
    ensures Prepared(u.slots[0]) && u.slots[0].active == 1 && |u.slots[0].logs| == LANES &&
            u.slots[0].logs[1] == Log(1, [])
    ensures u.o.pc == OValidate && u.o.at == 0 && u.o.number == 1
  {
    var x, o := t.slots[0], t.o;
    var x1, x2 := x.(rejected := 0), x.(rejected := 0, active := 1, raised := 1);
    u := Prepares(t, o, x, 0, o.(pc := OActivate), x1);
    u := Prepares(u, o.(pc := OActivate), x1, 0, o.(pc := OAttempt), x2);
    u := Prepares(u, o.(pc := OAttempt), x2, 0, o.(pc := OValidate),
      Recorded(x2, 0, Event(Attempt, 1, 0, x2.accepted.bits)));
  }

  // ---------------------------------------------------------------- the application's own call

  lemma HookTurn(t: State, choice: nat, doing: Doing) returns (u: State)
    requires Reached(t) && Stage(t)
    ensures var at, m := HookSlot(t, 1, doing), HookMove(t, 1, choice, doing);
            && u.slots == (if at < SLOTS then t.slots[at := m.x] else t.slots)
            && u == t.(slots := u.slots, hooks := t.hooks[1 := m.h], env := m.env)
            && Reached(u) && Shape(u)
  {
    u := ThenStep(t, HookActs(1, choice, doing));
  }

  /** Only lane 1 has moved, and the owner waits before its validation. */
  ghost predicate Waiting(t: State, h: Hook, x: Slot) {
    && Stage(t) && t.hooks[1] == h && t.slots[0] == x && x.published == 1 && t.env.running && t.o.at == 0
    && forall l | 0 <= l < LANES && l != 1 :: !t.hooks[l].flag
  }

  function Sampled(active: nat): seq<nat> {
    NoSamples()[0 := active]
  }

  /** One access of lane 1 outside the hook's body, at slot 0. */
  lemma EdgeTurn(t: State, h: Hook, x: Slot) returns (u: State)
    requires Reached(t) && Waiting(t, h, x) && h.pc != HIn && (h.pc == HSample ==> h.i == 0)
    requires h.pc == HClear || h.pc == HDone ==> h.at == 0
    requires h.pc == HTest ==> !h.flag
    ensures |h.samples| == SLOTS
    ensures var m := HookEnter(x, h, t.env, 0);
            Reached(u) && Waiting(u, m.h, m.x) && u.o == t.o && u.c == t.c && u.env == t.env
  {
    u := HookTurn(t, 0, Leaving);
  }

  lemma Entering(t: State, h: Hook, x: Slot) returns (u: State)
    requires Reached(t) && Waiting(t, h, x) && h.pc == HOut && !h.flag && |h.samples| == SLOTS
    ensures Reached(u) && Waiting(u, h.(flag := true, pc := HSample, i := 1, samples := h.samples[0 := x.active]), x)
    ensures u.o == t.o && u.c == t.c && u.env == t.env
  {
    u := EdgeTurn(t, h, x);
    u := EdgeTurn(u, h.(pc := HTest), x);
    u := EdgeTurn(u, h.(pc := HMark), x);
    u := EdgeTurn(u, h.(flag := true, pc := HConfirm), x);
    u := EdgeTurn(u, h.(flag := true, pc := HSample, i := 0), x);
  }

  /** The other slots are unused: their samples stay zero. */
  lemma Sampling(t: State, h: Hook, x: Slot) returns (u: State)
    requires Reached(t) && Waiting(t, h, x) && h.pc == HSample && h.i == 1 && h.samples == Sampled(x.active)
    ensures Reached(u) && Waiting(u, h.(pc := HIn, i := SLOTS), x)
    ensures u.o == t.o && u.c == t.c && u.env == t.env
  {
    u := t;
    ghost var i := 1;
    while i < SLOTS
      invariant 1 <= i <= SLOTS && Reached(u) && Waiting(u, h.(i := i), x)
      invariant u.o == t.o && u.c == t.c && u.env == t.env
    {
      u := SampleTurn(u, h.(i := i), x);
      i := i + 1;
    }
    u := HookTurn(u, 0, Leaving);
  }

  lemma SampleTurn(t: State, h: Hook, x: Slot) returns (u: State)
    requires Reached(t) && Waiting(t, h, x) && h.pc == HSample && 1 <= h.i < SLOTS && h.samples == Sampled(x.active)
    ensures Reached(u) && Waiting(u, h.(i := h.i + 1), x) && u.o == t.o && u.c == t.c && u.env == t.env
  {
    u := HookTurn(t, 0, Leaving);
    assert h.samples[h.i := 0] == h.samples;
  }

  /** From outside into a body that holds the sample of slot 0. */
  lemma Inside(t: State, h: Hook, x: Slot) returns (u: State)
    requires Reached(t) && Waiting(t, h, x) && h.pc == HOut && !h.flag && h.samples == NoSamples()
    ensures Reached(u) && Waiting(u, h.(flag := true, pc := HIn, i := SLOTS, samples := Sampled(x.active)), x)
    ensures u.o == t.o && u.c == t.c && u.env == t.env
  {
    u := Entering(t, h, x);
    u := Sampling(u, h.(flag := true, pc := HSample, i := 1, samples := h.samples[0 := x.active]), x);
  }

  lemma Outside(t: State, h: Hook, x: Slot) returns (u: State)
    requires Reached(t) && Waiting(t, h, x) && h.pc == HLeave
    ensures Reached(u) && Waiting(u, h.(pc := HOut, flag := false, samples := NoSamples()), x)
    ensures u.o == t.o && u.c == t.c && u.env == t.env
  {
    u := EdgeTurn(t, h, x);
    u := EdgeTurn(u, h.(pc := HDrop, samples := NoSamples()), x);
  }

  // ---------------------------------------------------------------- queue, body, completion

  ghost predicate Active(x: Slot, events: seq<Event>) {
    Prepared(x) && x.active == 1 && |x.logs| == LANES && x.logs[1] == Log(1, events)
  }

  const QUEUED := Event(Queue, 1, 40, 9)
  const RAN := Event(Body, 1, 40, 9)
  const FINISHED := Event(Done, 1, 40, 9)

  /** Outside its hooks, lane 1 is following `inv`. */
  ghost predicate Between(t: State, inv: Invocation, events: seq<Event>) {
    && |t.hooks| == LANES && |t.slots| == SLOTS && Active(t.slots[0], events)
    && Waiting(t, t.hooks[1], t.slots[0])
    && t.hooks[1] == t.hooks[1].(flag := false, pc := HOut, samples := NoSamples(), inv := inv)
  }

  lemma {:induction false} UnsampledDoNotMatch(slots: seq<Slot>, samples: seq<nat>, item: Item, i: nat, found: Match)
    requires |slots| == |samples| == SLOTS && i <= SLOTS && forall k | i <= k < SLOTS :: samples[k] == 0
    ensures MatchFrom(slots, samples, item, i, found) == found
    decreases SLOTS - i
  {
    if i < SLOTS { UnsampledDoNotMatch(slots, samples, item, i + 1, found); }
  }

  /** One access inside the body of a hook of lane 1. */
  lemma BodyTurn(t: State, h: Hook, x: Slot, events: seq<Event>, doing: Doing, at: nat) returns (u: State)
    requires Reached(t) && Waiting(t, h, x) && h.pc == HIn && Active(x, events) && at == HookSlot(t, 1, doing) == 0
    requires |h.samples| == SLOTS
    requires var m := HookWork(x, h, t.env, 1, 0, doing, t.env.inHook); !m.env.broken && m.env == t.env && m.h.flag
    ensures var m := HookWork(x, h, t.env, 1, 0, doing, t.env.inHook);
            Reached(u) && Waiting(u, m.h, m.x) && u.o == t.o && u.c == t.c && u.env == t.env
  {
    u := HookTurn(t, 0, doing);
  }

  lemma Queued(t: State) returns (u: State)
    requires Reached(t) && Between(t, NO_INVOCATION, [])
    ensures Reached(u) && Between(u, Invocation(1, 40, 1), [QUEUED]) && u.o == t.o && u.c == t.c && u.env == t.env
  {
    var h, x := t.hooks[1], t.slots[0];
    u := Inside(t, h, x);
    h := h.(flag := true, pc := HIn, i := SLOTS, samples := Sampled(1));
    UnsampledDoNotMatch(u.slots, h.samples, ITEM, 1, Hit(0));
    assert HookSlot(u, 1, Queueing(ITEM)) == 0;
    u := BodyTurn(u, h, x, [], Queueing(ITEM), 0);
    h := h.(pc := HLeave, inv := Invocation(1, 40, 1));
    x := Append(x, 1, QUEUED);
    u := Outside(u, h, x);
  }

  lemma Ran(t: State) returns (u: State)
    requires Reached(t) && Between(t, Invocation(1, 40, 1), [QUEUED])
    ensures Reached(u) && Between(u, Invocation(1, 40, 2), [QUEUED, RAN]) && u.o == t.o && u.c == t.c && u.env == t.env
  {
    var h, x := t.hooks[1], t.slots[0];
    u := Inside(t, h, x);
    h := h.(flag := true, pc := HIn, i := SLOTS, samples := Sampled(1));
    assert HookSlot(u, 1, Running(true, true)) == 0;
    u := BodyTurn(u, h, x, [QUEUED], Running(true, true), 0);
    h := h.(pc := HLeave, inv := Invocation(1, 40, 2));
    x := Append(x, 1, RAN);
    assert [QUEUED] + [RAN] == [QUEUED, RAN];
    u := Outside(u, h, x);
  }

  lemma Completed(t: State) returns (u: State)
    requires Reached(t) && Between(t, Invocation(1, 40, 2), [QUEUED, RAN])
    ensures Reached(u) && Stage(u) && u.env == t.env && u.o == t.o && u.c == t.c
    ensures Prepared(u.slots[0]) && u.slots[0].done == 1 && forall l | 0 <= l < LANES :: !u.hooks[l].flag
  {
    var h, x := t.hooks[1], t.slots[0];
    u := Inside(t, h, x);
    h := h.(flag := true, pc := HIn, i := SLOTS, samples := Sampled(1));
    assert HookSlot(u, 1, Completing(true, true)) == 0;
    u := BodyTurn(u, h, x, [QUEUED, RAN], Completing(true, true), 0);
    h := h.(pc := HClear, inv := NO_INVOCATION, at := 0, id := 1);
    x := Append(x, 1, FINISHED);
    u := EdgeTurn(u, h, x);
    u := EdgeTurn(u, h.(pc := HDone), x.(active := 0));
    u := Outside(u, h.(pc := HLeave), x.(active := 0, done := 1));
  }

  // ---------------------------------------------------------------- refusal and reclamation

  /** What the run shows in the end. */
  ghost predicate RefusedAndDone(x: Slot) {
    && x.published == 1 && x.processed == 1 && x.rejected == 2 && x.done == 1 && x.accepted == FADER &&
         x.started == 0 && x.active == 0
  }

  lemma Withdrawn(t: State) returns (u: State)
    requires Reached(t) && Owning(t, t.o, t.slots[0]) && Prepared(t.slots[0]) && t.slots[0].done == 1
    requires t.o.pc == OValidate && t.o.number == 1
    ensures Reached(u) && Owning(u, u.o, u.slots[0]) && u.hooks == t.hooks && u.c == t.c
    ensures RefusedAndDone(u.slots[0]) && u.slots[0].reclaimed == 0 && u.o.pc == OCount && u.o.late
  {
    var x, o := t.slots[0], t.o;
    var late := o.(why := 2, late := true);
    u := Prepares(t, o, x, 2, late.(pc := OWithdraw), x);
    u := Prepares(u, late.(pc := OWithdraw), x, 0, late.(pc := ORefuse), x.(active := 0));
    u := Refusing(u, late.(pc := ORefuse), x.(active := 0));
  }

  lemma Refusing(t: State, o: Owner, x: Slot) returns (u: State)
    requires Reached(t) && Owning(t, o, x) && o.pc == ORefuse && o.number == 1 && o.why == 2
    ensures Reached(u) && u.hooks == t.hooks && u.c == t.c
    ensures Owning(u, o.(pc := OCount), x.(rejected := 2, processed := 1))
  {
    u := Prepares(t, o, x, 0, o.(pc := ORefused), x.(rejected := 2));
    u := Prepares(u, o.(pc := ORefused), x.(rejected := 2), 0, o.(pc := OCount), x.(rejected := 2, processed := 1));
  }

  lemma Left(t: State) returns (u: State)
    requires Reached(t) && Owning(t, t.o, t.slots[0]) && t.o.pc == OCount && t.o.late
    ensures Reached(u) && Stage(u) && u.hooks == t.hooks && u.c == t.c && u.slots[0] == t.slots[0] && !u.env.inHook
  {
    u := Counted(t, t.o, t.slots[0]);
    u := Failing(u, t.o.(pc := OFail), t.slots[0]);
    u := Leaves(u, t.o.(pc := OReady), t.slots[0]);
  }

  lemma Counted(t: State, o: Owner, x: Slot) returns (u: State)
    requires Reached(t) && Owning(t, o, x) && o.pc == OCount && o.late
    ensures Reached(u) && Owning(u, o.(pc := OFail), x) && u.hooks == t.hooks && u.c == t.c
  {
    var counted := t.env.(consumed := t.env.consumed + 1, counted := t.env.counted + {o.number});
    u := Ends(t, o, x, o.(pc := OFail), counted);
  }

  lemma Failing(t: State, o: Owner, x: Slot) returns (u: State)
    requires Reached(t) && Owning(t, o, x) && o.pc == OFail
    ensures Reached(u) && Owning(u, o.(pc := OReady), x) && u.hooks == t.hooks && u.c == t.c
  {
    u := Ends(t, o, x, o.(pc := OReady), t.env.(running := false));
  }

  lemma Leaves(t: State, o: Owner, x: Slot) returns (u: State)
    requires Reached(t) && Owning(t, o, x) && o.pc == OReady
    ensures Reached(u) && Stage(u) && u.hooks == t.hooks && u.c == t.c && u.slots[0] == x && !u.env.inHook
  {
    u := Visits(t, o, x, SLOTS, o.(pc := OExit), t.env);
    u := Visits(u, o.(pc := OExit), x, 0, o.(pc := OIdle), t.env.(inHook := false));
  }

  /** One access of the consumer. */
  lemma RetireTurn(t: State) returns (u: State)
    requires Reached(t) && Stage(t) && t.c.at == 0
    ensures Reached(u) && Shape(u)
    ensures u == RetireStep(t, 0)
  {
    u := ThenStep(t, RetireActs(0));
  }

  ghost predicate Clearing(t: State) {
    && Stage(t) && RefusedAndDone(t.slots[0]) && !t.env.inHook && t.c.at == 0
    && (forall l | 0 <= l < LANES :: !t.hooks[l].flag)
  }

  lemma Checked(t: State) returns (u: State)
    requires Reached(t) && Clearing(t) && t.c.pc == RIdle && t.slots[0].reclaimed == 0
    ensures Reached(u) && Clearing(u) && u.c.pc == RActive && u.c.number == 1
  {
    u := RetireTurn(t);
    u := RetireTurn(u);
    u := RetireTurn(u);
    u := RetireTurn(u);
  }

  lemma Inspected(t: State) returns (u: State)
    requires Reached(t) && Clearing(t) && t.c.pc == RActive && t.c.number == 1
    ensures Reached(u) && Clearing(u) && u.c.pc == RLanes && u.c.number == 1 && u.c.i == 0
  {
    u := RetireTurn(t);
    u := RetireTurn(u);
    u := RetireTurn(u);
  }

  lemma LanesChecked(t: State) returns (u: State)
    requires Reached(t) && Clearing(t) && t.c.pc == RActive && t.c.number == 1
    ensures Reached(u) && Clearing(u) && u.c.pc == RRejected && u.c.number == 1
  {
    u := Inspected(t);
    while u.c.i < LANES
      invariant Reached(u) && Clearing(u) && u.c.pc == RLanes && u.c.number == 1 && u.c.i <= LANES
      decreases LANES - u.c.i
    {
      u := RetireTurn(u);
    }
    u := RetireTurn(u);
  }

  lemma Excused(t: State) returns (u: State)
    requires Reached(t) && Clearing(t) && t.c.pc == RRejected && t.c.number == 1
    ensures Reached(u) && Clearing(u) && u.c.pc == RCount && u.c.number == 1
  {
    assert t.slots[0].dispatched != 1 by { ReachedKeeps(t); assert SlotAt(t, 0); }
    u := RetireTurn(t);
    u := RetireTurn(u);
    u := RetireTurn(u);
  }

  lemma Released(t: State) returns (u: State)
    requires Reached(t) && Clearing(t) && t.c.pc == RCount && t.c.number == 1
    ensures Reached(u) && |u.slots| == SLOTS && RefusedAndDone(u.slots[0]) && u.slots[0].reclaimed == 1 && !u.env.broken
  {
    u := RetireTurn(t);
    u := RetireTurn(u);
  }

  lemma FirstHalf() returns (t: State)
    ensures Reached(t) && Stage(t) && t.c == Initial().c && Between(t, NO_INVOCATION, [])
    ensures t.o.pc == OValidate && t.o.at == 0 && t.o.number == 1
  {
    t := Published();
    t := TakenUp(t);
    t := Scanned(t);
    t := Cleared(t);
    t := Activated(t);
  }

  lemma SecondHalf(t: State) returns (u: State)
    requires Reached(t) && Stage(t) && t.c == Initial().c && Between(t, NO_INVOCATION, [])
    requires t.o.pc == OValidate && t.o.at == 0 && t.o.number == 1
    ensures Reached(u) && Clearing(u) && u.c == Initial().c && u.slots[0].reclaimed == 0
  {
    u := Queued(t);
    u := Ran(u);
    u := Completed(u);
    u := Withdrawn(u);
    u := Left(u);
  }

  /** The run: request 1 is refused, never started natively, reclaimed, and its `done` word says 1. */
  lemma RefusedYetDone() returns (schedule: seq<Action>)
    ensures Inv(Initial())
    ensures var s := (InitialInv(); Exec(Initial(), schedule));
            var x := s.slots[0];
            !s.env.broken && x.published != 0 && x.reclaimed == x.published && Refused(x) && x.done == x.published
  {
    var t := FirstHalf();
    t := SecondHalf(t);
    t := Checked(t);
    t := LanesChecked(t);
    t := Excused(t);
    t := Released(t);
    schedule :| Run(schedule) == t;
    ShowsRefusal(t);
    InitialInv();
  }

  lemma ShowsRefusal(t: State)
    requires Reached(t) && |t.slots| == SLOTS && RefusedAndDone(t.slots[0])
    ensures Refused(t.slots[0])
  {
    ReachedKeeps(t);
    assert SlotAt(t, 0);
  }
}
