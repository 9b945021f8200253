/** Every access of the owner keeps the invariants of the mailbox. */
module MailboxOwner {
  import opened Mailbox
  import opened MailboxWords

  // ---------------------------------------------------------------- the owner moves

  lemma VisitKeeps(x: Slot, o: Owner, env: Env, choice: nat)
    requires SlotInv(x) && OwnerInv(x, o.at, o, env) && Rank(o.pc) < 20 && o.at < SLOTS
    requires x.reclaimed != x.published ==> x.request.number == x.published
    ensures var m := OwnerVisit(x, o, env, choice);
            m.x == x && (m.o.at == o.at ==> OwnerInv(x, o.at, m.o, m.env)) && m.o.at < SLOTS
  {
  }

  lemma DecideKeeps(x: Slot, y: Slot, o: Owner, env: Env, choice: nat, program: nat)
    requires SlotInv(x) && OwnerInv(x, o.at, o, env) && 20 <= Rank(o.pc) < 23
    requires x.reclaimed != x.published ==> x.request.number == x.published
    ensures var m := OwnerDecide(x, y, o, env, choice, program);
            m.x == x && OwnerInv(x, o.at, m.o, m.env) && m.o.at == o.at
  {
  }

  lemma ResetKeeps(x: Slot, o: Owner, env: Env, choice: nat)
    requires SlotInv(x) && OwnerInv(x, o.at, o, env) && o.pc in {OAccept, OReset}
    ensures var m := OwnerPrepare(x, o, env, choice);
            SlotInv(m.x) && OwnerInv(m.x, o.at, m.o, m.env) && m.o.at == o.at
  {
  }

  lemma ActivateKeeps(x: Slot, o: Owner, env: Env, choice: nat)
    requires SlotInv(x) && OwnerInv(x, o.at, o, env) && o.pc in {OClear, OActivate}
    ensures var m := OwnerPrepare(x, o, env, choice);
            SlotInv(m.x) && OwnerInv(m.x, o.at, m.o, m.env) && m.o.at == o.at
  {
  }

  lemma ValidateKeeps(x: Slot, o: Owner, env: Env, choice: nat)
    requires SlotInv(x) && OwnerInv(x, o.at, o, env) && o.pc in {OValidate, OWithdraw}
    ensures var m := OwnerPrepare(x, o, env, choice);
            SlotInv(m.x) && OwnerInv(m.x, o.at, m.o, m.env) && m.o.at == o.at
  {
  }

  lemma RefuseKeeps(x: Slot, o: Owner, env: Env, choice: nat)
    requires SlotInv(x) && OwnerInv(x, o.at, o, env) && o.pc in {ORefuse, ORefused}
    ensures var m := OwnerPrepare(x, o, env, choice);
            SlotInv(m.x) && OwnerInv(m.x, o.at, m.o, m.env) && m.o.at == o.at
  {
  }

  /** Recording an event touches one lane's events and nothing else. */
  lemma RecordKeeps(x: Slot, lane: nat, e: Event)
    requires SlotInv(x) && lane < LANES
    ensures var x' := Recorded(x, lane, e);
            SlotInv(x') && x'.(logs := x.logs) == x && (Admitted(x) ==> Admitted(x'))
            && (forall l | 0 <= l < LANES :: x'.logs[l].sequence == x.logs[l].sequence)
  {
  }

  lemma RecordedInv(x: Slot, o: Owner, env: Env, e: Event, o': Owner, env': Env)
    requires SlotInv(x) && OwnerInv(x, o.at, o, env) && o.pc in {OAttempt, OBegin, OEnd, OReturning}
    requires o' == o.(pc := o'.pc) &&
             Rank(o'.pc) == (if o.pc == OAttempt then 32 else if o.pc == OReturning then 40 else 35)
    requires env'.inHook == env.inHook
    ensures SlotInv(Recorded(x, 0, e)) && OwnerInv(Recorded(x, 0, e), o.at, o', env')
  {
    RecordKeeps(x, 0, e);
  }

  lemma AttemptKeeps(x: Slot, o: Owner, env: Env, choice: nat)
    requires SlotInv(x) && OwnerInv(x, o.at, o, env) && o.pc == OAttempt
    ensures var m := OwnerPrepare(x, o, env, choice);
            SlotInv(m.x) && OwnerInv(m.x, o.at, m.o, m.env) && m.o.at == o.at
  {
    var m := OwnerPrepare(x, o, env, choice);
    RecordedInv(x, o, env, Event(Attempt, o.number, 0, x.accepted.bits), m.o, m.env);
  }

  lemma RunRecords(x: Slot, o: Owner, env: Env, choice: nat)
    requires SlotInv(x) && OwnerInv(x, o.at, o, env) && o.pc in {OBegin, OEnd, OReturning}
    ensures var m := OwnerRun(x, o, env, choice);
            SlotInv(m.x) && OwnerInv(m.x, o.at, m.o, m.env) && m.o.at == o.at
  {
    var m := OwnerRun(x, o, env, choice);
    var kind, bits := if o.pc == OBegin then OwnerBegin else if o.pc == OEnd then OwnerEnd else Returning,
                      if o.pc == OReturning then x.accepted.bits else o.req.bits;
    RecordedInv(x, o, env, Event(kind, o.number, 0, bits), m.o, m.env);
  }

  lemma StartKeeps(x: Slot, o: Owner, env: Env, choice: nat)
    requires SlotInv(x) && OwnerInv(x, o.at, o, env) && o.pc in {OStart, OCall, OSyncClear, OSyncDone, ONative}
    ensures var m := OwnerRun(x, o, env, choice);
            SlotInv(m.x) && OwnerInv(m.x, o.at, m.o, m.env) && m.o.at == o.at
  {
  }

  lemma FinishKeeps(x: Slot, o: Owner, env: Env, choice: nat)
    requires SlotInv(x) && OwnerInv(x, o.at, o, env) && o.pc in {ODispatched, OReturned, OProcess}
    ensures var m := OwnerRun(x, o, env, choice);
            SlotInv(m.x) && OwnerInv(m.x, o.at, m.o, m.env) && m.o.at == o.at
  {
  }

  lemma CountKeeps(x: Slot, o: Owner, env: Env, choice: nat)
    requires SlotInv(x) && OwnerInv(x, o.at, o, env) && o.pc in {OCount, OFail}
    ensures var m := OwnerRun(x, o, env, choice);
            SlotInv(m.x) && OwnerInv(m.x, o.at, m.o, m.env) && m.o.at == o.at
  {
  }

  lemma PrepareKeepsOwn(x: Slot, o: Owner, env: Env, choice: nat)
    requires SlotInv(x) && OwnerInv(x, o.at, o, env) && (23 <= Rank(o.pc) < 34 || 42 <= Rank(o.pc) <= 43)
    ensures var m := OwnerPrepare(x, o, env, choice);
            SlotInv(m.x) && OwnerInv(m.x, o.at, m.o, m.env) && m.o.at == o.at
  {
    if o.pc in {OAccept, OReset} { ResetKeeps(x, o, env, choice); }
    else if o.pc in {OClear, OActivate} { ActivateKeeps(x, o, env, choice); }
    else if o.pc == OAttempt { AttemptKeeps(x, o, env, choice); }
    else if o.pc in {OValidate, OWithdraw} { ValidateKeeps(x, o, env, choice); }
    else { RefuseKeeps(x, o, env, choice); }
  }

  lemma RunKeepsOwn(x: Slot, o: Owner, env: Env, choice: nat)
    requires SlotInv(x) && OwnerInv(x, o.at, o, env) && (34 <= Rank(o.pc) < 42 || 50 <= Rank(o.pc))
    ensures var m := OwnerRun(x, o, env, choice);
            SlotInv(m.x) && OwnerInv(m.x, o.at, m.o, m.env) && m.o.at == o.at
  {
    if o.pc in {OBegin, OEnd, OReturning} { RunRecords(x, o, env, choice); }
    else if o.pc in {OStart, OCall, OSyncClear, OSyncDone, ONative} { StartKeeps(x, o, env, choice); }
    else if o.pc in {OCount, OFail} { CountKeeps(x, o, env, choice); }
    else { FinishKeeps(x, o, env, choice); }
  }

  lemma OwnerKeepsOwn(x: Slot, y: Slot, o: Owner, env: Env, choice: nat, program: nat)
    requires SlotInv(x) && OwnerInv(x, o.at, o, env) && o.at < SLOTS
    requires x.reclaimed != x.published ==> x.request.number == x.published
    ensures var m := OwnerMove(x, y, o, env, choice, program);
            SlotInv(m.x) && m.o.at < SLOTS && (m.o.at == o.at ==> OwnerInv(m.x, o.at, m.o, m.env))
  {
    var r := Rank(o.pc);
    if r < 20 { VisitKeeps(x, o, env, choice); }
    else if r < 23 { DecideKeeps(x, y, o, env, choice, program); }
    else if r < 34 || r == 42 || r == 43 { PrepareKeepsOwn(x, o, env, choice); }
    else { RunKeepsOwn(x, o, env, choice); }
  }

  /** The words an owner's move leaves to the others. */
  ghost predicate OwnerTouch(x: Slot, o: Owner, env: Env, m: OwnerMoved) {
    && m.x.request == x.request && m.x.published == x.published && m.x.sealed == x.sealed
    && m.x.settled == x.settled && m.x.reclaimed == x.reclaimed
    && (m.x.raised == x.raised || m.x.raised == o.number)
    && (!Serving(o, o.at) ==> m.x == x)
    && (m.o.at == o.at || (o.pc == OReady && m.o.pc == OPublished))
    && (Rank(m.o.pc) == 50 ==> Serving(o, o.at))
    && m.env.published == env.published && m.env.reclaimed == env.reclaimed && m.env.freed == env.freed
    && (2 <= Rank(m.o.pc) && Rank(m.o.pc) != 4 ==> m.env.inHook || (2 <= Rank(o.pc) && Rank(o.pc) != 4 && !env.inHook))
  }

  lemma VisitTouches(x: Slot, o: Owner, env: Env, choice: nat)
    requires Rank(o.pc) < 20
    ensures OwnerTouch(x, o, env, OwnerVisit(x, o, env, choice))
  {
  }

  lemma DecideTouches(x: Slot, y: Slot, o: Owner, env: Env, choice: nat, program: nat)
    requires 20 <= Rank(o.pc) < 23
    ensures OwnerTouch(x, o, env, OwnerDecide(x, y, o, env, choice, program))
  {
  }

  lemma PrepareTouches(x: Slot, o: Owner, env: Env, choice: nat)
    requires |x.logs| == LANES && (23 <= Rank(o.pc) < 34 || 42 <= Rank(o.pc) <= 43)
    ensures OwnerTouch(x, o, env, OwnerPrepare(x, o, env, choice))
  {
  }

  lemma RunTouches(x: Slot, o: Owner, env: Env, choice: nat)
    requires |x.logs| == LANES && (34 <= Rank(o.pc) < 42 || 50 <= Rank(o.pc))
    ensures OwnerTouch(x, o, env, OwnerRun(x, o, env, choice))
  {
  }

  lemma OwnerTouches(x: Slot, y: Slot, o: Owner, env: Env, choice: nat, program: nat)
    requires |x.logs| == LANES
    ensures OwnerTouch(x, o, env, OwnerMove(x, y, o, env, choice, program))
  {
    var r := Rank(o.pc);
    if r < 20 { VisitTouches(x, o, env, choice); }
    else if r < 23 { DecideTouches(x, y, o, env, choice, program); }
    else if r < 34 || r == 42 || r == 43 { PrepareTouches(x, o, env, choice); }
    else { RunTouches(x, o, env, choice); }
  }

  /** What an owner's move means for the other actors' view of the slot it works on. */
  lemma OwnerAndOthers(x: Slot, o: Owner, env: Env, m: OwnerMoved, hooks: seq<Hook>, c: Retire, wr: Writer)
    requires o.at < SLOTS && OwnerTouch(x, o, env, m) && OwnerInv(x, o.at, o, env)
    requires HooksInv(x, o.at, hooks)
    requires RetireInv(x, o.at, c, o, hooks) && WriterInv(x, o.at, wr, env)
    ensures HooksInv(m.x, o.at, hooks)
    ensures RetireInv(m.x, o.at, c, m.o, hooks) && WriterInv(m.x, o.at, wr, m.env)
  {
  }

  /** A slot the owner does not work on. */
  lemma OwnerElsewhere(x: Slot, at: nat, o: Owner, env: Env, m: OwnerMoved, z: Slot, hooks: seq<Hook>, c: Retire,
      wr: Writer)
    requires at != o.at && OwnerTouch(z, o, env, m)
    requires OwnerInv(x, at, o, env) && RetireInv(x, at, c, o, hooks) && WriterInv(x, at, wr, env)
    ensures OwnerInv(x, at, m.o, m.env) && RetireInv(x, at, c, m.o, hooks) && WriterInv(x, at, wr, m.env)
  {
  }

  lemma OwnerInvAway(x: Slot, at: nat, o: Owner, env: Env, m: OwnerMoved)
    requires o.at == at && m.o.at != at && OwnerTouch(x, o, env, m) && OwnerInv(x, at, o, env)
    ensures OwnerInv(m.x, at, m.o, m.env)
  {
  }

  /** What has been shown of a move `m` of the owner, whichever access it was. */
  ghost predicate OwnerResult(s: State, m: OwnerMoved)
    requires Shape(s)
  {
    && OwnerTouch(s.slots[s.o.at], s.o, s.env, m)
    && SlotInv(m.x) && m.o.at < SLOTS && (m.o.at == s.o.at ==> OwnerInv(m.x, s.o.at, m.o, m.env))
  }

  function AfterOwner(s: State, m: OwnerMoved): State
    requires Shape(s)
  {
    s.(slots := s.slots[s.o.at := m.x], o := m.o, env := m.env)
  }

  lemma OwnerKeepsSlot(s: State, m: OwnerMoved, at: nat)
    requires Inv(s) && at < SLOTS && OwnerResult(s, m)
    ensures Shape(AfterOwner(s, m)) && SlotAt(AfterOwner(s, m), at)
  {
    var x := s.slots[s.o.at];
    assert SlotAt(s, s.o.at) && SlotAt(s, at);
    if at == s.o.at {
      OwnerAndOthers(x, s.o, s.env, m, s.hooks, s.c, s.wr);
      if m.o.at != at { OwnerInvAway(x, at, s.o, s.env, m); }
    } else {
      OwnerElsewhere(s.slots[at], at, s.o, s.env, m, x, s.hooks, s.c, s.wr);
    }
  }

  lemma OwnerResultKeeps(s: State, m: OwnerMoved)
    requires Inv(s) && OwnerResult(s, m)
    ensures Inv(AfterOwner(s, m))
  {
    OwnerKeepsSlot(s, m, 0);
    forall at | 0 <= at < SLOTS
      ensures SlotAt(AfterOwner(s, m), at)
    {
      OwnerKeepsSlot(s, m, at);
    }
  }

  lemma OwnerStepKeeps(s: State, choice: nat, program: nat)
    requires Inv(s)
    ensures Inv(OwnerStep(s, choice, program))
  {
    var x, y := s.slots[s.o.at], s.slots[if s.o.i < SLOTS then s.o.i else 0];
    assert SlotAt(s, s.o.at);
    OwnerTouches(x, y, s.o, s.env, choice, program);
    OwnerKeepsOwn(x, y, s.o, s.env, choice, program);
    OwnerResultKeeps(s, OwnerMove(x, y, s.o, s.env, choice, program));
  }
}
