/** Every access of a source hook keeps the invariants of the mailbox. */
module MailboxHooks {
  import opened Requests
  import opened Mailbox
  import opened MailboxWords

  // ---------------------------------------------------------------- what a hook can touch

  /** A hook records, clears `active` or stores `done`; nothing else of the slot changes. */
  ghost predicate HookTouch(x: Slot, env: Env, m: HookMoved) {
    && m.x.(active := x.active, done := x.done, logs := x.logs) == x
    && (m.x.active == x.active || m.x.active == 0)
    && (m.x.done == x.done || (m.x.done == x.published && x.raised == x.published))
    && |m.x.logs| == |x.logs| && (forall l | 0 <= l < |x.logs| :: m.x.logs[l].sequence == x.logs[l].sequence)
    && m.env.(running := env.running, broken := env.broken) == env
    && (env.broken ==> m.env.broken)
  }

  /** Its samples stay, are dropped, or take the value of the slot's `active`. */
  ghost predicate HookSampled(x: Slot, at: nat, h: Hook, h': Hook) {
    && |h'.samples| == |h.samples| == SLOTS
    && forall k | 0 <= k < SLOTS ::
         h'.samples[k] == h.samples[k] || h'.samples[k] == 0 || (k == at && h'.samples[k] == x.active)
  }

  lemma EnterTouches(x: Slot, at: nat, h: Hook, env: Env, choice: nat)
    requires |x.logs| == LANES && SlotInv(x) && HookSelf(h) && at < SLOTS && HookInv(x, at, h)
    requires h.pc == HSample ==> h.i == at
    requires h.pc == HClear || h.pc == HDone ==> h.at == at
    ensures var m := HookEnter(x, h, env, choice);
            h.pc != HIn ==> HookTouch(x, env, m) && HookSampled(x, at, h, m.h) && HookSelf(m.h)
  {
  }

  lemma RecordTouches(x: Slot, lane: nat, e: Event, env: Env, h: Hook)
    requires lane < |x.logs|
    ensures HookTouch(x, env, HookMoved(Recorded(x, lane, e), h, Recording(x, lane, e, env)))
  {
  }

  lemma WorkTouches(x: Slot, at: nat, h: Hook, env: Env, lane: nat, doing: Doing, owner: bool)
    requires lane < |x.logs| && HookSelf(h) && at < SLOTS && h.pc == HIn
    requires doing.Running? || doing.Completing? ==> h.inv.request != 0
    ensures var m := HookWork(x, h, env, lane, at, doing, owner);
            HookTouch(x, env, m) && HookSampled(x, at, h, m.h) && HookSelf(m.h)
  {
    var m := HookWork(x, h, env, lane, at, doing, owner);
    match doing
    case Queueing(item) => RecordTouches(x, lane, Event(Queue, h.samples[at], item.capture, item.bits), env, m.h);
    case Running(_, _) => RecordTouches(x, lane, Event(Body, h.inv.request, h.inv.capture, x.accepted.bits), env, m.h);
    case Completing(_, _) =>
      RecordTouches(x, lane, Event(Done, h.inv.request, h.inv.capture, x.accepted.bits), env, m.h);
    case Committing(_, bits, known) =>
      var linked := (h.inv.request == h.samples[at] && h.inv.phase == 2) || (Synchronous(x.accepted) && owner);
      RecordTouches(x, lane, Event(if linked then Commit else OtherCommit, h.samples[at],
                                   if linked && !Synchronous(x.accepted) then h.inv.capture else 0, bits), env, m.h);
    case _ =>
  }

  // ---------------------------------------------------------------- what it means for the others

  lemma TouchedSlot(x: Slot, env: Env, m: HookMoved)
    requires SlotInv(x) && HookTouch(x, env, m)
    ensures SlotInv(m.x)
  {
  }

  lemma TouchedOthers(x: Slot, at: nat, env: Env, m: HookMoved, o: Owner, c: Retire, wr: Writer, hooks: seq<Hook>)
    requires HookTouch(x, env, m) && OwnerInv(x, at, o, env) && RetireInv(x, at, c, o, hooks)
    requires WriterInv(x, at, wr, env) && HooksInv(x, at, hooks)
    ensures OwnerInv(m.x, at, o, m.env) && RetireInv(m.x, at, c, o, hooks) && WriterInv(m.x, at, wr, m.env)
    ensures HooksInv(m.x, at, hooks)
  {
  }

  /** New samples of lane `l` at slot `at`, whose words are `x`. */
  lemma Resampled(x: Slot, at: nat, hooks: seq<Hook>, l: nat, h': Hook, c: Retire, o: Owner)
    requires SlotInv(x) && at < SLOTS && l < |hooks| && HooksInv(x, at, hooks) && RetireInv(x, at, c, o, hooks)
    requires |h'.samples| == |hooks[l].samples| == SLOTS
    requires h'.samples[at] == hooks[l].samples[at] || h'.samples[at] == 0 || h'.samples[at] == x.active
    ensures HooksInv(x, at, hooks[l := h']) && RetireInv(x, at, c, o, hooks[l := h'])
  {
  }

  function AfterHook(s: State, lane: nat, at: nat, m: HookMoved): State
    requires Shape(s) && lane < LANES
  {
    s.(slots := if at < SLOTS then s.slots[at := m.x] else s.slots, hooks := s.hooks[lane := m.h], env := m.env)
  }

  ghost predicate HookResult(s: State, lane: nat, at: nat, m: HookMoved)
    requires Shape(s) && lane < LANES
  {
    var x := s.slots[if at < SLOTS then at else 0];
    HookTouch(x, s.env, m) && HookSampled(x, at, s.hooks[lane], m.h) && HookSelf(m.h) && (at >= SLOTS ==> m.x == x)
  }

  lemma OnlyStopped(x: Slot, at: nat, env: Env, env': Env, o: Owner, wr: Writer)
    requires env'.(running := env.running, broken := env.broken) == env
    requires OwnerInv(x, at, o, env) && WriterInv(x, at, wr, env)
    ensures OwnerInv(x, at, o, env') && WriterInv(x, at, wr, env')
  {
  }

  lemma HookKeepsSlot(s: State, lane: nat, at: nat, m: HookMoved, k: nat)
    requires Inv(s) && lane < LANES && k < SLOTS && HookResult(s, lane, at, m)
    ensures var x, hooks := if k == at then m.x else s.slots[k], s.hooks[lane := m.h];
            && SlotInv(x) && OwnerInv(x, k, s.o, m.env) && HooksInv(x, k, hooks)
            && RetireInv(x, k, s.c, s.o, hooks) && WriterInv(x, k, s.wr, m.env)
  {
    var x := s.slots[k];
    assert SlotAt(s, k);
    Resampled(x, k, s.hooks, lane, m.h, s.c, s.o);
    if k == at {
      TouchedSlot(x, s.env, m);
      TouchedOthers(x, k, s.env, m, s.o, s.c, s.wr, s.hooks[lane := m.h]);
    } else {
      OnlyStopped(x, k, s.env, m.env, s.o, s.wr);
    }
  }

  lemma HookResultKeeps(s: State, lane: nat, at: nat, m: HookMoved)
    requires Inv(s) && lane < LANES && HookResult(s, lane, at, m)
    ensures Inv(AfterHook(s, lane, at, m))
  {
    var s' := AfterHook(s, lane, at, m);
    forall k | 0 <= k < SLOTS
      ensures |s'.slots[k].logs| == LANES && s'.slots[k].published == s.slots[k].published
    {
      assert SlotAt(s, k);
    }
    assert Shape(s');
    forall k | 0 <= k < SLOTS
      ensures SlotAt(s', k)
    {
      HookKeepsSlot(s, lane, at, m, k);
    }
  }

  lemma HookMoveResult(s: State, lane: nat, choice: nat, doing: Doing)
    requires Inv(s) && lane < LANES
    ensures HookResult(s, lane, HookSlot(s, lane, doing), HookMove(s, lane, choice, doing))
  {
    var h := s.hooks[lane];
    var at := HookSlot(s, lane, doing);
    if at < SLOTS {
      assert SlotAt(s, at) && HookInv(s.slots[at], at, h);
      if h.pc != HIn { EnterTouches(s.slots[at], at, h, s.env, choice); }
      else { WorkTouches(s.slots[at], at, h, s.env, lane, doing, s.env.inHook); }
    }
  }

  lemma HookStepKeeps(s: State, lane: nat, choice: nat, doing: Doing)
    requires Inv(s) && lane < LANES
    ensures Inv(HookStep(s, lane, choice, doing))
  {
    HookMoveResult(s, lane, choice, doing);
    HookResultKeeps(s, lane, HookSlot(s, lane, doing), HookMove(s, lane, choice, doing));
  }
}
