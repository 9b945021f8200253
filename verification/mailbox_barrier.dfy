/** The seal barrier (a grace period) and honest reclamation. */
module MailboxBarrier {
  import opened Requests
  import opened Mailbox
  import opened MailboxWords
  import opened MailboxRetire

  // ---------------------------------------------------------------- the barrier

  /** The consumer sealed or reclaimed slot `at`'s request, or has found everything clear to do so. */
  ghost predicate Drained(s: State, at: nat)
    requires Shape(s) && at < SLOTS
  {
    var x := s.slots[at];
    x.published != 0 &&
    ((s.c.at == at && 8 <= Past(s.c.pc)) || x.sealed == x.published || x.reclaimed == x.published)
  }

  /** Request `p` of slot `at` is over for every source thread. */
  ghost predicate Barrier(s: State, at: nat, p: nat)
    requires Shape(s) && at < SLOTS
  {
    && p != 0 && s.slots[at].published == p && s.slots[at].processed == p && s.slots[at].active == 0
    && forall l, k | 0 <= l < LANES && 0 <= k < SLOTS :: s.hooks[l].samples[k] != p
  }

  lemma SampleIsHere(s: State, l: nat, k: nat, at: nat)
    requires Inv(s) && l < LANES && k < SLOTS && at < SLOTS && s.slots[at].published != 0
    requires s.hooks[l].samples[k] == s.slots[at].published
    ensures k == at && HookInv(s.slots[at], at, s.hooks[l])
  {
    assert SlotAt(s, k) && SlotAt(s, at);
    assert HookInv(s.slots[k], k, s.hooks[l]);
  }

  /** Whatever led here: no thread inside a hook holds the drained request, and none can sample it. */
  lemma SealBarrier(s: State, at: nat)
    requires Inv(s) && at < SLOTS && Drained(s, at)
    ensures Barrier(s, at, s.slots[at].published)
  {
    var x := s.slots[at];
    assert SlotAt(s, at);
    forall l, k | 0 <= l < LANES && 0 <= k < SLOTS
      ensures s.hooks[l].samples[k] != x.published
    {
      if s.hooks[l].samples[k] == x.published { SampleIsHere(s, l, k, at); }
    }
  }

  // ---------------------------------------------------------------- what stays so

  /** A hook without a sample of the slot changes nothing in it. */
  lemma HookWithoutSample(s: State, lane: nat, choice: nat, doing: Doing, at: nat)
    requires Inv(s) && lane < LANES && at < SLOTS && s.hooks[lane].samples[at] == 0
    ensures HookStep(s, lane, choice, doing).slots[at] == s.slots[at]
  {
    var h := s.hooks[lane];
    if HookSlot(s, lane, doing) == at {
      assert HookSelf(h);
      if h.pc == HIn {
        assert HookWork(s.slots[at], h, s.env, lane, at, doing, s.env.inHook).x == s.slots[at];
      }
    }
  }

  lemma HookSamplesAfter(s: State, lane: nat, choice: nat, doing: Doing, at: nat)
    requires Inv(s) && lane < LANES && at < SLOTS && s.hooks[lane].samples[at] == 0 && s.slots[at].active == 0
    ensures HookStep(s, lane, choice, doing).hooks[lane].samples[at] == 0
  {
    MailboxHooks.HookMoveResult(s, lane, choice, doing);
  }

  /** The owner leaves a processed slot alone. */
  lemma OwnerPassesBy(s: State, choice: nat, program: nat, at: nat)
    requires Inv(s) && at < SLOTS && s.slots[at].processed == s.slots[at].published
    ensures OwnerStep(s, choice, program).slots[at] == s.slots[at]
  {
    assert SlotAt(s, at);
    if s.o.at == at {
      MailboxOwner.OwnerTouches(s.slots[at], s.slots[if s.o.i < SLOTS then s.o.i else 0], s.o, s.env, choice, program);
    }
  }

  /** What the barrier freezes: the evidence and every mark the consumer and the writer do not own. */
  ghost predicate Frozen(x: Slot, x': Slot) {
    && x'.logs == x.logs && x'.done == x.done && x'.returned == x.returned && x'.dispatched == x.dispatched
    && x'.started == x.started && x'.rejected == x.rejected && x'.accepted == x.accepted && x'.active == x.active
  }

  lemma BarrierHook(s: State, lane: nat, choice: nat, doing: Doing, at: nat, p: nat)
    requires Inv(s) && at < SLOTS && lane < LANES && Barrier(s, at, p)
    ensures var s' := HookStep(s, lane, choice, doing); Inv(s') && Barrier(s', at, p) && s'.slots[at] == s.slots[at]
  {
    assert SlotAt(s, at) && HookInv(s.slots[at], at, s.hooks[lane]);
    HookWithoutSample(s, lane, choice, doing, at);
    HookSamplesAfter(s, lane, choice, doing, at);
    MailboxHooks.HookStepKeeps(s, lane, choice, doing);
    var s' := HookStep(s, lane, choice, doing);
    forall l, k | 0 <= l < LANES && 0 <= k < SLOTS
      ensures s'.hooks[l].samples[k] != p
    {
      if s'.hooks[l].samples[k] == p { SampleIsHere(s', l, k, at); }
    }
  }

  /** Every later access leaves the barrier standing and the evidence frozen, until the writer reuses
      the slot, which it can do only after reclamation. */
  lemma BarrierStep(s: State, a: Action, at: nat, p: nat)
    requires Inv(s) && at < SLOTS && Barrier(s, at, p)
    ensures var s' := Step(s, a);
            Inv(s') &&
            (if s'.slots[at].published == p then Barrier(s', at, p) && Frozen(s.slots[at], s'.slots[at])
             else s.slots[at].reclaimed == p && p < s'.slots[at].published)
  {
    StepKeepsInv(s, a);
    assert SlotAt(s, at);
    match a {
      case OwnerActs(choice, program) => OwnerPassesBy(s, choice, program, at);
      case HookActs(lane, choice, doing) => if lane < LANES { BarrierHook(s, lane, choice, doing, at, p); }
      case RetireActs(choice) =>
      case WriterActs(choice) =>
      case _ =>
    }
  }

  lemma PublishedStep(s: State, a: Action, at: nat)
    requires Inv(s) && at < SLOTS
    ensures s.slots[at].published <= Step(s, a).slots[at].published
  {
    assert SlotAt(s, at);
    match a {
      case OwnerActs(choice, program) =>
        MailboxOwner.OwnerTouches(s.slots[s.o.at], s.slots[if s.o.i < SLOTS then s.o.i else 0], s.o, s.env, choice,
          program);
      case HookActs(lane, choice, doing) => if lane < LANES { MailboxHooks.HookMoveResult(s, lane, choice, doing); }
      case _ =>
    }
  }

  lemma {:induction false} PublishedGrows(s: State, schedule: seq<Action>, at: nat)
    requires Inv(s) && at < SLOTS
    ensures s.slots[at].published <= Exec(s, schedule).slots[at].published
    decreases |schedule|
  {
    if schedule != [] {
      StepKeepsInv(s, schedule[0]);
      PublishedStep(s, schedule[0], at);
      PublishedGrows(Step(s, schedule[0]), schedule[1..], at);
    }
  }

  // ---------------------------------------------------------------- also after the slot is reused

  /** Sequence `p` is over for good: wherever it is still published its barrier stands, and it will not be
      published again. */
  ghost predicate Over(s: State, p: nat) {
    && Inv(s) && 0 < p <= s.env.published && (s.wr.pc == WPublish ==> p < s.wr.req.number)
    && forall at | 0 <= at < SLOTS && s.slots[at].published == p :: Barrier(s, at, p)
  }

  lemma BarrierIsOver(s: State, at: nat, p: nat)
    requires Inv(s) && at < SLOTS && Barrier(s, at, p)
    ensures Over(s, p)
  {
    assert SlotAt(s, at);
  }

  /** Nobody holds it, and nobody could come to hold it. */
  ghost predicate Unheld(s: State, p: nat)
    requires Shape(s)
  {
    && (forall l, k | 0 <= l < LANES && 0 <= k < SLOTS :: s.hooks[l].samples[k] != p)
    && (forall k | 0 <= k < SLOTS :: s.slots[k].active != p)
  }

  lemma OverIsUnheld(s: State, p: nat)
    requires Over(s, p)
    ensures Unheld(s, p)
  {
    forall l, k | 0 <= l < LANES && 0 <= k < SLOTS
      ensures s.hooks[l].samples[k] != p
    {
      assert SlotAt(s, k) && HookInv(s.slots[k], k, s.hooks[l]);
    }
    forall k | 0 <= k < SLOTS
      ensures s.slots[k].active != p
    {
      assert SlotAt(s, k);
    }
  }

  /** Every event for `p` in the later logs of a slot was there before, at the same place. */
  ghost predicate NothingNew(x: Slot, x': Slot, p: nat) {
    && |x.logs| == |x'.logs| == LANES
    && forall l, i | 0 <= l < LANES && 0 <= i < |x'.logs[l].events| && x'.logs[l].events[i].request == p ::
         i < |x.logs[l].events| && x.logs[l].events[i] == x'.logs[l].events[i]
  }

  lemma RecordsNothingNew(x: Slot, lane: nat, e: Event, p: nat)
    requires |x.logs| == LANES && lane < LANES && e.request != p
    ensures NothingNew(x, Recorded(x, lane, e), p)
  {
  }

  lemma PrepareAddsNothing(x: Slot, o: Owner, env: Env, choice: nat, p: nat)
    requires |x.logs| == LANES && o.number != p
    requires 23 <= Rank(o.pc) < 34 || 42 <= Rank(o.pc) <= 43
    ensures NothingNew(x, OwnerPrepare(x, o, env, choice).x, p)
  {
    if o.pc == OAttempt { RecordsNothingNew(x, 0, Event(Attempt, o.number, 0, x.accepted.bits), p); }
  }

  lemma RunAddsNothing(x: Slot, o: Owner, env: Env, choice: nat, p: nat)
    requires |x.logs| == LANES && o.number != p && 34 <= Rank(o.pc) <= 41
    ensures NothingNew(x, OwnerRun(x, o, env, choice).x, p)
  {
    match o.pc
    case OBegin => RecordsNothingNew(x, 0, Event(OwnerBegin, o.number, 0, o.req.bits), p);
    case OEnd => RecordsNothingNew(x, 0, Event(OwnerEnd, o.number, 0, o.req.bits), p);
    case OReturning => RecordsNothingNew(x, 0, Event(Returning, o.number, 0, x.accepted.bits), p);
    case _ =>
  }

  /** The owner is not serving `p`, and records only for the request it serves. */
  lemma OwnerAddsNothing(s: State, choice: nat, program: nat, k: nat, p: nat)
    requires Over(s, p) && k < SLOTS
    ensures NothingNew(s.slots[k], OwnerStep(s, choice, program).slots[k], p)
  {
    var o, x, y := s.o, s.slots[s.o.at], s.slots[if s.o.i < SLOTS then s.o.i else 0];
    assert SlotAt(s, k) && SlotAt(s, o.at);
    if k == o.at {
      MailboxOwner.OwnerTouches(x, y, o, s.env, choice, program);
      if Serving(o, o.at) {
        assert o.number != p;
        if 23 <= Rank(o.pc) < 34 || 42 <= Rank(o.pc) <= 43 { PrepareAddsNothing(x, o, s.env, choice, p); }
        else if 34 <= Rank(o.pc) { RunAddsNothing(x, o, s.env, choice, p); }
      }
    }
  }

  /** A hook records only for the sequence its sample of the slot names. */
  lemma WorkAddsNothing(x: Slot, h: Hook, env: Env, lane: nat, at: nat, doing: Doing, owner: bool, p: nat)
    requires |x.logs| == LANES && lane < LANES && |h.samples| == SLOTS && at < SLOTS && h.samples[at] != p
    ensures NothingNew(x, HookWork(x, h, env, lane, at, doing, owner).x, p)
  {
    match doing
    case Queueing(item) => RecordsNothingNew(x, lane, Event(Queue, h.samples[at], item.capture, item.bits), p);
    case Running(_, _) =>
      if h.samples[at] == h.inv.request {
        RecordsNothingNew(x, lane, Event(Body, h.inv.request, h.inv.capture, x.accepted.bits), p);
      }
    case Completing(_, _) =>
      if h.samples[at] == h.inv.request {
        RecordsNothingNew(x, lane, Event(Done, h.inv.request, h.inv.capture, x.accepted.bits), p);
      }
    case Committing(_, bits, known) =>
      var linked := (h.inv.request == h.samples[at] && h.inv.phase == 2) || (Synchronous(x.accepted) && owner);
      RecordsNothingNew(x, lane, Event(if linked then Commit else OtherCommit, h.samples[at],
                                       if linked && !Synchronous(x.accepted) then h.inv.capture else 0, bits), p);
    case _ =>
  }

  lemma HookAddsNothing(s: State, lane: nat, choice: nat, doing: Doing, k: nat, p: nat)
    requires Over(s, p) && lane < LANES && k < SLOTS
    ensures NothingNew(s.slots[k], HookStep(s, lane, choice, doing).slots[k], p)
  {
    OverIsUnheld(s, p);
    assert SlotAt(s, k);
    if HookSlot(s, lane, doing) == k && s.hooks[lane].pc == HIn {
      WorkAddsNothing(s.slots[k], s.hooks[lane], s.env, lane, k, doing, s.env.inHook, p);
    }
  }

  lemma StepAddsNothing(s: State, a: Action, k: nat, p: nat)
    requires Over(s, p) && k < SLOTS
    ensures NothingNew(s.slots[k], Step(s, a).slots[k], p)
  {
    assert SlotAt(s, k);
    match a {
      case OwnerActs(choice, program) => OwnerAddsNothing(s, choice, program, k, p);
      case HookActs(lane, choice, doing) => if lane < LANES { HookAddsNothing(s, lane, choice, doing, k, p); }
      case _ =>
    }
  }

  /** Only the writer's last store changes what a slot publishes. */
  lemma PublishedOnlyBy(s: State, a: Action, at: nat)
    requires Inv(s) && at < SLOTS
    ensures Step(s, a).slots[at].published == s.slots[at].published
         || (a.WriterActs? && s.wr.pc == WPublish && Step(s, a).slots[at].published == s.wr.req.number)
  {
    match a {
      case OwnerActs(choice, program) =>
        MailboxOwner.OwnerTouches(s.slots[s.o.at], s.slots[if s.o.i < SLOTS then s.o.i else 0], s.o, s.env,
                                  choice, program);
      case HookActs(lane, choice, doing) => if lane < LANES { MailboxHooks.HookMoveResult(s, lane, choice, doing); }
      case _ =>
    }
  }

  lemma CountedOnlyUp(s: State, a: Action)
    requires Inv(s)
    ensures var s' := Step(s, a); s.env.published <= s'.env.published
    ensures var s' := Step(s, a); s'.wr.pc == WPublish && s'.wr != s.wr ==> s.env.published < s'.wr.req.number
  {
    match a {
      case OwnerActs(choice, program) =>
        MailboxOwner.OwnerTouches(s.slots[s.o.at], s.slots[if s.o.i < SLOTS then s.o.i else 0], s.o, s.env,
                                  choice, program);
      case HookActs(lane, choice, doing) => if lane < LANES { MailboxHooks.HookMoveResult(s, lane, choice, doing); }
      case _ =>
    }
  }

  /** What is over stays over, whoever moves and whatever happens to the slot. */
  lemma OverStep(s: State, a: Action, p: nat)
    requires Over(s, p)
    ensures Over(Step(s, a), p)
  {
    var s' := Step(s, a);
    StepKeepsInv(s, a);
    CountedOnlyUp(s, a);
    forall at | 0 <= at < SLOTS && s'.slots[at].published == p
      ensures Barrier(s', at, p)
    {
      PublishedOnlyBy(s, a, at);
      BarrierStep(s, a, at, p);
    }
  }

  lemma {:induction false} OverIsFinal(s: State, schedule: seq<Action>, p: nat)
    requires Over(s, p)
    ensures var r := Exec(s, schedule);
            Over(r, p) && forall k | 0 <= k < SLOTS :: NothingNew(s.slots[k], r.slots[k], p)
    decreases |schedule|
  {
    if schedule == [] {
      forall k | 0 <= k < SLOTS
        ensures NothingNew(s.slots[k], s.slots[k], p)
      {
        assert SlotAt(s, k);
      }
    } else {
      var s' := Step(s, schedule[0]);
      OverStep(s, schedule[0], p);
      OverIsFinal(s', schedule[1..], p);
      var r := Exec(s', schedule[1..]);
      forall k | 0 <= k < SLOTS
        ensures NothingNew(s.slots[k], r.slots[k], p)
      {
        StepAddsNothing(s, schedule[0], k, p);
        assert NothingNew(s'.slots[k], r.slots[k], p);
      }
    }
  }

  /** While the slot still publishes it, its evidence is frozen. */
  lemma {:induction false} EvidenceIsFrozen(s: State, schedule: seq<Action>, at: nat, p: nat)
    requires Inv(s) && at < SLOTS && Barrier(s, at, p)
    ensures var r := Exec(s, schedule);
            if r.slots[at].published == p then Barrier(r, at, p) && Frozen(s.slots[at], r.slots[at])
            else p < r.slots[at].published
    decreases |schedule|
  {
    if schedule != [] {
      var s' := Step(s, schedule[0]);
      BarrierStep(s, schedule[0], at, p);
      if s'.slots[at].published == p { EvidenceIsFrozen(s', schedule[1..], at, p); }
      else { PublishedGrows(s', schedule[1..], at); }
    }
  }

  /** The barrier over every schedule, also after the slot has been reused: no thread inside a hook ever holds
      `p` again and no slot offers it to be sampled; every event for `p` in any lane of any slot was there
      already; and for as long as its slot publishes `p` its evidence and marks do not change. */
  lemma BarrierIsFinal(s: State, schedule: seq<Action>, at: nat, p: nat)
    requires Inv(s) && at < SLOTS && Barrier(s, at, p)
    ensures var r := Exec(s, schedule);
            && Unheld(r, p)
            && (forall k | 0 <= k < SLOTS :: NothingNew(s.slots[k], r.slots[k], p))
            && (if r.slots[at].published == p then Barrier(r, at, p) && Frozen(s.slots[at], r.slots[at])
                else p < r.slots[at].published)
  {
    BarrierIsOver(s, at, p);
    OverIsFinal(s, schedule, p);
    OverIsUnheld(Exec(s, schedule), p);
    EvidenceIsFrozen(s, schedule, at, p);
  }

  /** The grace period from the start: after any schedule in which the consumer has sealed or reclaimed a slot's
      sequence, or found everything clear to do so, the sequence stays over through any further schedule. */
  lemma GracePeriod(before: seq<Action>, after: seq<Action>, at: nat)
    requires at < SLOTS
    ensures Inv(Initial())
    ensures var s := (InitialInv(); Exec(Initial(), before));
            var p, r := s.slots[at].published, Exec(s, after);
            Drained(s, at) ==> Unheld(r, p) && forall k | 0 <= k < SLOTS :: NothingNew(s.slots[k], r.slots[k], p)
  {
    InitialInv();
    var s := Exec(Initial(), before);
    if Drained(s, at) {
      SealBarrier(s, at);
      BarrierIsFinal(s, after, at, s.slots[at].published);
    }
  }

  // ---------------------------------------------------------------- honest reclamation

  ghost predicate Refused(x: Slot) {
    var p := x.published;
    && x.processed == p && x.rejected != 0 && x.started != p && x.dispatched != p && x.returned != p
    && x.sealed != p && x.settled != p
  }

  ghost predicate Executed(x: Slot) {
    var p := x.published;
    && x.processed == p && x.rejected == 0 && x.started == p && x.dispatched == p && x.returned == p
    && x.done == p && x.sealed == p && x.settled == p
  }

  /** A reclaimed request was refused and never started natively, or it ran, was recorded, sealed and
      settled; never a mixture.  A refused one that was never made active has no `done` either. */
  lemma HonestReclamation(s: State, at: nat)
    requires Inv(s) && at < SLOTS
    ensures var x := s.slots[at];
            x.published != 0 && x.reclaimed == x.published ==>
              (Refused(x) || Executed(x)) && !(Refused(x) && Executed(x)) &&
                (x.raised != x.published ==> x.done != x.published)
  {
    assert SlotAt(s, at);
  }

  lemma HonestReclamationAlways(schedule: seq<Action>, at: nat)
    requires at < SLOTS
    ensures Inv(Initial())
    ensures var x := (InitialInv(); Exec(Initial(), schedule)).slots[at];
            x.published != 0 && x.reclaimed == x.published ==> (Refused(x) <==> !Executed(x))
  {
    InitialInv();
    HonestReclamation(Exec(Initial(), schedule), at);
  }
}
