/** Causal receipts: what a request's `done` word proves about the evidence in its slot. */
module MailboxCausal {
  import opened Requests
  import opened Mailbox
  import opened MailboxWords
  import opened MailboxRetire
  import opened MailboxReceipts

  // ---------------------------------------------------------------- the invariant

  /** The current request was made active and answers through the native queue. */
  predicate Followed(x: Slot) {
    x.published != 0 && x.raised == x.published && !Synchronous(x.accepted)
  }

  function Reading(x: Slot, l: nat): Chain
    requires l < |x.logs|
  {
    ChainOf(x.logs[l].events, x.published, x.accepted.bits)
  }

  predicate Answering(h: Hook, at: nat) {
    (h.pc == HClear || h.pc == HDone) && h.at == at
  }

  /** One lane's reading `c` of slot `x` agrees with what its thread is doing. */
  ghost predicate Agrees(x: Slot, at: nat, c: Chain, h: Hook) {
    && at < |h.samples|
    && c != Broken
    && (if h.inv.request == x.published
        then (h.inv.phase == 1 && c == Entered(h.inv.capture)) || (h.inv.phase == 2 && c == Ran(h.inv.capture))
        else c.Nothing? || c.Finished?)
    && (Answering(h, at) ==> c.Finished?)
    && (c.Finished? ==>
          && (h.samples[at] == 0 || h.pc in {HClear, HDone, HLeave})
          && (x.active == 0 || (Answering(h, at) && h.pc == HClear))
          && (Answering(h, at) || x.done == x.published))
  }

  ghost predicate Evidence(x: Slot, at: nat, hooks: seq<Hook>) {
    |x.logs| == |hooks| == LANES &&
    (Followed(x) ==>
      && (forall l | 0 <= l < LANES :: Agrees(x, at, Reading(x, l), hooks[l]))
      && (x.done == x.published ==> exists l | 0 <= l < LANES :: Reading(x, l).Finished?))
  }

  /** A request not yet active is followed by no call, and its logs are emptied before it can be. */
  ghost predicate Unfollowed(x: Slot, at: nat, o: Owner, hooks: seq<Hook>) {
    |x.logs| == |hooks| == LANES &&
    (x.published != 0 && x.raised != x.published ==> forall l | 0 <= l < LANES :: hooks[l].inv.request != x.published)
    && (o.at == at && 24 <= Rank(o.pc) <= 30 ==>
          forall l | 0 <= l < LANES && (Rank(o.pc) == 24 ==> 3 * l + 2 <= o.i) :: x.logs[l].events == [])
  }

  ghost predicate Kinds(o: Owner) {
    (35 <= Rank(o.pc) <= 36 ==> Synchronous(o.req)) && (o.pc == ONative ==> !Synchronous(o.req))
  }

  ghost predicate NotAhead(h: Hook, wr: Writer, env: Env) {
    h.inv.request <= env.published && (wr.pc == WPublish ==> h.inv.request < env.published)
  }

  ghost predicate SlotEvidence(s: State, at: nat)
    requires |s.slots| == SLOTS && at < SLOTS
  {
    Evidence(s.slots[at], at, s.hooks) && Unfollowed(s.slots[at], at, s.o, s.hooks)
  }

  /** Kept for as long as no trace fault is latched. */
  ghost predicate Receipts(s: State) {
    |s.slots| == SLOTS && |s.hooks| == LANES &&
    (!s.env.broken ==>
      && Kinds(s.o)
      && (forall l | 0 <= l < LANES :: NotAhead(s.hooks[l], s.wr, s.env))
      && (forall at | 0 <= at < SLOTS :: SlotEvidence(s, at)))
  }

  lemma InitialReceipts()
    ensures Receipts(Initial())
  {
    var s := Initial();
    assert forall l | 0 <= l < LANES :: s.hooks[l] == Hook(false, HOut, 0, NoSamples(), NO_INVOCATION, 0, 0);
    forall at | 0 <= at < SLOTS
      ensures SlotEvidence(s, at)
    {
      assert s.slots[at] == EmptySlot();
    }
  }

  // ---------------------------------------------------------------- a hook and the slot it works on

  /** The lane's own reading before and after, as one call's step. */
  ghost predicate LaneStep(x: Slot, at: nat, h: Hook, lane: nat, m: HookMoved)
    requires lane < |x.logs|
  {
    && |m.x.logs| == |x.logs| && m.x == x.(active := m.x.active, done := m.x.done, logs := m.x.logs)
    && (forall l | 0 <= l < |x.logs| && l != lane :: m.x.logs[l] == x.logs[l])
    && (m.x.active == x.active || m.x.active == 0)
    && (m.x.done == x.done || (m.x.done == x.published && Answering(h, at)))
    && (Followed(x) ==> Agrees(m.x, at, Reading(m.x, lane), m.h))
    && (Followed(x) && (Reading(x, lane).Finished? || m.x.done != x.done) ==> Reading(m.x, lane).Finished?)
    && (m.h.inv.request == h.inv.request || m.h.inv.request == 0 ||
         (m.h.inv.request == x.published && x.raised == x.published))
    && (x.raised != x.published ==> m.x.logs == x.logs)
  }

  lemma EnterStep(x: Slot, at: nat, h: Hook, env: Env, lane: nat, choice: nat)
    requires lane < |x.logs| && SlotInv(x) && HookSelf(h) && at < SLOTS && HookInv(x, at, h) && h.pc != HIn
    requires h.pc == HSample ==> h.i == at
    requires h.pc == HClear || h.pc == HDone ==> h.at == at
    requires Followed(x) ==> Agrees(x, at, Reading(x, lane), h)
    ensures LaneStep(x, at, h, lane, HookEnter(x, h, env, choice))
  {
  }

  /** The event a hook records takes the lane's reading one step on. */
  lemma RecordReads(x: Slot, lane: nat, e: Event, env: Env)
    requires lane < |x.logs| && !Recording(x, lane, e, env).broken
    ensures var x' := Recorded(x, lane, e);
            x' == Append(x, lane, e) && e.request == x.published
            && Reading(x', lane) == Next(Reading(x, lane), e, x.published, x.accepted.bits)
  {
    ChainAppend(x.logs[lane].events, e, x.published, x.accepted.bits);
  }

  ghost predicate Attributed(x: Slot, id: nat, item: Item) {
    id != 0 && x.accepted.number == id && x.accepted.bits == item.bits
  }

  lemma QueueStep(x: Slot, at: nat, h: Hook, env: Env, lane: nat, item: Item)
    requires lane < |x.logs| && SlotInv(x) && HookSelf(h) && at < SLOTS && HookInv(x, at, h) && h.pc == HIn
    requires Followed(x) ==> Agrees(x, at, Reading(x, lane), h)
    requires Attributed(x, h.samples[at], item)
    ensures var m := HookQueue(x, h, env, lane, h.samples[at], item);
            !m.env.broken ==> LaneStep(x, at, h, lane, m)
  {
    var m := HookQueue(x, h, env, lane, h.samples[at], item);
    if !m.env.broken { RecordReads(x, lane, Event(Queue, h.samples[at], item.capture, item.bits), env); }
  }

  lemma BodyStep(x: Slot, at: nat, h: Hook, env: Env, lane: nat, mine: bool, framed: bool)
    requires lane < |x.logs| && SlotInv(x) && HookSelf(h) && at < SLOTS && HookInv(x, at, h) && h.pc == HIn
    requires (Followed(x) ==> Agrees(x, at, Reading(x, lane), h)) && h.inv.request != 0
    ensures var m := HookBody(x, h, env, lane, h.samples[at] == h.inv.request, mine, framed);
            !m.env.broken ==> LaneStep(x, at, h, lane, m)
  {
    var m := HookBody(x, h, env, lane, h.samples[at] == h.inv.request, mine, framed);
    if !m.env.broken && m.x != x {
      RecordReads(x, lane, Event(Body, h.inv.request, h.inv.capture, x.accepted.bits), env);
    }
  }

  lemma CompleteStep(x: Slot, at: nat, h: Hook, env: Env, lane: nat, mine: bool, framed: bool)
    requires lane < |x.logs| && SlotInv(x) && HookSelf(h) && at < SLOTS && HookInv(x, at, h) && h.pc == HIn
    requires (Followed(x) ==> Agrees(x, at, Reading(x, lane), h)) && h.inv.request != 0
    ensures var m := HookComplete(x, h, env, lane, at, h.samples[at] == h.inv.request, mine, framed);
            !m.env.broken ==> LaneStep(x, at, h, lane, m)
  {
    var m := HookComplete(x, h, env, lane, at, h.samples[at] == h.inv.request, mine, framed);
    if !m.env.broken && m.x != x {
      RecordReads(x, lane, Event(Done, h.inv.request, h.inv.capture, x.accepted.bits), env);
    }
  }

  lemma CommitStep(x: Slot, at: nat, h: Hook, env: Env, lane: nat, owner: bool, bits: nat, known: bool)
    requires lane < |x.logs| && SlotInv(x) && HookSelf(h) && at < SLOTS && HookInv(x, at, h) && h.pc == HIn
    requires Followed(x) ==> Agrees(x, at, Reading(x, lane), h)
    ensures var m := HookCommit(x, h, env, lane, h.samples[at], owner, bits, known);
            !m.env.broken ==> LaneStep(x, at, h, lane, m)
  {
    var m := HookCommit(x, h, env, lane, h.samples[at], owner, bits, known);
    if !m.env.broken && m.x != x {
      var id := h.samples[at];
      var linked := (h.inv.request == id && h.inv.phase == 2) || (Synchronous(x.accepted) && owner);
      RecordReads(x, lane, Event(if linked then Commit else OtherCommit, id,
                                 if linked && !Synchronous(x.accepted) then h.inv.capture else 0, bits), env);
    }
  }

  // ---------------------------------------------------------------- a hook and the other slots

  /** What the thread's step at slot `at` means for a slot `k` elsewhere. */
  ghost predicate Elsewhere(h: Hook, h': Hook, at: nat, p: nat) {
    && |h'.samples| == |h.samples| == SLOTS
    && (h'.inv == h.inv || (h.inv.request in {0, p} && h'.inv.request in {0, p} && at < SLOTS && p != 0))
    && (h'.pc == HClear || h'.pc == HDone ==> h'.at == at)
    && (h.pc == HClear || h.pc == HDone ==> h.at == at)
    && forall k | 0 <= k < SLOTS && k != at ::
         h'.samples[k] == 0 ||
           (h'.samples[k] == h.samples[k] && (h.pc in {HClear, HDone, HLeave} ==> h'.pc in {HClear, HDone, HLeave}))
  }

  lemma ElsewhereAgrees(x: Slot, k: nat, c: Chain, h: Hook, h': Hook, at: nat, p: nat)
    requires k < SLOTS && k != at && x.published != 0 && x.published != p && Elsewhere(h, h', at, p) &&
             Agrees(x, k, c, h)
    ensures Agrees(x, k, c, h')
  {
  }

  lemma EnterElsewhere(x: Slot, h: Hook, env: Env, choice: nat, at: nat)
    requires HookSelf(h) && h.pc != HIn
    requires h.pc == HSample ==> h.i == at
    requires h.pc == HClear || h.pc == HDone ==> h.at == at
    ensures Elsewhere(h, HookEnter(x, h, env, choice).h, at, x.published)
  {
  }

  lemma WorkElsewhere(x: Slot, h: Hook, env: Env, lane: nat, at: nat, doing: Doing, owner: bool)
    requires lane < |x.logs| && HookSelf(h) && at < SLOTS && h.pc == HIn
    requires doing.Queueing? ==> h.samples[at] == x.published != 0
    requires doing.Running? || doing.Completing? ==> h.inv.request == x.published != 0
    ensures Elsewhere(h, HookWork(x, h, env, lane, at, doing, owner).h, at, x.published)
  {
  }

  // ---------------------------------------------------------------- the whole hook step

  /** The attribution loop settles on a slot only by a sample that names its admitted request and value. */
  lemma {:induction false} MatchIsAttributed(slots: seq<Slot>, samples: seq<nat>, item: Item, i: nat, found: Match)
    requires |slots| == |samples| == SLOTS && i <= SLOTS
    requires found.Hit? ==> found.at < SLOTS && Attributed(slots[found.at], samples[found.at], item)
    ensures var m := MatchFrom(slots, samples, item, i, found);
            m.Hit? ==> m.at < SLOTS && Attributed(slots[m.at], samples[m.at], item)
    decreases SLOTS - i
  {
    if i < SLOTS {
      MatchIsAttributed(slots, samples, item, i + 1, found);
      if samples[i] != 0 && slots[i].accepted.number == samples[i] && slots[i].accepted.bits == item.bits &&
         !found.Hit? {
        MatchIsAttributed(slots, samples, item, i + 1, Hit(i));
      }
    }
  }

  ghost predicate StepsAt(s: State, lane: nat, at: nat, m: HookMoved)
    requires Shape(s) && lane < LANES
  {
    var h := s.hooks[lane];
    && HookSelf(m.h)
    && m.env.published == s.env.published
    && (at < SLOTS ==> LaneStep(s.slots[at], at, h, lane, m) && Elsewhere(h, m.h, at, s.slots[at].published))
    && (at >= SLOTS ==> Elsewhere(h, m.h, at, 0) && m.h.inv == h.inv)
  }

  lemma WorkSteps(x: Slot, at: nat, h: Hook, env: Env, lane: nat, doing: Doing, owner: bool)
    requires lane < |x.logs| && SlotInv(x) && HookSelf(h) && at < SLOTS && HookInv(x, at, h) && h.pc == HIn
    requires (Followed(x) ==> Agrees(x, at, Reading(x, lane), h))
    requires doing.Running? || doing.Completing? ==> h.inv.request != 0
    requires doing.Queueing? ==> Attributed(x, h.samples[at], doing.item)
    ensures var m := HookWork(x, h, env, lane, at, doing, owner);
            !m.env.broken ==> LaneStep(x, at, h, lane, m)
  {
    match doing
    case Queueing(item) => QueueStep(x, at, h, env, lane, item);
    case Running(mine, framed) => BodyStep(x, at, h, env, lane, mine, framed);
    case Completing(mine, framed) => CompleteStep(x, at, h, env, lane, mine, framed);
    case Committing(_, bits, known) => CommitStep(x, at, h, env, lane, owner, bits, known);
    case _ =>
  }

  lemma HookSteps(s: State, lane: nat, choice: nat, doing: Doing)
    requires Inv(s) && Receipts(s) && !s.env.broken && lane < LANES
    ensures var m := HookMove(s, lane, choice, doing);
            !m.env.broken ==> StepsAt(s, lane, HookSlot(s, lane, doing), m)
  {
    var h := s.hooks[lane];
    var at := HookSlot(s, lane, doing);
    MailboxHooks.HookMoveResult(s, lane, choice, doing);
    if at < SLOTS {
      var x := s.slots[at];
      assert SlotAt(s, at) && HookInv(x, at, h) && SlotEvidence(s, at);
      if h.pc != HIn {
        EnterStep(x, at, h, s.env, lane, choice);
        EnterElsewhere(x, h, s.env, choice, at);
      } else {
        if doing.Queueing? { MatchIsAttributed(s.slots, h.samples, doing.item, 0, Silent); }
        WorkSteps(x, at, h, s.env, lane, doing, s.env.inHook);
        WorkElsewhere(x, h, s.env, lane, at, doing, s.env.inHook);
      }
    }
  }

  /** The slot the hook worked on. */
  lemma WorkedSlot(s: State, lane: nat, at: nat, m: HookMoved)
    requires Inv(s) && Receipts(s) && !s.env.broken && lane < LANES && at < SLOTS && StepsAt(s, lane, at, m)
    ensures Evidence(m.x, at, s.hooks[lane := m.h]) && Unfollowed(m.x, at, s.o, s.hooks[lane := m.h])
  {
    var x, hooks := s.slots[at], s.hooks[lane := m.h];
    assert SlotEvidence(s, at) && SlotAt(s, at);
    if Followed(m.x) {
      forall l | 0 <= l < LANES
        ensures Agrees(m.x, at, Reading(m.x, l), hooks[l])
      {
        assert Agrees(x, at, Reading(x, l), s.hooks[l]);
      }
      if m.x.done == x.published { WorkedDone(x, at, s.hooks[lane], lane, m, s.hooks); }
    }
  }

  lemma WorkedDone(x: Slot, at: nat, h: Hook, lane: nat, m: HookMoved, hooks: seq<Hook>)
    requires lane < LANES && Evidence(x, at, hooks) && Followed(x) && LaneStep(x, at, h, lane, m) &&
             m.x.done == x.published
    ensures exists l | 0 <= l < LANES :: Reading(m.x, l).Finished?
  {
    var l: nat := lane;
    if m.x.done == x.done { l :| l < LANES && Reading(x, l).Finished?; }
    assert Reading(m.x, l).Finished?;
  }

  /** Any other slot. */
  lemma UnworkedSlot(s: State, lane: nat, at: nat, m: HookMoved, k: nat)
    requires Inv(s) && Receipts(s) && !s.env.broken && lane < LANES && StepsAt(s, lane, at, m) && k < SLOTS && k != at
    ensures Evidence(s.slots[k], k, s.hooks[lane := m.h]) && Unfollowed(s.slots[k], k, s.o, s.hooks[lane := m.h])
  {
    var x, hooks, p := s.slots[k], s.hooks[lane := m.h], if at < SLOTS then s.slots[at].published else 0;
    assert SlotEvidence(s, k) && SlotAt(s, k);
    assert x.published != 0 ==> x.published != p;
    if Followed(x) {
      forall l | 0 <= l < LANES
        ensures Agrees(x, k, Reading(x, l), hooks[l])
      {
        assert Agrees(x, k, Reading(x, l), s.hooks[l]);
        if l == lane { ElsewhereAgrees(x, k, Reading(x, l), s.hooks[l], m.h, at, p); }
      }
    }
  }

  lemma HookKeepsReceipts(s: State, lane: nat, at: nat, m: HookMoved)
    requires Inv(s) && Receipts(s) && !s.env.broken && lane < LANES && StepsAt(s, lane, at, m)
    ensures Receipts(MailboxHooks.AfterHook(s, lane, at, m))
  {
    var s' := MailboxHooks.AfterHook(s, lane, at, m);
    if at < SLOTS { assert SlotAt(s, at); }
    forall k | 0 <= k < SLOTS
      ensures SlotEvidence(s', k)
    {
      if k == at { WorkedSlot(s, lane, at, m); } else { UnworkedSlot(s, lane, at, m, k); }
    }
  }

  // ---------------------------------------------------------------- the owner

  ghost predicate OwnerReads(x: Slot, o: Owner, m: OwnerMoved) {
    && |m.x.logs| == |x.logs| == LANES && m.x.published == x.published
    && (m.o.at == o.at || Rank(m.o.pc) < 20)
    && Kinds(m.o)
    && (x.raised == x.published ==>
          && m.x.raised == x.raised && m.x.accepted == x.accepted
          && (m.x.active == x.active || m.x.active == 0) && (Synchronous(x.accepted) || m.x.done == x.done)
          && (forall l | 0 <= l < LANES :: Reading(m.x, l) == Reading(x, l)))
    && (x.raised != x.published ==>
          && (Rank(m.o.pc) == 24 && m.o.at == o.at ==>
                forall l | 0 <= l < LANES && 3 * l + 2 <= m.o.i :: m.x.logs[l].events == [])
          && (25 <= Rank(m.o.pc) <= 30 || m.x.raised == m.x.published ==>
                m.o.at == o.at && forall l | 0 <= l < LANES :: m.x.logs[l].events == [])
          && m.x.done == x.done)
    && (x.raised == x.published ==> !(24 <= Rank(m.o.pc) <= 30))
  }

  ghost predicate Emptied(x: Slot, o: Owner) {
    |x.logs| == LANES &&
    (24 <= Rank(o.pc) <= 30 ==>
       forall l | 0 <= l < LANES && (Rank(o.pc) == 24 ==> 3 * l + 2 <= o.i) :: x.logs[l].events == [])
  }

  lemma VisitReads(x: Slot, y: Slot, o: Owner, env: Env, choice: nat, program: nat)
    requires SlotInv(x) && OwnerInv(x, o.at, o, env) && Rank(o.pc) < 23 &&
             (x.reclaimed != x.published ==> x.request.number == x.published)
    ensures OwnerReads(x, o, OwnerMove(x, y, o, env, choice, program))
  {
  }

  lemma ResetReads(x: Slot, o: Owner, env: Env, choice: nat)
    requires SlotInv(x) && OwnerInv(x, o.at, o, env) && Emptied(x, o) && o.pc in {OAccept, OReset}
    ensures OwnerReads(x, o, OwnerPrepare(x, o, env, choice))
  {
  }

  /** The owner's own events leave every reading as it was. */
  lemma OwnerRecordReads(x: Slot, e: Event, l: nat)
    requires |x.logs| == LANES && l < LANES && e.kind in {Attempt, Returning, OwnerBegin, OwnerEnd}
    ensures Reading(Recorded(x, 0, e), l) == Reading(x, l)
  {
    if Appendable(x, 0, e.request) { ChainAppend(x.logs[0].events, e, x.published, x.accepted.bits); }
  }

  lemma OwnerRecords(x: Slot, o: Owner, env: Env, m: OwnerMoved, e: Event)
    requires SlotInv(x) && OwnerInv(x, o.at, o, env) && 31 <= Rank(o.pc) <= 41 &&
             e.kind in {Attempt, Returning, OwnerBegin, OwnerEnd}
    requires m.x == Recorded(x, 0, e) && m.o.at == o.at && Kinds(m.o) && 31 <= Rank(m.o.pc) <= 41
    ensures OwnerReads(x, o, m)
  {
    forall l | 0 <= l < LANES
      ensures Reading(m.x, l) == Reading(x, l)
    {
      OwnerRecordReads(x, e, l);
    }
  }

  lemma AttemptReads(x: Slot, o: Owner, env: Env, choice: nat)
    requires SlotInv(x) && OwnerInv(x, o.at, o, env) && o.pc == OAttempt
    ensures OwnerReads(x, o, OwnerPrepare(x, o, env, choice))
  {
    OwnerRecords(x, o, env, OwnerPrepare(x, o, env, choice), Event(Attempt, o.number, 0, x.accepted.bits));
  }

  lemma PrepareReads(x: Slot, o: Owner, env: Env, choice: nat)
    requires SlotInv(x) && OwnerInv(x, o.at, o, env) && Emptied(x, o)
    requires o.pc in {OClear, OActivate}
    ensures OwnerReads(x, o, OwnerPrepare(x, o, env, choice))
  {
  }

  lemma ValidateReads(x: Slot, o: Owner, env: Env, choice: nat)
    requires SlotInv(x) && OwnerInv(x, o.at, o, env) && o.pc in {OValidate, OWithdraw}
    ensures OwnerReads(x, o, OwnerPrepare(x, o, env, choice))
  {
  }

  lemma RefuseReads(x: Slot, o: Owner, env: Env, choice: nat)
    requires SlotInv(x) && OwnerInv(x, o.at, o, env) && o.pc in {ORefuse, ORefused}
    ensures OwnerReads(x, o, OwnerPrepare(x, o, env, choice))
  {
  }

  lemma RunRecordsReads(x: Slot, o: Owner, env: Env, choice: nat)
    requires SlotInv(x) && OwnerInv(x, o.at, o, env) && Kinds(o) && o.pc in {OBegin, OEnd, OReturning}
    ensures OwnerReads(x, o, OwnerRun(x, o, env, choice))
  {
    var kind, bits := if o.pc == OBegin then OwnerBegin else if o.pc == OEnd then OwnerEnd else Returning,
                      if o.pc == OReturning then x.accepted.bits else o.req.bits;
    OwnerRecords(x, o, env, OwnerRun(x, o, env, choice), Event(kind, o.number, 0, bits));
  }

  lemma StartReads(x: Slot, o: Owner, env: Env, choice: nat)
    requires SlotInv(x) && OwnerInv(x, o.at, o, env) && Kinds(o) &&
             o.pc in {OStart, OCall, OSyncClear, OSyncDone, ONative}
    ensures OwnerReads(x, o, OwnerRun(x, o, env, choice))
  {
  }

  lemma FinishReads(x: Slot, o: Owner, env: Env, choice: nat)
    requires SlotInv(x) && OwnerInv(x, o.at, o, env) && Kinds(o) && o.pc in {ODispatched, OReturned, OProcess}
    ensures OwnerReads(x, o, OwnerRun(x, o, env, choice))
  {
  }

  lemma CountReads(x: Slot, o: Owner, env: Env, choice: nat)
    requires SlotInv(x) && OwnerInv(x, o.at, o, env) && Kinds(o) && o.pc in {OCount, OFail}
    ensures OwnerReads(x, o, OwnerRun(x, o, env, choice))
  {
  }

  lemma OwnerMoveReads(x: Slot, y: Slot, o: Owner, env: Env, choice: nat, program: nat)
    requires SlotInv(x) && OwnerInv(x, o.at, o, env) && Emptied(x, o) && Kinds(o)
    requires x.reclaimed != x.published ==> x.request.number == x.published
    ensures OwnerReads(x, o, OwnerMove(x, y, o, env, choice, program))
  {
    if Rank(o.pc) < 23 { VisitReads(x, y, o, env, choice, program); }
    else if o.pc in {OAccept, OReset} { ResetReads(x, o, env, choice); }
    else if o.pc == OAttempt { AttemptReads(x, o, env, choice); }
    else if o.pc in {OClear, OActivate} { PrepareReads(x, o, env, choice); }
    else if o.pc in {OValidate, OWithdraw} { ValidateReads(x, o, env, choice); }
    else if o.pc in {ORefuse, ORefused} { RefuseReads(x, o, env, choice); }
    else if o.pc in {OBegin, OEnd, OReturning} { RunRecordsReads(x, o, env, choice); }
    else if o.pc in {OStart, OCall, OSyncClear, OSyncDone, ONative} { StartReads(x, o, env, choice); }
    else if o.pc in {OCount, OFail} { CountReads(x, o, env, choice); }
    else { FinishReads(x, o, env, choice); }
  }

  /** A request made active starts from empty logs, with no call following it yet. */
  lemma OwnerServes(x: Slot, at: nat, o: Owner, env: Env, m: OwnerMoved, hooks: seq<Hook>)
    requires o.at == at && OwnerReads(x, o, m) && SlotInv(x) && Evidence(x, at, hooks) && Unfollowed(x, at, o, hooks)
    requires HooksInv(x, at, hooks) && forall l | 0 <= l < LANES :: HookSelf(hooks[l])
    ensures Evidence(m.x, at, hooks) && Unfollowed(m.x, at, m.o, hooks)
  {
    if Followed(m.x) {
      forall l | 0 <= l < LANES
        ensures Agrees(m.x, at, Reading(m.x, l), hooks[l])
      {
        if x.raised == x.published { assert Agrees(x, at, Reading(x, l), hooks[l]); }
        assert HookInv(x, at, hooks[l]);
      }
    }
  }

  lemma OwnerKeepsReceipts(s: State, choice: nat, program: nat)
    requires Inv(s) && Receipts(s) && !s.env.broken
    ensures Receipts(OwnerStep(s, choice, program))
  {
    var s' := OwnerStep(s, choice, program);
    var x, y := s.slots[s.o.at], s.slots[if s.o.i < SLOTS then s.o.i else 0];
    assert SlotEvidence(s, s.o.at) && SlotAt(s, s.o.at);
    OwnerMoveReads(x, y, s.o, s.env, choice, program);
    MailboxOwner.OwnerTouches(x, y, s.o, s.env, choice, program);
    OwnerMovedReceipts(s, OwnerMove(x, y, s.o, s.env, choice, program));
  }

  lemma OwnerMovedReceipts(s: State, m: OwnerMoved)
    requires Inv(s) && Receipts(s) && !s.env.broken && OwnerReads(s.slots[s.o.at], s.o, m) &&
             m.env.published == s.env.published
    ensures Receipts(MailboxOwner.AfterOwner(s, m))
  {
    var s' := MailboxOwner.AfterOwner(s, m);
    forall k | 0 <= k < SLOTS
      ensures SlotEvidence(s', k)
    {
      assert SlotEvidence(s, k) && SlotAt(s, k);
      if k == s.o.at { OwnerServes(s.slots[k], k, s.o, s.env, m, s.hooks); }
    }
  }

  // ---------------------------------------------------------------- consumer and writer

  ghost predicate SameEvidence(x: Slot, x': Slot) {
    && x'.published == x.published && x'.raised == x.raised && x'.accepted == x.accepted && x'.active == x.active
    && x'.done == x.done && x'.logs == x.logs
  }

  lemma RetireKeepsReceipts(s: State, choice: nat)
    requires Inv(s) && Receipts(s) && !s.env.broken
    ensures Receipts(RetireStep(s, choice))
  {
    var s' := RetireStep(s, choice);
    forall k | 0 <= k < SLOTS
      ensures SlotEvidence(s', k)
    {
      assert SlotEvidence(s, k) && SameEvidence(s.slots[k], s'.slots[k]);
    }
  }

  /** A new number is one no call has ever followed. */
  lemma WriterKeepsReceipts(s: State, choice: nat)
    requires Inv(s) && Receipts(s) && !s.env.broken
    ensures Receipts(Step(s, WriterActs(choice)))
  {
    var s' := Step(s, WriterActs(choice));
    forall k | 0 <= k < SLOTS
      ensures SlotEvidence(s', k)
    {
      assert SlotEvidence(s, k) && SlotAt(s, k);
    }
  }

  lemma BrokenStays(s: State, a: Action)
    requires Inv(s) && s.env.broken
    ensures Step(s, a).env.broken
  {
    match a {
      case HookActs(lane, choice, doing) => if lane < LANES { MailboxHooks.HookMoveResult(s, lane, choice, doing); }
      case _ =>
    }
  }

  lemma StepKeepsReceipts(s: State, a: Action)
    requires Inv(s) && Receipts(s)
    ensures Receipts(Step(s, a))
  {
    StepKeepsInv(s, a);
    if s.env.broken { BrokenStays(s, a); return; }
    match a {
      case OwnerActs(choice, program) => OwnerKeepsReceipts(s, choice, program);
      case HookActs(lane, choice, doing) =>
        if lane < LANES && !Step(s, a).env.broken {
          HookSteps(s, lane, choice, doing);
          HookKeepsReceipts(s, lane, HookSlot(s, lane, doing), HookMove(s, lane, choice, doing));
        }
      case RetireActs(choice) => RetireKeepsReceipts(s, choice);
      case WriterActs(choice) => WriterKeepsReceipts(s, choice);
      case _ => IdleKeepsReceipts(s, Step(s, a));
    }
  }

  lemma IdleKeepsReceipts(s: State, s': State)
    requires Receipts(s) && s' == s.(wr := s'.wr) && (s'.wr == s.wr || s'.wr.pc != WPublish)
    ensures Receipts(s')
  {
    if !s.env.broken {
      forall k | 0 <= k < SLOTS
        ensures SlotEvidence(s', k)
      {
        assert SlotEvidence(s, k);
      }
    }
  }

  lemma {:induction false} ExecReceipts(s: State, schedule: seq<Action>)
    requires Inv(s) && Receipts(s)
    ensures Receipts(Exec(s, schedule))
    decreases |schedule|
  {
    if schedule != [] {
      StepKeepsInv(s, schedule[0]);
      StepKeepsReceipts(s, schedule[0]);
      ExecReceipts(Step(s, schedule[0]), schedule[1..]);
    }
  }

  // ---------------------------------------------------------------- what the receipts mean

  /** Every log of a request on the native queue path is an ordered call: at most one queue entry, then at
      most one body, then at most one completion, linked commits only in between. */
  ghost predicate Ordered(events: seq<Event>, id: nat, bits: nat) {
    exists c: Chain :: c != Broken && Shows(events, id, bits, c)
  }

  ghost predicate Witnessed(x: Slot) {
    exists l, q: nat, b: nat, d: nat ::
      0 <= l < |x.logs| && Triple(x.logs[l].events, x.published, x.accepted.bits, q, b, d)
  }

  lemma LogsAreOrdered(s: State, at: nat, l: nat)
    requires Inv(s) && Receipts(s) && !s.env.broken && at < SLOTS && l < LANES && Followed(s.slots[at])
    ensures Ordered(s.slots[at].logs[l].events, s.slots[at].published, s.slots[at].accepted.bits)
  {
    var x := s.slots[at];
    assert SlotEvidence(s, at) && Agrees(x, at, Reading(x, l), s.hooks[l]);
    ChainShows(x.logs[l].events, x.published, x.accepted.bits);
  }

  lemma FinishedIsWitnessed(x: Slot, l: nat)
    requires l < |x.logs| && Reading(x, l).Finished?
    ensures Witnessed(x)
  {
    ChainShows(x.logs[l].events, x.published, x.accepted.bits);
    var q: nat, b: nat, d: nat :| Ended(x.logs[l].events, x.published, x.accepted.bits, Reading(x, l).capture, q, b, d);
    assert Triple(x.logs[l].events, x.published, x.accepted.bits, q, b, d);
  }

  /** `done` with no trace fault proves one complete call in one lane, with one capture and the dispatched value. */
  lemma DoneIsWitnessed(s: State, at: nat)
    requires Inv(s) && Receipts(s) && !s.env.broken && at < SLOTS
    requires var x := s.slots[at]; x.published != 0 && x.done == x.published && !Synchronous(x.accepted)
    ensures Witnessed(s.slots[at])
  {
    var x := s.slots[at];
    assert SlotEvidence(s, at) && SlotAt(s, at);
    var l :| 0 <= l < LANES && Reading(x, l).Finished?;
    FinishedIsWitnessed(x, l);
  }

  /** And the other way round: a log in order that holds a complete call reads as finished. */
  lemma WitnessIsFinished(events: seq<Event>, id: nat, bits: nat, q: nat, b: nat, d: nat)
    requires ChainOf(events, id, bits) != Broken && Triple(events, id, bits, q, b, d)
    ensures ChainOf(events, id, bits).Finished?
  {
    ChainShows(events, id, bits);
    assert !Neutral(events[d]) && !Neutral(events[b]) && !Neutral(events[q]);
  }

  /** Every `done` word a schedule can produce rests on a complete triple, and every log on the native
      queue path is an ordered call. */
  lemma CausalReceipt(schedule: seq<Action>, at: nat)
    requires at < SLOTS
    ensures Inv(Initial())
    ensures var s := (InitialInv(); Exec(Initial(), schedule));
            var x := s.slots[at];
            !s.env.broken && x.published != 0 && !Synchronous(x.accepted) ==>
              && (x.done == x.published ==> Witnessed(x))
              && (x.raised == x.published ==>
                    forall l | 0 <= l < LANES :: Ordered(x.logs[l].events, x.published, x.accepted.bits))
  {
    InitialInv();
    InitialReceipts();
    ExecReceipts(Initial(), schedule);
    var s := Exec(Initial(), schedule);
    var x := s.slots[at];
    if !s.env.broken && x.published != 0 && !Synchronous(x.accepted) {
      if x.done == x.published { DoneIsWitnessed(s, at); }
      if x.raised == x.published {
        forall l | 0 <= l < LANES
          ensures Ordered(x.logs[l].events, x.published, x.accepted.bits)
        {
          LogsAreOrdered(s, at, l);
        }
      }
    }
  }

  // ---------------------------------------------------------------- refused, and yet done

  /** Exactly when a reclaimed request (refused or not) carries `done`: when one thread carried a complete
      call for it. A request refused only after it had been made active can be such a one. */
  lemma DoneExactly(s: State, at: nat)
    requires Inv(s) && Receipts(s) && !s.env.broken && at < SLOTS
    requires var x := s.slots[at]; x.published != 0 && x.reclaimed == x.published && !Synchronous(x.accepted)
    ensures var x := s.slots[at];
            x.done == x.published <==> x.raised == x.published && Witnessed(x)
  {
    var x := s.slots[at];
    assert SlotEvidence(s, at) && SlotAt(s, at);
    if x.done == x.published { DoneIsWitnessed(s, at); }
    if x.raised == x.published && Witnessed(x) {
      var l: nat, q: nat, b: nat, d: nat :|
        l < |x.logs| && Triple(x.logs[l].events, x.published, x.accepted.bits, q, b, d);
      assert Agrees(x, at, Reading(x, l), s.hooks[l]) && HookInv(x, at, s.hooks[l]) && HookSelf(s.hooks[l]);
      WitnessIsFinished(x.logs[l].events, x.published, x.accepted.bits, q, b, d);
    }
  }
}
