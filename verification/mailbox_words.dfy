/** What the words of one mailbox slot mean while every actor keeps moving: the invariants behind the
    seal barrier and behind honest reclamation. */
module MailboxWords {
  import opened Requests
  import opened Mailbox

  // ---------------------------------------------------------------- one slot's words

  /** The slot's current request has its metadata and its logs in place. */
  ghost predicate Admitted(x: Slot) {
    |x.logs| == LANES && x.accepted.number == x.published &&
      forall l | 0 <= l < LANES :: x.logs[l].sequence == x.published
  }

  ghost predicate Bounded(x: Slot) {
    && |x.logs| == LANES
    && x.reclaimed <= x.processed <= x.published
    && (x.processed == x.published || x.processed == x.reclaimed)
    && x.accepted.number <= x.published && x.started <= x.published && x.raised <= x.published
    && x.dispatched <= x.published && x.returned <= x.published && x.done <= x.published
    && x.sealed <= x.published && x.settled <= x.published
  }

  /** Each mark of the current request rests on the earlier ones. */
  ghost predicate Marks(x: Slot) {
    var p := x.published;
    && (x.active != 0 ==> x.active == p && x.raised == p && x.reclaimed != p)
    && (x.raised == p ==> Admitted(x))
    && (x.started == p ==> x.raised == p && x.rejected == 0)
    && (x.dispatched == p ==> x.started == p)
    && (x.returned == p ==> x.dispatched == p)
    && (x.done == p ==> x.raised == p)
    && (x.sealed == p ==> x.returned == p && x.done == p && x.processed == p && x.active == 0)
    && (x.settled == p ==> x.sealed == p)
  }

  /** A processed request was refused or executed, and it is no half of each. */
  ghost predicate Processed(x: Slot) {
    var p := x.published;
    && Admitted(x)
    && (if x.rejected != 0 then x.started != p && x.active == 0 else x.returned == p)
    && (x.reclaimed != p ==> x.accepted == x.request)
  }

  /** A reclaimed request was either refused, or it is sealed and settled as well. */
  ghost predicate Reclaimed(x: Slot) {
    x.active == 0 && (x.rejected != 0 || x.settled == x.published)
  }

  ghost predicate SlotInv(x: Slot) {
    && Bounded(x)
    && (x.published == 0 ==> x.active == 0)
    && (x.published != 0 ==> Marks(x))
    && (x.published != 0 && x.processed == x.published ==> Processed(x))
    && (x.published != 0 && x.reclaimed == x.published ==> Reclaimed(x))
  }

  // ---------------------------------------------------------------- the owner and a slot

  predicate Serving(o: Owner, at: nat) {
    o.at == at && 20 <= Rank(o.pc) <= 43
  }

  /** The request the owner has taken up and not yet finished with. */
  ghost predicate ServingInv(x: Slot, o: Owner) {
    var r := Rank(o.pc);
    && |x.logs| == LANES
    && o.number == x.published && x.published != 0 && x.processed != x.published
    && (21 <= r ==> o.req == x.request && o.req.number == x.published && Ordinary(o.req))
    && (r < 31 ==> x.raised != x.published)
    && (24 <= r ==> x.accepted == o.req)
    && (r == 24 ==>
         o.i <= 3 * LANES && forall l | 0 <= l < LANES && 3 * l + 3 <= o.i :: x.logs[l].sequence == x.published)
    && (24 <= r < 35 || 42 <= r ==> x.started != x.published)
    && (25 <= r ==> Admitted(x))
    && (r == 30 || r == 31 || r == 32 || 34 <= r <= 41 ==> x.rejected == 0)
    && (31 <= r <= 41 ==> x.raised == x.published)
    && (42 <= r ==> o.why != 0 && x.active == 0)
    && (r == 33 ==> o.why != 0)
    && (r == 43 ==> x.rejected == o.why)
    && (35 <= r <= 41 ==> x.started == x.published)
    && (39 <= r <= 41 ==> x.dispatched == x.published)
    && (r == 41 ==> x.returned == x.published)
  }

  ghost predicate OwnerInv(x: Slot, at: nat, o: Owner, env: Env) {
    var r := Rank(o.pc);
    && (Serving(o, at) ==> ServingInv(x, o))
    && (o.at == at && r == 50 ==>
         o.number == x.published && x.published != 0 && x.processed == x.published && x.reclaimed != x.published)
    && (o.at == at && (r == 11 || r == 12) ==>
         o.number != 0 && (o.number == x.published || (r == 11 && x.processed == o.number)))
    && (o.at == at && r == 12 ==> x.processed != x.published)
    && (!Serving(o, at) && x.processed != x.published ==> x.raised != x.published)
    && (2 <= r && r != 4 ==> env.inHook)
  }

  // ---------------------------------------------------------------- the hooks and a slot

  /** What a hook knows about itself. */
  ghost predicate HookSelf(h: Hook) {
    && |h.samples| == SLOTS
    && (h.pc in {HOut, HTest, HMark, HConfirm, HRetreat, HDrop} ==> forall i | 0 <= i < SLOTS :: h.samples[i] == 0)
    && (h.pc !in {HOut, HTest, HMark} ==> h.flag)
    && (h.pc == HClear || h.pc == HDone ==> h.at < SLOTS && h.id != 0 && h.samples[h.at] == h.id)
  }

  /** A hook that holds a sample holds the slot's current, unreclaimed and unsealed request. */
  ghost predicate HookInv(x: Slot, at: nat, h: Hook)
    requires at < |h.samples|
  {
    h.samples[at] != 0 ==>
      h.samples[at] == x.published && x.reclaimed != x.published && x.raised == x.published && x.sealed != x.published
  }

  ghost predicate HooksInv(x: Slot, at: nat, hooks: seq<Hook>) {
    forall l | 0 <= l < |hooks| :: at < |hooks[l].samples| && HookInv(x, at, hooks[l])
  }

  // ---------------------------------------------------------------- the consumer and a slot

  ghost predicate NoSample(hooks: seq<Hook>, at: nat, upTo: nat) {
    forall l | 0 <= l < upTo && l < |hooks| && at < |hooks[l].samples| :: hooks[l].samples[at] == 0
  }

  ghost predicate RetireInv(x: Slot, at: nat, c: Retire, o: Owner, hooks: seq<Hook>) {
    var r := Past(c.pc);
    c.at == at ==>
      && (2 <= r ==> c.number != 0 && (c.number == x.published || (r == 2 && c.number == x.reclaimed)))
      && (3 <= r ==> x.reclaimed != x.published)
      && (4 <= r ==> x.processed == x.published)
      && (5 <= r ==> x.active == 0)
      && (7 <= r ==> !(o.at == at && Rank(o.pc) == 50))
      && (7 == r ==> c.i <= LANES && NoSample(hooks, at, c.i))
      && (8 <= r ==> NoSample(hooks, at, LANES))
      && (r == 9 || r == 10 ==> x.rejected != 0)
      && (13 <= r <= 17 ==> x.returned == x.published)
      && (14 <= r <= 17 ==> x.done == x.published)
      && (r == 17 ==> x.sealed == x.published)
      && (18 <= r ==> x.rejected != 0 || x.settled == x.published)
  }

  // ---------------------------------------------------------------- the writer and a slot

  ghost predicate WriterInv(x: Slot, at: nat, wr: Writer, env: Env) {
    && x.published <= env.published
    && (x.reclaimed != x.published ==> x.request.number == x.published)
    && (wr.at == at && wr.pc in {WRequest, WCounter, WPublish} ==> x.published == x.reclaimed)
    && (wr.at == at && wr.pc in {WCounter, WPublish} ==> x.request == wr.req)
    && (wr.pc == WPublish ==> x.published < wr.req.number)
    && (wr.at == at && wr.pc in {WSealed, WSettle} ==> wr.number == x.published && x.published != 0)
    && (wr.at == at && wr.pc == WSettle ==> x.sealed == x.published)
  }

  ghost predicate WriterSelf(wr: Writer, env: Env) {
    && (wr.pc in {WRequest, WCounter} ==> wr.req.number == env.published + 1)
    && (wr.pc == WPublish ==> wr.req.number == env.published)
    && (wr.pc in {WRequest, WCounter, WPublish} ==> wr.req.number <= LAST_SEQUENCE)
    && env.published <= LAST_SEQUENCE
  }

  // ---------------------------------------------------------------- the whole state

  ghost predicate SlotAt(s: State, at: nat)
    requires Shape(s) && at < SLOTS
  {
    && SlotInv(s.slots[at])
    && OwnerInv(s.slots[at], at, s.o, s.env)
    && HooksInv(s.slots[at], at, s.hooks)
    && RetireInv(s.slots[at], at, s.c, s.o, s.hooks)
    && WriterInv(s.slots[at], at, s.wr, s.env)
  }

  ghost predicate Inv(s: State) {
    && Shape(s)
    && (forall l | 0 <= l < LANES :: HookSelf(s.hooks[l]))
    && WriterSelf(s.wr, s.env)
    && (forall at | 0 <= at < SLOTS :: SlotAt(s, at))
    && (forall i, j | 0 <= i < j < SLOTS :: s.slots[i].published != 0 ==> s.slots[i].published != s.slots[j].published)
  }

  lemma EmptySlotInv()
    ensures SlotInv(EmptySlot())
  {
  }

  lemma InitialView(x: Slot, at: nat, hooks: seq<Hook>, o: Owner, c: Retire, wr: Writer, env: Env)
    requires x.published == x.processed == x.reclaimed == 0 && Rank(o.pc) == 0 && Past(c.pc) == 0 && wr.pc == WIdle
    requires forall l | 0 <= l < |hooks| :: at < |hooks[l].samples| && hooks[l].samples[at] == 0
    ensures OwnerInv(x, at, o, env) && RetireInv(x, at, c, o, hooks) && WriterInv(x, at, wr, env) &&
            HooksInv(x, at, hooks)
  {
  }

  lemma InitialInv()
    ensures Inv(Initial())
  {
    EmptySlotInv();
    var s := Initial();
    assert forall l | 0 <= l < LANES :: s.hooks[l] == Hook(false, HOut, 0, NoSamples(), NO_INVOCATION, 0, 0);
    assert forall at | 0 <= at < SLOTS :: s.slots[at] == EmptySlot();
    forall at | 0 <= at < SLOTS
      ensures SlotAt(s, at)
    {
      InitialView(s.slots[at], at, s.hooks, s.o, s.c, s.wr, s.env);
    }
  }
}
