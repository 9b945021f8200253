/** App hosts over every sequence of calls, with the callbacks of their consumers and of their widgets free to call
    back into any of them. */
module UiApp {
  import opened Ui

  /** What a callback does: the calls it makes itself, the numbers of screens it leaves the parents with, and what
      it returns (throwing counts as refusing). */
  datatype Script = Script(calls: seq<Call>, screens: nat -> nat, result: bool)

  datatype Readiness = Ready | Pending | Failed

  datatype Operation =
    | Register | Unregister | RequestClose
    | Open(opening: Script, unwinding: Script)
    | Suspend(blocked: bool, ok: bool, recovered: bool)
    | Resume(blocked: bool, ok: bool)
    | Drain(prepare: Script, readiness: Readiness, closing: Script)
    | Destroy(forced: bool, prepare: Script, readiness: Readiness, closing: Script)

  /** What happens: an operation on one of the app hosts, a click, selection or slider event delivered to its owner,
      or a list painted, which asks its owner for the text of a row. */
  datatype Call = On(app: nat, op: Operation) | Widget(body: Script) | Paints(body: Script)

  /** A callback under way: of a widget, which the callback depth counts; for the text of a row, which it does not;
      or of an app host's consumer, to open, prepare or close. */
  datatype Frame = Counted | Painting | Transit(app: nat)

  datatype Reason = Opening | Draining | Destroying

  /** A run of a consumer's close: by which operation, and the callbacks under way, innermost last, when that
      operation was called and while the close runs. */
  datatype Close = Close(operation: Reason, called: seq<Frame>, running: seq<Frame>)

  class Record {
    ghost var stack: seq<Frame>
    ghost var closes: seq<seq<Close>>   // of each app host

    constructor (apps: nat)
      ensures stack == [] && |closes| == apps && forall i | 0 <= i < apps :: closes[i] == []
    {
      stack, closes := [], seq(apps, _ => []);
    }
  }

  ghost function Depth(stack: seq<Frame>): nat {
    if stack == [] then 0 else Depth(stack[..|stack| - 1]) + if stack[|stack| - 1].Counted? then 1 else 0
  }

  lemma Pushed(stack: seq<Frame>, f: Frame)
    ensures Depth(stack + [f]) == Depth(stack) + if f.Counted? then 1 else 0
    ensures forall g :: g in stack + [f] <==> g in stack || g == f
    ensures (stack + [f])[..|stack|] == stack
  {
    assert (stack + [f])[..|stack|] == stack;
  }

  /** An app host as it stands, with the closes of its consumer so far. */
  datatype View = View(
    registered: bool, isOpen: bool, closeRequested: bool, suspended: bool, transition: bool, alive: bool,
    closes: seq<Close>)

  ghost function ViewOf(h: AppHost, closes: seq<Close>): View
    reads h
  {
    View(h.registered, h.isOpen, h.closeRequested, h.suspended, h.transition, h.alive, closes)
  }

  ghost predicate Inv(h: AppHost)
    reads h
  {
    Sane(ViewOf(h, []))
  }

  ghost predicate Sane(v: View) {
    (v.closeRequested ==> v.isOpen) && (v.isOpen ==> v.registered) && (v.suspended ==> v.isOpen) &&
      (v.registered ==> v.alive)
  }

  /** A close runs as part of one operation on its host, with no other operation on that host under way; drain and
      destroy are called with no counted callback under way. */
  ghost predicate Proper(app: nat, c: Close) {
    && Transit(app) !in c.called && c.running == c.called + [Transit(app)]
    && (c.operation != Opening ==> Depth(c.called) == 0)
  }

  /** The depth is 0 exactly when nothing under way is counted. */
  lemma {:induction false} UncountedOnly(stack: seq<Frame>)
    ensures Depth(stack) == 0 <==> Counted !in stack
  {
    if stack != [] {
      var n := |stack| - 1;
      UncountedOnly(stack[..n]);
      assert stack == stack[..n] + [stack[n]];
    }
  }

  /** App hosts of one context, each with a parent of its own. */
  ghost predicate Apart(hs: seq<AppHost>, c: Context) {
    && (forall i | 0 <= i < |hs| :: hs[i].context == c)
    && (forall i, j | 0 <= i < j < |hs| :: hs[i] != hs[j] && hs[i].parent != hs[j].parent)
  }

  ghost function Parents(hs: seq<AppHost>): set<Parent> {
    set i | 0 <= i < |hs| :: hs[i].parent
  }

  ghost function ViewsOf(hs: seq<AppHost>, closes: seq<seq<Close>>): (views: seq<View>)
    requires |closes| == |hs|
    reads hs
    ensures |views| == |hs| && forall i | 0 <= i < |hs| :: views[i] == ViewOf(hs[i], closes[i])
  {
    if hs == [] then [] else [ViewOf(hs[0], closes[0])] + ViewsOf(hs[1..], closes[1..])
  }

  ghost function Views(hs: seq<AppHost>, r: Record): (views: seq<View>)
    requires |r.closes| == |hs|
    reads hs, r`closes
    ensures |views| == |hs| && forall i | 0 <= i < |hs| :: views[i] == ViewOf(hs[i], r.closes[i])
  {
    ViewsOf(hs, r.closes)
  }

  /** The flags imply one another, a transition flag is raised exactly while a callback of that host's consumer is
      under way, and every close so far was proper. */
  ghost predicate Good(views: seq<View>, stack: seq<Frame>) {
    forall i | 0 <= i < |views| ::
      Sane(views[i]) && (views[i].transition <==> Transit(i) in stack) && AllProper(i, views[i].closes)
  }

  ghost predicate AllProper(app: nat, closes: seq<Close>) {
    forall k | 0 <= k < |closes| :: Proper(app, closes[k])
  }

  /** All that, and the depth is the number of counted callbacks under way. */
  ghost predicate All(hs: seq<AppHost>, c: Context, r: Record)
    reads hs, c`callbackDepth, r
  {
    Apart(hs, c) && |r.closes| == |hs| && c.callbackDepth == Depth(r.stack) && Good(Views(hs, r), r.stack)
  }

  // ---------------------------------------------------------------- what calls keep

  /** What no call changes of a host, and what a call made during a transition of it cannot change. */
  ghost predicate Keeps(v: View, v': View) {
    && v'.transition == v.transition && (v'.alive ==> v.alive) && v.closes <= v'.closes
    && (v.transition ==> (v.closeRequested ==> v'.closeRequested) && v' == v.(closeRequested := v'.closeRequested))
  }

  /** Of every host, but perhaps of `but`. */
  ghost predicate Kept(before: seq<View>, after: seq<View>, but: int) {
    |before| == |after| && forall i | 0 <= i < |before| && i != but :: Keeps(before[i], after[i])
  }

  lemma KeptThen(first: seq<View>, second: seq<View>, third: seq<View>, but: int)
    requires Kept(first, second, but) && Kept(second, third, but)
    ensures Kept(first, third, but)
  {
    forall i | 0 <= i < |first| && i != but
      ensures Keeps(first[i], third[i])
    {
      assert Keeps(first[i], second[i]) && Keeps(second[i], third[i]);
    }
  }

  /** What the run of a consumer's close makes of its host. */
  ghost predicate Closed(v: View, v': View, x: Close, closed: bool) {
    && v'.closes == v.closes + [x] && v'.transition == v.transition && v'.alive == v.alive
    && v'.registered == v.registered
    && if closed then !v'.isOpen && !v'.closeRequested && !v'.suspended
       else v'.isOpen == v.isOpen && v'.suspended == v.suspended && (v.closeRequested ==> v'.closeRequested)
  }

  function Settled(v: View): View {
    v.(isOpen := false, closeRequested := false, suspended := false)
  }

  lemma GoodTransition(views: seq<View>, stack: seq<Frame>, i: nat)
    requires i < |views| && Good(views, stack) && Transit(i) !in stack
    ensures Good(views[i := views[i].(transition := true)], stack + [Transit(i)])
  {
    Pushed(stack, Transit(i));
  }

  lemma GoodAfter(views: seq<View>, stack: seq<Frame>, i: nat)
    requires i < |views| && Good(views, stack + [Transit(i)]) && Transit(i) !in stack
    ensures Good(views[i := views[i].(transition := false)], stack)
  {
    Pushed(stack, Transit(i));
  }

  lemma GoodNoted(views: seq<View>, stack: seq<Frame>, i: nat, x: Close)
    requires i < |views| && Good(views, stack) && Proper(i, x)
    ensures Good(views[i := views[i].(closes := views[i].closes + [x])], stack)
  {
  }

  /** A close noted, run (`run`) and, when it succeeded, settled. */
  lemma ClosingMeans(views: seq<View>, run: seq<View>, i: nat, x: Close, closed: bool)
    requires i < |views| && views[i].transition
    requires Kept(views[i := views[i].(closes := views[i].closes + [x])], run, -1)
    ensures |run| == |views|
    ensures var after := if closed then run[i := Settled(run[i])] else run;
            Kept(views, after, i) && Closed(views[i], after[i], x, closed)
  {
    var noted := views[i := views[i].(closes := views[i].closes + [x])];
    assert Keeps(noted[i], run[i]);
    forall j | 0 <= j < |views| && j != i
      ensures Keeps(views[j], run[j])
    {
      assert noted[j] == views[j];
    }
  }

  /** Nothing but a request to close. */
  ghost predicate Same(v: View, v': View) {
    v' == v.(closeRequested := v'.closeRequested) && (v.closeRequested ==> v'.closeRequested)
  }

  /** What the outcome of a transition does to its host: a close was run (`x`), or none was. */
  ghost predicate Outcome(v: View, v': View, x: Close, run: bool, closed: bool) {
    if run then Closed(v, v', x, closed) else Same(v, v')
  }

  /** A callback first (`middle`), and then the close or nothing. */
  lemma OutcomeAfter(views: seq<View>, middle: seq<View>, after: seq<View>, i: nat, x: Close, run: bool, closed: bool)
    requires i < |views| && views[i].transition && Kept(views, middle, -1) && Kept(middle, after, i)
    requires Outcome(middle[i], after[i], x, run, closed)
    ensures Kept(views, after, i) && Outcome(views[i], after[i], x, run, closed)
  {
    assert Keeps(views[i], middle[i]);
    KeptThen(views, middle, after, i);
  }

  /** The transition raised before, and cleared after. */
  lemma OutcomeAround(views: seq<View>, after: seq<View>, i: nat, x: Close, run: bool, closed: bool)
    requires i < |views| && !views[i].transition && Kept(views[i := views[i].(transition := true)], after, i)
    requires Outcome(views[i].(transition := true), after[i], x, run, closed)
    ensures var ended := after[i := after[i].(transition := false)];
            Kept(views, ended, -1) && Outcome(views[i], ended[i], x, run, closed)
  {
    forall j | 0 <= j < |views| && j != i
      ensures Keeps(views[j], after[j])
    {
      assert views[i := views[i].(transition := true)][j] == views[j];
    }
  }

  lemma OutcomeNone(views: seq<View>, after: seq<View>, i: nat, x: Close)
    requires i < |views| && views[i].transition && Kept(views, after, -1)
    ensures Kept(views, after, i) && Outcome(views[i], after[i], x, false, false)
  {
    assert Keeps(views[i], after[i]);
  }

  /** One host changes. */
  lemma GoodOne(views: seq<View>, stack: seq<Frame>, i: nat, v: View)
    requires i < |views| && Good(views, stack) && Sane(v) && Keeps(views[i], v) && v.closes == views[i].closes
    ensures Good(views[i := v], stack) && Kept(views, views[i := v], -1)
  {
    forall j | 0 <= j < |views|
      ensures Keeps(views[j], views[i := v][j])
    {
    }
  }

  /** A callback that is no operation on a host. */
  lemma GoodUncounted(views: seq<View>, stack: seq<Frame>, f: Frame)
    requires !f.Transit?
    ensures Good(views, stack) <==> Good(views, stack + [f])
  {
    Pushed(stack, f);
  }

  // ---------------------------------------------------------------- operations that run no consumer

  /** mpc_ui_app_register; `complete` callbacks are given. */
  method DoRegister(h: AppHost)
    requires Inv(h) && h.alive
    modifies h`registered, h.context`error
    ensures Inv(h) && (old(h.transition) || old(h.isOpen) ==> h.registered == old(h.registered))
    ensures !old(h.transition) && !old(h.isOpen) ==> h.registered
  {
    if h.registered || h.isOpen || h.transition {
      h.context.SetError(InvalidArgument);
    } else {
      h.registered := true;
    }
  }

  /** mpc_ui_app_unregister */
  method DoUnregister(h: AppHost)
    requires Inv(h) && h.alive
    modifies h`registered, h.context`error
    ensures Inv(h)
    ensures h.registered == (old(h.registered) && (h.isOpen || h.transition || h.parent.screens > 0))
  {
    if !h.registered || h.isOpen || h.closeRequested || h.transition || h.parent.screens > 0 {
      h.context.SetError(LifetimeOrder);
    } else {
      h.registered := false;
    }
  }

  /** mpc_ui_app_request_close */
  method DoRequestClose(h: AppHost)
    requires Inv(h) && h.alive
    modifies h`closeRequested, h.context`error
    ensures Inv(h) && h.closeRequested == (old(h.closeRequested) || h.isOpen)
  {
    if !h.registered || !h.isOpen {
      h.context.SetError(LifetimeOrder);
    } else {
      h.closeRequested := true;
    }
  }

  /** The flags of mpc_ui_private_app_host_suspend; what it does to the screens is module UiSuspend. */
  method DoSuspend(h: AppHost, blocked: bool, ok: bool, recovered: bool)
    requires Inv(h) && h.alive
    modifies h`suspended, h.context`error
    ensures Inv(h) && (h.transition ==> h.suspended == old(h.suspended))
    ensures h.suspended != old(h.suspended) ==> h.context.callbackDepth == 0 && !h.closeRequested
  {
    if !h.registered || !h.isOpen || h.closeRequested || h.transition {
      h.context.SetError(LifetimeOrder);
    } else if h.suspended {
    } else if h.context.callbackDepth > 0 {
      h.context.SetError(CallbackActive);
    } else if h.parent.screens == 0 || blocked {
      h.context.SetError(LifetimeOrder);
    } else {
      h.suspended := ok || !recovered;
    }
  }

  method DoResume(h: AppHost, blocked: bool, ok: bool)
    requires Inv(h) && h.alive
    modifies h`suspended, h.context`error
    ensures Inv(h) && (h.transition ==> h.suspended == old(h.suspended))
    ensures h.suspended != old(h.suspended) ==> h.context.callbackDepth == 0 && !h.closeRequested
  {
    if !h.registered || !h.isOpen || h.closeRequested || h.transition {
      h.context.SetError(LifetimeOrder);
    } else if !h.suspended {
    } else if h.context.callbackDepth > 0 {
      h.context.SetError(CallbackActive);
    } else if h.parent.screens == 0 || blocked {
      h.context.SetError(LifetimeOrder);
    } else {
      h.suspended := !ok;
    }
  }

  // ---------------------------------------------------------------- operations that run a consumer

  /** A callback's calls back in, and what it leaves. */
  method RunScript(hs: seq<AppHost>, c: Context, r: Record, s: Script) returns (result: bool)
    requires All(hs, c, r)
    modifies hs, Parents(hs)`screens, c`callbackDepth, c`error, r
    ensures All(hs, c, r) && r.stack == old(r.stack) && Kept(old(Views(hs, r)), Views(hs, r), -1)
    ensures result == s.result && forall i | 0 <= i < |hs| :: hs[i].parent.screens == s.screens(i)
    decreases s, 0
  {
    PerformAll(hs, c, r, s.calls);
    LeaveScreens(hs, s.screens);
    result := s.result;
  }

  method LeaveScreens(hs: seq<AppHost>, screens: nat -> nat)
    requires forall i, j | 0 <= i < j < |hs| :: hs[i].parent != hs[j].parent
    modifies Parents(hs)`screens
    ensures forall i | 0 <= i < |hs| :: hs[i].parent.screens == screens(i)
  {
    var k := 0;
    while k < |hs|
      invariant 0 <= k <= |hs| && forall i | 0 <= i < k :: hs[i].parent.screens == screens(i)
    {
      hs[k].parent.screens := screens(k);
      k := k + 1;
    }
  }

  method PerformAll(hs: seq<AppHost>, c: Context, r: Record, calls: seq<Call>)
    requires All(hs, c, r)
    modifies hs, Parents(hs)`screens, c`callbackDepth, c`error, r
    ensures All(hs, c, r) && r.stack == old(r.stack) && Kept(old(Views(hs, r)), Views(hs, r), -1)
    decreases calls, 0
  {
    var k := 0;
    while k < |calls|
      invariant 0 <= k <= |calls| && All(hs, c, r) && r.stack == old(r.stack)
      invariant Kept(old(Views(hs, r)), Views(hs, r), -1)
    {
      ghost var before := Views(hs, r);
      Perform(hs, c, r, calls[k]);
      KeptThen(old(Views(hs, r)), before, Views(hs, r), -1);
      k := k + 1;
    }
  }

  ghost method Note(hs: seq<AppHost>, c: Context, r: Record, i: nat, x: Close)
    requires All(hs, c, r) && i < |hs| && Proper(i, x)
    modifies r`closes
    ensures All(hs, c, r)
    ensures Views(hs, r) == var views := old(Views(hs, r)); views[i := views[i].(closes := views[i].closes + [x])]
  {
    GoodNoted(Views(hs, r), r.stack, i, x);
    ghost var views := Views(hs, r);
    r.closes := r.closes[i := r.closes[i] + [x]];
    assert Views(hs, r) == views[i := views[i].(closes := views[i].closes + [x])];
  }

  /** An operation on host `i` begins to call the consumer, */
  method Begin(hs: seq<AppHost>, c: Context, r: Record, h: AppHost, ghost i: nat)
    requires All(hs, c, r) && i < |hs| && hs[i] == h && !h.transition
    modifies h`transition, r`stack
    ensures All(hs, c, r) && r.stack == old(r.stack) + [Transit(i)]
    ensures Views(hs, r) == var views := old(Views(hs, r)); views[i := views[i].(transition := true)]
  {
    ghost var views := Views(hs, r);
    assert !views[i].transition;
    GoodTransition(views, r.stack, i);
    h.transition := true;
    assert Views(hs, r) == views[i := views[i].(transition := true)];
    Pushed(r.stack, Transit(i));
    r.stack := r.stack + [Transit(i)];
  }

  /** and is done with it. */
  method End(hs: seq<AppHost>, c: Context, r: Record, h: AppHost, ghost i: nat, ghost before: seq<Frame>)
    requires All(hs, c, r) && i < |hs| && hs[i] == h && r.stack == before + [Transit(i)] && Transit(i) !in before
    modifies h`transition, r`stack
    ensures All(hs, c, r) && r.stack == before
    ensures Views(hs, r) == var views := old(Views(hs, r)); views[i := views[i].(transition := false)]
  {
    ghost var views := Views(hs, r);
    GoodAfter(views, before, i);
    h.transition := false;
    assert Views(hs, r) == views[i := views[i].(transition := false)];
    Pushed(before, Transit(i));
    r.stack := before;
  }

  /** The consumer is closed. */
  method Settle(hs: seq<AppHost>, c: Context, r: Record, h: AppHost, ghost i: nat)
    requires All(hs, c, r) && i < |hs| && hs[i] == h
    modifies h`isOpen, h`closeRequested, h`suspended
    ensures All(hs, c, r)
    ensures var views := old(Views(hs, r));
            Views(hs, r) == views[i := Settled(views[i])]
  {
    h.isOpen, h.closeRequested, h.suspended := false, false, false;
  }

  /** The consumer's close, noted, and what follows when it succeeds. */
  method RunClosing(hs: seq<AppHost>, c: Context, r: Record, h: AppHost, i: nat, operation: Reason, closing: Script,
                    ghost called: seq<Frame>)
    returns (closed: bool)
    requires All(hs, c, r) && i < |hs| && hs[i] == h && h.transition
    requires r.stack == called + [Transit(i)] && Transit(i) !in called && (operation != Opening ==> Depth(called) == 0)
    modifies hs, Parents(hs)`screens, c`callbackDepth, c`error, r
    ensures All(hs, c, r) && r.stack == old(r.stack) && Kept(old(Views(hs, r)), Views(hs, r), i)
    ensures Closed(old(Views(hs, r))[i], Views(hs, r)[i], Close(operation, called, r.stack), closed)
    ensures closed <==> closing.result && closing.screens(i) == 0
    decreases closing, 1
  {
    Note(hs, c, r, i, Close(operation, called, r.stack));
    var result := RunScript(hs, c, r, closing);
    ghost var run := Views(hs, r);
    closed := result && h.parent.screens == 0;
    if closed { Settle(hs, c, r, h, i); }
    ClosingMeans(old(Views(hs, r)), run, i, Close(operation, called, r.stack), closed);
  }

  /** The consumer's open, and its close if that was no success. */
  method RunOpen(hs: seq<AppHost>, c: Context, r: Record, h: AppHost, i: nat, op: Operation, ghost called: seq<Frame>)
    returns (stays: bool, unwound: bool)
    requires All(hs, c, r) && i < |hs| && hs[i] == h && h.transition && op.Open?
    requires r.stack == called + [Transit(i)] && Transit(i) !in called
    modifies hs, Parents(hs)`screens, c`callbackDepth, c`error, r
    ensures All(hs, c, r) && r.stack == old(r.stack) && Kept(old(Views(hs, r)), Views(hs, r), i)
    ensures stays <==> op.opening.result && op.opening.screens(i) > 0
    ensures !stays ==> (unwound <==> op.unwinding.result && op.unwinding.screens(i) == 0)
    ensures Outcome(old(Views(hs, r))[i], Views(hs, r)[i], Close(Opening, called, r.stack), !stays, unwound)
    decreases op, 0
  {
    stays := RunScript(hs, c, r, op.opening);
    stays, unwound := stays && h.parent.screens > 0, false;
    ghost var middle := Views(hs, r);
    ghost var x := Close(Opening, called, r.stack);
    if stays {
      OutcomeNone(old(Views(hs, r)), middle, i, x);
    } else {
      unwound := RunClosing(hs, c, r, h, i, Opening, op.unwinding, called);
      OutcomeAfter(old(Views(hs, r)), middle, Views(hs, r), i, x, true, unwound);
    }
  }

  /** The same as a transition of the host. */
  method OpenAs(hs: seq<AppHost>, c: Context, r: Record, h: AppHost, i: nat, op: Operation)
    returns (stays: bool, unwound: bool)
    requires All(hs, c, r) && i < |hs| && hs[i] == h && !h.transition && op.Open?
    modifies hs, Parents(hs)`screens, c`callbackDepth, c`error, r
    ensures All(hs, c, r) && r.stack == old(r.stack) && Kept(old(Views(hs, r)), Views(hs, r), -1)
    ensures stays <==> op.opening.result && op.opening.screens(i) > 0
    ensures !stays ==> (unwound <==> op.unwinding.result && op.unwinding.screens(i) == 0)
    ensures Outcome(old(Views(hs, r))[i], Views(hs, r)[i], Close(Opening, r.stack, r.stack + [Transit(i)]),
                    !stays, unwound)
    decreases op, 1
  {
    ghost var called := r.stack;
    assert !Views(hs, r)[i].transition;
    Begin(hs, c, r, h, i);
    stays, unwound := RunOpen(hs, c, r, h, i, op, called);
    OutcomeAround(old(Views(hs, r)), Views(hs, r), i, Close(Opening, called, r.stack), !stays, unwound);
    End(hs, c, r, h, i, called);
  }

  ghost predicate MayOpen(h: AppHost)
    reads h, h.parent`screens
  {
    h.registered && !h.isOpen && !h.closeRequested && !h.transition && h.parent.screens == 0
  }

  /** mpc_ui_app_open */
  method DoOpen(hs: seq<AppHost>, c: Context, r: Record, i: nat, op: Operation)
    requires All(hs, c, r) && i < |hs| && hs[i].alive && op.Open?
    modifies hs, Parents(hs)`screens, c`callbackDepth, c`error, r
    ensures All(hs, c, r) && r.stack == old(r.stack) && Kept(old(Views(hs, r)), Views(hs, r), -1)
    // Turned away: nothing runs.
    ensures !old(MayOpen(hs[i])) ==> Views(hs, r) == old(Views(hs, r))
    // The consumer opened with screens of its own, or its close is run once, inside whatever the open was called in.
    ensures old(MayOpen(hs[i])) ==>
              if op.opening.result && op.opening.screens(i) > 0 then hs[i].isOpen && r.closes[i] == old(r.closes)[i]
              else r.closes[i] == old(r.closes)[i] + [Close(Opening, r.stack, r.stack + [Transit(i)])]
                   && (hs[i].isOpen <==> !(op.unwinding.result && op.unwinding.screens(i) == 0))
    decreases op, 2
  {
    var h := hs[i];
    if !h.registered || h.isOpen || h.closeRequested || h.transition || h.parent.screens > 0 {
      c.SetError(LifetimeOrder);
      return;
    }
    Raise(hs, c, r, h, i, h.closeRequested);
    ghost var raised := Views(hs, r);
    var stays, unwound := OpenAs(hs, c, r, h, i, op);
    ghost var after := Views(hs, r);
    KeptThen(old(Views(hs, r)), raised, after, -1);
    if !stays && !unwound { c.SetError(LifetimeOrder); }
    assert Views(hs, r) == after;
  }

  /** The host counts as open, and its close as requested if it is. */
  method Raise(hs: seq<AppHost>, c: Context, r: Record, h: AppHost, ghost i: nat, request: bool)
    requires All(hs, c, r) && i < |hs| && hs[i] == h && h.registered && !h.transition && (h.closeRequested ==> request)
    modifies h`isOpen, h`closeRequested
    ensures All(hs, c, r) && Kept(old(Views(hs, r)), Views(hs, r), -1)
    ensures Views(hs, r) == var views := old(Views(hs, r));
              views[i := views[i].(isOpen := true, closeRequested := request)]
  {
    ghost var views := Views(hs, r);
    ghost var v := views[i].(isOpen := true, closeRequested := request);
    GoodOne(views, r.stack, i, v);
    h.isOpen, h.closeRequested := true, request;
    assert Views(hs, r) == views[i := v];
  }

  /** prepare_close and close in a row, as drain and a forced destroy run them. */
  method RunClose(hs: seq<AppHost>, c: Context, r: Record, h: AppHost, i: nat, op: Operation, operation: Reason,
                  prepare: Script, readiness: Readiness, closing: Script, ghost called: seq<Frame>)
    returns (closed: bool)
    requires All(hs, c, r) && i < |hs| && hs[i] == h && h.transition && prepare < op && closing < op
    requires r.stack == called + [Transit(i)] && Transit(i) !in called && Depth(called) == 0
    modifies hs, Parents(hs)`screens, c`callbackDepth, c`error, r
    ensures All(hs, c, r) && r.stack == old(r.stack) && Kept(old(Views(hs, r)), Views(hs, r), i)
    ensures closed <==> readiness == Ready && closing.result && closing.screens(i) == 0
    ensures Outcome(old(Views(hs, r))[i], Views(hs, r)[i], Close(operation, called, r.stack),
                    readiness == Ready, closed)
    decreases op, 0
  {
    var prepared := RunScript(hs, c, r, prepare);
    ghost var middle := Views(hs, r);
    ghost var x := Close(operation, called, r.stack);
    if readiness == Ready {
      closed := RunClosing(hs, c, r, h, i, operation, closing, called);
      OutcomeAfter(old(Views(hs, r)), middle, Views(hs, r), i, x, true, closed);
    } else {
      closed := false;
      OutcomeNone(old(Views(hs, r)), middle, i, x);
    }
  }

  /** The same as a transition of the host. */
  method CloseAs(hs: seq<AppHost>, c: Context, r: Record, h: AppHost, i: nat, op: Operation, operation: Reason,
                 prepare: Script, readiness: Readiness, closing: Script)
    returns (closed: bool)
    requires All(hs, c, r) && i < |hs| && hs[i] == h && prepare < op && closing < op
    requires !h.transition && c.callbackDepth == 0
    modifies hs, Parents(hs)`screens, c`callbackDepth, c`error, r
    ensures All(hs, c, r) && r.stack == old(r.stack) && Kept(old(Views(hs, r)), Views(hs, r), -1)
    ensures closed <==> readiness == Ready && closing.result && closing.screens(i) == 0
    ensures Outcome(old(Views(hs, r))[i], Views(hs, r)[i], Close(operation, r.stack, r.stack + [Transit(i)]),
                    readiness == Ready, closed)
    decreases op, 1
  {
    ghost var called := r.stack;
    assert !Views(hs, r)[i].transition;
    Begin(hs, c, r, h, i);
    closed := RunClose(hs, c, r, h, i, op, operation, prepare, readiness, closing, called);
    OutcomeAround(old(Views(hs, r)), Views(hs, r), i, Close(operation, called, r.stack), readiness == Ready, closed);
    End(hs, c, r, h, i, called);
  }

  /** mpc_ui_private_app_host_drain */
  method DoDrain(hs: seq<AppHost>, c: Context, r: Record, i: nat, op: Operation)
    requires All(hs, c, r) && i < |hs| && hs[i].alive && op.Drain?
    modifies hs, Parents(hs)`screens, c`callbackDepth, c`error, r
    ensures All(hs, c, r) && r.stack == old(r.stack) && Kept(old(Views(hs, r)), Views(hs, r), -1)
    // The consumer stays open, and its close request with it, unless it was ready and closed everything.
    ensures old(hs[i].isOpen) && hs[i].isOpen && old(hs[i].closeRequested) ==> hs[i].closeRequested
    ensures old(hs[i].isOpen) && !hs[i].isOpen ==>
              && old(hs[i].closeRequested) && !old(hs[i].transition) && c.callbackDepth == 0
              && op.readiness == Ready && op.closing.result && op.closing.screens(i) == 0 && !hs[i].closeRequested
              && !hs[i].suspended
    // Its close runs exactly when it is ready and none of the guards turned the drain away.
    ensures r.closes[i] == old(r.closes)[i] +
              if !old(hs[i].transition) && Depth(r.stack) == 0 && old(hs[i].closeRequested) && op.readiness == Ready
              then [Close(Draining, r.stack, r.stack + [Transit(i)])] else []
    decreases op, 2
  {
    var h := hs[i];
    if h.transition || c.callbackDepth > 0 {
      c.SetError(CallbackActive);
      return;
    }
    if !h.closeRequested { return; }
    assert Sane(Views(hs, r)[i]);
    var closed := CloseAs(hs, c, r, h, i, op, Draining, op.prepare, op.readiness, op.closing);
    ghost var after := Views(hs, r);
    if op.readiness == Failed {
      c.SetError(HostCallFailed);
    } else if op.readiness == Ready && !closed {
      c.SetError(DetachFailed);
    }
    assert Views(hs, r) == after;
  }

  /** mpc_ui_private_app_host_destroy, up to the host's own memory. */
  method DoDestroy(hs: seq<AppHost>, c: Context, r: Record, i: nat, op: Operation)
    requires All(hs, c, r) && i < |hs| && hs[i].alive && op.Destroy?
    modifies hs, Parents(hs)`screens, c`callbackDepth, c`error, r
    ensures All(hs, c, r) && r.stack == old(r.stack) && Kept(old(Views(hs, r)), Views(hs, r), -1)
    // A host goes only when its consumer is closed, and never in a counted callback or a transition of its own.
    ensures !hs[i].alive ==> !old(hs[i].transition) && c.callbackDepth == 0 && !hs[i].isOpen
                             && (old(hs[i].isOpen) ==>
                                   op.forced && op.readiness == Ready && op.closing.result &&
                                   op.closing.screens(i) == 0)
    ensures r.closes[i] == old(r.closes)[i] +
              if !old(hs[i].transition) && Depth(r.stack) == 0 && old(hs[i].isOpen) && op.forced &&
                 op.readiness == Ready
              then [Close(Destroying, r.stack, r.stack + [Transit(i)])] else []
    decreases op, 3
  {
    var h := hs[i];
    if h.transition || c.callbackDepth > 0 {
      c.SetError(CallbackActive);
      return;
    }
    if h.isOpen {
      if !op.forced {
        c.SetError(LifetimeOrder);
        return;
      }
      var closed := Force(hs, c, r, h, i, op);
      if !closed {
        c.SetError(LifetimeOrder);
        return;
      }
    }
    ghost var before := Views(hs, r);
    Free(hs, c, r, h, i);
    KeptThen(old(Views(hs, r)), before, Views(hs, r), -1);
  }

  /** Its close is requested, whether or not it was, and run. */
  method Force(hs: seq<AppHost>, c: Context, r: Record, h: AppHost, i: nat, op: Operation) returns (closed: bool)
    requires All(hs, c, r) && i < |hs| && hs[i] == h && op.Destroy? && h.isOpen && !h.transition && c.callbackDepth == 0
    modifies hs, Parents(hs)`screens, c`callbackDepth, c`error, r
    ensures All(hs, c, r) && r.stack == old(r.stack) && Kept(old(Views(hs, r)), Views(hs, r), -1)
    ensures closed <==> op.readiness == Ready && op.closing.result && op.closing.screens(i) == 0
    ensures h.alive == old(h.alive) && h.transition == false && h.isOpen == !closed
    ensures r.closes[i] == old(r.closes)[i] +
              if op.readiness == Ready then [Close(Destroying, r.stack, r.stack + [Transit(i)])] else []
    decreases op, 2
  {
    assert Sane(Views(hs, r)[i]);
    Raise(hs, c, r, h, i, true);
    ghost var raised := Views(hs, r);
    closed := CloseAs(hs, c, r, h, i, op, Destroying, op.prepare, op.readiness, op.closing);
    KeptThen(old(Views(hs, r)), raised, Views(hs, r), -1);
  }

  /** The host goes. */
  method Free(hs: seq<AppHost>, c: Context, r: Record, h: AppHost, ghost i: nat)
    requires All(hs, c, r) && i < |hs| && hs[i] == h && !h.isOpen && !h.transition && h.alive
    modifies h`registered, h`alive
    ensures All(hs, c, r) && Kept(old(Views(hs, r)), Views(hs, r), -1) && !h.alive
  {
    ghost var views := Views(hs, r);
    ghost var v := views[i].(registered := false, alive := false);
    assert Sane(views[i]);
    GoodOne(views, r.stack, i, v);
    h.registered, h.alive := false, false;
    assert Views(hs, r) == views[i := v];
  }

  /** A widget's callback begins, one level deeper; or a row's text is asked for, at the depth there is. */
  method Enter(hs: seq<AppHost>, c: Context, r: Record, counted: bool)
    requires All(hs, c, r)
    modifies c`callbackDepth, r`stack
    ensures All(hs, c, r) && r.stack == old(r.stack) + [if counted then Counted else Painting]
    ensures Views(hs, r) == old(Views(hs, r))
  {
    ghost var f := if counted then Counted else Painting;
    GoodUncounted(Views(hs, r), r.stack, f);
    Pushed(r.stack, f);
    if counted { c.callbackDepth := c.callbackDepth + 1; }
    r.stack := r.stack + [f];
  }

  /** And ends. */
  method Leave(hs: seq<AppHost>, c: Context, r: Record, counted: bool, ghost called: seq<Frame>)
    requires All(hs, c, r) && r.stack == called + [if counted then Counted else Painting]
    modifies c`callbackDepth, r`stack
    ensures All(hs, c, r) && r.stack == called && Views(hs, r) == old(Views(hs, r))
  {
    ghost var f := if counted then Counted else Painting;
    GoodUncounted(Views(hs, r), called, f);
    Pushed(called, f);
    if counted { c.callbackDepth := c.callbackDepth - 1; }
    r.stack := called;
  }

  /** A widget's callback, or a list's for the text of a row. */
  method DoWidget(hs: seq<AppHost>, c: Context, r: Record, call: Call)
    requires All(hs, c, r) && !call.On?
    modifies hs, Parents(hs)`screens, c`callbackDepth, c`error, r
    ensures All(hs, c, r) && r.stack == old(r.stack) && Kept(old(Views(hs, r)), Views(hs, r), -1)
    decreases call, 0
  {
    ghost var called := r.stack;
    Enter(hs, c, r, call.Widget?);
    var result := RunScript(hs, c, r, call.body);
    ghost var run := Views(hs, r);
    if !result { c.SetError(HostCallFailed); }
    assert Views(hs, r) == run;
    Leave(hs, c, r, call.Widget?, called);
  }

  /** The operations that run no consumer. */
  method DoFlags(h: AppHost, op: Operation)
    requires Inv(h) && h.alive
    requires op.Register? || op.Unregister? || op.RequestClose? || op.Suspend? || op.Resume?
    modifies h`registered, h`closeRequested, h`suspended, h.context`error
    ensures Inv(h) && Keeps(old(ViewOf(h, [])), ViewOf(h, []))
    ensures op.Register? && !old(h.isOpen) && !h.transition ==> h.registered
    ensures op.RequestClose? ==> h.closeRequested == (old(h.closeRequested) || h.isOpen)
  {
    match op {
      case Register => DoRegister(h);
      case Unregister => DoUnregister(h);
      case RequestClose => DoRequestClose(h);
      case Suspend(blocked, ok, recovered) => DoSuspend(h, blocked, ok, recovered);
      case Resume(blocked, ok) => DoResume(h, blocked, ok);
    }
  }

  method OnFlags(hs: seq<AppHost>, c: Context, r: Record, h: AppHost, ghost i: nat, op: Operation)
    requires All(hs, c, r) && i < |hs| && hs[i] == h && h.alive
    requires op.Register? || op.Unregister? || op.RequestClose? || op.Suspend? || op.Resume?
    modifies h`registered, h`closeRequested, h`suspended, c`error
    ensures All(hs, c, r) && Kept(old(Views(hs, r)), Views(hs, r), -1)
    ensures op.Register? && !h.isOpen && !h.transition ==> h.registered
    ensures op.RequestClose? ==> h.closeRequested == (old(h.closeRequested) || h.isOpen)
  {
    ghost var views := Views(hs, r);
    assert Sane(views[i]);
    DoFlags(h, op);
    ghost var v := ViewOf(h, r.closes[i]);
    assert Views(hs, r) == views[i := v];
    assert Keeps(views[i], v);
    GoodOne(views, r.stack, i, v);
  }

  /** One operation on one host. */
  method DoOn(hs: seq<AppHost>, c: Context, r: Record, i: nat, op: Operation)
    requires All(hs, c, r) && i < |hs| && hs[i].alive
    modifies hs, Parents(hs)`screens, c`callbackDepth, c`error, r
    ensures All(hs, c, r) && r.stack == old(r.stack) && Kept(old(Views(hs, r)), Views(hs, r), -1)
    decreases op, 4
  {
    match op {
      case Open(_, _) => DoOpen(hs, c, r, i, op);
      case Drain(_, _, _) => DoDrain(hs, c, r, i, op);
      case Destroy(_, _, _, _) => DoDestroy(hs, c, r, i, op);
      case _ => OnFlags(hs, c, r, hs[i], i, op);
    }
  }

  /** One call; a host that is gone takes none. */
  method Perform(hs: seq<AppHost>, c: Context, r: Record, call: Call)
    requires All(hs, c, r)
    modifies hs, Parents(hs)`screens, c`callbackDepth, c`error, r
    ensures All(hs, c, r) && r.stack == old(r.stack) && Kept(old(Views(hs, r)), Views(hs, r), -1)
    decreases call, 2
  {
    match call {
      case On(i, op) => if i < |hs| && hs[i].alive { DoOn(hs, c, r, i, op); }
      case _ => DoWidget(hs, c, r, call);
    }
  }

  // ---------------------------------------------------------------- whole runs

  /** One app host for each parent. */
  method Hosts(c: Context, ps: seq<Parent>) returns (hs: seq<AppHost>)
    requires forall i, j | 0 <= i < j < |ps| :: ps[i] != ps[j]
    ensures fresh(hs) && Apart(hs, c) && |hs| == |ps| && forall i | 0 <= i < |hs| :: hs[i].parent == ps[i]
    ensures forall i | 0 <= i < |hs| :: ViewOf(hs[i], []) == Made()
  {
    hs := [];
    while |hs| < |ps|
      invariant |hs| <= |ps| && fresh(hs) && Apart(hs, c) && forall i | 0 <= i < |hs| :: hs[i].parent == ps[i]
      invariant forall i | 0 <= i < |hs| :: ViewOf(hs[i], []) == Made()
      decreases |ps| - |hs|
    {
      var h := new AppHost(c, ps[|hs|]);
      hs := hs + [h];
    }
  }

  function Made(): View {
    View(false, false, false, false, false, true, [])
  }

  method Setup(c: Context, ps: seq<Parent>) returns (hs: seq<AppHost>, r: Record)
    requires c.callbackDepth == 0 && forall i, j | 0 <= i < j < |ps| :: ps[i] != ps[j]
    ensures fresh(hs) && fresh(r) && All(hs, c, r) && r.stack == [] && |hs| == |ps|
    ensures forall i | 0 <= i < |hs| :: hs[i].parent == ps[i] && Views(hs, r)[i] == Made()
  {
    hs := Hosts(c, ps);
    r := new Record(|hs|);
    assert forall i | 0 <= i < |hs| :: Views(hs, r)[i] == ViewOf(hs[i], []);
  }

  /** Every run over any number of fresh hosts, with calls nested in callbacks to any depth: the flags imply one
      another, the callback depth is balanced, no transition is left open, and every close of every consumer was
      proper. */
  method Run(c: Context, ps: seq<Parent>, calls: seq<Call>) returns (hs: seq<AppHost>, r: Record)
    requires c.callbackDepth == 0 && forall i, j | 0 <= i < j < |ps| :: ps[i] != ps[j]
    modifies (set p | p in ps)`screens, c`callbackDepth, c`error
    ensures |hs| == |ps| == |r.closes| && c.callbackDepth == 0
    ensures forall i | 0 <= i < |hs| :: var v := ViewOf(hs[i], r.closes[i]); Sane(v) && !v.transition
    ensures forall i, k | 0 <= i < |hs| && 0 <= k < |r.closes[i]| :: Proper(i, r.closes[i][k])
  {
    hs, r := Setup(c, ps);
    PerformAll(hs, c, r, calls);
    assert forall i | 0 <= i < |hs| :: Views(hs, r)[i] == ViewOf(hs[i], r.closes[i]);
  }

  /** What can be under way when a drain or a forced destroy runs a close, and all that can: rows being painted, and
      operations on other app hosts. */
  lemma ProperExactly(app: nat, x: Close)
    requires x.operation != Opening && x.running == x.called + [Transit(app)]
    ensures Proper(app, x) <==> forall f | f in x.called :: f.Painting? || (f.Transit? && f.app != app)
  {
    UncountedOnly(x.called);
  }

  function Refuses(): Script {
    Script([], _ => 0, false)
  }

  function Agrees(calls: seq<Call>, screens: nat): Script {
    Script(calls, _ => screens, true)
  }

  /** An open called in a widget's callback is unwound there. */
  method OpenInsideCallback(c: Context, p: Parent) returns (hs: seq<AppHost>, r: Record)
    requires c.callbackDepth == 0 && p.screens == 0
    modifies p`screens, c`callbackDepth, c`error
    ensures |r.closes| == 1 && r.closes[0] == [Close(Opening, [Counted], [Counted, Transit(0)])]
  {
    hs, r := Setup(c, [p]);
    OnFlags(hs, c, r, hs[0], 0, Register);
    Enter(hs, c, r, true);
    assert r.stack == [Counted] && [Counted] + [Transit(0)] == [Counted, Transit(0)];
    assert MayOpen(hs[0]) && r.closes[0] == [];
    DoOpen(hs, c, r, 0, Open(Refuses(), Refuses()));
  }

  /** An app host that is open, with its close requested. */
  method Ask(hs: seq<AppHost>, c: Context, r: Record)
    requires All(hs, c, r) && |hs| > 0 && r.stack == [] && Views(hs, r)[0] == Made() && hs[0].parent.screens == 0
    modifies hs, Parents(hs)`screens, c`callbackDepth, c`error, r
    ensures All(hs, c, r) && r.stack == [] && r.closes[0] == []
    ensures hs[0].alive && hs[0].isOpen && hs[0].closeRequested && !hs[0].transition
  {
    OnFlags(hs, c, r, hs[0], 0, Register);
    DoOpen(hs, c, r, 0, Open(Agrees([], 1), Refuses()));
    assert Sane(Views(hs, r)[0]) && Transit(0) !in r.stack;
    OnFlags(hs, c, r, hs[0], 0, RequestClose);
  }

  /** The text of a row is asked for at depth 0, so a drain made from there closes the consumer inside its own
      callback. */
  method DrainWhilePainting(c: Context, p: Parent) returns (hs: seq<AppHost>, r: Record)
    requires c.callbackDepth == 0 && p.screens == 0
    modifies p`screens, c`callbackDepth, c`error
    ensures |r.closes| == 1 && r.closes[0] == [Close(Draining, [Painting], [Painting, Transit(0)])]
  {
    hs, r := Setup(c, [p]);
    Ask(hs, c, r);
    Enter(hs, c, r, false);
    assert r.stack == [Painting] && [Painting] + [Transit(0)] == [Painting, Transit(0)];
    UncountedOnly([Painting]);
    DoDrain(hs, c, r, 0, Drain(Refuses(), Ready, Agrees([], 0)));
  }
}
