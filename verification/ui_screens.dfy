/** Showing and hiding one screen while the host may refuse any call. */
module UiScreens {
  import opened Ui

  /** The visibility a widget is meant to have while its screen is shown or hidden. */
  predicate Follows(w: Widget, shown: bool)
    reads w
  {
    w.attached ==> w.visible == (shown && w.requestedVisible)
  }

  // ---------------------------------------------------------------- calls in a row

  /** How many of the first `n` marks are set: one host call each. */
  function Count(marks: seq<bool>, n: nat): nat
    requires n <= |marks|
  {
    if n == 0 then 0 else Count(marks, n - 1) + if marks[n - 1] then 1 else 0
  }

  function All(marks: seq<bool>): nat {
    Count(marks, |marks|)
  }

  lemma {:induction false} CountMonotone(marks: seq<bool>, m: nat, n: nat)
    requires m <= n <= |marks|
    ensures Count(marks, m) + (if m < n && marks[m] then 1 else 0) <= Count(marks, n)
    decreases n
  {
    if m < n - 1 { CountMonotone(marks, m, n - 1); }
  }

  /** The host takes the next `n` calls. */
  ghost predicate Takes(host: Host, from: nat, n: nat) {
    forall k | from <= k < from + n :: host.answers(k)
  }

  /** How many of `n` calls in a row are made, when the first one refused is the last one made. */
  ghost function Tries(host: Host, from: nat, n: nat): nat
    decreases n
  {
    if n == 0 then 0 else if !host.answers(from) then 1 else 1 + Tries(host, from + 1, n - 1)
  }

  lemma {:induction false} TriesAre(host: Host, from: nat, n: nat, taken: nat)
    requires taken <= n && Takes(host, from, taken) && (taken < n ==> !host.answers(from + taken))
    ensures Tries(host, from, n) == taken + if taken < n then 1 else 0
    ensures Takes(host, from, n) <==> taken == n
    decreases n
  {
    if taken > 0 {
      assert host.answers(from);
      TriesAre(host, from + 1, n - 1, taken - 1);
    }
  }

  /** A call for every mark in order, from call `from` on, until one is refused: mark `k` is come to and taken. */
  ghost predicate Comes(host: Host, from: nat, marks: seq<bool>, k: nat)
    requires k < |marks|
  {
    Takes(host, from, Count(marks, k + 1))
  }

  /** Exactly the first `reached` were. */
  ghost predicate Reached(host: Host, from: nat, marks: seq<bool>, reached: nat) {
    && reached <= |marks| && Takes(host, from, Count(marks, reached))
    && (reached < |marks| ==> marks[reached] && !host.answers(from + Count(marks, reached)))
  }

  /** So which ones were, */
  lemma ReachedAre(host: Host, from: nat, marks: seq<bool>, reached: nat, k: nat)
    requires Reached(host, from, marks, reached) && k < |marks| && marks[k]
    ensures k < reached <==> Comes(host, from, marks, k)
  {
    if k < reached {
      CountMonotone(marks, k + 1, reached);
    } else {
      CountMonotone(marks, reached, k + 1);
      var refused := from + Count(marks, reached);
      assert from <= refused < from + Count(marks, k + 1) && !host.answers(refused);
    }
  }

  /** and how many calls were made. */
  lemma CallsAre(host: Host, from: nat, marks: seq<bool>, reached: nat)
    requires Reached(host, from, marks, reached)
    ensures Tries(host, from, All(marks)) == Count(marks, reached) + (if reached < |marks| then 1 else 0)
    ensures Takes(host, from, All(marks)) <==> reached == |marks|
  {
    CountMonotone(marks, reached, |marks|);
    TriesAre(host, from, All(marks), Count(marks, reached));
  }

  // ---------------------------------------------------------------- children

  /** Which widgets are attached. */
  ghost function AttachedOf(widgets: seq<Widget>): (marks: seq<bool>)
    reads widgets`attached
    ensures |marks| == |widgets| && forall k | 0 <= k < |widgets| :: marks[k] == widgets[k].attached
  {
    AttachedUpTo(widgets, |widgets|)
  }

  ghost function AttachedUpTo(widgets: seq<Widget>, n: nat): (marks: seq<bool>)
    requires n <= |widgets|
    reads widgets`attached
    ensures |marks| == n && forall k | 0 <= k < n :: marks[k] == widgets[k].attached
  {
    if n == 0 then [] else AttachedUpTo(widgets, n - 1) + [widgets[n - 1].attached]
  }

  /** set_screen_children_visible.  `reached` widgets were set before a call threw. */
  method SetVisible(s: Screen, shown: bool, ghost marks: seq<bool>) returns (ok: bool, reached: nat)
    requires Owns(s) && marks == AttachedOf(s.widgets)
    modifies s.context.host`calls, s.widgets`visible
    ensures reached <= |s.widgets| && (ok <==> reached == |s.widgets|)
    ensures forall k | 0 <= k < |s.widgets| ::
              s.widgets[k].visible == if k < reached && s.widgets[k].attached
                                      then shown && s.widgets[k].requestedVisible
                                      else old(s.widgets[k].visible)
    ensures Reached(s.context.host, old(s.context.host.calls), marks, reached)
    ensures ok <==> Takes(s.context.host, old(s.context.host.calls), All(marks))
    ensures s.context.host.calls == old(s.context.host.calls) +
              if ok then All(marks) else Tries(s.context.host, old(s.context.host.calls), All(marks))
  {
    ok, reached := SetEach(s, shown, marks);
    CallsAre(s.context.host, old(s.context.host.calls), marks, reached);
  }

  /** Its loop. */
  method SetEach(s: Screen, shown: bool, ghost marks: seq<bool>) returns (ok: bool, reached: nat)
    requires Owns(s) && marks == AttachedOf(s.widgets)
    modifies s.context.host`calls, s.widgets`visible
    ensures reached <= |s.widgets| && (ok <==> reached == |s.widgets|)
    ensures forall k | 0 <= k < |s.widgets| ::
              s.widgets[k].visible == if k < reached && s.widgets[k].attached
                                      then shown && s.widgets[k].requestedVisible
                                      else old(s.widgets[k].visible)
    ensures Reached(s.context.host, old(s.context.host.calls), marks, reached)
    ensures s.context.host.calls == old(s.context.host.calls) + Count(marks, reached) + (if ok then 0 else 1)
  {
    reached := 0;
    while reached < |s.widgets|
      invariant 0 <= reached <= |s.widgets|
      invariant s.context.host.calls == old(s.context.host.calls) + Count(marks, reached)
      invariant Takes(s.context.host, old(s.context.host.calls), Count(marks, reached))
      invariant forall k | 0 <= k < |s.widgets| ::
                  s.widgets[k].visible == if k < reached && s.widgets[k].attached
                                          then shown && s.widgets[k].requestedVisible
                                          else old(s.widgets[k].visible)
    {
      var w := s.widgets[reached];
      if w.attached {
        ok := s.context.host.Call();
        if !ok { return false, reached; }
        w.visible := shown && w.requestedVisible;
      }
      reached := reached + 1;
    }
    ok := true;
  }

  /** How a hide went: which call failed, and how far the children had been restored. */
  datatype Hidden = Done | Threw(reached: nat) | Unfocused(restored: nat)

  /** restore_screen_children */
  method Restore(s: Screen, shown: bool, ghost marks: seq<bool>) returns (reached: nat)
    requires Owns(s) && marks == AttachedOf(s.widgets)
    modifies s.context.host`calls, s.widgets`visible, s.context`error
    ensures reached <= |s.widgets|
    ensures forall k | 0 <= k < |s.widgets| ::
              s.widgets[k].visible == if k < reached && s.widgets[k].attached
                                      then shown && s.widgets[k].requestedVisible
                                      else old(s.widgets[k].visible)
    ensures Reached(s.context.host, old(s.context.host.calls), marks, reached)
    ensures s.context.host.calls ==
              old(s.context.host.calls) + Tries(s.context.host, old(s.context.host.calls), All(marks))
  {
    var ok;
    ok, reached := SetVisible(s, shown, marks);
    CallsAre(s.context.host, old(s.context.host.calls), marks, reached);
    if !ok { s.context.SetError(HostCallFailed); }
  }

  /** How many calls the hide of a visible screen makes, from call `from` on. */
  ghost function HideCalls(host: Host, hasFocus: bool, from: nat, marks: seq<bool>): nat {
    if Takes(host, from, All(marks)) then All(marks) + FocusCalls(host, hasFocus, from + All(marks), marks)
    else Tries(host, from, All(marks))
  }

  /** The focus call, and those on the way back when it fails. */
  ghost function FocusCalls(host: Host, hasFocus: bool, from: nat, marks: seq<bool>): nat {
    if !hasFocus then 0
    else if host.answers(from) then 1
    else 1 + Tries(host, from + 1, All(marks))
  }

  /** Which calls a hide stopped at, and how far a restoration got. */
  ghost predicate Stopped(host: Host, hasFocus: bool, from: nat, marks: seq<bool>, r: Hidden) {
    match r
    case Done => Takes(host, from, All(marks)) && (hasFocus ==> host.answers(from + All(marks)))
    case Threw(reached) => reached < |marks| && Reached(host, from, marks, reached)
    case Unfocused(restored) =>
      && hasFocus && Takes(host, from, All(marks)) && !host.answers(from + All(marks))
      && Reached(host, from + All(marks) + 1, marks, restored)
  }

  /** mpc_ui_screen_hide of a visible screen, call by call. */
  method HideVisible(s: Screen) returns (r: Hidden)
    requires Owns(s) && s.visible
    modifies s.context.host`calls, s.widgets`visible, s.context`error, s`visible
    ensures s.visible == !r.Done?
    ensures Stopped(s.context.host, s.parent.hasFocus, old(s.context.host.calls), old(AttachedOf(s.widgets)), r)
    ensures s.context.host.calls == old(s.context.host.calls) +
              HideCalls(s.context.host, s.parent.hasFocus, old(s.context.host.calls), old(AttachedOf(s.widgets)))
    ensures r.Done? <==> Takes(s.context.host, old(s.context.host.calls),
                               All(old(AttachedOf(s.widgets))) + if s.parent.hasFocus then 1 else 0)
    ensures r.Done? ==> forall k | 0 <= k < |s.widgets| :: Follows(s.widgets[k], false)
    ensures r.Threw? ==> forall k | 0 <= k < |s.widgets| ::
              s.widgets[k].visible == (old(s.widgets[k].visible) && !(k < r.reached && s.widgets[k].attached))
    ensures r.Unfocused? ==> forall k | 0 <= k < |s.widgets| ::
              s.widgets[k].visible == if !s.widgets[k].attached then old(s.widgets[k].visible)
                                      else k < r.restored && s.widgets[k].requestedVisible
  {
    ghost var marks := AttachedOf(s.widgets);
    var ok, reached := SetVisible(s, false, marks);
    if !ok {
      s.context.SetError(HostCallFailed);
      return Threw(reached);
    }
    r := Unfocus(s, marks);
  }

  /** The second half: the focus call, and the way back when it fails. */
  method Unfocus(s: Screen, ghost marks: seq<bool>) returns (r: Hidden)
    requires Owns(s) && s.visible && marks == AttachedOf(s.widgets)
    modifies s.context.host`calls, s.widgets`visible, s.context`error, s`visible
    ensures s.visible == !r.Done? && !r.Threw?
    ensures r.Done? <==> !s.parent.hasFocus || s.context.host.answers(old(s.context.host.calls))
    ensures r.Done? ==> forall w | w in s.widgets :: w.visible == old(w.visible)
    ensures r.Unfocused? ==> forall k | 0 <= k < |s.widgets| ::
              s.widgets[k].visible == if k < r.restored && s.widgets[k].attached then s.widgets[k].requestedVisible
                                      else old(s.widgets[k].visible)
    ensures r.Unfocused? ==> Reached(s.context.host, old(s.context.host.calls) + 1, marks, r.restored)
    ensures s.context.host.calls == old(s.context.host.calls) +
              FocusCalls(s.context.host, s.parent.hasFocus, old(s.context.host.calls), marks)
  {
    if s.parent.hasFocus {
      var focused := s.context.host.Call();
      if !focused {
        var restored := Restore(s, true, marks);
        s.context.SetError(HostCallFailed);
        return Unfocused(restored);
      }
    }
    s.visible := false;
    r := Done;
  }

  /** mpc_ui_screen_hide */
  method Hide(s: Screen) returns (ok: bool)
    requires Owns(s)
    modifies s.context.host`calls, s.widgets`visible, s.context`error, s`visible
    ensures ok ==> !s.visible
    ensures !ok ==> s.visible && old(s.visible)
    ensures ok && old(s.visible) ==> forall k | 0 <= k < |s.widgets| :: Follows(s.widgets[k], false)
    ensures !old(s.visible) ==>
            ok && forall k | 0 <= k < |s.widgets| :: s.widgets[k].visible == old(s.widgets[k].visible)
    ensures s.context.host.calls == old(s.context.host.calls) +
              if !old(s.visible) then 0
              else HideCalls(s.context.host, s.parent.hasFocus, old(s.context.host.calls), old(AttachedOf(s.widgets)))
  {
    if !s.visible { return true; }
    var r := HideVisible(s);
    ok := r.Done?;
  }

  /** How a show went: `reached` children had been set when a call failed (the focus call before any), and
      `restored` of all the children were hidden again on the way back. */
  datatype Shown = Visible | Failed(reached: nat, restored: nat)

  /** mpc_ui_screen_show of a hidden screen, call by call: the focus first, then the children. */
  method ShowHidden(s: Screen) returns (r: Shown)
    requires Owns(s) && !s.visible && !s.closing
    modifies s.context.host`calls, s.widgets`visible, s.context`error, s`visible
    ensures s.visible == r.Visible?
    ensures r.Visible? <==> Takes(s.context.host, old(s.context.host.calls),
                                  All(AttachedOf(s.widgets)) + if s.parent.hasFocus then 1 else 0)
    ensures r.Visible? ==> forall k | 0 <= k < |s.widgets| :: Follows(s.widgets[k], true)
    ensures r.Failed? ==> r.reached <= |s.widgets| && r.restored <= |s.widgets| && s.context.error != NoError
    ensures r.Failed? ==> forall k | 0 <= k < |s.widgets| ::
              s.widgets[k].visible == if !s.widgets[k].attached then old(s.widgets[k].visible)
                                      else if k < r.restored then false
                                      else if k < r.reached then s.widgets[k].requestedVisible
                                      else old(s.widgets[k].visible)
  {
    var ok, focused, reached := TryShow(s);
    if ok {
      s.visible := true;
      return Visible;
    }
    var restored := Unshow(s, focused);
    r := Failed(reached, restored);
  }

  /** The way there. */
  method TryShow(s: Screen) returns (ok: bool, focused: bool, reached: nat)
    requires Owns(s)
    modifies s.context.host`calls, s.widgets`visible
    ensures reached <= |s.widgets| && (ok ==> reached == |s.widgets|)
    ensures ok <==> Takes(s.context.host, old(s.context.host.calls),
                          All(AttachedOf(s.widgets)) + if s.parent.hasFocus then 1 else 0)
    ensures forall k | 0 <= k < |s.widgets| ::
              s.widgets[k].visible == if k < reached && s.widgets[k].attached then s.widgets[k].requestedVisible
                                      else old(s.widgets[k].visible)
  {
    ok, focused, reached := false, false, 0;
    if s.parent.hasFocus { focused := s.context.host.Call(); }
    if focused || !s.parent.hasFocus {
      ok, reached := SetVisible(s, true, AttachedOf(s.widgets));
    }
  }

  /** The way back of a failed show. */
  method Unshow(s: Screen, focused: bool) returns (restored: nat)
    requires Owns(s)
    modifies s.context.host`calls, s.widgets`visible, s.context`error
    ensures restored <= |s.widgets| && s.context.error != NoError
    ensures forall k | 0 <= k < |s.widgets| ::
              s.widgets[k].visible == (old(s.widgets[k].visible) && !(k < restored && s.widgets[k].attached))
  {
    restored := Restore(s, false, AttachedOf(s.widgets));
    if focused {
      var unfocused := s.context.host.Call();
      if !unfocused { s.context.SetError(HostCallFailed); }
    }
    s.context.SetError(HostCallFailed);
  }

  /** mpc_ui_screen_show */
  method Show(s: Screen) returns (ok: bool)
    requires Owns(s)
    modifies s.context.host`calls, s.widgets`visible, s.context`error, s`visible
    ensures ok <==> s.visible && !s.closing
    ensures s.visible == (old(s.visible) || ok)
    ensures ok && !old(s.visible) ==> forall k | 0 <= k < |s.widgets| :: Follows(s.widgets[k], true)
    ensures old(s.visible) || s.closing ==>
            forall k | 0 <= k < |s.widgets| :: s.widgets[k].visible == old(s.widgets[k].visible)
  {
    if s.closing { return false; }
    if s.visible { return true; }
    var r := ShowHidden(s);
    ok := r.Visible?;
  }

  // ---------------------------------------------------------------- what a failed hide leaves

  /** Every attached widget is as visible as its screen and its owner want it. */
  ghost predicate Consistent(s: Screen)
    reads s, s.widgets
  {
    forall k | 0 <= k < |s.widgets| :: Follows(s.widgets[k], s.visible)
  }

  /** Which widgets are attached and to be seen. */
  ghost predicate Due(w: Widget)
    reads w`attached, w`requestedVisible
  {
    w.attached && w.requestedVisible
  }

  /** What the host's answers from call `from` on make of a hide: it goes through, or every child that is to be
      seen was not come to before the call that was refused, or, when that was the focus call, is come to again. */
  ghost predicate Mends(s: Screen, from: nat)
    reads s`widgets, s.widgets`attached, s.widgets`requestedVisible
  {
    var host, marks := s.context.host, AttachedOf(s.widgets);
    || Takes(host, from, All(marks) + if s.parent.hasFocus then 1 else 0)
    || forall k | 0 <= k < |s.widgets| && Due(s.widgets[k]) ::
         if Takes(host, from, All(marks)) then Comes(host, from + All(marks) + 1, marks, k)
         else !Comes(host, from, marks, k)
  }

  lemma AfterThrow(s: Screen, from: nat, reached: nat)
    requires s.visible && reached < |s.widgets| && Reached(s.context.host, from, AttachedOf(s.widgets), reached)
    requires forall k | 0 <= k < |s.widgets| && s.widgets[k].attached ::
               s.widgets[k].visible == (s.widgets[k].requestedVisible && !(k < reached))
    ensures Consistent(s) <==> Mends(s, from)
  {
    var host, marks := s.context.host, AttachedOf(s.widgets);
    CallsAre(host, from, marks, reached);
    forall k | 0 <= k < |s.widgets| && marks[k]
      ensures k < reached <==> Comes(host, from, marks, k)
    {
      ReachedAre(host, from, marks, reached, k);
    }
    assert Consistent(s) <==> forall k | 0 <= k < |s.widgets| && Due(s.widgets[k]) :: !Comes(host, from, marks, k);
  }

  lemma AfterRestore(s: Screen, from: nat, restored: nat)
    requires s.visible && s.parent.hasFocus && Takes(s.context.host, from, All(AttachedOf(s.widgets)))
    requires !s.context.host.answers(from + All(AttachedOf(s.widgets)))
    requires Reached(s.context.host, from + All(AttachedOf(s.widgets)) + 1, AttachedOf(s.widgets), restored)
    requires forall k | 0 <= k < |s.widgets| && s.widgets[k].attached ::
               s.widgets[k].visible == (s.widgets[k].requestedVisible && k < restored)
    ensures Consistent(s) <==> Mends(s, from)
  {
    var host, marks := s.context.host, AttachedOf(s.widgets);
    var again := from + All(marks) + 1;
    forall k | 0 <= k < |s.widgets| && marks[k]
      ensures k < restored <==> Comes(host, again, marks, k)
    {
      ReachedAre(host, again, marks, restored, k);
    }
    assert Consistent(s) <==> forall k | 0 <= k < |s.widgets| && Due(s.widgets[k]) :: Comes(host, again, marks, k);
  }

  /** The hide of a consistent screen, in terms of what its children are to be. */
  method HideWanted(s: Screen) returns (r: Hidden)
    requires Owns(s) && s.visible && Consistent(s)
    modifies s.context.host`calls, s.widgets`visible, s.context`error, s`visible
    ensures s.visible == !r.Done? && (r.Done? ==> Consistent(s))
    ensures Stopped(s.context.host, s.parent.hasFocus, old(s.context.host.calls), old(AttachedOf(s.widgets)), r)
    ensures r.Threw? ==> forall k | 0 <= k < |s.widgets| && s.widgets[k].attached ::
              s.widgets[k].visible == (s.widgets[k].requestedVisible && !(k < r.reached))
    ensures r.Unfocused? ==> forall k | 0 <= k < |s.widgets| && s.widgets[k].attached ::
              s.widgets[k].visible == (s.widgets[k].requestedVisible && k < r.restored)
  {
    assert forall k | 0 <= k < |s.widgets| && s.widgets[k].attached ::
             Follows(s.widgets[k], true) && s.widgets[k].visible == s.widgets[k].requestedVisible;
    r := HideVisible(s);
  }

  /** A hide of a consistent screen leaves it consistent exactly when the host's answers are as `Mends` says. */
  method HideLeaves(s: Screen) returns (r: Hidden)
    requires Owns(s) && s.visible && Consistent(s)
    modifies s.context.host`calls, s.widgets`visible, s.context`error, s`visible
    ensures Consistent(s) <==> old(Mends(s, s.context.host.calls))
    ensures s.visible == !r.Done?
  {
    ghost var from := s.context.host.calls;
    r := HideWanted(s);
    if r.Threw? { AfterThrow(s, from, r.reached); }
    else if r.Unfocused? { AfterRestore(s, from, r.restored); }
  }

  method TwoButtons() returns (s: Screen)
    ensures fresh(s) && fresh(s.context) && fresh(s.context.host) && |s.widgets| == 2 && fresh(s.widgets[0]) &&
            fresh(s.widgets[1])
    ensures Owns(s) && s.visible && s.context.host.calls == 0
    ensures forall n :: s.context.host.answers(n) <==> n != 1
    ensures forall k | 0 <= k < 2 :: s.widgets[k].attached && s.widgets[k].requestedVisible && s.widgets[k].visible
  {
    var host := new Host(n => n != 1);
    var context := new Context(host);
    var parent := new Parent(context, true);
    s := new Screen(context, parent);
    var first := new Widget(s, Button);
    var second := new Widget(s, Button);
    first.attached, first.requestedVisible, first.visible := true, true, true;
    second.attached, second.requestedVisible, second.visible := true, true, true;
    s.widgets, s.visible := [first, second], true;
  }

  /** A screen with two buttons, and a host that throws at the second one: the hide fails, the screen counts as
      visible, and its first button is gone from view. */
  method TornHide() returns (s: Screen)
    ensures s.visible && |s.widgets| == 2 && s.widgets[0].attached && s.widgets[0].requestedVisible &&
            !s.widgets[0].visible
    ensures !Consistent(s)
  {
    s := TwoButtons();
    assert AttachedOf(s.widgets) == [true, true];
    var r := HideVisible(s);
    var marks := [true, true];
    assert Count(marks, 0) == 0 && Count(marks, 1) == 1 && Count(marks, 2) == 2;
    assert !s.context.host.answers(1);
    assert r == Threw(1);
    assert !Follows(s.widgets[0], true);
  }
}
