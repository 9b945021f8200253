/** Suspending and resuming an app: which screens are hidden, remembered and shown again, whatever the host
    refuses on the way. */
module UiSuspend {
  import opened Ui
  import UiScreens

  /** The app's parent holds its screens, each with its own widgets and in the app's context. */
  ghost predicate Ready(a: AppHost)
    reads a.parent`screenHead, a.parent`chain, a.parent`screens, a.parent.chain`parentNext, a.parent.chain`widgets
  {
    var p := a.parent;
    && Linked(p) && p.screens == |p.chain| && p.context == a.context
    && forall k | 0 <= k < |p.chain| :: Owns(p.chain[k]) && p.chain[k].context == a.context
  }

  ghost function Kids(chain: seq<Screen>): set<Widget>
    reads chain`widgets
  {
    set s, w | s in chain && w in s.widgets :: w
  }

  method AnyClosing(p: Parent) returns (any: bool)
    requires Linked(p)
    ensures any <==> exists s :: s in p.chain && s.closing
  {
    var screen, k := p.screenHead, 0;
    while screen != null
      invariant 0 <= k <= |p.chain| && screen == LinkAt(p.chain, k)
      invariant forall j | 0 <= j < k :: !p.chain[j].closing
      decreases |p.chain| - k
    {
      if screen.closing { return true; }
      assert LinkedAt(p, k);
      screen, k := screen.parentNext, k + 1;
    }
    any := false;
  }

  /** resume_visible := visible on every screen. */
  method Remember(p: Parent)
    requires Linked(p)
    modifies p.chain`resumeVisible
    ensures forall s | s in p.chain :: s.resumeVisible == s.visible
  {
    var screen, k := p.screenHead, 0;
    while screen != null
      invariant 0 <= k <= |p.chain| && screen == LinkAt(p.chain, k)
      invariant forall j | 0 <= j < k :: p.chain[j].resumeVisible == p.chain[j].visible
      decreases |p.chain| - k
    {
      screen.resumeVisible := screen.visible;
      assert LinkedAt(p, k);
      screen, k := screen.parentNext, k + 1;
    }
  }

  method Forget(p: Parent)
    requires Linked(p)
    modifies p.chain`resumeVisible
    ensures forall s | s in p.chain :: !s.resumeVisible
  {
    var screen, k := p.screenHead, 0;
    while screen != null
      invariant 0 <= k <= |p.chain| && screen == LinkAt(p.chain, k)
      invariant forall j | 0 <= j < k :: !p.chain[j].resumeVisible
      decreases |p.chain| - k
    {
      screen.resumeVisible := false;
      assert LinkedAt(p, k);
      screen, k := screen.parentNext, k + 1;
    }
  }

  /** One screen of the parent hidden; the others keep their flags. */
  method HideOne(a: AppHost, s: Screen) returns (ok: bool)
    requires Ready(a) && s in a.parent.chain
    modifies a.context.host`calls, a.context`error, s`visible, Kids(a.parent.chain)`visible
    ensures ok <==> !s.visible
    ensures !ok ==> old(s.visible)
  {
    assert forall w | w in s.widgets :: w in Kids(a.parent.chain);
    ok := UiScreens.Hide(s);
  }

  method ShowOne(a: AppHost, s: Screen) returns (ok: bool)
    requires Ready(a) && s in a.parent.chain && !s.closing
    modifies a.context.host`calls, a.context`error, s`visible, Kids(a.parent.chain)`visible
    ensures ok <==> s.visible
    ensures !ok ==> !old(s.visible)
  {
    assert forall w | w in s.widgets :: w in Kids(a.parent.chain);
    ok := UiScreens.Show(s);
  }

  /** Hide what is remembered, up to the first refusal. */
  method HideRemembered(a: AppHost) returns (hidden: bool)
    requires Ready(a)
    modifies a.context.host`calls, a.context`error, a.parent.chain`visible, Kids(a.parent.chain)`visible
    ensures forall s | s in a.parent.chain ::
              (if s.resumeVisible then (hidden ==> !s.visible) && (s.visible ==> old(s.visible))
                else s.visible == old(s.visible))
  {
    var p := a.parent;
    var screen, k := p.screenHead, 0;
    while screen != null
      invariant 0 <= k <= |p.chain| && screen == LinkAt(p.chain, k)
      invariant forall j | 0 <= j < k && p.chain[j].resumeVisible :: !p.chain[j].visible
      invariant forall j | 0 <= j < |p.chain| && (k <= j || !p.chain[j].resumeVisible) ::
                p.chain[j].visible == old(p.chain[j].visible)
      decreases |p.chain| - k
    {
      if screen.resumeVisible {
        var ok := HideOne(a, screen);
        if !ok { return false; }
      }
      assert LinkedAt(p, k);
      screen, k := screen.parentNext, k + 1;
    }
    hidden := true;
  }

  /** Show every remembered screen that is hidden, whatever fails. */
  method Restore(a: AppHost) returns (restored: bool)
    requires Ready(a) && forall s | s in a.parent.chain :: !s.closing
    modifies a.context.host`calls, a.context`error, a.parent.chain`visible, Kids(a.parent.chain)`visible
    ensures forall s | s in a.parent.chain ::
              (if s.resumeVisible then (restored ==> s.visible) else s.visible == old(s.visible))
    ensures restored <==> forall s | s in a.parent.chain && s.resumeVisible :: s.visible
  {
    var p := a.parent;
    restored := true;
    var screen, k := p.screenHead, 0;
    while screen != null
      invariant 0 <= k <= |p.chain| && screen == LinkAt(p.chain, k)
      invariant restored <==> forall j | 0 <= j < k && p.chain[j].resumeVisible :: p.chain[j].visible
      invariant forall j | 0 <= j < |p.chain| && (k <= j || !p.chain[j].resumeVisible) ::
                p.chain[j].visible == old(p.chain[j].visible)
      decreases |p.chain| - k
    {
      if screen.resumeVisible && !screen.visible {
        var ok := ShowOne(a, screen);
        if !ok { restored := false; }
      }
      assert LinkedAt(p, k);
      screen, k := screen.parentNext, k + 1;
    }
  }

  /** Show the remembered screens, up to the first refusal. */
  method ShowRemembered(a: AppHost) returns (shown: bool)
    requires Ready(a) && forall s | s in a.parent.chain :: !s.closing
    modifies a.context.host`calls, a.context`error, a.parent.chain`visible, Kids(a.parent.chain)`visible
    ensures forall s | s in a.parent.chain ::
              (if s.resumeVisible then (shown ==> s.visible) else s.visible == old(s.visible))
  {
    var p := a.parent;
    var screen, k := p.screenHead, 0;
    while screen != null
      invariant 0 <= k <= |p.chain| && screen == LinkAt(p.chain, k)
      invariant forall j | 0 <= j < k && p.chain[j].resumeVisible :: p.chain[j].visible
      invariant forall j | 0 <= j < |p.chain| && (k <= j || !p.chain[j].resumeVisible) ::
                p.chain[j].visible == old(p.chain[j].visible)
      decreases |p.chain| - k
    {
      if screen.resumeVisible && !screen.visible {
        var ok := ShowOne(a, screen);
        if !ok { return false; }
      }
      assert LinkedAt(p, k);
      screen, k := screen.parentNext, k + 1;
    }
    shown := true;
  }

  /** The way back of a failed resume: hide the remembered screens that are visible, whatever fails. */
  method Unwind(a: AppHost)
    requires Ready(a)
    modifies a.context.host`calls, a.context`error, a.parent.chain`visible, Kids(a.parent.chain)`visible
    ensures forall s | s in a.parent.chain && !s.resumeVisible :: s.visible == old(s.visible)
  {
    var p := a.parent;
    var screen, k := p.screenHead, 0;
    while screen != null
      invariant 0 <= k <= |p.chain| && screen == LinkAt(p.chain, k)
      invariant forall j | 0 <= j < |p.chain| && !p.chain[j].resumeVisible ::
                p.chain[j].visible == old(p.chain[j].visible)
      decreases |p.chain| - k
    {
      if screen.resumeVisible && screen.visible {
        var ok := HideOne(a, screen);
        if !ok { a.context.SetError(HostCallFailed); }
      }
      assert LinkedAt(p, k);
      screen, k := screen.parentNext, k + 1;
    }
  }

  /** The guard of both operations. */
  ghost predicate Admitted(a: AppHost)
    reads a, a.context, a.parent, a.parent.chain
  {
    && a.registered && a.isOpen && !a.closeRequested && !a.transition && a.context.callbackDepth == 0
    && a.parent.screens > 0 && forall s | s in a.parent.chain :: !s.closing
  }

  /** mpc_ui_private_app_host_suspend */
  method Suspend(a: AppHost) returns (ok: bool)
    requires Ready(a)
    modifies a.context.host`calls, a.context`error, a.parent.chain`visible, a.parent.chain`resumeVisible
    modifies Kids(a.parent.chain)`visible
    modifies a`transition, a`suspended
    ensures a.transition == old(a.transition)
    // Refused: nothing changes.
    ensures !old(Admitted(a)) || old(a.suspended) ==>
              && a.suspended == old(a.suspended)
              && forall s | s in a.parent.chain ::
                   s.visible == old(s.visible) && s.resumeVisible == old(s.resumeVisible)
    // Suspended: exactly the visible screens are hidden, and remembered.
    ensures old(Admitted(a)) && !old(a.suspended) && ok ==>
              a.suspended && forall s | s in a.parent.chain :: !s.visible && s.resumeVisible == old(s.visible)
    // Failed: all is as before, or it ends suspended with the remembered set kept.
    ensures old(Admitted(a)) && !old(a.suspended) && !ok ==>
              if a.suspended then forall s | s in a.parent.chain :: s.resumeVisible == old(s.visible)
              else forall s | s in a.parent.chain :: s.visible == old(s.visible) && !s.resumeVisible
  {
    if !a.registered || !a.isOpen || a.closeRequested || a.transition {
      a.context.SetError(LifetimeOrder);
      return false;
    }
    if a.suspended { return true; }
    if a.context.callbackDepth > 0 {
      a.context.SetError(CallbackActive);
      return false;
    }
    if a.parent.screens == 0 {
      a.context.SetError(LifetimeOrder);
      return false;
    }
    var closing := AnyClosing(a.parent);
    if closing {
      a.context.SetError(LifetimeOrder);
      return false;
    }
    a.transition := true;
    ok := SuspendScreens(a);
    a.transition := false;
  }

  method SuspendScreens(a: AppHost) returns (ok: bool)
    requires Ready(a) && forall s | s in a.parent.chain :: !s.closing
    modifies a.context.host`calls, a.context`error, a.parent.chain`visible, a.parent.chain`resumeVisible
    modifies Kids(a.parent.chain)`visible
    modifies a`suspended
    ensures ok ==> a.suspended && forall s | s in a.parent.chain :: !s.visible && s.resumeVisible == old(s.visible)
    ensures !ok ==> if a.suspended then forall s | s in a.parent.chain :: s.resumeVisible == old(s.visible)
                    else forall s | s in a.parent.chain :: s.visible == old(s.visible) && !s.resumeVisible
  {
    Remember(a.parent);
    var hidden := HideRemembered(a);
    if hidden {
      a.suspended := true;
      return true;
    }
    Recover(a);
    ok := false;
  }

  /** After a refusal: show what was hidden again; only if that fails does the app count as suspended. */
  method Recover(a: AppHost)
    requires Ready(a) && forall s | s in a.parent.chain :: !s.closing
    modifies a.context.host`calls, a.context`error, a.parent.chain`visible, a.parent.chain`resumeVisible
    modifies Kids(a.parent.chain)`visible
    modifies a`suspended
    ensures a.suspended ==> forall s | s in a.parent.chain :: s.resumeVisible == old(s.resumeVisible)
    ensures !a.suspended ==> forall s | s in a.parent.chain ::
              !s.resumeVisible && s.visible == (old(s.resumeVisible) || old(s.visible))
  {
    var restored := Restore(a);
    a.suspended := !restored;
    if restored { Forget(a.parent); }
  }

  /** mpc_ui_private_app_host_resume */
  method Resume(a: AppHost) returns (ok: bool)
    requires Ready(a)
    modifies a.context.host`calls, a.context`error, a.parent.chain`visible, a.parent.chain`resumeVisible
    modifies Kids(a.parent.chain)`visible
    modifies a`transition, a`suspended
    ensures a.transition == old(a.transition)
    // Refused: nothing changes.
    ensures !old(Admitted(a)) || !old(a.suspended) ==>
              && a.suspended == old(a.suspended)
              && forall s | s in a.parent.chain ::
                   s.visible == old(s.visible) && s.resumeVisible == old(s.resumeVisible)
    // Resumed: every remembered screen is visible again, the others as they are, and nothing is remembered.
    ensures old(Admitted(a)) && old(a.suspended) && ok ==>
              && !a.suspended
              && forall s | s in a.parent.chain ::
                   s.visible == (old(s.visible) || old(s.resumeVisible)) && !s.resumeVisible
    // Failed: still suspended, with the remembered set intact.
    ensures old(Admitted(a)) && old(a.suspended) && !ok ==>
              && a.suspended
              && forall s | s in a.parent.chain ::
                   s.resumeVisible == old(s.resumeVisible) && (!s.resumeVisible ==> s.visible == old(s.visible))
  {
    if !a.registered || !a.isOpen || a.closeRequested || a.transition {
      a.context.SetError(LifetimeOrder);
      return false;
    }
    if !a.suspended { return true; }
    if a.context.callbackDepth > 0 {
      a.context.SetError(CallbackActive);
      return false;
    }
    if a.parent.screens == 0 {
      a.context.SetError(LifetimeOrder);
      return false;
    }
    var closing := AnyClosing(a.parent);
    if closing {
      a.context.SetError(LifetimeOrder);
      return false;
    }
    a.transition := true;
    ok := ShowRemembered(a);
    if ok {
      Forget(a.parent);
    } else {
      Unwind(a);
    }
    a.suspended, a.transition := !ok, false;
  }

  /** An undisturbed suspension: a successful suspend, any number of failed resumes, then a successful one
      gives every screen back the visibility it had. */
  method Cycle(a: AppHost, tries: nat) returns (suspended: bool, resumed: bool)
    requires Ready(a) && Admitted(a) && !a.suspended
    modifies a.context.host`calls, a.context`error, a.parent.chain`visible, a.parent.chain`resumeVisible
    modifies Kids(a.parent.chain)`visible
    modifies a`transition, a`suspended
    ensures suspended && resumed ==> !a.suspended && forall s | s in a.parent.chain :: s.visible == old(s.visible)
    ensures suspended && !resumed ==> a.suspended && forall s | s in a.parent.chain :: s.resumeVisible == old(s.visible)
  {
    suspended := Suspend(a);
    resumed := false;
    if suspended { resumed := Retry(a, tries); }
  }

  method Retry(a: AppHost, tries: nat) returns (resumed: bool)
    requires Ready(a) && Admitted(a) && a.suspended && forall s | s in a.parent.chain && s.visible :: s.resumeVisible
    modifies a.context.host`calls, a.context`error, a.parent.chain`visible, a.parent.chain`resumeVisible
    modifies Kids(a.parent.chain)`visible
    modifies a`transition, a`suspended
    ensures a.suspended == !resumed
    ensures forall s | s in a.parent.chain ::
            if resumed then s.visible == old(s.resumeVisible) else s.resumeVisible == old(s.resumeVisible)
  {
    resumed := false;
    var k := 0;
    while !resumed && k < tries
      invariant a.suspended == !resumed && !a.transition
      invariant !resumed ==> forall s | s in a.parent.chain ::
                  s.resumeVisible == old(s.resumeVisible) && (s.visible ==> s.resumeVisible)
      invariant resumed ==> forall s | s in a.parent.chain :: s.visible == old(s.resumeVisible)
    {
      resumed := Resume(a);
      k := k + 1;
    }
  }
}
