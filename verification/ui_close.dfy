/** Closing a screen: nothing of it is destroyed while the host still knows of it, and once a close has been
    let in nothing of it calls back. */
module UiClose {
  import opened Ui
  import opened UiScreens

  /** The host holds no reference to the widget any more. */
  predicate Disconnected(w: Widget)
    reads w`attached, w`modelAttached, w`dragEnabled, w`listenerAttached
  {
    !w.attached && !w.modelAttached && !w.dragEnabled && !w.listenerAttached
  }

  /** A widget is destroyed only when disconnected, and a closing screen's widgets deliver nothing. */
  ghost predicate Safe(s: Screen)
    reads s`widgets, s`closing, s.widgets`destroyed, s.widgets`live
    reads s.widgets`attached, s.widgets`modelAttached, s.widgets`dragEnabled, s.widgets`listenerAttached
  {
    forall w | w in s.widgets :: (w.destroyed ==> Disconnected(w) && !w.live) && (s.closing ==> !w.live)
  }

  /** The host has let go of every widget. */
  ghost predicate Released(s: Screen)
    reads s`widgets, s.widgets`attached, s.widgets`modelAttached, s.widgets`dragEnabled, s.widgets`listenerAttached
  {
    forall w | w in s.widgets :: Disconnected(w)
  }

  /** And every widget has been destroyed. */
  ghost predicate Gone(s: Screen)
    reads s`widgets, s.widgets`destroyed, s.widgets`live
  {
    forall w | w in s.widgets :: w.destroyed && !w.live
  }

  /** Which widgets have been destroyed. */
  ghost function Fates(s: Screen): set<Widget>
    reads s`widgets, s.widgets`destroyed
  {
    set w | w in s.widgets && w.destroyed
  }

  ghost predicate Undestroyed(s: Screen, before: set<Widget>)
    reads s`widgets, s.widgets`destroyed
  {
    Fates(s) == before
  }

  /** No widget calls back. */
  ghost predicate Silent(s: Screen)
    reads s`widgets, s.widgets`live
  {
    forall w | w in s.widgets :: !w.live
  }

  /** A callback of a widget (a click, a selection, a slider event): it reaches its owner only while the widget
      is live and its screen is not closing.  `accepts` is what else is asked: a callback given, selections not
      suppressed, the row in range.  `throws` is what the owner's callback does. */
  method Deliver(w: Widget, accepts: bool, throws: bool) returns (delivered: bool)
    modifies w.screen`delivered, w.screen.context`callbackDepth, w.screen.context`error
    ensures delivered <==> w.live && !w.screen.closing && accepts
    ensures w.screen.delivered == old(w.screen.delivered) + if delivered then 1 else 0
    ensures w.screen.context.callbackDepth == old(w.screen.context.callbackDepth)
    ensures !throws || !delivered ==> w.screen.context.error == old(w.screen.context.error)
  {
    if !w.live || w.screen.closing || !accepts { return false; }
    var context := w.screen.context;
    context.callbackDepth := context.callbackDepth + 1;
    w.screen.delivered := w.screen.delivered + 1;
    if throws { context.SetError(HostCallFailed); }
    context.callbackDepth := context.callbackDepth - 1;
    delivered := true;
  }

  /** invalidate_bindings */
  method Invalidate(s: Screen)
    modifies s.widgets`live
    ensures forall w | w in s.widgets :: !w.live
  {
    var k := 0;
    while k < |s.widgets|
      invariant 0 <= k <= |s.widgets| && forall j | 0 <= j < k :: !s.widgets[j].live
    {
      s.widgets[k].live := false;
      k := k + 1;
    }
  }

  /** Which lists may be dragged, */
  ghost function DragsOf(widgets: seq<Widget>): (marks: seq<bool>)
    reads widgets`dragEnabled
    ensures |marks| == |widgets| && forall k | 0 <= k < |widgets| :: marks[k] == widgets[k].dragEnabled
  {
    DragsUpTo(widgets, |widgets|)
  }

  ghost function DragsUpTo(widgets: seq<Widget>, n: nat): (marks: seq<bool>)
    requires n <= |widgets|
    reads widgets`dragEnabled
    ensures |marks| == n && forall k | 0 <= k < n :: marks[k] == widgets[k].dragEnabled
  {
    if n == 0 then [] else DragsUpTo(widgets, n - 1) + [widgets[n - 1].dragEnabled]
  }

  /** have their model, */
  ghost function ModelsOf(widgets: seq<Widget>): (marks: seq<bool>)
    reads widgets`modelAttached
    ensures |marks| == |widgets| && forall k | 0 <= k < |widgets| :: marks[k] == widgets[k].modelAttached
  {
    ModelsUpTo(widgets, |widgets|)
  }

  ghost function ModelsUpTo(widgets: seq<Widget>, n: nat): (marks: seq<bool>)
    requires n <= |widgets|
    reads widgets`modelAttached
    ensures |marks| == n && forall k | 0 <= k < n :: marks[k] == widgets[k].modelAttached
  {
    if n == 0 then [] else ModelsUpTo(widgets, n - 1) + [widgets[n - 1].modelAttached]
  }

  /** and which sliders their listener. */
  ghost function ListenersOf(widgets: seq<Widget>): (marks: seq<bool>)
    reads widgets`listenerAttached
    ensures |marks| == |widgets| && forall k | 0 <= k < |widgets| :: marks[k] == widgets[k].listenerAttached
  {
    ListenersUpTo(widgets, |widgets|)
  }

  ghost function ListenersUpTo(widgets: seq<Widget>, n: nat): (marks: seq<bool>)
    requires n <= |widgets|
    reads widgets`listenerAttached
    ensures |marks| == n && forall k | 0 <= k < n :: marks[k] == widgets[k].listenerAttached
  {
    if n == 0 then [] else ListenersUpTo(widgets, n - 1) + [widgets[n - 1].listenerAttached]
  }

  /** disable_list_drag: every list is tried, a call that throws leaves its flag. */
  method DisableDrag(s: Screen, ghost marks: seq<bool>) returns (success: bool)
    requires Owns(s) && marks == DragsOf(s.widgets)
    modifies s.context.host`calls, s.context`error, s.widgets`dragEnabled
    ensures success <==> forall w | w in s.widgets :: !w.dragEnabled
    ensures success <==> Takes(s.context.host, old(s.context.host.calls), All(marks))
    ensures s.context.host.calls == old(s.context.host.calls) + All(marks)
    ensures forall w | w in s.widgets :: w.dragEnabled ==> old(w.dragEnabled)
  {
    success := true;
    var k := 0;
    while k < |s.widgets|
      invariant 0 <= k <= |s.widgets| && (success <==> forall j | 0 <= j < k :: !s.widgets[j].dragEnabled)
      invariant forall w | w in s.widgets :: w.dragEnabled ==> old(w.dragEnabled)
      invariant forall j | k <= j < |s.widgets| :: s.widgets[j].dragEnabled == marks[j]
      invariant s.context.host.calls == old(s.context.host.calls) + Count(marks, k)
      invariant success <==> Takes(s.context.host, old(s.context.host.calls), Count(marks, k))
    {
      if s.widgets[k].dragEnabled {
        var ok := s.context.host.Call();
        if ok {
          s.widgets[k].dragEnabled := false;
        } else {
          s.context.SetError(HostCallFailed);
          success := false;
        }
      }
      k := k + 1;
    }
  }

  /** disconnect_list_models */
  method DisconnectModels(s: Screen, ghost marks: seq<bool>) returns (success: bool)
    requires Owns(s) && marks == ModelsOf(s.widgets)
    modifies s.context.host`calls, s.context`error, s.widgets`modelAttached
    ensures success <==> forall w | w in s.widgets :: !w.modelAttached
    ensures success <==> Takes(s.context.host, old(s.context.host.calls), All(marks))
    ensures s.context.host.calls == old(s.context.host.calls) + All(marks)
    ensures forall w | w in s.widgets :: w.modelAttached ==> old(w.modelAttached)
  {
    success := true;
    var k := 0;
    while k < |s.widgets|
      invariant 0 <= k <= |s.widgets| && (success <==> forall j | 0 <= j < k :: !s.widgets[j].modelAttached)
      invariant forall w | w in s.widgets :: w.modelAttached ==> old(w.modelAttached)
      invariant forall j | k <= j < |s.widgets| :: s.widgets[j].modelAttached == marks[j]
      invariant s.context.host.calls == old(s.context.host.calls) + Count(marks, k)
      invariant success <==> Takes(s.context.host, old(s.context.host.calls), Count(marks, k))
    {
      if s.widgets[k].modelAttached {
        var ok := s.context.host.Call();
        if ok {
          s.widgets[k].modelAttached := false;
        } else {
          s.context.SetError(HostCallFailed);
          success := false;
        }
      }
      k := k + 1;
    }
  }

  /** disconnect_slider_listeners */
  method DisconnectListeners(s: Screen, ghost marks: seq<bool>) returns (success: bool)
    requires Owns(s) && marks == ListenersOf(s.widgets)
    modifies s.context.host`calls, s.context`error, s.widgets`listenerAttached
    ensures success <==> forall w | w in s.widgets :: !w.listenerAttached
    ensures success <==> Takes(s.context.host, old(s.context.host.calls), All(marks))
    ensures s.context.host.calls == old(s.context.host.calls) + All(marks)
    ensures forall w | w in s.widgets :: w.listenerAttached ==> old(w.listenerAttached)
  {
    success := true;
    var k := 0;
    while k < |s.widgets|
      invariant 0 <= k <= |s.widgets| && (success <==> forall j | 0 <= j < k :: !s.widgets[j].listenerAttached)
      invariant forall w | w in s.widgets :: w.listenerAttached ==> old(w.listenerAttached)
      invariant forall j | k <= j < |s.widgets| :: s.widgets[j].listenerAttached == marks[j]
      invariant s.context.host.calls == old(s.context.host.calls) + Count(marks, k)
      invariant success <==> Takes(s.context.host, old(s.context.host.calls), Count(marks, k))
    {
      if s.widgets[k].listenerAttached {
        var ok := s.context.host.Call();
        if ok {
          s.widgets[k].listenerAttached := false;
        } else {
          s.context.SetError(HostCallFailed);
          success := false;
        }
      }
      k := k + 1;
    }
  }

  /** The three detach loops: every widget is tried. */
  method Detach(s: Screen, ghost marks: seq<bool>) returns (success: bool)
    requires Owns(s) && marks == AttachedOf(s.widgets)
    modifies s.context.host`calls, s.context`error, s.widgets`attached
    ensures success <==> forall w | w in s.widgets :: !w.attached
    ensures success <==> Takes(s.context.host, old(s.context.host.calls), All(marks))
    ensures s.context.host.calls == old(s.context.host.calls) + All(marks)
    ensures forall w | w in s.widgets :: w.attached ==> old(w.attached)
  {
    success := true;
    var k := 0;
    while k < |s.widgets|
      invariant 0 <= k <= |s.widgets| && (success <==> forall j | 0 <= j < k :: !s.widgets[j].attached)
      invariant forall w | w in s.widgets :: w.attached ==> old(w.attached)
      invariant forall j | k <= j < |s.widgets| :: s.widgets[j].attached == marks[j]
      invariant s.context.host.calls == old(s.context.host.calls) + Count(marks, k)
      invariant success <==> Takes(s.context.host, old(s.context.host.calls), Count(marks, k))
    {
      if s.widgets[k].attached {
        var ok := s.context.host.Call();
        if ok {
          s.widgets[k].attached := false;
        } else {
          s.context.SetError(DetachFailed);
          success := false;
        }
      }
      k := k + 1;
    }
  }

  /** destroy_control, destroy_list or destroy_slider: possible only for a disconnected widget.  Host calls that
      throw on the way (`calls` of them are made) are noted and passed over. */
  method DestroyWidget(w: Widget)
    requires Disconnected(w)
    modifies w`live, w`destroyed, w.screen.context.host`calls, w.screen.context`error
    ensures w.destroyed && !w.live
  {
    w.live := false;
    var ended := w.screen.context.host.Call();
    if !ended { w.screen.context.SetError(HostCallFailed); }
    var freed := w.screen.context.host.Call();
    if !freed { w.screen.context.SetError(HostCallFailed); }
    w.destroyed := true;
  }

  method DestroyAll(s: Screen)
    requires Owns(s) && Released(s)
    modifies s.widgets, s.context.host`calls, s.context`error
    ensures Gone(s) && Released(s)
  {
    var k := 0;
    while k < |s.widgets|
      invariant 0 <= k <= |s.widgets| && forall j | 0 <= j < k :: s.widgets[j].destroyed && !s.widgets[j].live
      invariant Released(s)
    {
      DestroyWidget(s.widgets[k]);
      k := k + 1;
    }
  }

  /** The chain without position `k`. */
  function Without(chain: seq<Screen>, k: nat): seq<Screen>
    requires k < |chain|
  {
    chain[..k] + chain[k + 1..]
  }

  /** The screen is taken out of its parent's list.  The branch that would not find it cannot be reached. */
  method Unlink(p: Parent, s: Screen) returns (ghost at: nat)
    requires Linked(p) && s in p.chain
    modifies p`screenHead, p`chain, p.chain`parentNext
    ensures Linked(p) && at < |old(p.chain)| && old(p.chain)[at] == s && p.chain == Without(old(p.chain), at)
  {
    var before: Screen? := null;
    var link := p.screenHead;
    at := 0;
    while link != null && link != s
      invariant at <= |p.chain| && link == LinkAt(p.chain, at)
      invariant before == if at == 0 then null else p.chain[at - 1]
      invariant forall j | 0 <= j < at :: p.chain[j] != s
      decreases |p.chain| - at
    {
      assert LinkedAt(p, at);
      before, link := link, link.parentNext;
      at := at + 1;
    }
    if link == s {
      Bypass(p, s, before, at);
    } else {
      assert false;
    }
  }

  /** *link = value->parent_next */
  method Bypass(p: Parent, s: Screen, before: Screen?, ghost at: nat)
    requires Linked(p) && at < |p.chain| && p.chain[at] == s && before == if at == 0 then null else p.chain[at - 1]
    modifies p`screenHead, p`chain, p.chain`parentNext
    ensures Linked(p) && p.chain == Without(old(p.chain), at)
  {
    ghost var chain := p.chain;
    assert LinkedAt(p, at) && (at > 0 ==> LinkedAt(p, at - 1));
    if before == null { p.screenHead := s.parentNext; } else { before.parentNext := s.parentNext; }
    p.chain := Without(p.chain, at);
    WithoutOne(chain, at);
    LinkWithout(chain, at, 0);
    forall k | 0 <= k < |p.chain|
      ensures LinkedAt(p, k)
    {
      var j := if k < at then k else k + 1;
      assert p.chain[k] == chain[j] && old(LinkedAt(p, j));
      LinkWithout(chain, at, k + 1);
    }
  }

  lemma LinkWithout(chain: seq<Screen>, at: nat, k: nat)
    requires at < |chain|
    ensures LinkAt(Without(chain, at), k) == LinkAt(chain, if k < at then k else k + 1)
  {
  }

  /** Lists first: no drag, then no model. */
  method LetGoOfLists(s: Screen, ghost drags: seq<bool>, ghost models: seq<bool>) returns (ok: bool)
    requires Owns(s) && drags == DragsOf(s.widgets) && models == ModelsOf(s.widgets)
    modifies s.context.host`calls, s.context`error, s.widgets`dragEnabled, s.widgets`modelAttached
    ensures ok ==> forall w | w in s.widgets :: !w.dragEnabled && !w.modelAttached
    ensures forall w | w in s.widgets ::
              (w.dragEnabled ==> old(w.dragEnabled)) && (w.modelAttached ==> old(w.modelAttached))
    ensures ok <==> Takes(s.context.host, old(s.context.host.calls), All(drags) + All(models))
    ensures ok ==> s.context.host.calls == old(s.context.host.calls) + All(drags) + All(models)
  {
    ok := DisableDrag(s, drags);
    if ok { ok := DisconnectModels(s, models); }
  }

  /** Whether the host's answers from call `from` on let a close through: it takes every disconnection of lists and
      sliders (`links`) and, whatever the hide in between comes to, every detach. */
  ghost predicate Through(
    host: Host, from: nat, links: nat, visible: bool, hasFocus: bool, attached: seq<bool>)
  {
    var hiding := if visible then HideCalls(host, hasFocus, from + links, attached) else 0;
    Takes(host, from, links) && Takes(host, from + links + hiding, All(attached))
  }

  ghost function Links(s: Screen): nat
    reads s`widgets, s.widgets`dragEnabled, s.widgets`modelAttached, s.widgets`listenerAttached
  {
    All(DragsOf(s.widgets)) + All(ModelsOf(s.widgets)) + All(ListenersOf(s.widgets))
  }

  ghost predicate LetsGo(s: Screen, from: nat)
    reads s`visible, s`widgets, s.widgets`attached, s.widgets`dragEnabled, s.widgets`modelAttached
    reads s.widgets`listenerAttached
  {
    Through(s.context.host, from, Links(s), s.visible, s.parent.hasFocus, AttachedOf(s.widgets))
  }

  /** The disconnections before the hide. */
  method LetGoOfLinks(s: Screen) returns (ok: bool)
    requires Owns(s)
    modifies s.context.host`calls, s.context`error
    modifies s.widgets`dragEnabled, s.widgets`modelAttached, s.widgets`listenerAttached
    ensures ok ==> forall w | w in s.widgets :: !w.dragEnabled && !w.modelAttached && !w.listenerAttached
    ensures forall w | w in s.widgets ::
              (w.dragEnabled ==> old(w.dragEnabled)) && (w.modelAttached ==> old(w.modelAttached))
              && (w.listenerAttached ==> old(w.listenerAttached))
    ensures ok <==> Takes(s.context.host, old(s.context.host.calls), old(Links(s)))
    ensures ok ==> s.context.host.calls == old(s.context.host.calls) + old(Links(s))
  {
    ghost var listeners := ListenersOf(s.widgets);
    ok := LetGoOfLists(s, DragsOf(s.widgets), ModelsOf(s.widgets));
    if ok { ok := DisconnectListeners(s, listeners); }
  }

  /** The hide, whatever it comes to, and the detaches. */
  method LetGoOfChildren(s: Screen, ghost attached: seq<bool>) returns (detached: bool)
    requires Owns(s) && attached == AttachedOf(s.widgets)
    modifies s`visible, s.context.host`calls, s.context`error, s.widgets`visible, s.widgets`attached
    ensures detached ==> forall w | w in s.widgets :: !w.attached
    ensures forall w | w in s.widgets :: w.attached ==> old(w.attached)
    ensures var host, from := s.context.host, old(s.context.host.calls);
            var hiding := if old(s.visible) then HideCalls(host, s.parent.hasFocus, from, attached) else 0;
            detached <==> Takes(host, from + hiding, All(attached))
  {
    var hidden := Hide(s);
    detached := Detach(s, attached);
  }

  /** The calls that tell the host to let go, each tried only after the ones before it all went through. */
  method LetGo(s: Screen) returns (detached: bool)
    requires Owns(s)
    modifies s`visible, s.context.host`calls, s.context`error
    modifies s.widgets`dragEnabled, s.widgets`modelAttached, s.widgets`listenerAttached, s.widgets`visible
    modifies s.widgets`attached
    ensures detached ==> Released(s)
    ensures forall w | w in s.widgets :: old(Disconnected(w)) ==> Disconnected(w)
    ensures detached <==> old(LetsGo(s, s.context.host.calls))
  {
    detached := LetGoAll(s, Links(s), AttachedOf(s.widgets));
  }

  method LetGoAll(s: Screen, ghost links: nat, ghost attached: seq<bool>) returns (detached: bool)
    requires Owns(s) && links == Links(s) && attached == AttachedOf(s.widgets)
    modifies s`visible, s.context.host`calls, s.context`error
    modifies s.widgets`dragEnabled, s.widgets`modelAttached, s.widgets`listenerAttached, s.widgets`visible
    modifies s.widgets`attached
    ensures detached ==> Released(s)
    ensures forall w | w in s.widgets :: old(Disconnected(w)) ==> Disconnected(w)
    ensures detached <==> Through(s.context.host, old(s.context.host.calls), links, old(s.visible),
                                  s.parent.hasFocus, attached)
  {
    detached := LetGoOfLinks(s);
    if detached { detached := LetGoOfChildren(s, attached); }
  }

  /** Everything up to the detaches: from here on the screen is closing, whatever fails. */
  method Disconnect(s: Screen) returns (detached: bool)
    requires Owns(s) && Safe(s)
    modifies s`closing, s`visible, s.context.host`calls, s.context`error, s.widgets
    ensures s.closing && Safe(s) && Silent(s) && (detached ==> Released(s)) && Undestroyed(s, old(Fates(s)))
    ensures detached <==> old(LetsGo(s, s.context.host.calls))
  {
    ghost var fates := Fates(s);
    Silence(s);
    assert Fates(s) == fates;
    detached := LetGo(s);
    assert Fates(s) == fates && Silent(s);
  }

  /** No more callbacks. */
  method Silence(s: Screen)
    requires Safe(s)
    modifies s`closing, s.widgets`live
    ensures s.closing && Silent(s) && Safe(s)
    ensures LetsGo(s, s.context.host.calls) == old(LetsGo(s, s.context.host.calls))
  {
    s.closing := true;
    Invalidate(s);
  }

  lemma WithoutOne(chain: seq<Screen>, at: nat)
    requires at < |chain| && forall i, j | 0 <= i < j < |chain| :: chain[i] != chain[j]
    ensures forall t :: t in Without(chain, at) <==> t in chain && t != chain[at]
  {
    forall t
      ensures t in Without(chain, at) <==> t in chain && t != chain[at]
    {
      if t in chain && t != chain[at] {
        var k :| 0 <= k < |chain| && chain[k] == t;
        assert Without(chain, at)[if k < at then k else k - 1] == t;
      }
    }
  }

  /** The screen leaves its parent's list and count. */
  method LeaveParent(s: Screen)
    requires Linked(s.parent) && s in s.parent.chain && s.parent.screens == |s.parent.chain|
    modifies s.parent`screens, s.parent`screenHead, s.parent`chain, s.parent.chain`parentNext
    ensures Linked(s.parent) && s.parent.screens == |s.parent.chain|
    ensures forall t :: t in s.parent.chain <==> t in old(s.parent.chain) && t != s
  {
    ghost var at := Unlink(s.parent, s);
    WithoutOne(old(s.parent.chain), at);
    s.parent.screens := s.parent.screens - 1;
  }

  /** And its context; both stay in order. */
  method Strike(s: Screen)
    requires Registry(s.context) && Kept(s.parent) && s in s.context.allScreens
    modifies s.context`screens, s.context`allScreens, s.parent`screens, s.parent`screenHead, s.parent`chain
    modifies s.parent.chain`parentNext
    ensures Registry(s.context) && Kept(s.parent) && s.context.allScreens == old(s.context.allScreens) - {s}
    ensures s !in s.parent.chain
  {
    var c := s.context;
    assert Enrolled(c, s);
    LeaveParent(s);
    c.screens := c.screens - 1;
    c.allScreens := c.allScreens - {s};
    forall t | t in c.allScreens
      ensures Enrolled(c, t)
    {
      assert old(Enrolled(c, t));
    }
    assert forall h | h in c.allHosts :: old(HostEnrolled(c, h));
  }

  /** What a caller of close holds: a live screen of a context in order. */
  ghost predicate Closable(s: Screen)
    reads s`widgets, s`closing, s.widgets, s.context`allScreens, s.context`parents, s.context`screens
    reads s.context`appHosts
    reads s.context`allParents, s.context`allHosts, s.context.allParents`chain, s.context.allParents`hosts
    reads s.parent`screenHead, s.parent`chain, s.parent`screens, s.parent`appHosts, s.parent`hosts
    reads s.parent.chain`parentNext
    reads s.parent.context`allScreens, s.parent.context`allHosts
  {
    Registry(s.context) && Kept(s.parent) && s in s.context.allScreens && Owns(s) && Safe(s)
  }

  /** Destruction, once every detach has gone through. */
  method Dispose(s: Screen)
    requires Registry(s.context) && Kept(s.parent) && s in s.context.allScreens && Owns(s) && Released(s)
    modifies s.context`screens, s.context`allScreens, s.parent`screens, s.parent`screenHead, s.parent`chain
    modifies s.parent.chain`parentNext
    modifies s.widgets, s.context.host`calls, s.context`error, s`alive
    ensures Registry(s.context) && Kept(s.parent) && s.context.allScreens == old(s.context.allScreens) - {s}
    ensures !s.alive && Gone(s) && Released(s)
  {
    DestroyAll(s);
    s.alive := false;
    Strike(s);
  }

  /** One attempt, but for giving the memory back. */
  method Attempt(s: Screen) returns (detached: bool)
    requires Registry(s.context) && Kept(s.parent) && s in s.context.allScreens && Owns(s) && Safe(s) && s.alive
    modifies s.context`screens, s.context`allScreens, s.parent`screens, s.parent`screenHead, s.parent`chain
    modifies s.parent.chain`parentNext
    modifies s.context.host`calls, s.context`error, s`alive, s`closing, s`visible
    modifies s.widgets
    ensures Registry(s.context) && Kept(s.parent) && s.closing
    ensures detached <==> !s.alive
    ensures detached <==> old(LetsGo(s, s.context.host.calls))
    ensures s.alive ==> s.parent.chain == old(s.parent.chain)
    ensures if s.alive
            then s.context.allScreens == old(s.context.allScreens) && Safe(s) && Silent(s) &&
                 Undestroyed(s, old(Fates(s)))
            else s.context.allScreens == old(s.context.allScreens) - {s} && Gone(s) && Released(s)
  {
    detached := Disconnect(s);
    if detached { Dispose(s); }
  }

  /** One attempt, and the memory given back. */
  method CloseNow(s: Screen) returns (ok: bool)
    requires Closable(s) && s.alive
    modifies s.context`screens, s.context`allScreens, s.parent`screens, s.parent`screenHead, s.parent`chain
    modifies s.parent.chain`parentNext
    modifies s.context.host`calls, s.context`error, s`alive, s`closing, s`visible
    modifies s.widgets
    ensures Registry(s.context) && Kept(s.parent) && s.closing && (ok ==> !s.alive)
    ensures s.alive <==> !old(LetsGo(s, s.context.host.calls))
    ensures s.alive ==> s.parent.chain == old(s.parent.chain)
    ensures if s.alive
            then s.context.allScreens == old(s.context.allScreens) && Safe(s) && Silent(s) &&
                 Undestroyed(s, old(Fates(s)))
            else s.context.allScreens == old(s.context.allScreens) - {s} && Gone(s) && Released(s)
  {
    ok := Attempt(s);
    if ok { ok := s.context.Delete(); }
  }

  /** mpc_ui_screen_close.  A close at a positive callback depth is turned away and leaves the screen as it was; any
      other attempt makes it closing for good, and destroys exactly when the host lets go. */
  method Close(s: Screen) returns (ok: bool)
    requires Closable(s) && s.alive
    modifies s.context`screens, s.context`allScreens, s.parent`screens, s.parent`screenHead, s.parent`chain
    modifies s.parent.chain`parentNext
    modifies s.context.host`calls, s.context`error, s`alive, s`closing, s`visible
    modifies s.widgets
    ensures Registry(s.context) && Kept(s.parent)
    ensures s.closing == (old(s.closing) || s.context.callbackDepth == 0)
    ensures ok ==> !s.alive
    ensures s.alive <==> s.context.callbackDepth > 0 || !old(LetsGo(s, s.context.host.calls))
    ensures s.context.callbackDepth == 0 && s.alive ==> Silent(s)
    ensures s.alive ==> s.context.allScreens == old(s.context.allScreens) && Safe(s) && Undestroyed(s, old(Fates(s)))
    ensures s.alive ==> s.parent.chain == old(s.parent.chain)
    ensures !s.alive ==> s.context.allScreens == old(s.context.allScreens) - {s} && Gone(s) && Released(s)
  {
    if s.context.callbackDepth > 0 {
      s.context.SetError(CallbackActive);
      return false;
    }
    ok := CloseNow(s);
  }

  /** Whether a painting asks the owner of a list for the text of a row: the callback depth stays. */
  method Asks(w: Widget, fits: bool) returns (asked: bool)
    modifies w.screen`delivered
    ensures asked <==> w.live && !w.screen.closing && fits
    ensures w.screen.delivered == old(w.screen.delivered) + if asked then 1 else 0
  {
    asked := w.live && !w.screen.closing && fits;
    if asked { w.screen.delivered := w.screen.delivered + 1; }
  }

  /** What the owner of a list answers when it is asked for the text of a row. */
  datatype RowText = Text | Nothing | Throws

  /** A close while a live widget of the screen is in use: the widget is destroyed exactly when the close is let in
      and the host lets go. */
  method CloseUnder(w: Widget)
    requires Closable(w.screen) && w.screen.alive && w in w.screen.widgets && w.live
    modifies w.screen.context`screens, w.screen.context`allScreens, w.screen.context.host`calls, w.screen.context`error
    modifies w.screen.parent`screens, w.screen.parent`screenHead, w.screen.parent`chain
    modifies w.screen.parent.chain`parentNext
    modifies w.screen`alive, w.screen`closing, w.screen`visible, w.screen.widgets
    ensures w.destroyed <==> w.screen.context.callbackDepth == 0 && old(LetsGo(w.screen, w.screen.context.host.calls))
  {
    assert w !in Fates(w.screen);
    var ok := Close(w.screen);
    assert w.screen.alive ==> w !in Fates(w.screen);
  }

  /** mpc_ui_list_model_paint.  The owner is asked at the callback depth there is, and may close the screen (`closes`);
      unless it has no text to give, the list is read again afterwards.  `fits` is the test of the row and its size.
      That list has been destroyed (`stale`) exactly when such a close was let in and the host let go. */
  method Paint(w: Widget, fits: bool, closes: bool, text: RowText) returns (asked: bool, stale: bool)
    requires Closable(w.screen) && w.screen.alive && w in w.screen.widgets
    modifies w.screen.context`screens, w.screen.context`allScreens, w.screen.context.host`calls, w.screen.context`error
    modifies w.screen.parent`screens, w.screen.parent`screenHead, w.screen.parent`chain
    modifies w.screen.parent.chain`parentNext
    modifies w.screen`alive, w.screen`closing, w.screen`visible, w.screen`delivered, w.screen.widgets
    ensures asked <==> old(w.live && !w.screen.closing) && fits
    ensures w.screen.delivered == old(w.screen.delivered) + if asked then 1 else 0
    ensures stale <==> asked && closes && text != Nothing && w.screen.context.callbackDepth == 0
                       && old(LetsGo(w.screen, w.screen.context.host.calls))
  {
    var s := w.screen;
    stale := false;
    asked := Asks(w, fits);
    if !asked { return; }
    if closes { CloseUnder(w); }
    if text != Nothing { stale := w.destroyed; }
    if text == Throws && !stale { s.context.SetError(HostCallFailed); }
  }

  /** mpc_ui_control_place, mpc_ui_list_place or mpc_ui_slider_place on a widget that is still there; `inside` is
      the test of its bounds.  None of them asks whether the screen is closing. */
  method Place(w: Widget, inside: bool) returns (ok: bool)
    requires !w.destroyed
    modifies w`attached, w`requestedVisible, w`visible, w.screen.context.host`calls, w.screen.context`error
    ensures ok ==> w.attached && w.requestedVisible && w.visible == w.screen.visible
    ensures old(w.attached) ==> w.attached
    ensures !inside ==> !ok && w.attached == old(w.attached) && w.visible == old(w.visible)
  {
    var context := w.screen.context;
    if !inside {
      context.SetError(InvalidArgument);
      return false;
    }
    if !w.attached {
      var attached := context.host.Call();
      if !attached {
        context.SetError(HostCallFailed);
        return false;
      }
      w.attached := true;
    }
    ok := context.host.Call();
    if ok { ok := context.host.Call(); }
    if !ok {
      context.SetError(HostCallFailed);
      return;
    }
    w.requestedVisible, w.visible := true, w.screen.visible;
  }

  /** What can happen to a closing screen: close is tried again, the host makes one of its widgets call or
      paints one, or one of them is placed, which may attach it again. */
  datatype Event =
    | Again | Calls(widget: nat, accepts: bool, throws: bool) | Paints(widget: nat, fits: bool)
    | Places(widget: nat, inside: bool)

  /** A closing screen: still there and silent, or destroyed and let go of. */
  ghost predicate Closing(s: Screen)
    reads s, s.widgets, s.context`allScreens, s.context`parents, s.context`screens, s.context`appHosts
    reads s.context`allParents, s.context`allHosts, s.context.allParents`chain, s.context.allParents`hosts
    reads s.parent`screenHead, s.parent`chain, s.parent`screens, s.parent`appHosts, s.parent`hosts
    reads s.parent.chain`parentNext
    reads s.parent.context`allScreens, s.parent.context`allHosts
  {
    s.closing && Silent(s) && Owns(s) && if s.alive then Closable(s) else Gone(s) && Released(s)
  }

  method TryAgain(s: Screen)
    requires Closing(s) && s.alive
    modifies s.context`screens, s.context`allScreens, s.parent`screens, s.parent`screenHead, s.parent`chain
    modifies s.parent.chain`parentNext
    modifies s.widgets, s.context.host`calls, s.context`error, s`alive, s`closing, s`visible
    ensures Closing(s) && (s.alive ==> s.parent.chain == old(s.parent.chain))
  {
    var ok := Close(s);
  }

  method Knock(s: Screen, i: nat, accepts: bool, throws: bool)
    requires Silent(s) && Owns(s) && i < |s.widgets|
    modifies s`delivered, s.context`callbackDepth, s.context`error
    ensures s.delivered == old(s.delivered)
  {
    assert s.widgets[i] in s.widgets;
    var delivered := Deliver(s.widgets[i], accepts, throws);
  }

  method Redraw(s: Screen, i: nat, fits: bool)
    requires Silent(s) && Owns(s) && i < |s.widgets|
    modifies s`delivered
    ensures s.delivered == old(s.delivered)
  {
    assert s.widgets[i] in s.widgets;
    var asked := Asks(s.widgets[i], fits);
  }

  /** A widget of a screen that is still there. */
  method PlaceAgain(s: Screen, i: nat, inside: bool)
    requires s.closing && Silent(s) && Owns(s) && Safe(s) && i < |s.widgets|
    modifies s.widgets, s.context.host`calls, s.context`error
    ensures Silent(s) && Safe(s)
  {
    var w := s.widgets[i];
    assert w in s.widgets;
    if !w.destroyed { var ok := Place(w, inside); }
  }

  /** One event while the screen is still there. */
  method Happens(s: Screen, e: Event)
    requires Closing(s) && s.alive
    modifies s.context`screens, s.context`allScreens, s.parent`screens, s.parent`screenHead, s.parent`chain
    modifies s.parent.chain`parentNext, s.widgets, s.context.host`calls, s.context`error, s.context`callbackDepth
    modifies s`alive, s`closing, s`visible, s`delivered
    ensures Closing(s) && s.delivered == old(s.delivered) && (s.alive ==> s.parent.chain == old(s.parent.chain))
  {
    match e {
      case Again => TryAgain(s);
      case Calls(i, accepts, throws) => if i < |s.widgets| { Knock(s, i, accepts, throws); }
      case Paints(i, fits) => if i < |s.widgets| { Redraw(s, i, fits); }
      case Places(i, inside) => if i < |s.widgets| { PlaceAgain(s, i, inside); }
    }
  }

  /** Whatever happens after a close has been let in, no callback of the screen runs again, and whatever is
      destroyed had been let go of by the host. */
  method AfterClose(s: Screen, events: seq<Event>)
    requires Closing(s)
    modifies s.context`screens, s.context`allScreens, s.parent`screens, s.parent`screenHead, s.parent`chain
    modifies s.parent.chain`parentNext, s.widgets, s.context.host`calls, s.context`error, s.context`callbackDepth
    modifies s`alive, s`closing, s`visible, s`delivered
    ensures Closing(s) && s.delivered == old(s.delivered)
  {
    ghost var chain := s.parent.chain;
    var k := 0;
    while k < |events|
      invariant Closing(s) && s.delivered == old(s.delivered) && (s.alive ==> s.parent.chain == chain)
    {
      if s.alive { Happens(s, events[k]); }
      else if events[k].Calls? && events[k].widget < |s.widgets| {
        Knock(s, events[k].widget, events[k].accepts, events[k].throws);
      }
      k := k + 1;
    }
  }
}
