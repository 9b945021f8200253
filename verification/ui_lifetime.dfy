/** Creation and destruction of contexts, parents, screens and app hosts: the counters are the lists, so a
    context or a parent is freed only when nothing refers to it. */
module UiLifetime {
  import opened Ui

  /** mpc_ui_private_parent_create and mpc_ui_private_component_parent */
  method ParentCreate(c: Context, hasFocus: bool) returns (p: Parent?)
    requires Registry(c)
    modifies c.host`calls, c`error, c`parents, c`allParents
    ensures Registry(c)
    ensures p != null ==> fresh(p) && p.context == c && c.allParents == old(c.allParents) + {p} && Kept(p) && p.alive
    ensures p != null ==> p.chain == [] && p.hosts == {}
    ensures p == null ==> c.allParents == old(c.allParents) && c.error != NoError
    ensures p != null <==> c.host.answers(old(c.host.calls))
  {
    var ok := c.host.Call();
    if !ok {
      c.SetError(AllocationFailed);
      return null;
    }
    p := new Parent(c, hasFocus);
    c.parents := c.parents + 1;
    c.allParents := c.allParents + {p};
    assert forall s | s in c.allScreens :: old(Enrolled(c, s)) && Enrolled(c, s);
    assert forall h | h in c.allHosts :: old(HostEnrolled(c, h)) && HostEnrolled(c, h);
  }

  /** mpc_ui_private_parent_destroy; a parent that is gone is referred to by no screen and no app host. */
  method ParentDestroy(p: Parent) returns (ok: bool)
    requires Registry(p.context) && Kept(p) && p in p.context.allParents && p.alive
    modifies p.context.host`calls, p.context`error, p.context`parents, p.context`allParents, p`alive
    ensures Registry(p.context)
    ensures !p.alive <==> old(p.screens) == 0 && old(p.appHosts) == 0
    ensures ok ==> !p.alive
    ensures !p.alive ==> p.context.allParents == old(p.context.allParents) - {p}
    ensures !p.alive ==>
            (forall s | s in p.context.allScreens :: s.parent != p) &&
            (forall h | h in p.context.allHosts :: h.parent != p)
    ensures p.alive ==> p.context.allParents == old(p.context.allParents) && p.context.error != NoError
  {
    var c := p.context;
    if p.screens > 0 || p.appHosts > 0 {
      c.SetError(LifetimeOrder);
      return false;
    }
    p.alive := false;
    c.parents := c.parents - 1;
    c.allParents := c.allParents - {p};
    assert forall s | s in c.allScreens :: old(Enrolled(c, s)) && Enrolled(c, s);
    assert forall h | h in c.allHosts :: old(HostEnrolled(c, h)) && HostEnrolled(c, h);
    ok := c.host.Call();
  }

  /** mpc_ui_private_context_destroy */
  method ContextDestroy(c: Context) returns (ok: bool)
    requires Registry(c) && c.alive
    modifies c.host`calls, c`error, c`alive
    ensures !c.alive <==> c.parents == 0 && c.screens == 0 && c.appHosts == 0 && c.callbackDepth == 0
    ensures !c.alive ==> c.allParents == {} && c.allScreens == {} && c.allHosts == {}
    ensures ok ==> !c.alive
  {
    if c.parents > 0 || c.screens > 0 || c.appHosts > 0 || c.callbackDepth > 0 {
      c.SetError(LifetimeOrder);
      return false;
    }
    c.alive := false;
    ok := c.host.Call();
  }

  /** mpc_ui_screen_create: a new screen heads its parent's list. */
  method ScreenCreate(c: Context, p: Parent) returns (s: Screen?)
    requires Registry(c) && Kept(p) && p.context == c && p in c.allParents
    modifies c.host`calls, c`error, c`screens, c`allScreens, p`screenHead, p`chain, p`screens
    ensures Registry(c) && Kept(p)
    ensures s != null ==> fresh(s) && s.context == c && s.parent == p && s.alive && Owns(s) && s.widgets == []
    ensures s != null ==> !s.closing && !s.visible
    ensures s != null ==> p.chain == [s] + old(p.chain) && c.allScreens == old(c.allScreens) + {s}
    ensures s == null ==> p.chain == old(p.chain) && c.allScreens == old(c.allScreens) && c.error != NoError
    ensures s != null <==> c.host.answers(old(c.host.calls))
  {
    var ok := c.host.Call();
    if !ok {
      c.SetError(AllocationFailed);
      return null;
    }
    s := new Screen(c, p);
    Enrol(c, p, s);
  }

  method Enrol(c: Context, p: Parent, s: Screen)
    requires Registry(c) && Kept(p) && p.context == c && p in c.allParents
    requires s.context == c && s.parent == p && s.parentNext == p.screenHead && s !in c.allScreens
    modifies c`screens, c`allScreens, p`screenHead, p`chain, p`screens
    ensures Registry(c) && Kept(p) && p.chain == [s] + old(p.chain) && c.allScreens == old(c.allScreens) + {s}
  {
    Head(p, s);
    forall t | t in c.allScreens
      ensures Enrolled(c, t)
    {
      assert old(Enrolled(c, t));
    }
    forall h | h in c.allHosts
      ensures HostEnrolled(c, h)
    {
      assert old(HostEnrolled(c, h));
    }
    Inscribe(c, s);
  }

  /** The context's side of it. */
  method Inscribe(c: Context, s: Screen)
    requires Registry(c) && Enrolled(c, s) && s !in c.allScreens
    modifies c`screens, c`allScreens
    ensures Registry(c) && c.allScreens == old(c.allScreens) + {s}
  {
    c.screens := c.screens + 1;
    c.allScreens := c.allScreens + {s};
  }

  method Head(p: Parent, s: Screen)
    requires Linked(p) && p.screens == |p.chain| && s !in p.chain && s.parent == p && s.parentNext == p.screenHead
    modifies p`screenHead, p`chain, p`screens
    ensures Linked(p) && p.screens == |p.chain| && p.chain == [s] + old(p.chain)
  {
    p.screenHead := s;
    p.chain := [s] + p.chain;
    p.screens := p.screens + 1;
    forall k | 0 <= k < |p.chain|
      ensures LinkedAt(p, k)
    {
      if k > 0 { assert old(LinkedAt(p, k - 1)); }
    }
  }

  /** mpc_ui_private_app_host_create: one host for a parent, before it has screens. */
  method HostCreate(c: Context, p: Parent) returns (h: AppHost?)
    requires Registry(c) && Kept(p) && p.context == c && p in c.allParents
    modifies c.host`calls, c`error, c`appHosts, c`allHosts, p`appHosts, p`hosts
    ensures Registry(c) && Kept(p)
    ensures h != null ==>
            fresh(h) && h.context == c && h.parent == p && h.alive && old(p.hosts) == {} && old(p.chain) == []
    ensures h != null ==> p.hosts == {h} && c.allHosts == old(c.allHosts) + {h}
    ensures h == null ==> p.hosts == old(p.hosts) && c.allHosts == old(c.allHosts) && c.error != NoError
  {
    if p.appHosts > 0 || p.screens > 0 {
      c.SetError(InvalidArgument);
      return null;
    }
    var ok := c.host.Call();
    if !ok {
      c.SetError(AllocationFailed);
      return null;
    }
    h := new AppHost(c, p);
    EnrolHost(c, p, h);
  }

  method Count(p: Parent, h: AppHost)
    requires p.appHosts == |p.hosts| && h !in p.hosts
    modifies p`appHosts, p`hosts
    ensures p.appHosts == |p.hosts| && p.hosts == old(p.hosts) + {h}
  {
    p.appHosts := p.appHosts + 1;
    p.hosts := p.hosts + {h};
  }

  method EnrolHost(c: Context, p: Parent, h: AppHost)
    requires Registry(c) && Kept(p) && p.context == c && p in c.allParents
    requires h.context == c && h.parent == p && h !in c.allHosts && h !in p.hosts
    modifies c`appHosts, c`allHosts, p`appHosts, p`hosts
    ensures Registry(c) && Kept(p) && p.hosts == old(p.hosts) + {h} && c.allHosts == old(c.allHosts) + {h}
  {
    Count(p, h);
    forall s | s in c.allScreens
      ensures Enrolled(c, s)
    {
      assert old(Enrolled(c, s));
    }
    forall g | g in c.allHosts
      ensures HostEnrolled(c, g)
    {
      assert old(HostEnrolled(c, g));
    }
    Record(c, h);
  }

  /** The context's side of it. */
  method Record(c: Context, h: AppHost)
    requires Registry(c) && HostEnrolled(c, h) && h !in c.allHosts
    modifies c`appHosts, c`allHosts
    ensures Registry(c) && c.allHosts == old(c.allHosts) + {h}
  {
    c.appHosts := c.appHosts + 1;
    c.allHosts := c.allHosts + {h};
  }

  method StrikeHost(h: AppHost)
    requires Registry(h.context) && Kept(h.parent) && h in h.context.allHosts
    modifies h.context`appHosts, h.context`allHosts, h.parent`appHosts, h.parent`hosts
    ensures Registry(h.context) && Kept(h.parent) && h.context.allHosts == old(h.context.allHosts) - {h} &&
            h !in h.parent.hosts
  {
    var c, p := h.context, h.parent;
    assert HostEnrolled(c, h);
    c.appHosts, p.appHosts := c.appHosts - 1, p.appHosts - 1;
    c.allHosts, p.hosts := c.allHosts - {h}, p.hosts - {h};
    assert forall s | s in c.allScreens :: old(Enrolled(c, s)) && Enrolled(c, s);
    forall g | g in c.allHosts
      ensures HostEnrolled(c, g)
    {
      assert old(HostEnrolled(c, g));
    }
  }

  /** The end of mpc_ui_private_app_host_destroy. */
  method HostFree(h: AppHost) returns (ok: bool)
    requires Registry(h.context) && Kept(h.parent) && h in h.context.allHosts && !h.isOpen
    modifies h.context.host`calls, h.context`error, h.context`appHosts, h.context`allHosts, h.parent`appHosts
    modifies h.parent`hosts
    modifies h`registered, h`alive
    ensures Registry(h.context) && Kept(h.parent) && !h.alive && !h.registered
    ensures h.context.allHosts == old(h.context.allHosts) - {h} && h !in h.parent.hosts
  {
    h.registered, h.alive := false, false;
    StrikeHost(h);
    ok := h.context.Delete();
  }

  /** Where a widget stands in its screen's order: controls, then lists, then sliders. */
  function Rank(kind: Kind): nat {
    match kind
    case Button => 0
    case Label => 0
    case List => 1
    case Slider => 2
  }

  /** Where in its screen's order a new widget of this kind goes: before the others of its kind. */
  function Spot(widgets: seq<Widget>, kind: Kind): (at: nat)
    ensures at <= |widgets| && (forall k | 0 <= k < at :: Rank(widgets[k].kind) < Rank(kind))
    ensures at < |widgets| ==> Rank(kind) <= Rank(widgets[at].kind)
  {
    if widgets == [] || Rank(kind) <= Rank(widgets[0].kind) then 0 else 1 + Spot(widgets[1..], kind)
  }

  function With(widgets: seq<Widget>, at: nat, w: Widget): (more: seq<Widget>)
    requires at <= |widgets|
    ensures |more| == |widgets| + 1 && w in more && forall v | v in more :: v in widgets || v == w
  {
    widgets[..at] + [w] + widgets[at..]
  }

  lemma WithDistinct(widgets: seq<Widget>, at: nat, w: Widget)
    requires at <= |widgets| && w !in widgets
    requires forall i, j | 0 <= i < j < |widgets| :: widgets[i] != widgets[j]
    ensures var more := With(widgets, at, w); forall i, j | 0 <= i < j < |more| :: more[i] != more[j]
  {
    var more := With(widgets, at, w);
    forall i, j | 0 <= i < j < |more|
      ensures more[i] != more[j]
    {
      assert i != at ==> more[i] == widgets[if i < at then i else i - 1];
      assert j != at ==> more[j] == widgets[if j < at then j else j - 1];
    }
  }

  /** mpc_ui_button_create, mpc_ui_label_create, mpc_ui_list_create and mpc_ui_slider_create: a new widget heads the
      ones of its kind.  One answer of the host stands for all the calls a creation makes. */
  method WidgetCreate(s: Screen, kind: Kind) returns (w: Widget?)
    requires Owns(s)
    modifies s`widgets, s.context.host`calls, s.context`error
    ensures Owns(s) && (w != null ==> fresh(w) && !s.closing && w.kind == kind && !w.destroyed && !w.attached)
    ensures w != null ==> w.live == (kind != Label) && w.modelAttached == w.dragEnabled == (kind == List)
    ensures w != null ==> w.listenerAttached == (kind == Slider)
    ensures s.widgets == if w == null then old(s.widgets) else With(old(s.widgets), Spot(old(s.widgets), kind), w)
    ensures w == null ==> s.context.error != NoError
    ensures w != null <==> !s.closing && s.context.host.answers(old(s.context.host.calls))
  {
    if s.closing {
      s.context.SetError(InvalidArgument);
      return null;
    }
    var ok := s.context.host.Call();
    if !ok {
      s.context.SetError(HostCallFailed);
      return null;
    }
    var made := new Widget(s, kind);
    made.modelAttached, made.dragEnabled, made.listenerAttached := kind == List, kind == List, kind == Slider;
    WithDistinct(s.widgets, Spot(s.widgets, kind), made);
    s.widgets := With(s.widgets, Spot(s.widgets, kind), made);
    w := made;
  }
}
