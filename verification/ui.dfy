/** The objects of the interface toolkit: contexts, parents, screens, widgets and app hosts, on the heap as
    in the program, with the calls into the host application as an oracle. */
module Ui {

  datatype Error =
    | NoError | InvalidArgument | AllocationFailed | HostCallFailed | DetachFailed | LifetimeOrder | CallbackActive

  /** The host application.  Every call into it may fail (refuse, or throw): `answers` says which ones do, in
      the order they are made. */
  class Host {
    const answers: nat -> bool
    var calls: nat

    constructor (answers: nat -> bool)
      ensures this.answers == answers && calls == 0
    {
      this.answers := answers;
      calls := 0;
    }

    method Call() returns (ok: bool)
      modifies this`calls
      ensures ok == answers(old(calls)) && calls == old(calls) + 1
    {
      ok := answers(calls);
      calls := calls + 1;
    }
  }

  class Context {
    const host: Host
    var alive: bool               // its magic number is still in place
    var error: Error
    var callbackDepth: nat
    var parents: nat
    var screens: nat
    var appHosts: nat
    ghost var allParents: set<Parent>
    ghost var allScreens: set<Screen>
    ghost var allHosts: set<AppHost>

    constructor (host: Host)
      ensures this.host == host && alive && error == NoError && callbackDepth == 0 &&
              parents == screens == appHosts == 0
      ensures allParents == {} && allScreens == {} && allHosts == {}
    {
      this.host := host;
      alive := true;
      error, callbackDepth, parents, screens, appHosts := NoError, 0, 0, 0, 0;
      allParents, allScreens, allHosts := {}, {}, {};
    }

    /** set_error: the first error stays. */
    method SetError(e: Error)
      modifies this`error
      ensures error == if old(error) == NoError then e else old(error)
    {
      if error == NoError { error := e; }
    }

    /** sized_delete: a call that throws is noted. */
    method Delete() returns (ok: bool)
      modifies host`calls, this`error
    {
      ok := host.Call();
      if !ok { SetError(HostCallFailed); }
    }
  }

  class Parent {
    const context: Context
    const hasFocus: bool          // whether the parent comes with a focus call
    var alive: bool
    var screenHead: Screen?
    var screens: nat
    var appHosts: nat
    ghost var chain: seq<Screen>  // the screens linked from screenHead, in order
    ghost var hosts: set<AppHost>

    constructor (context: Context, hasFocus: bool)
      ensures this.context == context && this.hasFocus == hasFocus
      ensures alive && screenHead == null && screens == appHosts == 0 && chain == [] && hosts == {}
    {
      this.context, this.hasFocus := context, hasFocus;
      alive, screenHead, screens, appHosts, chain, hosts := true, null, 0, 0, [], {};
    }
  }

  /** The link that follows position `k` of a chain. */
  ghost function LinkAt(chain: seq<Screen>, k: nat): Screen? {
    if k < |chain| then chain[k] else null
  }

  ghost predicate LinkedAt(p: Parent, k: nat)
    reads p`chain, p.chain`parentNext
  {
    k < |p.chain| && p.chain[k].parentNext == LinkAt(p.chain, k + 1)
  }

  /** The parent's list is its chain: no screen twice, every link in place, every screen its own. */
  ghost predicate Linked(p: Parent)
    reads p`screenHead, p`chain, p.chain`parentNext
  {
    && p.screenHead == LinkAt(p.chain, 0)
    && (forall k | 0 <= k < |p.chain| :: LinkedAt(p, k))
    && (forall s | s in p.chain :: s.parent == p)
    && (forall i, j | 0 <= i < j < |p.chain| :: p.chain[i] != p.chain[j])
  }

  datatype Kind = Button | Label | List | Slider

  class Screen {
    const context: Context
    const parent: Parent
    var alive: bool
    var parentNext: Screen?
    var widgets: seq<Widget>      // its controls, then its lists, then its sliders: the order of every loop
    var visible: bool
    var resumeVisible: bool
    var closing: bool
    ghost var delivered: nat      // callbacks of this screen that have run

    constructor (context: Context, parent: Parent)
      ensures this.context == context && this.parent == parent && parentNext == parent.screenHead
      ensures alive && widgets == [] && !visible && !resumeVisible && !closing && delivered == 0
    {
      this.context, this.parent, parentNext := context, parent, parent.screenHead;
      alive, widgets, visible, resumeVisible, closing, delivered := true, [], false, false, false, 0;
    }
  }

  class Widget {
    const screen: Screen
    const kind: Kind
    var live: bool                // its binding or model still delivers callbacks
    var attached: bool
    var requestedVisible: bool
    var visible: bool
    var modelAttached: bool
    var dragEnabled: bool
    var listenerAttached: bool
    var destroyed: bool           // its magic number has been cleared

    constructor (screen: Screen, kind: Kind)
      ensures this.screen == screen && this.kind == kind && live == (kind != Label) && !destroyed
      ensures !attached && !requestedVisible && !visible && !modelAttached && !dragEnabled && !listenerAttached
    {
      this.screen, this.kind := screen, kind;
      live, attached, requestedVisible, visible := kind != Label, false, false, false;
      modelAttached, dragEnabled, listenerAttached, destroyed := false, false, false, false;
    }
  }

  /** Distinct widgets, all of this screen. */
  ghost predicate Owns(s: Screen)
    reads s`widgets
  {
    && (forall w | w in s.widgets :: w.screen == s)
    && (forall i, j | 0 <= i < j < |s.widgets| :: s.widgets[i] != s.widgets[j])
  }

  class AppHost {
    const context: Context
    const parent: Parent
    var alive: bool
    var registered: bool
    var isOpen: bool
    var closeRequested: bool
    var transition: bool
    var suspended: bool

    constructor (context: Context, parent: Parent)
      ensures this.context == context && this.parent == parent
      ensures alive && !registered && !isOpen && !closeRequested && !transition && !suspended
    {
      this.context, this.parent := context, parent;
      alive, registered, isOpen, closeRequested, transition, suspended := true, false, false, false, false, false;
    }
  }

  /** A parent's own bookkeeping: its counters are the lengths of its lists, and everything in them is
      registered with its context. */
  ghost predicate Kept(p: Parent)
    reads p`screenHead, p`chain, p`screens, p`appHosts, p`hosts, p.chain`parentNext, p.context`allScreens
    reads p.context`allHosts
  {
    && p.screens == |p.chain| && p.appHosts == |p.hosts| && Linked(p)
    && (forall s | s in p.chain :: s in p.context.allScreens)
    && (forall h | h in p.hosts :: h in p.context.allHosts && h.parent == p)
  }

  ghost predicate Enrolled(c: Context, s: Screen)
    reads c`allParents, c.allParents`chain
  {
    s.context == c && s.parent.context == c && s.parent in c.allParents && s in s.parent.chain
  }

  ghost predicate HostEnrolled(c: Context, h: AppHost)
    reads c`allParents, c.allParents`hosts
  {
    h.context == c && h.parent.context == c && h.parent in c.allParents && h in h.parent.hosts
  }

  /** The context's counters are the numbers of live objects, and each of them is in its parent's list. */
  ghost predicate Registry(c: Context)
    reads c`parents, c`screens, c`appHosts, c`allParents, c`allScreens, c`allHosts, c.allParents`chain
    reads c.allParents`hosts
  {
    && c.parents == |c.allParents| && c.screens == |c.allScreens| && c.appHosts == |c.allHosts|
    && (forall s | s in c.allScreens :: Enrolled(c, s))
    && (forall h | h in c.allHosts :: HostEnrolled(c, h))
  }
}
