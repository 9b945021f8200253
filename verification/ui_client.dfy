/** A consumer of the toolkit over any sequence of its calls: several parents, screens and app hosts at once, and
    nothing that still stands refers to something freed. */
module UiClient {
  import opened Ui
  import UiLifetime
  import opened UiScreens
  import opened UiClose

  /** A parent that has not been freed; its counters are the lengths of its lists. */
  ghost predicate Stands(c: Context, p: Parent)
    reads p`alive, p`screenHead, p`chain, p`screens, p`appHosts, p`hosts, p.chain`parentNext
  {
    && p.context == c && p.alive && p.screens == |p.chain| && p.appHosts == |p.hosts| && Linked(p)
    && forall h | h in p.hosts :: h.parent == p
  }

  /** All that parents have in their lists. */
  ghost function Chains(parents: set<Parent>): (all: set<Screen>)
    reads parents`chain
    ensures forall p, s | p in parents && s in p.chain :: s in all
    ensures forall s | s in all :: exists p | p in parents :: s in p.chain
  {
    set p, s | p in parents && s in p.chain :: s
  }

  ghost function Hosts(parents: set<Parent>): (all: set<AppHost>)
    reads parents`hosts
    ensures forall p, h | p in parents && h in p.hosts :: h in all
    ensures forall h | h in all :: exists p | p in parents :: h in p.hosts
  {
    set p, h | p in parents && h in p.hosts :: h
  }

  ghost predicate AllStand(c: Context, parents: set<Parent>)
    reads parents`alive, parents`screenHead, parents`chain, parents`screens, parents`appHosts, parents`hosts
    reads Chains(parents)`parentNext
  {
    forall p | p in parents :: Stands(c, p)
  }

  /** A screen that has not been freed. */
  ghost predicate Shows(s: Screen)
    reads s`alive, s`widgets, s`closing, s.widgets`destroyed, s.widgets`live, s.widgets`attached
    reads s.widgets`modelAttached, s.widgets`dragEnabled, s.widgets`listenerAttached
  {
    s.alive && Owns(s) && Safe(s)
  }

  ghost function Widgets(screens: set<Screen>): (all: set<Widget>)
    reads screens`widgets
    ensures forall s, w | s in screens && w in s.widgets :: w in all
  {
    set s, w | s in screens && w in s.widgets :: w
  }

  ghost predicate AllShow(screens: set<Screen>)
    reads screens`alive, screens`widgets, screens`closing, Widgets(screens)`destroyed, Widgets(screens)`live
    reads Widgets(screens)`attached, Widgets(screens)`modelAttached, Widgets(screens)`dragEnabled
    reads Widgets(screens)`listenerAttached
  {
    forall s | s in screens :: Shows(s)
  }

  /** Everything registered with the context stands, and is counted and linked where it belongs; whatever is in a
      parent's lists is registered. */
  ghost predicate Sound(c: Context)
    reads *
  {
    && Registry(c) && AllStand(c, c.allParents) && AllShow(c.allScreens)
    && Chains(c.allParents) <= c.allScreens && Hosts(c.allParents) <= c.allHosts
  }

  /** One parent against the others. */
  lemma Part(c: Context, p: Parent, others: set<Parent>)
    requires Sound(c) && p in c.allParents && others == c.allParents - {p}
    ensures p.context == c && p.alive && Kept(p) && AllStand(c, others)
    ensures Chains(others) <= c.allScreens && Hosts(others) <= c.allHosts
    ensures forall s | s in p.chain :: s !in Chains(others)
    ensures forall h | h in p.hosts :: h !in Hosts(others)
  {
    assert Stands(c, p);
    assert forall q | q in others :: Stands(c, q);
  }

  /** One screen against the others. */
  lemma PartScreen(c: Context, s: Screen, rest: set<Screen>)
    requires Sound(c) && s in c.allScreens && rest == c.allScreens - {s}
    ensures AllShow(rest) && Shows(s) && s.context == c && s.parent in c.allParents
    ensures s in s.parent.chain && forall w | w in s.widgets :: w !in Widgets(rest)
  {
    assert Shows(s) && Enrolled(c, s);
    forall t, w | t in rest && w in t.widgets
      ensures w !in s.widgets
    {
      assert Shows(t);
    }
  }

  /** What was set apart comes back, with what is new. */
  lemma Rejoin(c: Context, p: Parent, others: set<Parent>, rest: set<Screen>)
    requires Registry(c) && c.allParents <= others + {p} && AllStand(c, others)
    requires Chains(others) <= c.allScreens && Hosts(others) <= c.allHosts
    requires p in c.allParents ==> p.context == c && p.alive && Kept(p)
    requires AllShow(rest) && forall s | s in c.allScreens :: s in rest || Shows(s)
    ensures Sound(c)
  {
  }

  lemma NewShows(s: Screen)
    requires s.alive && s.widgets == []
    ensures Shows(s)
  {
  }

  method AddParent(c: Context, hasFocus: bool) returns (p: Parent?)
    requires Sound(c)
    modifies c.host`calls, c`error, c`parents, c`allParents
    ensures Sound(c)
    ensures if p == null then c.allParents == old(c.allParents)
            else fresh(p) && p.context == c && p.alive && c.allParents == old(c.allParents) + {p}
  {
    ghost var parents := c.allParents;
    p := UiLifetime.ParentCreate(c, hasFocus);
    assert AllShow(c.allScreens) && AllStand(c, parents);
    if p != null { Rejoin(c, p, parents, c.allScreens); }
  }

  /** Each call leaves the other parents as they are. */
  method DestroyBeside(c: Context, p: Parent, ghost others: set<Parent>)
    requires Registry(c) && p.context == c && p.alive && Kept(p) && p in c.allParents && AllStand(c, others) &&
             p !in others
    modifies c.host`calls, c`error, c`parents, c`allParents, p`alive
    ensures Registry(c) && AllStand(c, others) && (p.alive ==> Kept(p))
    ensures Chains(others) == old(Chains(others)) && Hosts(others) == old(Hosts(others))
    ensures c.allParents == if p.alive then old(c.allParents) else old(c.allParents) - {p}
    ensures !p.alive <==> old(p.chain) == [] && old(p.hosts) == {}
  {
    var ok := UiLifetime.ParentDestroy(p);
  }

  method FreeParent(c: Context, p: Parent)
    requires Sound(c) && p in c.allParents
    modifies c.host`calls, c`error, c`parents, c`allParents, p`alive
    ensures Sound(c) && c.allParents == if p.alive then old(c.allParents) else old(c.allParents) - {p}
    ensures !p.alive <==> old(p.chain) == [] && old(p.hosts) == {}
  {
    ghost var others := c.allParents - {p};
    Part(c, p, others);
    DestroyBeside(c, p, others);
    Rejoin(c, p, others, c.allScreens);
  }

  method CreateAmong(c: Context, p: Parent, ghost rest: set<Screen>) returns (s: Screen?)
    requires Registry(c) && p.context == c && Kept(p) && p in c.allParents && AllShow(rest)
    modifies c.host`calls, c`error, c`screens, c`allScreens, p`screenHead, p`chain, p`screens
    ensures Registry(c) && Kept(p) && AllShow(rest)
    ensures c.allScreens == if s == null then old(c.allScreens) else old(c.allScreens) + {s}
    ensures s != null ==> s.alive && s.widgets == []
  {
    s := UiLifetime.ScreenCreate(c, p);
  }

  method CreateBeside(c: Context, p: Parent, ghost others: set<Parent>, ghost rest: set<Screen>) returns (s: Screen?)
    requires Registry(c) && p.context == c && Kept(p) && p in c.allParents && AllShow(rest)
    requires AllStand(c, others) && p !in others
    modifies c.host`calls, c`error, c`screens, c`allScreens, p`screenHead, p`chain, p`screens
    ensures Registry(c) && Kept(p) && AllStand(c, others) && AllShow(rest)
    ensures Chains(others) == old(Chains(others)) && Hosts(others) == old(Hosts(others))
    ensures c.allScreens == if s == null then old(c.allScreens) else old(c.allScreens) + {s}
    ensures s != null ==> s.alive && s.widgets == []
  {
    s := CreateAmong(c, p, rest);
  }

  method AddScreen(c: Context, p: Parent) returns (s: Screen?)
    requires Sound(c) && p in c.allParents
    modifies c.host`calls, c`error, c`screens, c`allScreens, p`screenHead, p`chain, p`screens
    ensures Sound(c) && c.allScreens == if s == null then old(c.allScreens) else old(c.allScreens) + {s}
    ensures s != null ==> s.alive
  {
    ghost var others, screens := c.allParents - {p}, c.allScreens;
    Part(c, p, others);
    s := CreateBeside(c, p, others, screens);
    if s != null { NewShows(s); }
    Rejoin(c, p, others, screens);
  }

  /** Closing a screen leaves the other screens as they are, */
  method CloseAmong(s: Screen, ghost rest: set<Screen>)
    requires Closable(s) && s.alive && AllShow(rest) && s !in rest && forall w | w in s.widgets :: w !in Widgets(rest)
    modifies s.context`screens, s.context`allScreens, s.parent`screens, s.parent`screenHead, s.parent`chain
    modifies s.parent.chain`parentNext
    modifies s.context.host`calls, s.context`error, s`alive, s`closing, s`visible, s.widgets
    ensures Registry(s.context) && Kept(s.parent) && AllShow(rest) && (s.alive ==> Shows(s))
    ensures s.context.allScreens == if s.alive then old(s.context.allScreens) else old(s.context.allScreens) - {s}
  {
    var ok := Close(s);
  }

  /** and the other parents. */
  method CloseBeside(c: Context, s: Screen, ghost others: set<Parent>, ghost rest: set<Screen>)
    requires Closable(s) && s.alive && c == s.context && AllStand(c, others) && AllShow(rest)
    requires s.parent !in others && s !in rest
    requires forall t | t in s.parent.chain :: t !in Chains(others)
    requires forall w | w in s.widgets :: w !in Widgets(rest)
    modifies c`screens, c`allScreens, s.parent`screens, s.parent`screenHead, s.parent`chain, s.parent.chain`parentNext
    modifies c.host`calls, c`error, s`alive, s`closing, s`visible, s.widgets
    ensures Registry(c) && Kept(s.parent) && AllStand(c, others) && AllShow(rest)
    ensures Chains(others) == old(Chains(others)) && Hosts(others) == old(Hosts(others))
    ensures c.allScreens == if s.alive then old(c.allScreens) else old(c.allScreens) - {s}
    ensures s.alive ==> Shows(s)
  {
    CloseAmong(s, rest);
  }

  method CloseScreen(c: Context, s: Screen)
    requires Sound(c) && s in c.allScreens
    modifies c`screens, c`allScreens, s.parent`screens, s.parent`screenHead, s.parent`chain, s.parent.chain`parentNext
    modifies c.host`calls, c`error, s`alive, s`closing, s`visible, s.widgets
    ensures Sound(c) && c.allScreens == if s.alive then old(c.allScreens) else old(c.allScreens) - {s}
  {
    ghost var others, rest := c.allParents - {s.parent}, c.allScreens - {s};
    PartScreen(c, s, rest);
    Part(c, s.parent, others);
    ghost var theirs := Chains(others);
    assert s !in theirs;
    CloseBeside(c, s, others, rest);
    assert Chains(others) == theirs && theirs <= c.allScreens;
    Rejoin(c, s.parent, others, rest);
  }

  method HostBeside(c: Context, p: Parent, ghost others: set<Parent>) returns (h: AppHost?)
    requires Registry(c) && p.context == c && p.alive && Kept(p) && p in c.allParents && AllStand(c, others) &&
             p !in others
    modifies c.host`calls, c`error, c`appHosts, c`allHosts, p`appHosts, p`hosts
    ensures Registry(c) && Kept(p) && AllStand(c, others)
    ensures Chains(others) == old(Chains(others)) && Hosts(others) == old(Hosts(others))
    ensures if h == null then c.allHosts == old(c.allHosts)
            else fresh(h) && h.context == c && h.alive && c.allHosts == old(c.allHosts) + {h}
  {
    h := UiLifetime.HostCreate(c, p);
  }

  method AddHost(c: Context, p: Parent) returns (h: AppHost?)
    requires Sound(c) && p in c.allParents
    modifies c.host`calls, c`error, c`appHosts, c`allHosts, p`appHosts, p`hosts
    ensures Sound(c)
    ensures if h == null then c.allHosts == old(c.allHosts)
            else fresh(h) && h.context == c && h.alive && c.allHosts == old(c.allHosts) + {h}
  {
    ghost var others := c.allParents - {p};
    Part(c, p, others);
    h := HostBeside(c, p, others);
    Rejoin(c, p, others, c.allScreens);
  }

  method FreeBeside(c: Context, h: AppHost, ghost others: set<Parent>)
    requires Registry(c) && Kept(h.parent) && AllStand(c, others) && h.parent !in others
    requires h in c.allHosts && h.context == c && !h.isOpen
    modifies c.host`calls, c`error, c`appHosts, c`allHosts, h.parent`appHosts, h.parent`hosts, h`registered, h`alive
    ensures Registry(c) && Kept(h.parent) && AllStand(c, others)
    ensures Chains(others) == old(Chains(others)) && Hosts(others) == old(Hosts(others))
    ensures !h.alive && c.allHosts == old(c.allHosts) - {h}
  {
    var ok := UiLifetime.HostFree(h);
  }

  method FreeHost(c: Context, h: AppHost)
    requires Sound(c) && h in c.allHosts && !h.isOpen
    modifies c.host`calls, c`error, c`appHosts, c`allHosts, h.parent`appHosts, h.parent`hosts, h`registered, h`alive
    ensures Sound(c) && !h.alive && c.allHosts == old(c.allHosts) - {h}
  {
    ghost var p, others := h.parent, c.allParents - {h.parent};
    assert HostEnrolled(c, h);
    Part(c, p, others);
    FreeBeside(c, h, others);
    Rejoin(c, p, others, c.allScreens);
  }

  lemma RejoinScreen(c: Context, s: Screen, rest: set<Screen>)
    requires Registry(c) && AllStand(c, c.allParents)
    requires Chains(c.allParents) <= c.allScreens && Hosts(c.allParents) <= c.allHosts
    requires AllShow(rest) && c.allScreens <= rest + {s} && Shows(s)
    ensures Sound(c)
  {
  }

  method AddWidget(c: Context, s: Screen, kind: Kind)
    requires Sound(c) && s in c.allScreens
    modifies s`widgets, c.host`calls, c`error
    ensures Sound(c) && forall w | w in s.widgets :: w in old(s.widgets) || fresh(w)
  {
    ghost var rest := c.allScreens - {s};
    PartScreen(c, s, rest);
    AddOn(s, kind, rest);
    RejoinScreen(c, s, rest);
  }

  method AddOn(s: Screen, kind: Kind, ghost rest: set<Screen>)
    requires Shows(s) && AllShow(rest) && s !in rest
    modifies s`widgets, s.context.host`calls, s.context`error
    ensures Shows(s) && AllShow(rest) && forall w | w in s.widgets :: w in old(s.widgets) || fresh(w)
  {
    var w := UiLifetime.WidgetCreate(s, kind);
  }

  method PlaceWidget(c: Context, s: Screen, i: nat, inside: bool)
    requires Sound(c) && s in c.allScreens
    modifies s.widgets, c.host`calls, c`error
    ensures Sound(c)
  {
    ghost var rest := c.allScreens - {s};
    PartScreen(c, s, rest);
    PlaceOn(s, i, inside, rest);
    RejoinScreen(c, s, rest);
  }

  method PlaceOn(s: Screen, i: nat, inside: bool, ghost rest: set<Screen>)
    requires Shows(s) && AllShow(rest) && forall w | w in s.widgets :: w !in Widgets(rest)
    modifies s.widgets, s.context.host`calls, s.context`error
    ensures Shows(s) && AllShow(rest)
  {
    if i < |s.widgets| && !s.widgets[i].destroyed {
      var ok := Place(s.widgets[i], inside);
    }
  }

  method ShowBeside(s: Screen, ghost parents: set<Parent>, ghost screens: set<Screen>)
    requires Owns(s) && AllStand(s.context, parents) && AllShow(screens)
    modifies s.context.host`calls, s.widgets`visible, s.context`error, s`visible
    ensures AllStand(s.context, parents) && AllShow(screens)
  {
    var ok := Show(s);
  }

  method HideBeside(s: Screen, ghost parents: set<Parent>, ghost screens: set<Screen>)
    requires Owns(s) && AllStand(s.context, parents) && AllShow(screens)
    modifies s.context.host`calls, s.widgets`visible, s.context`error, s`visible
    ensures AllStand(s.context, parents) && AllShow(screens)
  {
    var ok := Hide(s);
  }

  /** Shown or hidden, whatever comes of it. */
  method ShowScreen(c: Context, s: Screen)
    requires Sound(c) && s in c.allScreens
    modifies c.host`calls, s.widgets`visible, c`error, s`visible
    ensures Sound(c)
  {
    PartScreen(c, s, c.allScreens - {s});
    ShowBeside(s, c.allParents, c.allScreens);
  }

  method HideScreen(c: Context, s: Screen)
    requires Sound(c) && s in c.allScreens
    modifies c.host`calls, s.widgets`visible, c`error, s`visible
    ensures Sound(c)
  {
    PartScreen(c, s, c.allScreens - {s});
    HideBeside(s, c.allParents, c.allScreens);
  }

  /** The host delivers a click, a selection or a slider event. */
  method Tap(c: Context, s: Screen, i: nat, accepts: bool, throws: bool)
    requires Sound(c) && s in c.allScreens
    modifies s`delivered, c`callbackDepth, c`error
    ensures Sound(c)
  {
    PartScreen(c, s, c.allScreens - {s});
    if i < |s.widgets| { var delivered := Deliver(s.widgets[i], accepts, throws); }
  }

  /** The consumer of an app host is opened or closed; how is module UiApp. */
  method SetOpen(c: Context, h: AppHost, isOpen: bool)
    requires Sound(c) && h in c.allHosts
    modifies h`isOpen
    ensures Sound(c)
  {
    h.isOpen := isOpen;
  }

  /** A call of the consumer, on what it was given so far. */
  datatype Call =
    | NewParent(hasFocus: bool) | EndParent(parent: nat)
    | NewScreen(parent: nat) | EndScreen(screen: nat)
    | NewHost(parent: nat) | EndHost(host: nat)
    | NewWidget(screen: nat, kind: Kind) | SetWidget(screen: nat, widget: nat, inside: bool)
    | ShowOrHide(screen: nat, shown: bool) | Taps(screen: nat, widget: nat, accepts: bool, throws: bool)
    | SetHost(host: nat, isOpen: bool) | EndContext

  /** What the consumer has been given. */
  datatype Held = Held(parents: seq<Parent>, screens: seq<Screen>, hosts: seq<AppHost>)

  ghost predicate KnowsParents(c: Context, parents: seq<Parent>)
    reads parents`alive, c`allParents
  {
    (forall p | p in c.allParents :: p in parents && p.alive) && forall p | p in parents && p.alive :: p in c.allParents
  }

  ghost predicate KnowsScreens(c: Context, screens: seq<Screen>)
    reads screens`alive, c`allScreens
  {
    (forall s | s in c.allScreens :: s in screens && s.alive) && forall s | s in screens && s.alive :: s in c.allScreens
  }

  ghost predicate KnowsHosts(c: Context, hosts: seq<AppHost>)
    reads hosts`alive, c`allHosts
  {
    (forall h | h in c.allHosts :: h in hosts && h.alive) && forall h | h in hosts && h.alive :: h in c.allHosts
  }

  ghost predicate Knows(c: Context, held: Held)
    reads held.parents`alive, held.screens`alive, held.hosts`alive, c`allParents, c`allScreens, c`allHosts
  {
    KnowsParents(c, held.parents) && KnowsScreens(c, held.screens) && KnowsHosts(c, held.hosts)
  }

  method DoNewParent(c: Context, parents: seq<Parent>, hasFocus: bool) returns (more: seq<Parent>)
    requires Sound(c) && KnowsParents(c, parents)
    modifies c.host`calls, c`error, c`parents, c`allParents
    ensures Sound(c) && KnowsParents(c, more)
  {
    more := parents;
    var p := AddParent(c, hasFocus);
    if p != null { more := parents + [p]; }
  }

  method DoEndParent(c: Context, parents: seq<Parent>, p: Parent)
    requires Sound(c) && KnowsParents(c, parents) && p in c.allParents
    modifies c.host`calls, c`error, c`parents, c`allParents, p`alive
    ensures Sound(c) && KnowsParents(c, parents)
  {
    FreeParent(c, p);
  }

  method DoNewScreen(c: Context, p: Parent, screens: seq<Screen>) returns (more: seq<Screen>)
    requires Sound(c) && p in c.allParents && KnowsScreens(c, screens)
    modifies c.host`calls, c`error, c`screens, c`allScreens, p`screenHead, p`chain, p`screens
    ensures Sound(c) && KnowsScreens(c, more)
  {
    more := screens;
    var s := AddScreen(c, p);
    if s != null { more := screens + [s]; }
  }

  method DoEndScreen(c: Context, screens: seq<Screen>, s: Screen)
    requires Sound(c) && KnowsScreens(c, screens) && s in c.allScreens
    modifies c`screens, c`allScreens, s.parent`screens, s.parent`screenHead, s.parent`chain, s.parent.chain`parentNext
    modifies c.host`calls, c`error, s`alive, s`closing, s`visible, s.widgets
    ensures Sound(c) && KnowsScreens(c, screens)
  {
    CloseScreen(c, s);
  }

  method DoNewHost(c: Context, p: Parent, hosts: seq<AppHost>) returns (more: seq<AppHost>)
    requires Sound(c) && p in c.allParents && KnowsHosts(c, hosts)
    modifies c.host`calls, c`error, c`appHosts, c`allHosts, p`appHosts, p`hosts
    ensures Sound(c) && KnowsHosts(c, more)
  {
    more := hosts;
    var h := AddHost(c, p);
    if h != null { more := hosts + [h]; }
  }

  /** A host whose consumer is closed. */
  method DoEndHost(c: Context, hosts: seq<AppHost>, h: AppHost)
    requires Sound(c) && KnowsHosts(c, hosts) && h in c.allHosts && !h.isOpen
    modifies c.host`calls, c`error, c`appHosts, c`allHosts, h.parent`appHosts, h.parent`hosts, h`registered, h`alive
    ensures Sound(c) && KnowsHosts(c, hosts)
  {
    FreeHost(c, h);
  }

  /** Everything made in a context: all that a call can change. */
  ghost predicate Belongs(c: Context, o: object) {
    || o == c || o == c.host
    || (o is Parent && (o as Parent).context == c)
    || (o is Screen && (o as Screen).context == c)
    || (o is Widget && (o as Widget).screen.context == c)
    || (o is AppHost && (o as AppHost).context == c)
  }

  lemma ItsOwn(c: Context, s: Screen)
    requires Sound(c) && s in c.allScreens
    ensures s.context == c && s.parent.context == c && forall w | w in s.widgets :: w.screen == s
    ensures forall k | 0 <= k < |s.parent.chain| :: s.parent.chain[k].context == c
  {
    assert Enrolled(c, s);
    forall k | 0 <= k < |s.parent.chain|
      ensures s.parent.chain[k].context == c
    {
      assert s.parent.chain[k] in Chains(c.allParents) && Enrolled(c, s.parent.chain[k]);
    }
  }

  method OnParents(c: Context, held: Held, call: Call) returns (next: Held)
    requires Sound(c) && Knows(c, held) && (call.NewParent? || call.EndParent?)
    modifies iset o: object | Belongs(c, o)
    ensures Sound(c) && Knows(c, next) && c.alive == old(c.alive)
  {
    next := held;
    match call {
      case NewParent(hasFocus) =>
        var parents := DoNewParent(c, held.parents, hasFocus);
        next := held.(parents := parents);
      case EndParent(i) =>
        if i < |held.parents| && held.parents[i].alive { DoEndParent(c, held.parents, held.parents[i]); }
    }
  }

  method OnNewScreen(c: Context, held: Held, i: nat) returns (next: Held)
    requires Sound(c) && Knows(c, held)
    modifies iset o: object | Belongs(c, o)
    ensures Sound(c) && Knows(c, next) && c.alive == old(c.alive)
  {
    next := held;
    if i < |held.parents| && held.parents[i].alive {
      var screens := DoNewScreen(c, held.parents[i], held.screens);
      next := held.(screens := screens);
    }
  }

  method EndScreenOf(c: Context, held: Held, s: Screen)
    requires Sound(c) && Knows(c, held) && s in c.allScreens
    modifies c`screens, c`allScreens, s.parent`screens, s.parent`screenHead, s.parent`chain, s.parent.chain`parentNext
    modifies c.host`calls, c`error, s`alive, s`closing, s`visible, s.widgets
    ensures Sound(c) && Knows(c, held)
  {
    DoEndScreen(c, held.screens, s);
  }

  method OnEndScreen(c: Context, held: Held, i: nat)
    requires Sound(c) && Knows(c, held)
    modifies iset o: object | Belongs(c, o)
    ensures Sound(c) && Knows(c, held) && c.alive == old(c.alive)
  {
    if i < |held.screens| && held.screens[i].alive {
      ItsOwn(c, held.screens[i]);
      EndScreenOf(c, held, held.screens[i]);
    }
  }

  method OnHosts(c: Context, held: Held, call: Call) returns (next: Held)
    requires Sound(c) && Knows(c, held) && (call.NewHost? || call.EndHost?)
    modifies iset o: object | Belongs(c, o)
    ensures Sound(c) && Knows(c, next) && c.alive == old(c.alive)
  {
    next := held;
    match call {
      case NewHost(i) =>
        if i < |held.parents| && held.parents[i].alive {
          var hosts := DoNewHost(c, held.parents[i], held.hosts);
          next := held.(hosts := hosts);
        }
      case EndHost(i) =>
        if i < |held.hosts| && held.hosts[i].alive && !held.hosts[i].isOpen { DoEndHost(c, held.hosts, held.hosts[i]); }
    }
  }

  method OnWidgets(c: Context, held: Held, call: Call)
    requires Sound(c) && Knows(c, held) && (call.NewWidget? || call.SetWidget?)
    modifies iset o: object | Belongs(c, o)
    ensures Sound(c) && Knows(c, held) && c.alive == old(c.alive)
  {
    if call.screen < |held.screens| && held.screens[call.screen].alive {
      var s := held.screens[call.screen];
      ItsOwn(c, s);
      match call {
        case NewWidget(_, kind) => AddWidget(c, s, kind);
        case SetWidget(_, k, inside) => PlaceWidget(c, s, k, inside);
      }
    }
  }

  method OnShow(c: Context, held: Held, i: nat, shown: bool)
    requires Sound(c) && Knows(c, held)
    modifies iset o: object | Belongs(c, o)
    ensures Sound(c) && Knows(c, held) && c.alive == old(c.alive)
  {
    if i < |held.screens| && held.screens[i].alive {
      ItsOwn(c, held.screens[i]);
      if shown { ShowScreen(c, held.screens[i]); } else { HideScreen(c, held.screens[i]); }
    }
  }

  method OnTap(c: Context, held: Held, i: nat, k: nat, accepts: bool, throws: bool)
    requires Sound(c) && Knows(c, held)
    modifies iset o: object | Belongs(c, o)
    ensures Sound(c) && Knows(c, held) && c.alive == old(c.alive)
  {
    if i < |held.screens| && held.screens[i].alive {
      ItsOwn(c, held.screens[i]);
      Tap(c, held.screens[i], k, accepts, throws);
    }
  }

  method OnSetHost(c: Context, held: Held, i: nat, isOpen: bool)
    requires Sound(c) && Knows(c, held)
    modifies iset o: object | Belongs(c, o)
    ensures Sound(c) && Knows(c, held) && c.alive == old(c.alive)
  {
    if i < |held.hosts| && held.hosts[i].alive {
      assert HostEnrolled(c, held.hosts[i]);
      SetOpen(c, held.hosts[i], isOpen);
    }
  }

  /** A context is gone only when nothing made in it is left. */
  ghost predicate Ended(c: Context)
    reads c`alive, c`allParents, c`allScreens, c`allHosts
  {
    !c.alive ==> c.allParents == {} && c.allScreens == {} && c.allHosts == {}
  }

  method OnContext(c: Context, held: Held)
    requires Sound(c) && Knows(c, held) && c.alive
    modifies iset o: object | Belongs(c, o)
    ensures Sound(c) && Knows(c, held) && Ended(c)
  {
    var ok := UiLifetime.ContextDestroy(c);
  }

  method Perform(c: Context, held: Held, call: Call) returns (next: Held)
    requires Sound(c) && Knows(c, held) && c.alive
    modifies iset o: object | Belongs(c, o)
    ensures Sound(c) && Knows(c, next) && Ended(c) && (!c.alive ==> call == EndContext)
  {
    next := held;
    match call {
      case NewParent(_) => next := OnParents(c, held, call);
      case EndParent(_) => next := OnParents(c, held, call);
      case NewScreen(i) => next := OnNewScreen(c, held, i);
      case EndScreen(i) => OnEndScreen(c, held, i);
      case NewHost(_) => next := OnHosts(c, held, call);
      case EndHost(_) => next := OnHosts(c, held, call);
      case SetHost(i, isOpen) => OnSetHost(c, held, i, isOpen);
      case NewWidget(_, _) => OnWidgets(c, held, call);
      case SetWidget(_, _, _) => OnWidgets(c, held, call);
      case ShowOrHide(i, shown) => OnShow(c, held, i, shown);
      case Taps(i, k, accepts, throws) => OnTap(c, held, i, k, accepts, throws);
      case EndContext => OnContext(c, held);
    }
  }

  /** Any sequence of calls, over any number of parents at once, from a context nothing has been made in; a context
      that is gone takes none. */
  method Run(c: Context, calls: seq<Call>) returns (held: Held)
    requires c.alive
    requires c.parents == c.screens == c.appHosts == 0 && c.allParents == {} && c.allScreens == {} && c.allHosts == {}
    modifies iset o: object | Belongs(c, o)
    ensures Sound(c) && Knows(c, held) && Ended(c)
  {
    held := Held([], [], []);
    var k := 0;
    while k < |calls| && c.alive
      invariant Sound(c) && Knows(c, held) && Ended(c)
    {
      held := Perform(c, held, calls[k]);
      k := k + 1;
    }
  }

  lemma {:induction false} Length(chain: seq<Screen>)
    requires forall i, j | 0 <= i < j < |chain| :: chain[i] != chain[j]
    ensures |set s | s in chain| == |chain|
  {
    if chain != [] {
      Length(chain[1..]);
      assert (set s | s in chain) == {chain[0]} + set s | s in chain[1..];
    }
  }

  /** What order means: whatever has not been freed refers only to what has not been freed, and a parent's counters
      are the numbers of screens and app hosts that refer to it. */
  lemma NothingDangles(c: Context, held: Held)
    requires Sound(c) && Knows(c, held) && Ended(c)
    ensures !c.alive ==> forall p | p in held.parents :: !p.alive
    ensures !c.alive ==> (forall s | s in held.screens :: !s.alive) && forall h | h in held.hosts :: !h.alive
    ensures forall s | s in held.screens && s.alive :: s.parent.alive && s.parent in held.parents
    ensures forall h | h in held.hosts && h.alive :: h.parent.alive && h.parent in held.parents
    ensures forall p | p in held.parents && p.alive ::
            p.screens == |set s | s in held.screens && s.alive && s.parent == p|
    ensures forall p | p in held.parents && p.alive ::
            p.appHosts == |set h | h in held.hosts && h.alive && h.parent == p|
    ensures forall s, w | s in held.screens && s.alive && w in s.widgets && w.destroyed :: Disconnected(w)
  {
    forall p | p in held.parents && p.alive
      ensures p.screens == |set s | s in held.screens && s.alive && s.parent == p|
      ensures p.appHosts == |set h | h in held.hosts && h.alive && h.parent == p|
    {
      assert Stands(c, p);
      Length(p.chain);
      assert forall s | s in p.chain :: s in Chains(c.allParents);
      assert forall s | s in held.screens && s.alive :: Enrolled(c, s);
      assert (set s | s in held.screens && s.alive && s.parent == p) == set s | s in p.chain;
      assert forall h | h in p.hosts :: h in Hosts(c.allParents);
      assert forall h | h in held.hosts && h.alive :: HostEnrolled(c, h);
      assert (set h | h in held.hosts && h.alive && h.parent == p) == p.hosts;
    }
  }

  /** With a host that takes every call: a screen, */
  method OneScreen(host: Host) returns (s: Screen)
    requires forall n :: host.answers(n)
    modifies host`calls
    ensures fresh(s) && fresh(s.context) && fresh(s.parent) && s.context.host == host
    ensures s.widgets == [] && s.parent.chain == [s] && !s.closing && s.context.callbackDepth == 0 && s.alive
    ensures Registry(s.context) && Kept(s.parent) && s in s.context.allScreens
  {
    var c := new Context(host);
    var p := UiLifetime.ParentCreate(c, true);
    s := UiLifetime.ScreenCreate(c, p);
  }

  /** and a list on it. */
  method OneList(host: Host) returns (w: Widget)
    requires forall n :: host.answers(n)
    modifies host`calls
    ensures fresh(w) && fresh(w.screen) && fresh(w.screen.context) && fresh(w.screen.parent)
    ensures w.screen.context.host == host && w.screen.widgets == [w] && w.screen.parent.chain == [w.screen]
    ensures w.live && !w.screen.closing && w.screen.context.callbackDepth == 0 && w.screen.alive
    ensures Closable(w.screen)
  {
    var s := OneScreen(host);
    w := UiLifetime.WidgetCreate(s, List);
    assert UiLifetime.Spot([], List) == 0 && s.widgets == [w];
    assert w in s.widgets;
  }

  /** A list whose owner closes the screen when it is asked for the text of a row: with a host that takes every call,
      the list is destroyed before the painting reads it again. */
  method ClosedWhilePainting(host: Host) returns (stale: bool)
    requires forall n :: host.answers(n)
    modifies host`calls
    ensures stale
  {
    var w := OneList(host);
    var asked;
    assert LetsGo(w.screen, host.calls);
    asked, stale := Paint(w, true, true, Text);
  }
}
