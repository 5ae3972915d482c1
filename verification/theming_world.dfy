/** The registry together with the delegates that listen to it. A theme
    change runs the registry's fan-out and delivers each callback to the
    delegate it names, in order, threading the shared style cache; a lookup
    exception ends the fan-out there, as a thrown exception would. */
module ThemingWorld {
  import opened Basics
  import opened ListenerList
  import opened ThemeManager
  import opened ViewStyleDelegate

  datatype World = World(registry: Registry, delegates: map<ListenerId, Delegate>)

  /** The world after a step, the `applyStyle` calls it made in order, and
      the exception that ended it, if any. */
  datatype Outcome = Outcome(world: World, applications: seq<Application>, fault: Option<Fault>)

  /** A `setCurrentTheme` call: the world afterwards, the `applyStyle`
      calls it made, and the flag it returned or the exception it threw. */
  datatype ThemeOutcome = ThemeOutcome(world: World, applications: seq<Application>, returned: Result<bool, Fault>)

  /** Every listener is a delegate, filed under its own identity, and none
      is registered twice. */
  predicate Valid(w: World) {
    && Unique(w.registry.listeners)
    && (forall l | l in w.registry.listeners :: l in w.delegates)
    && (forall k | k in w.delegates :: w.delegates[k].self == k)
  }

  /** The views of the delegates among `ls`. */
  function ViewsOf(ds: map<ListenerId, Delegate>, ls: seq<ListenerId>): set<ViewId> {
    set l | l in ls && l in ds && ds[l].view.Some? :: ds[l].view.value.id
  }

  /** Delegates change only in the style they remember. */
  predicate SameDelegates(ds: map<ListenerId, Delegate>, ds': map<ListenerId, Delegate>) {
    ds'.Keys == ds.Keys && forall k | k in ds :: SameIdentity(ds[k], ds'[k])
  }

  /** Delivers callbacks in order; a listener that is not a known delegate is
      skipped. */
  function Deliver(w: World, ns: seq<Notification>): (o: Outcome)
    ensures o.world.registry.theme == w.registry.theme
    ensures o.world.registry.listeners == w.registry.listeners
    ensures SameDelegates(w.delegates, o.world.delegates)
    ensures forall a | a in o.applications :: a.view in ViewsOf(w.delegates, Called(ns))
    ensures |o.applications| <= |ns|
    ensures forall k | k in w.delegates && k !in Called(ns) :: o.world.delegates[k] == w.delegates[k]
    decreases |ns|
  {
    if ns == [] then Outcome(w, [], None)
    else
      var l := ns[0].listener;
      assert Called(ns) == [l] + Called(ns[1..]);
      if l !in w.delegates then Deliver(w, ns[1..])
      else
        var re := OnThemeChanged(w.delegates[l], w.registry);
        var w1 := World(re.registry, w.delegates[l := re.delegate]);
        if re.fault.Some? then Outcome(w1, re.applications, re.fault)
        else
          var rest := Deliver(w1, ns[1..]);
          assert ViewsOf(w1.delegates, Called(ns[1..])) <= ViewsOf(w.delegates, Called(ns));
          Outcome(rest.world, re.applications + rest.applications, rest.fault)
  }

  /** `setCurrentTheme` with its fan-out delivered to the delegates. */
  function SetTheme(w: World, theme: int, onMainThread: bool): (t: ThemeOutcome)
    ensures !onMainThread || theme == w.registry.theme ==>
      t == ThemeOutcome(w, [], Success(false))
    ensures onMainThread && theme != w.registry.theme ==>
      t.world.registry.theme == theme && t.returned != Success(false)
    ensures t.world.registry.listeners == w.registry.listeners
    ensures SameDelegates(w.delegates, t.world.delegates)
    ensures forall a | a in t.applications :: a.view in ViewsOf(w.delegates, w.registry.listeners)
    ensures |t.applications| <= |w.registry.listeners|
  {
    var s := SetCurrentTheme(w.registry, theme, onMainThread);
    if !s.applied then ThemeOutcome(w, [], Success(false))
    else
      var o := Deliver(World(s.registry, w.delegates), s.notifications);
      assert forall l | l in Called(s.notifications) :: l in w.registry.listeners;
      match o.fault
      case None => ThemeOutcome(o.world, o.applications, Success(true))
      case Some(f) => ThemeOutcome(o.world, o.applications, Failure(f))
  }

  /** The host attaches the view of delegate `id`. */
  function Attach(w: World, id: ListenerId): (o: Outcome)
    requires id in w.delegates
    ensures w.delegates[id].styleId == 0 ==> o == Outcome(w, [], None)
    ensures w.delegates[id].styleId != 0 ==>
      o.world.registry.listeners == Register(w.registry.listeners, w.delegates[id].self)
    ensures var re := OnViewAttached(w.delegates[id], w.registry);
            o.applications == re.applications && o.fault == re.fault &&
            o.world.delegates == w.delegates[id := re.delegate]
    ensures o.world.registry.theme == w.registry.theme
    ensures SameDelegates(w.delegates, o.world.delegates)
  {
    var re := OnViewAttached(w.delegates[id], w.registry);
    Outcome(World(re.registry, w.delegates[id := re.delegate]), re.applications, re.fault)
  }

  /** The host detaches the view of delegate `id`. */
  function Detach(w: World, id: ListenerId): (w': World)
    requires id in w.delegates
    ensures w'.delegates == w.delegates
    ensures w.delegates[id].styleId != 0 ==> w.delegates[id].self !in w'.registry.listeners
    ensures w.delegates[id].styleId == 0 ==> w' == w
    ensures w.delegates[id].styleId != 0 ==> w'.registry == UnregisterListener(w.registry, w.delegates[id].self)
  {
    World(OnViewDetached(w.delegates[id], w.registry), w.delegates)
  }

  /** Attaching keeps the world valid. */
  lemma AttachKeepsValid(w: World, id: ListenerId)
    requires Valid(w) && id in w.delegates
    ensures Valid(Attach(w, id).world)
  {
  }

  /** Detaching keeps the world valid. */
  lemma DetachKeepsValid(w: World, id: ListenerId)
    requires Valid(w) && id in w.delegates
    ensures Valid(Detach(w, id))
  {
    UnregisterKeepsUnique(w.registry.listeners, w.delegates[id].self);
  }

  /** A theme change keeps the world valid, even when it ends in an exception. */
  lemma SetThemeKeepsValid(w: World, theme: int, onMainThread: bool)
    requires Valid(w)
    ensures Valid(SetTheme(w, theme, onMainThread).world)
  {
  }

  /** No two delegates style the same view. */
  predicate DistinctViews(w: World) {
    forall j, k | j in w.delegates && k in w.delegates && j != k && w.delegates[j].view.Some? && w.delegates[k].view.Some? ::
      w.delegates[j].view.value.id != w.delegates[k].view.value.id
  }

  /** After its view is detached, a styled view is never styled again by a
      theme change. */
  lemma DetachedViewIsNotStyled(w: World, id: ListenerId, theme: int, onMainThread: bool)
    requires Valid(w) && DistinctViews(w) && id in w.delegates
    requires w.delegates[id].styleId != 0 && w.delegates[id].view.Some?
    ensures var t := SetTheme(Detach(w, id), theme, onMainThread);
            forall a | a in t.applications :: a.view != w.delegates[id].view.value.id
  {
  }

  /** A theme change delivered to a delegate that is not listening leaves
      that delegate untouched. */
  lemma UnlistenedDelegateUntouched(w: World, id: ListenerId, theme: int, onMainThread: bool)
    requires id in w.delegates && id !in w.registry.listeners
    ensures SetTheme(w, theme, onMainThread).world.delegates[id] == w.delegates[id]
  {
  }

  /** The styles applied to view `v`, in call order. */
  function StylesFor(apps: seq<Application>, v: ViewId): (styles: seq<StyleRes>)
    ensures (forall a | a in apps :: a.view != v) ==> styles == []
    ensures |styles| <= |apps|
  {
    if apps == [] then []
    else (if apps[0].view == v then [apps[0].style] else []) + StylesFor(apps[1..], v)
  }

  lemma {:induction false} StylesForAppend(a: seq<Application>, b: seq<Application>, v: ViewId)
    ensures StylesFor(a + b, v) == StylesFor(a, v) + StylesFor(b, v)
    decreases |a|
  {
    if a == [] {
      assert a + b == b;
    } else {
      assert (a + b)[0] == a[0];
      assert (a + b)[1..] == a[1..] + b;
      StylesForAppend(a[1..], b, v);
    }
  }

  /** A live delegate resolves its group in context `c`, and the resource
      table gives a style for it under `theme`. */
  predicate ResolvesIn(d: Delegate, c: Context, theme: int) {
    d.view.Some? ==> d.view.value.context == Some(c) && DirectStyle(c, d.styleId, theme).Success?
  }

  /** After a callback to live delegate `d` (now `d'`): it remembers the style
      the table gives, and its view got exactly that style once if it
      changed, and nothing otherwise. */
  predicate Restyled(d: Delegate, d': Delegate, apps: seq<Application>, c: Context, theme: int)
    requires ResolvesIn(d, c, theme)
  {
    d.view.Some? ==>
      var s := DirectStyle(c, d.styleId, theme).value;
      d'.currentStyle == s && StylesFor(apps, d.view.value.id) == (if s != d.currentStyle then [s] else [])
  }

  /** Delivering to distinct delegates whose groups resolve restyles every
      one of them, and nothing throws. */
  lemma {:induction false} DeliverRestyles(w: World, ns: seq<Notification>, c: Context)
    requires Coherent(w.registry.styles, c) && DistinctViews(w) && Unique(Called(ns))
    requires forall k | k in Called(ns) && k in w.delegates :: ResolvesIn(w.delegates[k], c, w.registry.theme)
    ensures var o := Deliver(w, ns);
            && o.fault.None?
            && forall k | k in Called(ns) && k in w.delegates ::
                 Restyled(w.delegates[k], o.world.delegates[k], o.applications, c, w.registry.theme)
    decreases |ns|
  {
    if ns != [] {
      var theme := w.registry.theme;
      var l := ns[0].listener;
      var tail := Called(ns[1..]);
      assert Called(ns) == [l] + tail;
      UniqueTail(l, tail);
      if l !in w.delegates {
        DeliverRestyles(w, ns[1..], c);
      } else {
        var d := w.delegates[l];
        var re := OnThemeChanged(d, w.registry);
        if d.view.Some? {
          CachedLookupIsDirect(w.registry, c, d.styleId, theme);
        }
        var w1 := World(re.registry, w.delegates[l := re.delegate]);
        assert re.fault.None?;
        assert Coherent(w1.registry.styles, c);
        assert DistinctViews(w1);
        DeliverRestyles(w1, ns[1..], c);
        var rest := Deliver(w1, ns[1..]);
        var o := Deliver(w, ns);
        assert o.applications == re.applications + rest.applications;
        forall k | k in Called(ns) && k in w.delegates
          ensures Restyled(w.delegates[k], o.world.delegates[k], o.applications, c, theme)
        {
          var dk := w.delegates[k];
          if dk.view.Some? {
            var v := dk.view.value.id;
            StylesForAppend(re.applications, rest.applications, v);
            if k == l {
              forall a | a in rest.applications
                ensures a.view != v
              {
                assert a.view in ViewsOf(w1.delegates, tail);
              }
            } else {
              assert k in tail;
            }
          }
        }
      }
    }
  }

  /** A theme change on the main thread restyles every listening delegate
      whose group resolves: each remembers the new theme's style, and its
      view gets that style exactly once if it changed, otherwise not at all. */
  lemma SetThemeRestyles(w: World, theme: int, c: Context)
    requires Valid(w) && DistinctViews(w) && theme != w.registry.theme
    requires Coherent(w.registry.styles, c)
    requires forall k | k in w.registry.listeners :: ResolvesIn(w.delegates[k], c, theme)
    ensures var t := SetTheme(w, theme, true);
            && t.returned == Success(true)
            && t.world.registry.theme == theme
            && forall k | k in w.registry.listeners ::
                 Restyled(w.delegates[k], t.world.delegates[k], t.applications, c, theme)
  {
    var s := SetCurrentTheme(w.registry, theme, true);
    DispatchCallsEachOnce(w.registry.listeners, theme);
    var called := Called(s.notifications);
    assert forall k :: k in called <==> k in multiset(w.registry.listeners);
    DeliverRestyles(World(s.registry, w.delegates), s.notifications, c);
  }

  /** A walk-through: a style group 100 whose themes 0 and 1
      use the light style 201 and the dark style 202, and view 7 styled by
      delegate 1. */
  const LightDarkContext := Context(map[100 := [Some(201), Some(202)]])
  const LightDarkView := View(7, Some(LightDarkContext))

  /** Before: theme 0, nothing cached, the delegate not yet attached. */
  const LightDarkStart := World(Init(), map[1 := NewDelegate(1, LightDarkView, 100)])

  /** After the attach: the delegate listens, the group is cached and the
      light style is remembered. */
  const LightDarkAttached := World(
    Registry(0, [1], map[100 := Some([201, 202])]),
    map[1 := Delegate(1, Some(LightDarkView), 100, 201)])

  /** After the switch to theme 1: the dark style is remembered. */
  const LightDarkSwitched := World(
    Registry(1, [1], map[100 := Some([201, 202])]),
    map[1 := Delegate(1, Some(LightDarkView), 100, 202)])

  /** Attaching registers the delegate, caches the group and applies light. */
  lemma LightDarkAttach()
    ensures Attach(LightDarkStart, 1) == Outcome(LightDarkAttached, [Application(7, 201)], None)
  {
    var reg := RegisterListener(Init(), 1);
    assert reg == Registry(0, [1], map[]);
    assert Materialize([Some(201), Some(202)]) == [201, 202];
    assert GetCurrentStyle(reg, Some(LightDarkContext), 100).value == Success(201);
  }

  /** Switching to theme 1 calls the delegate once, which applies dark. */
  lemma LightDarkSwitch()
    ensures SetTheme(LightDarkAttached, 1, true) == ThemeOutcome(LightDarkSwitched, [Application(7, 202)], Success(true))
  {
    var w := LightDarkAttached;
    var s := SetCurrentTheme(w.registry, 1, true);
    assert s.registry == LightDarkSwitched.registry;
    assert s.notifications == [Notification(1, ThemeChangedEvent(1))];
    var re := OnThemeChanged(w.delegates[1], s.registry);
    assert GetCurrentStyle(s.registry, Some(LightDarkContext), 100) == Lookup(s.registry, false, Success(202));
    assert re == Reaction(LightDarkSwitched.delegates[1], s.registry, [Application(7, 202)], None);
    var w1 := World(re.registry, w.delegates[1 := re.delegate]);
    assert w1 == LightDarkSwitched;
    assert s.notifications[1..] == [];
    assert Deliver(w1, []) == Outcome(w1, [], None);
    assert Deliver(World(s.registry, w.delegates), s.notifications) == Outcome(w1, [Application(7, 202)], None);
  }

  /** After a detach, switching back to theme 0 styles nothing. */
  lemma LightDarkDetachedSwitch()
    ensures var back := SetTheme(Detach(LightDarkSwitched, 1), 0, true);
            back.returned == Success(true) && back.applications == []
  {
  }

  /** The whole walk-through: attach applies light once, switching to theme 1
      applies dark once, and after a detach switching back applies nothing. */
  lemma LightDarkScenario()
    ensures var attached := Attach(LightDarkStart, 1);
            var switched := SetTheme(attached.world, 1, true);
            var back := SetTheme(Detach(switched.world, 1), 0, true);
            && attached.applications == [Application(7, 201)]
            && switched.returned == Success(true) && switched.applications == [Application(7, 202)]
            && switched.world.registry.theme == 1
            && back.returned == Success(true) && back.applications == []
  {
    LightDarkAttach();
    LightDarkSwitch();
    LightDarkDetachedSwitch();
  }
}
