/** The process-wide theme registry: the current theme index, the listener
    list, and a lazily filled cache from style-group id to the per-theme list
    of style resources. The singleton is modelled as an explicit `Registry`
    value threaded through pure transition functions. */
module ThemeManager {
  import opened Basics
  import opened ListenerList

  /** A style resource id; 0 is the "no style" sentinel. */
  type StyleRes = int

  /** The sentinel for a style that could not be resolved. */
  const STYLE_UNDEFINED: StyleRes := 0

  /** What the host resource system knows: for each array resource id, its
      entries, each of which is a resource reference or not. */
  datatype Context = Context(arrays: map<int, seq<Option<StyleRes>>>)

  /** The runtime exceptions the lookup path can raise. */
  datatype Fault =
    | ResourceNotFound(resId: int)
    | ArrayIndexOutOfBounds(index: int, length: nat)

  datatype ThemeChangedEvent = ThemeChangedEvent(theme: int)

  /** One callback of one listener during a dispatch. */
  datatype Notification = Notification(listener: ListenerId, event: ThemeChangedEvent)

  datatype Registry = Registry(
    theme: int,
    listeners: seq<ListenerId>,
    styles: map<int, Option<seq<StyleRes>>>)

  /** A style lookup: the registry afterwards, whether `LoadStyleList` was
      called (a cache miss), and the value or the exception. */
  datatype Lookup<+T> = Lookup(registry: Registry, loaded: bool, value: Result<T, Fault>)

  /** A call of `setCurrentTheme`: the registry afterwards, the returned flag
      and the listener callbacks it fans out, in order. */
  datatype SetResult = SetResult(registry: Registry, applied: bool, notifications: seq<Notification>)

  /** A freshly constructed registry. */
  function Init(): (r: Registry)
    ensures r.theme == 0 && r.listeners == [] && r.styles == map[]
  {
    Registry(0, [], map[])
  }

  /** The cached list of a style group; a missing entry and a cached null
      read alike. */
  function Cached(styles: map<int, Option<seq<StyleRes>>>, styleId: int): Option<seq<StyleRes>> {
    if styleId in styles then styles[styleId] else None
  }

  /** The list a style-group array resolves to: each entry is its resource
      reference, or 0 when the entry is not a reference. */
  function Materialize(entries: seq<Option<StyleRes>>): (list: seq<StyleRes>)
    ensures |list| == |entries|
    ensures forall i | 0 <= i < |entries| ::
      (entries[i].Some? ==> list[i] == entries[i].value) && (entries[i].None? ==> list[i] == 0)
  {
    seq(|entries|, i requires 0 <= i < |entries| => match entries[i] case Some(res) => res case None => 0)
  }

  /** Loading a style-group array: null without a context; an exception when
      the id names no array resource; otherwise the materialized list. */
  function LoadStyleList(ctx: Option<Context>, resId: int): (r: Result<Option<seq<StyleRes>>, Fault>)
    ensures ctx.None? ==> r == Success(None)
    ensures ctx.Some? && resId !in ctx.value.arrays ==> r == Failure(ResourceNotFound(resId))
    ensures ctx.Some? && resId in ctx.value.arrays ==>
      r == Success(Some(Materialize(ctx.value.arrays[resId])))
  {
    match ctx
    case None => Success(None)
    case Some(c) =>
      if resId in c.arrays then Success(Some(Materialize(c.arrays[resId])))
      else Failure(ResourceNotFound(resId))
  }

  /** Cache-or-load. A cached list is returned without touching the host;
      otherwise the list is loaded and stored, null included. */
  function GetStyleList(reg: Registry, ctx: Option<Context>, styleId: int): (r: Lookup<Option<seq<StyleRes>>>)
    ensures r.registry.theme == reg.theme && r.registry.listeners == reg.listeners
    ensures r.loaded <==> Cached(reg.styles, styleId).None?
    ensures Cached(reg.styles, styleId).Some? ==>
      r.registry == reg && r.value == Success(Cached(reg.styles, styleId))
    ensures Cached(reg.styles, styleId).None? ==>
      match LoadStyleList(ctx, styleId)
      case Failure(f) => r.registry == reg && r.value == Failure(f)
      case Success(list) =>
        r.value == Success(list) && r.registry.styles == reg.styles[styleId := list]
    ensures r.value.Success? && r.value.value.Some? ==> Cached(r.registry.styles, styleId) == r.value.value
    ensures forall k | k != styleId :: Cached(r.registry.styles, k) == Cached(reg.styles, k)
  {
    var cached := Cached(reg.styles, styleId);
    if cached.Some? then Lookup(reg, false, Success(cached))
    else
      match LoadStyleList(ctx, styleId)
      case Failure(f) => Lookup(reg, true, Failure(f))
      case Success(list) => Lookup(reg.(styles := reg.styles[styleId := list]), true, Success(list))
  }

  /** The style of a group under `theme`: 0 when no list is available, the
      list's entry at `theme` otherwise. The index is not range-checked, so
      an index outside the list raises, after the list has been cached. */
  function GetStyle(reg: Registry, ctx: Option<Context>, styleId: int, theme: int): (r: Lookup<StyleRes>)
    ensures r.registry == GetStyleList(reg, ctx, styleId).registry
    ensures r.loaded == GetStyleList(reg, ctx, styleId).loaded
    ensures match GetStyleList(reg, ctx, styleId).value
      case Failure(f) => r.value == Failure(f)
      case Success(None) => r.value == Success(STYLE_UNDEFINED)
      case Success(Some(list)) =>
        if 0 <= theme < |list| then r.value == Success(list[theme])
        else r.value == Failure(ArrayIndexOutOfBounds(theme, |list|))
  {
    var l := GetStyleList(reg, ctx, styleId);
    match l.value
    case Failure(f) => Lookup(l.registry, l.loaded, Failure(f))
    case Success(None) => Lookup(l.registry, l.loaded, Success(STYLE_UNDEFINED))
    case Success(Some(list)) =>
      if 0 <= theme < |list| then Lookup(l.registry, l.loaded, Success(list[theme]))
      else Lookup(l.registry, l.loaded, Failure(ArrayIndexOutOfBounds(theme, |list|)))
  }

  /** The style of a group under the current theme. */
  function GetCurrentStyle(reg: Registry, ctx: Option<Context>, styleId: int): (r: Lookup<StyleRes>)
    ensures r == GetStyle(reg, ctx, styleId, reg.theme)
  {
    GetStyle(reg, ctx, styleId, reg.theme)
  }

  /** The callbacks of one dispatch: every listener gets the same event,
      the most recently registered first. */
  function Dispatch(listeners: seq<ListenerId>, theme: int): (ns: seq<Notification>)
    ensures |ns| == |listeners|
    ensures forall k | 0 <= k < |ns| ::
      ns[k] == Notification(listeners[|listeners| - 1 - k], ThemeChangedEvent(theme))
  {
    if listeners == [] then []
    else
      var last := |listeners| - 1;
      [Notification(listeners[last], ThemeChangedEvent(theme))] + Dispatch(listeners[..last], theme)
  }

  /** The listeners a dispatch calls, in call order. */
  function Called(ns: seq<Notification>): (ls: seq<ListenerId>)
    ensures |ls| == |ns| && forall k | 0 <= k < |ns| :: ls[k] == ns[k].listener
  {
    seq(|ns|, k requires 0 <= k < |ns| => ns[k].listener)
  }

  /** A dispatch calls each registered listener as often as it is
      registered; on a duplicate-free list, exactly once. */
  lemma {:induction false} DispatchCallsEachOnce(listeners: seq<ListenerId>, theme: int)
    ensures multiset(Called(Dispatch(listeners, theme))) == multiset(listeners)
    ensures Unique(listeners) ==> forall l | l in listeners :: multiset(Called(Dispatch(listeners, theme)))[l] == 1
    decreases |listeners|
  {
    if listeners != [] {
      var last := |listeners| - 1;
      DispatchCallsEachOnce(listeners[..last], theme);
      var ns := Dispatch(listeners, theme);
      var rest := Dispatch(listeners[..last], theme);
      assert ns == [ns[0]] + rest;
      assert Called(ns) == [listeners[last]] + Called(rest);
      assert listeners == listeners[..last] + [listeners[last]];
    }
  }

  /** The dispatch loop: walk the listener list by index from its end and
      call each listener with one shared event. */
  method DispatchThemeChanged(listeners: seq<ListenerId>, theme: int) returns (ns: seq<Notification>)
    ensures ns == Dispatch(listeners, theme)
  {
    var event := ThemeChangedEvent(theme);
    ns := [];
    var i := |listeners| - 1;
    while i >= 0
      invariant -1 <= i < |listeners|
      invariant |ns| == |listeners| - 1 - i
      invariant forall k | 0 <= k < |ns| :: ns[k] == Notification(listeners[|listeners| - 1 - k], event)
    {
      ns := ns + [Notification(listeners[i], event)];
      i := i - 1;
    }
  }

  /** Switching the theme. Off the main thread, or when the theme is already
      current, nothing happens and false is returned; otherwise the index is
      updated first and then every listener is called once with the new
      theme. */
  function SetCurrentTheme(reg: Registry, theme: int, onMainThread: bool): (r: SetResult)
    ensures r.applied <==> onMainThread && theme != reg.theme
    ensures !r.applied ==> r.registry == reg && r.notifications == []
    ensures r.applied ==> r.registry == reg.(theme := theme)
    ensures r.applied ==> r.notifications == Dispatch(reg.listeners, theme)
    ensures forall n | n in r.notifications :: n.event.theme == r.registry.theme && n.listener in reg.listeners
  {
    if !onMainThread then SetResult(reg, false, [])
    else if reg.theme != theme then
      var reg' := reg.(theme := theme);
      SetResult(reg', true, Dispatch(reg'.listeners, reg'.theme))
    else SetResult(reg, false, [])
  }

  /** Setting the same theme twice: the second call is a no-op. */
  lemma SetCurrentThemeTwice(reg: Registry, theme: int)
    ensures var first := SetCurrentTheme(reg, theme, true);
            var second := SetCurrentTheme(first.registry, theme, true);
            first.registry.theme == theme && !second.applied &&
            second.registry == first.registry && second.notifications == []
  {
  }

  /** Three listeners registered in order are called in the reverse order. */
  lemma DispatchReverseOrder(l1: ListenerId, l2: ListenerId, l3: ListenerId, theme: int)
    ensures Called(Dispatch([l1, l2, l3], theme)) == [l3, l2, l1]
  {
  }

  /** Registry-level registration and unregistration. */
  function RegisterListener(reg: Registry, l: ListenerId): (r: Registry)
    ensures r == reg.(listeners := Register(reg.listeners, l))
  {
    reg.(listeners := Register(reg.listeners, l))
  }

  function UnregisterListener(reg: Registry, l: ListenerId): (r: Registry)
    ensures r == reg.(listeners := Unregister(reg.listeners, l))
  {
    reg.(listeners := Unregister(reg.listeners, l))
  }

  /** The style a context's resource table gives directly, with no cache:
      the reference definition the cached lookup must agree with. */
  function DirectStyle(c: Context, styleId: int, theme: int): Result<StyleRes, Fault> {
    if styleId !in c.arrays then Failure(ResourceNotFound(styleId))
    else
      var list := Materialize(c.arrays[styleId]);
      if 0 <= theme < |list| then Success(list[theme])
      else Failure(ArrayIndexOutOfBounds(theme, |list|))
  }

  /** Every cached non-null list is what the context would load. */
  predicate Coherent(styles: map<int, Option<seq<StyleRes>>>, c: Context) {
    forall id | id in styles && styles[id].Some? ::
      id in c.arrays && styles[id].value == Materialize(c.arrays[id])
  }

  /** Caching is transparent: with a coherent cache, a lookup yields what the
      resource table gives directly, and the cache stays coherent. */
  lemma CachedLookupIsDirect(reg: Registry, c: Context, styleId: int, theme: int)
    requires Coherent(reg.styles, c)
    ensures GetStyle(reg, Some(c), styleId, theme).value == DirectStyle(c, styleId, theme)
    ensures Coherent(GetStyle(reg, Some(c), styleId, theme).registry.styles, c)
  {
  }

  /** Number of host loads made by looking up one style group once per
      given context, in order. */
  function LoadCount(reg: Registry, styleId: int, theme: int, ctxs: seq<Option<Context>>): nat
    decreases |ctxs|
  {
    if ctxs == [] then 0
    else
      var look := GetStyle(reg, ctxs[0], styleId, theme);
      (if look.loaded then 1 else 0) + LoadCount(look.registry, styleId, theme, ctxs[1..])
  }

  /** Once a non-null list is cached, later lookups of that group never load. */
  lemma {:induction false} NoLoadOnceCached(reg: Registry, styleId: int, theme: int, ctxs: seq<Option<Context>>)
    requires Cached(reg.styles, styleId).Some?
    ensures LoadCount(reg, styleId, theme, ctxs) == 0
    decreases |ctxs|
  {
    if ctxs != [] {
      NoLoadOnceCached(reg, styleId, theme, ctxs[1..]);
    }
  }

  /** Any number of lookups of one group, each with a context that declares
      the group's array, query the host at most once. */
  lemma AtMostOneLoad(reg: Registry, styleId: int, theme: int, ctxs: seq<Option<Context>>)
    requires forall i | 0 <= i < |ctxs| :: ctxs[i].Some? && styleId in ctxs[i].value.arrays
    ensures LoadCount(reg, styleId, theme, ctxs) <= 1
  {
    if ctxs != [] {
      var look := GetStyle(reg, ctxs[0], styleId, theme);
      assert Cached(look.registry.styles, styleId).Some?;
      NoLoadOnceCached(look.registry, styleId, theme, ctxs[1..]);
    }
  }

  /** Without a context nothing is cached, so the next lookup loads again. */
  lemma NullListIsRetried(reg: Registry, styleId: int, theme: int, ctx: Option<Context>)
    requires Cached(reg.styles, styleId).None?
    ensures var first := GetStyle(reg, None, styleId, theme);
            first.loaded && first.value == Success(STYLE_UNDEFINED) &&
            GetStyle(first.registry, ctx, styleId, theme).loaded
  {
  }
}
