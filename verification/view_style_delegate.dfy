/** The per-view delegate: subscribes to the registry while its view is
    attached, and on each theme change re-resolves its style group and
    applies the style only when it differs from the last one applied. The
    view is held weakly, so it may be gone. */
module ViewStyleDelegate {
  import opened Basics
  import opened ListenerList
  import opened ThemeManager

  type ViewId = nat

  /** A view: its identity and the context it resolves resources in. */
  datatype View = View(id: ViewId, context: Option<Context>)

  /** `self` is the delegate's identity as a listener; `view` is None once
      the weakly held view has been collected. */
  datatype Delegate = Delegate(self: ListenerId, view: Option<View>, styleId: int, currentStyle: StyleRes)

  /** One `applyStyle(view, style)` call into the host. */
  datatype Application = Application(view: ViewId, style: StyleRes)

  /** The effect of one delegate callback. */
  datatype Reaction = Reaction(delegate: Delegate, registry: Registry, applications: seq<Application>, fault: Option<Fault>)

  /** A new delegate has applied nothing yet. */
  function NewDelegate(self: ListenerId, view: View, styleId: int): (d: Delegate)
    ensures d.currentStyle == STYLE_UNDEFINED
    ensures d.self == self && d.view == Some(view) && d.styleId == styleId
  {
    Delegate(self, Some(view), styleId, STYLE_UNDEFINED)
  }

  /** Only the remembered style may change in a delegate. */
  predicate SameIdentity(d: Delegate, d': Delegate) {
    d'.self == d.self && d'.view == d.view && d'.styleId == d.styleId
  }

  /** A theme-changed callback. With the view gone nothing happens.
      Otherwise the current style is resolved in the view's context and, if
      it differs from the remembered one, remembered and applied; a lookup
      exception propagates with nothing applied. */
  function OnThemeChanged(d: Delegate, reg: Registry): (r: Reaction)
    ensures SameIdentity(d, r.delegate)
    ensures r.registry.theme == reg.theme && r.registry.listeners == reg.listeners
    ensures d.view.None? ==> r == Reaction(d, reg, [], None)
    ensures d.view.Some? ==>
      var look := GetCurrentStyle(reg, d.view.value.context, d.styleId);
      && r.registry == look.registry
      && (look.value.Failure? ==> r.delegate == d && r.applications == [] && r.fault == Some(look.value.error))
      && (look.value.Success? ==>
            && r.fault.None?
            && r.delegate.currentStyle == look.value.value
            && (r.applications != [] <==> look.value.value != d.currentStyle))
    ensures r.applications == [] ==> r.delegate == d
    ensures r.applications != [] ==>
      r.applications == [Application(d.view.value.id, r.delegate.currentStyle)] &&
      r.delegate.currentStyle != d.currentStyle
  {
    match d.view
    case None => Reaction(d, reg, [], None)
    case Some(view) =>
      var look := GetCurrentStyle(reg, view.context, d.styleId);
      match look.value
      case Failure(f) => Reaction(d, look.registry, [], Some(f))
      case Success(style) =>
        if d.currentStyle != style then
          var d' := d.(currentStyle := style);
          Reaction(d', look.registry, [Application(view.id, style)], None)
        else Reaction(d, look.registry, [], None)
  }

  /** The view is attached: a delegate with a style group registers itself
      and reacts at once as to a theme change; one without (id 0) does
      nothing at all. */
  function OnViewAttached(d: Delegate, reg: Registry): (r: Reaction)
    ensures d.styleId == 0 ==> r == Reaction(d, reg, [], None)
    ensures d.styleId != 0 ==>
      && d.self in r.registry.listeners
      && r.registry.listeners == Register(reg.listeners, d.self)
      && r == OnThemeChanged(d, RegisterListener(reg, d.self))
  {
    if d.styleId != 0 then OnThemeChanged(d, RegisterListener(reg, d.self))
    else Reaction(d, reg, [], None)
  }

  /** The view is detached: a delegate with a style group unregisters
      itself, whether or not it was registered. */
  function OnViewDetached(d: Delegate, reg: Registry): (r: Registry)
    ensures d.styleId == 0 ==> r == reg
    ensures d.styleId != 0 ==> d.self !in r.listeners && r == UnregisterListener(reg, d.self)
    ensures r.theme == reg.theme && r.styles == reg.styles
  {
    if d.styleId != 0 then UnregisterListener(reg, d.self) else reg
  }

  /** Two theme-changed callbacks in a row, with no theme change between
      them: the second applies nothing and changes nothing in the delegate. */
  lemma NotifyTwiceAppliesOnce(d: Delegate, reg: Registry)
    ensures var first := OnThemeChanged(d, reg);
            var second := OnThemeChanged(first.delegate, first.registry);
            second.applications == [] && second.delegate == first.delegate &&
            |first.applications| + |second.applications| <= 1
  {
  }

  /** A fresh delegate whose group resolves to the sentinel applies nothing. */
  lemma FreshDelegateSkipsUndefined(self: ListenerId, view: View, styleId: int, reg: Registry)
    requires GetCurrentStyle(reg, view.context, styleId).value == Success(STYLE_UNDEFINED)
    ensures OnThemeChanged(NewDelegate(self, view, styleId), reg).applications == []
  {
  }

  /** Detaching twice is the same as detaching once. */
  lemma DetachTwice(d: Delegate, reg: Registry)
    ensures OnViewDetached(d, OnViewDetached(d, reg)) == OnViewDetached(d, reg)
  {
  }

  /** Attaching and then detaching a delegate that was not registered
      restores the listener list. */
  lemma AttachThenDetach(d: Delegate, reg: Registry)
    requires d.self !in reg.listeners
    ensures OnViewDetached(d, OnViewAttached(d, reg).registry).listeners == reg.listeners
  {
    if d.styleId != 0 {
      RegisterThenUnregister(reg.listeners, d.self);
    }
  }

  /** On a duplicate-free list, an attached delegate is registered exactly once. */
  lemma AttachRegistersOnce(d: Delegate, reg: Registry)
    requires d.styleId != 0 && Unique(reg.listeners)
    ensures var r := OnViewAttached(d, reg).registry;
            Unique(r.listeners) && multiset(r.listeners)[d.self] == 1
  {
  }
}
