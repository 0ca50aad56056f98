/**
 * The `Navigator` object itself: its fields are updated in place by each
 * call, exactly as the step functions of `NavigationState` describe, and the
 * observable `backStack` is rebuilt from the registry after every change.
 */
module Navigator {
  import opened Wrappers
  import opened LinkedMap
  import opened NavigationState
  import NavigationProperties

  class Navigator {
    const startRoute: Route
    const canTopLevelRoutesExistTogether: bool

    /** The back stack the UI renders. */
    var backStack: seq<Route>
    /** The stack that receives pushes. */
    var topLevelRoute: Route
    /** One stack per top-level route, in insertion order. */
    var topLevelStacks: Stacks
    /** For each shared route, the top-level stack it was last pushed onto. */
    var sharedRoutes: map<Route, Route>

    function Cfg(): Config {
      Config(startRoute, canTopLevelRoutesExistTogether)
    }

    /** The abstract state the step functions act on. */
    ghost function State(): Nav
      reads this
    {
      Nav(topLevelStacks, sharedRoutes, topLevelRoute)
    }

    /** `backStack` mirrors the registry: it is the registry's stacks concatenated. */
    ghost predicate Valid()
      reads this
    {
      backStack == Flatten(topLevelStacks)
    }

    /** `init`: the registry holds `startRoute ↦ [startRoute]` and the back stack is `[startRoute]`. */
    constructor(startRoute: Route, canTopLevelRoutesExistTogether: bool)
      ensures this.startRoute == startRoute
      ensures this.canTopLevelRoutesExistTogether == canTopLevelRoutesExistTogether
      ensures State() == Init(Cfg()) && backStack == [startRoute]
      ensures Valid()
      ensures startRoute.kind == TopLevel ==> Inv(Cfg(), State())
    {
      var stacks: Stacks := [Entry(startRoute, [startRoute])];
      assert Flatten(stacks) == Flatten([]) + [startRoute];
      this.startRoute := startRoute;
      this.canTopLevelRoutesExistTogether := canTopLevelRoutesExistTogether;
      backStack := [startRoute];
      sharedRoutes := map[];
      topLevelStacks := stacks;
      topLevelRoute := startRoute;
      new;
      assert Cfg() == Config(startRoute, canTopLevelRoutesExistTogether);
      assert State() == Nav(stacks, map[], startRoute);
      if startRoute.kind == TopLevel {
        NavigationProperties.InitState(Config(startRoute, canTopLevelRoutesExistTogether));
      }
    }

    /** `updateBackStack`: clear the back stack and append every stack, in registry order. */
    method UpdateBackStack()
      modifies this
      ensures backStack == Flatten(topLevelStacks)
      ensures topLevelStacks == old(topLevelStacks) && topLevelRoute == old(topLevelRoute)
      ensures sharedRoutes == old(sharedRoutes)
    {
      var entries := [];
      var i := 0;
      while i < |topLevelStacks|
        invariant 0 <= i <= |topLevelStacks|
        invariant entries == Flatten(topLevelStacks[..i])
      {
        assert topLevelStacks[..i + 1][..i] == topLevelStacks[..i];
        entries := entries + topLevelStacks[i].value;
        i := i + 1;
      }
      assert topLevelStacks[..i] == topLevelStacks;
      backStack := entries;
    }

    /** `clearAllExceptStartStack`: only the start stack is left, with its history if it had one. */
    method ClearAllExceptStartStack()
      modifies this
      ensures Keys(topLevelStacks) == [startRoute]
      ensures Get(topLevelStacks, startRoute) == Some(Get(old(topLevelStacks), startRoute).GetOr([startRoute]))
      ensures topLevelStacks == ClearAllExceptStart(Cfg(), old(topLevelStacks))
      ensures backStack == old(backStack) && topLevelRoute == old(topLevelRoute)
      ensures sharedRoutes == old(sharedRoutes)
    {
      var startStack := match Get(topLevelStacks, startRoute)
        case Some(v) => v
        case None => [startRoute];
      topLevelStacks := [];
      topLevelStacks := Put(topLevelStacks, startRoute, startStack);
    }

    /** `addTopLevel`: make `route` the active stack, reusing its history. */
    method AddTopLevel(route: Route)
      modifies this
      ensures State() == NavigationState.AddTopLevel(Cfg(), old(State()), route)
      ensures backStack == old(backStack)
    {
      if route == startRoute {
        ClearAllExceptStartStack();
      } else {
        var removed := Get(topLevelStacks, route);
        topLevelStacks := Remove(topLevelStacks, route);
        var topLevelStack := match removed
          case Some(v) => v
          case None => [route];
        if !canTopLevelRoutesExistTogether {
          ClearAllExceptStartStack();
        }
        topLevelStacks := Put(topLevelStacks, route, topLevelStack);
      }
      topLevelRoute := route;
    }

    /** `add`: dispatch on the route's kind; the registry changes, the back stack not yet. */
    method Add(route: Route)
      modifies this
      ensures State() == NavigationState.Navigate(Cfg(), old(State()), route)
      ensures backStack == old(backStack)
    {
      if route.kind == TopLevel {
        AddTopLevel(route);
      } else {
        if route.kind == Shared {
          if route in sharedRoutes {
            var oldParent := sharedRoutes[route];
            match Get(topLevelStacks, oldParent) {
              case Some(v) =>
                topLevelStacks := Put(topLevelStacks, oldParent, RemoveFirst(v, route));
              case None =>
            }
          }
          sharedRoutes := sharedRoutes[route := topLevelRoute];
        }
        match Get(topLevelStacks, topLevelRoute) {
          case Some(v) =>
            topLevelStacks := Put(topLevelStacks, topLevelRoute, v + [route]);
          case None =>
        }
      }
    }

    /**
     * `navigate`: the registry takes the step `NavigationState.Navigate`
     * describes, the back stack is rebuilt from it, and the invariant, when it
     * held, still holds.
     */
    method Navigate(route: Route)
      requires Valid()
      modifies this
      ensures State() == NavigationState.Navigate(Cfg(), old(State()), route)
      ensures Valid()
      ensures old(Inv(Cfg(), State())) ==> Inv(Cfg(), State())
    {
      ghost var before := State();
      Add(route);
      UpdateBackStack();
      if Inv(Cfg(), before) {
        NavigationProperties.NavigateKeepsInv(Cfg(), before, route);
      }
    }

    /** `topLevelStacks[topLevelRoute]?.removeLastOrNull()`: pop the active stack, if it exists and is not empty. */
    method RemoveLastOfActive() returns (removed: Option<Route>)
      modifies this
      ensures (topLevelStacks, removed) == PopActive(old(topLevelStacks), topLevelRoute)
      ensures backStack == old(backStack) && topLevelRoute == old(topLevelRoute)
      ensures sharedRoutes == old(sharedRoutes)
    {
      removed := None;
      match Get(topLevelStacks, topLevelRoute) {
        case Some(v) =>
          if v != [] {
            removed := Some(v[|v| - 1]);
            topLevelStacks := Put(topLevelStacks, topLevelRoute, v[..|v| - 1]);
          }
        case None =>
      }
    }

    /**
     * `goBack`.  `thrown` is the `NoSuchElementException` of `keys.last()`
     * when the pop empties the registry; the registry is then left empty and
     * the other fields as they were.  Under the invariant it never happens.
     */
    method GoBack() returns (thrown: bool)
      requires Valid()
      modifies this
      ensures thrown == NavigationState.GoBack(old(State())).None?
      ensures !thrown ==> State() == NavigationState.GoBack(old(State())).value && Valid()
      ensures thrown ==> topLevelStacks == [] && backStack == old(backStack) && topLevelRoute == old(topLevelRoute)
      ensures sharedRoutes == old(sharedRoutes)
      ensures old(Inv(Cfg(), State())) ==> !thrown && Inv(Cfg(), State())
    {
      ghost var before := State();
      if Inv(Cfg(), before) {
        NavigationProperties.GoBackKeepsInv(Cfg(), before);
      }
      if |backStack| <= 1 {
        assert NavigationState.GoBack(before) == Some(before);
        return false;
      }
      thrown := PopActiveStack();
      ghost var popped := PopActive(before.stacks, before.active);
      NavigationProperties.GoBackUnfold(before, popped.0, popped.1, topLevelStacks);
    }

    /** The part of `goBack` past the guard: pop, drop the stack keyed by the popped route, re-pick the active key. */
    method PopActiveStack() returns (thrown: bool)
      modifies this
      ensures var popped := PopActive(old(topLevelStacks), old(topLevelRoute));
        topLevelStacks == if popped.1.Some? then Remove(popped.0, popped.1.value) else popped.0
      ensures thrown <==> topLevelStacks == []
      ensures !thrown ==> topLevelRoute == topLevelStacks[|topLevelStacks| - 1].key && Valid()
      ensures thrown ==> backStack == old(backStack) && topLevelRoute == old(topLevelRoute)
      ensures sharedRoutes == old(sharedRoutes)
    {
      var removedKey := RemoveLastOfActive();
      if removedKey.Some? {
        topLevelStacks := Remove(topLevelStacks, removedKey.value);
      }
      if topLevelStacks == [] {
        return true;
      }
      topLevelRoute := topLevelStacks[|topLevelStacks| - 1].key;
      UpdateBackStack();
      return false;
    }
  }
}
