/**
 * The state of the multi-stack navigator and one pure function per step it
 * takes.  A registry maps each top-level route to its own stack of routes (in
 * insertion order), an ownership map records which top-level stack a shared
 * route was last pushed onto, and the active key says which stack receives
 * pushes.  The flattened back stack is the concatenation of all stacks.
 * The class `Navigator.Navigator` is specified by these functions.
 */
module NavigationState {
  import opened Wrappers
  import opened LinkedMap

  /** The capability a route declares: `Route.TopLevel`, `Route.Shared`, or neither. */
  datatype Kind = TopLevel | Shared | Plain

  /** A destination: compared by value, with the kind it was declared with. */
  datatype Route = Route(name: string, kind: Kind)

  /** The registry of top-level stacks, `topLevelStacks`. */
  type Stacks = seq<Entry<Route, seq<Route>>>

  /** The constructor's fixed arguments. */
  datatype Config = Config(startRoute: Route, canTopLevelRoutesExistTogether: bool)

  /** Registry, ownership map `sharedRoutes`, and active key `topLevelRoute`. */
  datatype Nav = Nav(stacks: Stacks, shared: map<Route, Route>, active: Route)

  /** A call made on the navigator from outside. */
  datatype Action = NavigateTo(route: Route) | Back

  /** `topLevelStacks.flatMap { it.value }`: every stack, in registry order. */
  function Flatten(stacks: Stacks): (r: seq<Route>)
    ensures forall i, x :: 0 <= i < |stacks| && x in stacks[i].value ==> x in r
  {
    if stacks == [] then []
    else Flatten(stacks[..|stacks| - 1]) + stacks[|stacks| - 1].value
  }

  /** The state right after construction. */
  function Init(c: Config): (n: Nav)
    ensures Keys(n.stacks) == [c.startRoute] && Get(n.stacks, c.startRoute) == Some([c.startRoute])
    ensures Flatten(n.stacks) == [c.startRoute]
    ensures n.active == c.startRoute && n.shared == map[]
  {
    Nav([Entry(c.startRoute, [c.startRoute])], map[], c.startRoute)
  }

  /** `clearAllExceptStartStack`: keep only the start stack, re-created if it was missing. */
  function ClearAllExceptStart(c: Config, stacks: Stacks): (r: Stacks)
    ensures Keys(r) == [c.startRoute]
    ensures Get(stacks, c.startRoute).Some? ==> Get(r, c.startRoute) == Get(stacks, c.startRoute)
    ensures Get(stacks, c.startRoute).None? ==> Get(r, c.startRoute) == Some([c.startRoute])
  {
    [Entry(c.startRoute, Get(stacks, c.startRoute).GetOr([c.startRoute]))]
  }

  /** `addTopLevel`: reset to the start stack, or move `route`'s stack (reused or new) last. */
  function AddTopLevel(c: Config, n: Nav, route: Route): (r: Nav)
    ensures r.active == route && r.shared == n.shared
    ensures Get(r.stacks, route) == Some(Get(n.stacks, route).GetOr([route]))
  {
    if route == c.startRoute then
      n.(stacks := ClearAllExceptStart(c, n.stacks), active := route)
    else
      var stack := Get(n.stacks, route).GetOr([route]);
      var rest := Remove(n.stacks, route);
      var kept := if c.canTopLevelRoutesExistTogether then rest else ClearAllExceptStart(c, rest);
      n.(stacks := Put(kept, route, stack), active := route)
  }

  /** `MutableList.remove(x)`: drop the first occurrence of `x`, if there is one. */
  function RemoveFirst(s: seq<Route>, x: Route): (r: seq<Route>)
    ensures |r| == if x in s then |s| - 1 else |s|
  {
    if s == [] then []
    else if s[0] == x then s[1..]
    else [s[0]] + RemoveFirst(s[1..], x)
  }

  /** `remove(x)` takes out exactly one occurrence of `x` when there is one, and nothing otherwise. */
  lemma {:induction false} RemoveFirstCount(s: seq<Route>, x: Route)
    ensures x !in s ==> RemoveFirst(s, x) == s
    ensures multiset(RemoveFirst(s, x)) == multiset(s) - multiset{x}
  {
    if s != [] {
      assert s == [s[0]] + s[1..];
      RemoveFirstCount(s[1..], x);
    }
  }

  /** `remove(x)` followed by `add(x)`: `x` leaves its first place and goes on top. */
  function MoveToTop(s: seq<Route>, x: Route): (r: seq<Route>)
    ensures |r| > 0 && r[|r| - 1] == x
    ensures multiset(r) == multiset(s) - multiset{x} + multiset{x}
  {
    RemoveFirstCount(s, x);
    RemoveFirst(s, x) + [x]
  }

  /** `topLevelStacks[oldParent]?.remove(route)`: take `route` out of its recorded owner's stack. */
  function DetachShared(n: Nav, route: Route): (r: Stacks)
    ensures Keys(r) == Keys(n.stacks)
    ensures forall k :: !(route in n.shared && k == n.shared[route]) ==> Get(r, k) == Get(n.stacks, k)
  {
    if route in n.shared then
      match Get(n.stacks, n.shared[route])
      case None => n.stacks
      case Some(v) => Put(n.stacks, n.shared[route], RemoveFirst(v, route))
    else n.stacks
  }

  /** `topLevelStacks[topLevelRoute]?.add(route)`: push onto the active stack, if it exists. */
  function PushActive(stacks: Stacks, active: Route, route: Route): (r: Stacks)
    ensures Keys(r) == Keys(stacks)
    ensures forall k :: k != active ==> Get(r, k) == Get(stacks, k)
    ensures Get(stacks, active).Some? ==> Get(r, active) == Some(Get(stacks, active).value + [route])
  {
    match Get(stacks, active)
    case None => stacks
    case Some(v) => Put(stacks, active, v + [route])
  }

  /** `add` for a shared route: detach it from its recorded owner, record the active key as owner, push. */
  function AddShared(n: Nav, route: Route): (r: Nav)
    ensures Keys(r.stacks) == Keys(n.stacks) && r.active == n.active
    ensures route in r.shared && r.shared[route] == n.active
    ensures forall y :: y in n.shared && y != route ==> y in r.shared && r.shared[y] == n.shared[y]
  {
    Nav(PushActive(DetachShared(n, route), n.active, route), n.shared[route := n.active], n.active)
  }

  /** `add` for a route that is neither top-level nor shared: push it on the active stack. */
  function AddPlain(n: Nav, route: Route): (r: Nav)
    ensures Keys(r.stacks) == Keys(n.stacks) && r.shared == n.shared && r.active == n.active
  {
    n.(stacks := PushActive(n.stacks, n.active, route))
  }

  /** `add` (and so `navigate`, whose back stack is `Flatten` of the result). */
  function Navigate(c: Config, n: Nav, route: Route): (r: Nav)
    ensures r.active == if route.kind == TopLevel then route else n.active
    ensures route.kind != TopLevel ==> Keys(r.stacks) == Keys(n.stacks)
    ensures route.kind == Plain ==> r.shared == n.shared
  {
    match route.kind
    case TopLevel => AddTopLevel(c, n, route)
    case Shared => AddShared(n, route)
    case Plain => AddPlain(n, route)
  }

  /** `topLevelStacks[topLevelRoute]?.removeLastOrNull()`: the registry after the pop, and the popped route. */
  function PopActive(stacks: Stacks, active: Route): (r: (Stacks, Option<Route>))
    ensures Keys(r.0) == Keys(stacks)
    ensures r.1.Some? <==> Get(stacks, active).Some? && Get(stacks, active).value != []
    ensures forall k :: k != active ==> Get(r.0, k) == Get(stacks, k)
  {
    match Get(stacks, active)
    case None => (stacks, None)
    case Some(v) =>
      if v == [] then (stacks, None)
      else (Put(stacks, active, v[..|v| - 1]), Some(v[|v| - 1]))
  }

  /**
   * `goBack`.  `None` is the `NoSuchElementException` that `keys.last()` throws
   * on an empty registry.
   */
  function GoBack(n: Nav): (r: Option<Nav>)
    ensures r.None? ==> |Flatten(n.stacks)| > 1
    ensures r.Some? ==> r.value.shared == n.shared
    ensures r.Some? && |Flatten(n.stacks)| > 1 ==>
      |r.value.stacks| > 0 && r.value.active == r.value.stacks[|r.value.stacks| - 1].key
  {
    if |Flatten(n.stacks)| <= 1 then Some(n)
    else
      var popped := PopActive(n.stacks, n.active);
      var stacks := match popped.1 case None => popped.0 case Some(k) => Remove(popped.0, k);
      if stacks == [] then None
      else Some(Nav(stacks, n.shared, stacks[|stacks| - 1].key))
  }

  /**
   * The alternative rule for `goBack`: pop the active stack and drop its
   * registry entry exactly when the pop leaves it empty.
   */
  function GoBackRemovingEmpty(n: Nav): (r: Option<Nav>)
  {
    if |Flatten(n.stacks)| <= 1 then Some(n)
    else
      var v := Get(n.stacks, n.active).GetOr([]);
      var stacks :=
        if v == [] then n.stacks
        else if |v| == 1 then Remove(n.stacks, n.active)
        else Put(n.stacks, n.active, v[..|v| - 1]);
      if stacks == [] then None
      else Some(Nav(stacks, n.shared, stacks[|stacks| - 1].key))
  }

  /** The state after a sequence of calls, or `None` once one of them throws. */
  function Run(c: Config, n: Nav, actions: seq<Action>): (r: Option<Nav>)
    decreases |actions|
  {
    if actions == [] then Some(n)
    else
      var next := match actions[0]
        case NavigateTo(route) => Some(Navigate(c, n, route))
        case Back => GoBack(n);
      match next
      case None => None
      case Some(m) => Run(c, m, actions[1..])
  }

  /**
   * A registry entry as the navigator keeps it: rooted at its own top-level
   * key, holding no other top-level route, and holding each shared route at
   * most once, owned (in `shared`) by this entry's key.
   */
  predicate WellFormedEntry(e: Entry<Route, seq<Route>>, shared: map<Route, Route>) {
    && e.key.kind == TopLevel
    && |e.value| > 0 && e.value[0] == e.key
    && (forall j :: 1 <= j < |e.value| ==> e.value[j].kind != TopLevel)
    && (forall y :: y in e.value && y.kind == Shared ==>
          y in shared && shared[y] == e.key && multiset(e.value)[y] == 1)
  }

  /**
   * The invariant of every reachable state: the start stack is present and
   * first, keys are distinct, every entry is well formed, and the active key
   * is the last key.
   */
  predicate Inv(c: Config, n: Nav) {
    && c.startRoute.kind == TopLevel
    && |n.stacks| > 0 && n.stacks[0].key == c.startRoute
    && DistinctKeys(n.stacks)
    && (forall e :: e in n.stacks ==> WellFormedEntry(e, n.shared))
    && n.active == n.stacks[|n.stacks| - 1].key
  }
}
