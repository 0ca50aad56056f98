/**
 * What the navigator's steps guarantee: the invariant `Inv` holds in every
 * reachable state, and each kind of `navigate` and `goBack` changes the
 * registry, the ownership map, the active key and the flattened back stack
 * exactly as stated below.
 */
module NavigationProperties {
  import opened Wrappers
  import opened LinkedMap
  import opened NavigationState

  // ---------------------------------------------------------------------------
  // The flattened back stack

  lemma FlattenAppend(s: Stacks, e: Entry<Route, seq<Route>>)
    ensures Flatten(s + [e]) == Flatten(s) + e.value
  {
    assert (s + [e])[..|s|] == s;
  }

  /** The back stack begins with the first stack of the registry. */
  lemma {:induction false} FlattenFront(s: Stacks)
    requires s != []
    ensures Flatten(s) == s[0].value + Flatten(s[1..])
  {
    if |s| > 1 {
      var p := s[..|s| - 1];
      FlattenFront(p);
      assert p[1..] == s[1..][..|s[1..]| - 1];
    } else {
      assert s[..0] == [] && s[1..] == [];
    }
  }

  /** Under the invariant the back stack is never empty and the start route is at its bottom. */
  lemma BackStackRootedAtStart(c: Config, n: Nav)
    requires Inv(c, n)
    ensures |Flatten(n.stacks)| > 0 && Flatten(n.stacks)[0] == c.startRoute
  {
    FlattenFront(n.stacks);
    assert WellFormedEntry(n.stacks[0], n.shared);
  }

  /**
   * A shared route is live at most once in the whole back stack, and when it is
   * live its recorded owner is one of the registry's keys.
   */
  lemma {:induction false} SharedCountInStacks(s: Stacks, shared: map<Route, Route>, y: Route)
    requires DistinctKeys(s) && y.kind == Shared
    requires forall e :: e in s ==> WellFormedEntry(e, shared)
    ensures multiset(Flatten(s))[y] <= 1
    ensures y in Flatten(s) ==> y in shared && shared[y] in Keys(s)
  {
    if s != [] {
      var p, e := s[..|s| - 1], s[|s| - 1];
      assert s == p + [e];
      assert forall x :: x in p ==> x in s;
      SharedCountInStacks(p, shared, y);
      FlattenAppend(p, e);
      assert WellFormedEntry(e, shared);
      assert y !in Flatten(p) ==> multiset(Flatten(p))[y] == 0;
      assert y !in e.value ==> multiset(e.value)[y] == 0;
    }
  }

  /** The navigator's promise about shared routes: at most one live copy across all stacks. */
  lemma SharedRouteLiveOnce(c: Config, n: Nav, y: Route)
    requires Inv(c, n) && y.kind == Shared
    ensures multiset(Flatten(n.stacks))[y] <= 1
  {
    SharedCountInStacks(n.stacks, n.shared, y);
  }

  // ---------------------------------------------------------------------------
  // Construction

  /** `init`: the back stack is `[startRoute]`, the only stack is `startRoute ↦ [startRoute]`. */
  lemma InitState(c: Config)
    requires c.startRoute.kind == TopLevel
    ensures Inv(c, Init(c))
    ensures Flatten(Init(c).stacks) == [c.startRoute]
    ensures Init(c).active == c.startRoute
    ensures Keys(Init(c).stacks) == [c.startRoute]
    ensures Get(Init(c).stacks, c.startRoute) == Some([c.startRoute])
  {
    assert Flatten(Init(c).stacks) == Flatten([]) + [c.startRoute];
  }

  // ---------------------------------------------------------------------------
  // goBack

  /** Replacing the value of the last key keeps every earlier entry. */
  lemma PutLast(s: Stacks, v: seq<Route>)
    requires DistinctKeys(s) && s != []
    ensures Put(s, s[|s| - 1].key, v) == s[..|s| - 1] + [Entry(s[|s| - 1].key, v)]
  {
    assert s[|s| - 1 := Entry(s[|s| - 1].key, v)] == s[..|s| - 1] + [Entry(s[|s| - 1].key, v)];
  }

  /** Removing the last key leaves the earlier entries. */
  lemma RemoveLast(s: Stacks)
    requires DistinctKeys(s) && s != []
    ensures Remove(s, s[|s| - 1].key) == s[..|s| - 1]
  {
    assert s[|s|..] == [];
  }

  /** The invariant survives dropping the last stack, as long as another is left. */
  lemma InvWithoutLast(c: Config, n: Nav)
    requires Inv(c, n) && |n.stacks| > 1
    ensures var p := n.stacks[..|n.stacks| - 1]; Inv(c, Nav(p, n.shared, p[|p| - 1].key))
  {
    var p := n.stacks[..|n.stacks| - 1];
    assert forall e :: e in p ==> e in n.stacks;
  }

  /** The registry `goBack` leaves when the active (last) stack is popped. */
  function PoppedStacks(s: Stacks): (r: Stacks)
    requires s != []
  {
    var last := s[|s| - 1];
    if |last.value| <= 1 then s[..|s| - 1]
    else s[..|s| - 1] + [Entry(last.key, last.value[..|last.value| - 1])]
  }

  lemma FlattenSingle(s: Stacks)
    requires |s| == 1
    ensures Flatten(s) == s[0].value
  {
    assert s[..0] == [];
  }

  /** The active stack's last route and what popping it leaves, under the invariant. */
  lemma PopActiveLast(c: Config, n: Nav)
    requires Inv(c, n)
    ensures var v := n.stacks[|n.stacks| - 1].value;
      PopActive(n.stacks, n.active) == (Put(n.stacks, n.active, v[..|v| - 1]), Some(v[|v| - 1]))
  {
    assert WellFormedEntry(n.stacks[|n.stacks| - 1], n.shared);
    GetMember(n.stacks, |n.stacks| - 1);
  }

  /** Popping a stack's root: its registry entry goes. */
  lemma GoBackDropsStack(c: Config, n: Nav)
    requires Inv(c, n) && |n.stacks| > 1 && |n.stacks[|n.stacks| - 1].value| == 1
    requires |Flatten(n.stacks)| > 1
    ensures var p := PoppedStacks(n.stacks); GoBack(n) == Some(Nav(p, n.shared, p[|p| - 1].key))
  {
    var m := |n.stacks|;
    var pre, last := n.stacks[..m - 1], n.stacks[m - 1];
    PopActiveLast(c, n);
    var stacks1 := Put(n.stacks, n.active, last.value[..0]);
    PutLast(n.stacks, last.value[..0]);
    assert stacks1[..m - 1] == pre;
    RemoveLast(stacks1);
  }

  /** Under the invariant only top-level routes are registry keys. */
  lemma NonTopLevelNotKey(c: Config, n: Nav, x: Route)
    requires Inv(c, n) && x.kind != TopLevel
    ensures x !in Keys(n.stacks)
  {
    forall i | 0 <= i < |n.stacks| ensures Keys(n.stacks)[i] != x {
      assert WellFormedEntry(n.stacks[i], n.shared);
    }
  }

  /** Popping a route above a stack's root: no registry entry goes, since that route is no key. */
  lemma GoBackKeepsStack(c: Config, n: Nav)
    requires Inv(c, n) && |n.stacks[|n.stacks| - 1].value| > 1
    ensures var p := PoppedStacks(n.stacks); |Flatten(n.stacks)| > 1 ==> GoBack(n) == Some(Nav(p, n.shared, p[|p| - 1].key))
  {
    var m := |n.stacks|;
    var v := n.stacks[m - 1].value;
    PopActiveLast(c, n);
    PutLast(n.stacks, v[..|v| - 1]);
    assert WellFormedEntry(n.stacks[m - 1], n.shared);
    NonTopLevelNotKey(c, n, v[|v| - 1]);
  }

  /** Under the invariant, the route `goBack` pops is a registry key only when it is the active stack's root. */
  lemma GoBackShape(c: Config, n: Nav)
    requires Inv(c, n) && |Flatten(n.stacks)| > 1
    ensures |n.stacks| > 1 || |n.stacks[0].value| > 1
    ensures var p := PoppedStacks(n.stacks); GoBack(n) == Some(Nav(p, n.shared, p[|p| - 1].key))
  {
    if |n.stacks| == 1 {
      FlattenSingle(n.stacks);
    }
    assert WellFormedEntry(n.stacks[|n.stacks| - 1], n.shared);
    if |n.stacks[|n.stacks| - 1].value| == 1 {
      GoBackDropsStack(c, n);
    } else {
      GoBackKeepsStack(c, n);
    }
  }

  /** Popping the last route of the last stack drops the top of the back stack. */
  lemma FlattenPopped(s: Stacks)
    requires s != [] && s[|s| - 1].value != []
    ensures Flatten(PoppedStacks(s)) == Flatten(s)[..|Flatten(s)| - 1]
  {
    var pre, v := s[..|s| - 1], s[|s| - 1].value;
    var f := Flatten(s);
    assert f == Flatten(pre) + v;
    if |v| == 1 {
      assert f[..|f| - 1] == Flatten(pre);
    } else {
      var e' := Entry(s[|s| - 1].key, v[..|v| - 1]);
      FlattenAppend(pre, e');
      assert f[..|f| - 1] == Flatten(pre) + v[..|v| - 1];
    }
  }

  /** The invariant after popping a route above the active stack's root. */
  lemma PopAboveRoot(c: Config, n: Nav)
    requires Inv(c, n) && |n.stacks[|n.stacks| - 1].value| > 1
    ensures Inv(c, Nav(PoppedStacks(n.stacks), n.shared, n.active))
  {
    var m := |n.stacks|;
    var pre, last := n.stacks[..m - 1], n.stacks[m - 1];
    var v := last.value;
    assert WellFormedEntry(last, n.shared);
    var v', popped := v[..|v| - 1], v[|v| - 1];
    var e' := Entry(last.key, v');
    assert v == v' + [popped];
    assert WellFormedEntry(e', n.shared) by {
      forall y | y in v' && y.kind == Shared
        ensures y in n.shared && n.shared[y] == last.key && multiset(v')[y] == 1
      {
        assert multiset(v) == multiset(v') + multiset{popped};
      }
    }
    var p := pre + [e'];
    assert forall e :: e in p ==> e in n.stacks || e == e';
    assert forall i :: 0 <= i < |p| ==> p[i].key == n.stacks[i].key;
  }

  /** The invariant after popping the active stack's root. */
  lemma PopRoot(c: Config, n: Nav)
    requires Inv(c, n) && |n.stacks| > 1 && |n.stacks[|n.stacks| - 1].value| == 1
    ensures var p := PoppedStacks(n.stacks); Inv(c, Nav(p, n.shared, p[|p| - 1].key))
  {
    InvWithoutLast(c, n);
  }

  /**
   * `goBack` past the root: the visible top route leaves the back stack, the
   * active stack loses its last route and leaves the registry exactly when that
   * route was its own key, the last remaining key becomes active, and the
   * invariant still holds.
   */
  lemma GoBackPopsTop(c: Config, n: Nav)
    requires Inv(c, n) && |Flatten(n.stacks)| > 1
    ensures GoBack(n).Some?
    ensures Inv(c, GoBack(n).value)
    ensures Flatten(GoBack(n).value.stacks) == Flatten(n.stacks)[..|Flatten(n.stacks)| - 1]
    ensures GoBack(n).value.shared == n.shared
    ensures GoBack(n).value.stacks == PoppedStacks(n.stacks)
  {
    GoBackShape(c, n);
    assert WellFormedEntry(n.stacks[|n.stacks| - 1], n.shared);
    FlattenPopped(n.stacks);
    if |n.stacks[|n.stacks| - 1].value| == 1 {
      PopRoot(c, n);
    } else {
      PopAboveRoot(c, n);
    }
  }

  /** `goBack` past the guard, given what the pop of the active stack left. */
  lemma GoBackUnfold(n: Nav, popped: Stacks, removed: Option<Route>, after: Stacks)
    requires |Flatten(n.stacks)| > 1
    requires (popped, removed) == PopActive(n.stacks, n.active)
    requires after == if removed.Some? then Remove(popped, removed.value) else popped
    ensures GoBack(n) == if after == [] then None else Some(Nav(after, n.shared, after[|after| - 1].key))
  {
    var stacks := match removed case None => popped case Some(k) => Remove(popped, k);
    assert stacks == after;
  }

  /** `goBack` with at most one entry on the back stack changes nothing. */
  lemma GoBackAtRoot(n: Nav)
    requires |Flatten(n.stacks)| <= 1
    ensures GoBack(n) == Some(n)
  {
  }

  /** The alternative rule computes the same registry as `PoppedStacks`. */
  lemma GoBackRemovingEmptyShape(c: Config, n: Nav)
    requires Inv(c, n) && |Flatten(n.stacks)| > 1
    requires |n.stacks| > 1 || |n.stacks[0].value| > 1
    ensures var p := PoppedStacks(n.stacks); GoBackRemovingEmpty(n) == Some(Nav(p, n.shared, p[|p| - 1].key))
  {
    RemovingEmptyPops(c, n);
    assert |PoppedStacks(n.stacks)| > 0;
  }

  /** The registry the alternative rule builds, when the active stack is the last one. */
  lemma RemovingEmptyPops(c: Config, n: Nav)
    requires Inv(c, n)
    ensures var v := Get(n.stacks, n.active).GetOr([]);
      PoppedStacks(n.stacks) ==
        if v == [] then n.stacks
        else if |v| == 1 then Remove(n.stacks, n.active)
        else Put(n.stacks, n.active, v[..|v| - 1])
  {
    var m := |n.stacks|;
    var last := n.stacks[m - 1];
    GetMember(n.stacks, m - 1);
    assert WellFormedEntry(last, n.shared);
    var v := Get(n.stacks, n.active).GetOr([]);
    assert v == last.value;
    if |v| == 1 {
      RemoveLast(n.stacks);
    } else {
      PutLast(n.stacks, v[..|v| - 1]);
    }
  }

  /**
   * The rule as coded (drop the registry entry keyed by the popped route) and
   * the rule "drop the active stack exactly when the pop empties it" agree on
   * every state that satisfies the invariant.
   */
  lemma GoBackRulesCoincide(c: Config, n: Nav)
    requires Inv(c, n)
    ensures GoBack(n) == GoBackRemovingEmpty(n)
  {
    if |Flatten(n.stacks)| > 1 {
      GoBackShape(c, n);
      GoBackRemovingEmptyShape(c, n);
    }
  }

  // ---------------------------------------------------------------------------
  // navigate

  /** `navigate(startRoute)`: only the start stack is left, its contents intact, and start is active. */
  lemma NavigateStartResets(c: Config, n: Nav)
    requires c.startRoute.kind == TopLevel
    ensures var r := Navigate(c, n, c.startRoute);
      && Keys(r.stacks) == [c.startRoute]
      && Get(r.stacks, c.startRoute) == Some(Get(n.stacks, c.startRoute).GetOr([c.startRoute]))
      && r.active == c.startRoute
      && r.shared == n.shared
    ensures Inv(c, n) ==> Navigate(c, n, c.startRoute).stacks == [n.stacks[0]] && Inv(c, Navigate(c, n, c.startRoute))
  {
    if Inv(c, n) {
      GetMember(n.stacks, 0);
    }
  }

  /** A stack that keeps its root and gains a plain route on top is still well formed. */
  lemma EntryAfterPlainPush(e: Entry<Route, seq<Route>>, shared: map<Route, Route>, p: Route)
    requires WellFormedEntry(e, shared) && p.kind == Plain
    ensures WellFormedEntry(Entry(e.key, e.value + [p]), shared)
  {
    var w := e.value + [p];
    assert forall y :: y != p ==> multiset(w)[y] == multiset(e.value)[y];
    assert forall y :: y in w && y != p ==> y in e.value;
  }

  /**
   * `navigate(p)` for a plain route: `p` is pushed on the active stack, so it
   * lands on top of the back stack; no other stack, the ownership map and the
   * active key change.
   */
  lemma NavigatePlainPushes(c: Config, n: Nav, p: Route)
    requires |n.stacks| > 0 && DistinctKeys(n.stacks) && n.active == n.stacks[|n.stacks| - 1].key
    requires p.kind == Plain
    ensures Navigate(c, n, p) == AddPlain(n, p)
    ensures var r := AddPlain(n, p);
      && Flatten(r.stacks) == Flatten(n.stacks) + [p]
      && Keys(r.stacks) == Keys(n.stacks)
      && Get(r.stacks, n.active) == Some(n.stacks[|n.stacks| - 1].value + [p])
      && (forall k :: k != n.active ==> Get(r.stacks, k) == Get(n.stacks, k))
      && r.shared == n.shared && r.active == n.active
  {
    var m := |n.stacks|;
    GetMember(n.stacks, m - 1);
    PutLast(n.stacks, n.stacks[m - 1].value + [p]);
    FlattenPushLast(n.stacks, p);
  }

  /** `navigate(p)` for a plain route keeps the invariant. */
  lemma NavigatePlainKeepsInv(c: Config, n: Nav, p: Route)
    requires Inv(c, n) && p.kind == Plain
    ensures Inv(c, AddPlain(n, p))
  {
    var m := |n.stacks|;
    var last := n.stacks[m - 1];
    GetMember(n.stacks, m - 1);
    PutLast(n.stacks, last.value + [p]);
    var r := AddPlain(n, p);
    forall i | 0 <= i < m ensures WellFormedEntry(r.stacks[i], r.shared) {
      assert WellFormedEntry(n.stacks[i], n.shared);
      if i == m - 1 {
        EntryAfterPlainPush(last, n.shared, p);
      }
    }
    InvSameKeys(c, n, r);
  }

  /** Pushing on the last stack pushes on the back stack. */
  lemma FlattenPushLast(s: Stacks, p: Route)
    requires s != []
    ensures var m := |s|;
      Flatten(s[..m - 1] + [Entry(s[m - 1].key, s[m - 1].value + [p])]) == Flatten(s) + [p]
  {
    var m := |s|;
    var pre := s[..m - 1];
    FlattenAppend(pre, Entry(s[m - 1].key, s[m - 1].value + [p]));
    ConcatAssoc(Flatten(pre), s[m - 1].value, [p]);
  }

  /** The registry a top-level navigation leaves: `route`'s stack, reused or new, goes last. */
  lemma AddTopLevelShape(c: Config, n: Nav, x: Route)
    requires Inv(c, n) && x.kind == TopLevel && x != c.startRoute
    ensures var stack := Get(n.stacks, x).GetOr([x]);
      var rest := Remove(n.stacks, x);
      && |rest| > 0 && rest[0] == n.stacks[0] && x !in Keys(rest)
      && Navigate(c, n, x).stacks ==
           (if c.canTopLevelRoutesExistTogether then rest else [n.stacks[0]]) + [Entry(x, stack)]
  {
    var rest := Remove(n.stacks, x);
    RemoveKeepsFirst(n.stacks, x);
    GetMember(n.stacks, 0);
    assert Get(rest, c.startRoute) == Some(n.stacks[0].value);
  }

  /**
   * `navigate(x)` for a top-level route other than the start route: `x`'s
   * stack is reused with its history, or created as `[x]`, and placed last;
   * without coexistence only the start stack is kept beside it; `x` becomes
   * active; ownership records stay.
   */
  lemma NavigateTopLevelMovesLast(c: Config, n: Nav, x: Route)
    requires Inv(c, n) && x.kind == TopLevel && x != c.startRoute
    ensures var r := Navigate(c, n, x);
      var stack := Get(n.stacks, x).GetOr([x]);
      && r.stacks[|r.stacks| - 1] == Entry(x, stack)
      && (!c.canTopLevelRoutesExistTogether ==> r.stacks == [n.stacks[0], Entry(x, stack)])
      && (c.canTopLevelRoutesExistTogether ==> r.stacks == Remove(n.stacks, x) + [Entry(x, stack)])
      && r.active == x && r.shared == n.shared
      && Inv(c, r)
  {
    AddTopLevelShape(c, n, x);
    RemoveEntries(n.stacks, x);
    TopLevelStackWellFormed(c, n, x);
    var rest := Remove(n.stacks, x);
    var kept := if c.canTopLevelRoutesExistTogether then rest else [n.stacks[0]];
    InvAfterAppend(c, n, kept, Entry(x, Get(n.stacks, x).GetOr([x])));
  }

  /** The stack a top-level navigation places last is well formed. */
  lemma TopLevelStackWellFormed(c: Config, n: Nav, x: Route)
    requires Inv(c, n) && x.kind == TopLevel
    ensures WellFormedEntry(Entry(x, Get(n.stacks, x).GetOr([x])), n.shared)
  {
    match Get(n.stacks, x)
    case None =>
      assert forall y :: y in [x] ==> y == x;
    case Some(v) =>
      assert Entry(x, v) in n.stacks;
  }

  /** A registry built from some of the old entries, the start entry first, and one fresh key last keeps the invariant. */
  lemma InvAfterAppend(c: Config, n: Nav, kept: Stacks, e: Entry<Route, seq<Route>>)
    requires Inv(c, n)
    requires |kept| > 0 && kept[0] == n.stacks[0] && DistinctKeys(kept)
    requires forall x :: x in kept ==> x in n.stacks
    requires e.key !in Keys(kept) && WellFormedEntry(e, n.shared)
    ensures Inv(c, Nav(kept + [e], n.shared, e.key))
  {
    var s := kept + [e];
    assert forall x :: x in s ==> x in kept || x == e;
    forall i, j | 0 <= i < j < |s| ensures s[i].key != s[j].key {
      if j == |kept| {
        assert Keys(kept)[i] == s[i].key;
      }
    }
  }

  /** Removing a route that is not at the front keeps the front. */
  lemma RemoveFirstKeepsHead(v: seq<Route>, x: Route)
    requires v != [] && v[0] != x
    ensures RemoveFirst(v, x) == [v[0]] + RemoveFirst(v[1..], x)
  {
  }

  /** After removing the first occurrence of `x`, the rest of the sequence is drawn from the old rest. */
  lemma RemoveFirstTail(v: seq<Route>, x: Route, j: int)
    requires v != [] && v[0] != x && 1 <= j < |RemoveFirst(v, x)|
    ensures exists i :: 1 <= i < |v| && v[i] == RemoveFirst(v, x)[j]
  {
    RemoveFirstKeepsHead(v, x);
    var t := RemoveFirst(v[1..], x);
    assert RemoveFirst(v, x)[j] == t[j - 1];
    RemoveFirstCount(v[1..], x);
    assert t[j - 1] in multiset(t);
    assert t[j - 1] in multiset(v[1..]);
    var i :| 0 <= i < |v[1..]| && v[1..][i] == t[j - 1];
    assert v[i + 1] == t[j - 1];
  }

  /** A shared route held at most once is gone after removing its first occurrence. */
  lemma DetachLeavesNoCopy(v: seq<Route>, s: Route)
    requires multiset(v)[s] <= 1
    ensures s !in RemoveFirst(v, s)
  {
    RemoveFirstCount(v, s);
    assert multiset(RemoveFirst(v, s))[s] == 0;
  }

  /** Removing a route other than the root keeps the root, and nothing top-level appears above it. */
  lemma DetachKeepsRoot(v: seq<Route>, s: Route)
    requires v != [] && v[0] != s
    requires forall j :: 1 <= j < |v| ==> v[j].kind != TopLevel
    ensures var w := RemoveFirst(v, s); w != [] && w[0] == v[0] && forall j :: 1 <= j < |w| ==> w[j].kind != TopLevel
  {
    RemoveFirstKeepsHead(v, s);
    forall j | 1 <= j < |RemoveFirst(v, s)| ensures RemoveFirst(v, s)[j].kind != TopLevel {
      RemoveFirstTail(v, s, j);
    }
  }

  /** Every shared route left after removing `s` keeps its owner and its single copy. */
  lemma DetachKeepsOwners(key: Route, v: seq<Route>, shared: map<Route, Route>, s: Route, k: Route)
    requires forall y :: y in v && y.kind == Shared ==> y in shared && shared[y] == key && multiset(v)[y] == 1
    requires s !in RemoveFirst(v, s)
    ensures var w := RemoveFirst(v, s);
      forall y :: y in w && y.kind == Shared ==> y in shared[s := k] && shared[s := k][y] == key && multiset(w)[y] == 1
  {
    var w := RemoveFirst(v, s);
    RemoveFirstCount(v, s);
    forall y | y in w && y.kind == Shared
      ensures y in shared[s := k] && shared[s := k][y] == key && multiset(w)[y] == 1
    {
      assert multiset(w)[y] == multiset(v)[y];
    }
  }

  /** A well-formed stack holds a shared route at most once, so removing it leaves none. */
  lemma EntryDetachLeavesNoCopy(e: Entry<Route, seq<Route>>, shared: map<Route, Route>, s: Route)
    requires WellFormedEntry(e, shared) && s.kind == Shared
    ensures s !in RemoveFirst(e.value, s)
  {
    assert multiset(e.value)[s] <= 1 by {
      if s in e.value {
        assert multiset(e.value)[s] == 1;
      }
    }
    DetachLeavesNoCopy(e.value, s);
  }

  /** `WellFormedEntry`, assembled from its parts. */
  lemma WellFormedFromParts(key: Route, w: seq<Route>, shared: map<Route, Route>)
    requires key.kind == TopLevel && w != [] && w[0] == key
    requires forall j :: 1 <= j < |w| ==> w[j].kind != TopLevel
    requires forall y :: y in w && y.kind == Shared ==> y in shared && shared[y] == key && multiset(w)[y] == 1
    ensures WellFormedEntry(Entry(key, w), shared)
  {
  }

  /** Taking a shared route out of a well-formed stack leaves its root and no copy of the route. */
  lemma EntryAfterDetach(e: Entry<Route, seq<Route>>, shared: map<Route, Route>, s: Route, k: Route)
    requires WellFormedEntry(e, shared) && s.kind == Shared
    ensures s !in RemoveFirst(e.value, s)
    ensures WellFormedEntry(Entry(e.key, RemoveFirst(e.value, s)), shared[s := k])
  {
    EntryDetachLeavesNoCopy(e, shared, s);
    DetachKeepsRoot(e.value, s);
    DetachKeepsOwners(e.key, e.value, shared, s, k);
    WellFormedFromParts(e.key, RemoveFirst(e.value, s), shared[s := k]);
  }

  /** A shared route pushed on a stack that holds no copy of it, and owned by that stack. */
  lemma EntryAfterSharedPush(key: Route, w: seq<Route>, shared: map<Route, Route>, s: Route)
    requires WellFormedEntry(Entry(key, w), shared)
    requires s.kind == Shared && s !in w && s in shared && shared[s] == key
    ensures WellFormedEntry(Entry(key, w + [s]), shared)
  {
    var u := w + [s];
    assert multiset(u) == multiset(w) + multiset{s};
    assert forall y :: y in u && y != s ==> y in w;
  }

  /** `topLevelStacks[oldParent]?.remove(route)` under the invariant: every stack loses its copy of `s`, if it had one. */
  lemma DetachSharedFacts(c: Config, n: Nav, s: Route)
    requires Inv(c, n) && s.kind == Shared
    ensures |DetachShared(n, s)| == |n.stacks|
    ensures forall i :: 0 <= i < |n.stacks| ==>
      DetachShared(n, s)[i] == Entry(n.stacks[i].key, RemoveFirst(n.stacks[i].value, s))
  {
    if s in n.shared && Get(n.stacks, n.shared[s]).Some? {
      DetachFromOwner(c, n, s);
    } else {
      DetachUnowned(c, n, s);
      forall i | 0 <= i < |n.stacks| ensures RemoveFirst(n.stacks[i].value, s) == n.stacks[i].value {
        RemoveFirstCount(n.stacks[i].value, s);
      }
    }
  }

  /** Detaching `s` from the stack at index `io`, its recorded owner, replaces that entry only. */
  lemma DetachAt(n: Nav, s: Route, io: nat)
    requires DistinctKeys(n.stacks) && io < |n.stacks|
    requires s in n.shared && n.shared[s] == n.stacks[io].key
    ensures DetachShared(n, s) == n.stacks[io := Entry(n.stacks[io].key, RemoveFirst(n.stacks[io].value, s))]
  {
    GetMember(n.stacks, io);
  }

  lemma DetachFromOwner(c: Config, n: Nav, s: Route)
    requires Inv(c, n) && s.kind == Shared
    requires s in n.shared && Get(n.stacks, n.shared[s]).Some?
    ensures |DetachShared(n, s)| == |n.stacks|
    ensures forall i :: 0 <= i < |n.stacks| ==>
      DetachShared(n, s)[i] == Entry(n.stacks[i].key, RemoveFirst(n.stacks[i].value, s))
  {
    var io :| 0 <= io < |n.stacks| && Keys(n.stacks)[io] == n.shared[s];
    DetachAt(n, s, io);
    forall i | 0 <= i < |n.stacks| && i != io ensures s !in n.stacks[i].value {
      assert WellFormedEntry(n.stacks[i], n.shared);
    }
    RemoveFromOne(n.stacks, s, io);
  }

  /** When only the stack at `io` can hold `s`, removing it there is removing it everywhere. */
  lemma RemoveFromOne(stacks: Stacks, s: Route, io: nat)
    requires io < |stacks|
    requires forall i :: 0 <= i < |stacks| && i != io ==> s !in stacks[i].value
    ensures var d := stacks[io := Entry(stacks[io].key, RemoveFirst(stacks[io].value, s))];
      forall i :: 0 <= i < |stacks| ==> d[i] == Entry(stacks[i].key, RemoveFirst(stacks[i].value, s))
  {
    forall i | 0 <= i < |stacks| && i != io ensures RemoveFirst(stacks[i].value, s) == stacks[i].value {
      RemoveFirstCount(stacks[i].value, s);
    }
  }

  lemma DetachUnowned(c: Config, n: Nav, s: Route)
    requires Inv(c, n) && s.kind == Shared
    requires !(s in n.shared && Get(n.stacks, n.shared[s]).Some?)
    ensures DetachShared(n, s) == n.stacks
    ensures forall i :: 0 <= i < |n.stacks| ==> s !in n.stacks[i].value
  {
    forall i | 0 <= i < |n.stacks| ensures s !in n.stacks[i].value {
      assert WellFormedEntry(n.stacks[i], n.shared);
    }
  }

  /** The registry after `navigate(s)` for a shared route: every stack loses its copy of `s`, then the active (last) one gains it on top. */
  lemma NavigateSharedShape(c: Config, n: Nav, s: Route)
    requires Inv(c, n) && s.kind == Shared
    ensures var d := DetachShared(n, s); var m := |n.stacks|;
      && |d| == m
      && (forall i :: 0 <= i < m ==> d[i] == Entry(n.stacks[i].key, RemoveFirst(n.stacks[i].value, s)))
      && Navigate(c, n, s) == Nav(d[..m - 1] + [Entry(n.active, d[m - 1].value + [s])], n.shared[s := n.active], n.active)
  {
    DetachSharedFacts(c, n, s);
    PushOnDetached(n, s, DetachShared(n, s));
  }

  /** Pushing on the active stack of the detached registry replaces its last entry. */
  lemma PushOnDetached(n: Nav, s: Route, d: Stacks)
    requires |n.stacks| > 0 && DistinctKeys(n.stacks) && n.active == n.stacks[|n.stacks| - 1].key
    requires |d| == |n.stacks|
    requires forall i :: 0 <= i < |n.stacks| ==> d[i] == Entry(n.stacks[i].key, RemoveFirst(n.stacks[i].value, s))
    ensures var m := |n.stacks|; PushActive(d, n.active, s) == d[..m - 1] + [Entry(n.active, d[m - 1].value + [s])]
  {
    var m := |n.stacks|;
    assert forall i :: 0 <= i < m ==> d[i].key == n.stacks[i].key;
    assert DistinctKeys(d);
    GetMember(d, m - 1);
    PutLast(d, d[m - 1].value + [s]);
  }

  /** A registry with the same keys in the same order, each entry well formed, keeps the invariant. */
  lemma InvSameKeys(c: Config, n: Nav, r: Nav)
    requires Inv(c, n) && |r.stacks| == |n.stacks| && r.active == n.active
    requires forall i :: 0 <= i < |n.stacks| ==> r.stacks[i].key == n.stacks[i].key
    requires forall i :: 0 <= i < |r.stacks| ==> WellFormedEntry(r.stacks[i], r.shared)
    ensures Inv(c, r)
  {
  }

  /** Each entry after the shared push is well formed. */
  lemma SharedStepEntry(c: Config, n: Nav, s: Route, d: Stacks, i: nat)
    requires Inv(c, n) && s.kind == Shared
    requires |d| == |n.stacks| && i < |n.stacks|
    requires forall i :: 0 <= i < |n.stacks| ==> d[i] == Entry(n.stacks[i].key, RemoveFirst(n.stacks[i].value, s))
    ensures WellFormedEntry(d[i], n.shared[s := n.active])
    ensures s !in d[i].value
    ensures i == |n.stacks| - 1 ==> WellFormedEntry(Entry(n.active, d[i].value + [s]), n.shared[s := n.active])
  {
    assert WellFormedEntry(n.stacks[i], n.shared);
    EntryAfterDetach(n.stacks[i], n.shared, s, n.active);
    if i == |n.stacks| - 1 {
      EntryAfterSharedPush(n.active, d[i].value, n.shared[s := n.active], s);
    }
  }

  /** `navigate(s)` for a shared route keeps the invariant. */
  lemma NavigateSharedKeepsInv(c: Config, n: Nav, s: Route)
    requires Inv(c, n) && s.kind == Shared
    ensures Inv(c, Navigate(c, n, s))
  {
    NavigateSharedShape(c, n, s);
    SharedStepInv(c, n, s, DetachShared(n, s));
  }

  /** The registry a shared push builds from the detached stacks keeps the invariant. */
  lemma SharedStepInv(c: Config, n: Nav, s: Route, d: Stacks)
    requires Inv(c, n) && s.kind == Shared && |d| == |n.stacks|
    requires forall i :: 0 <= i < |n.stacks| ==> d[i] == Entry(n.stacks[i].key, RemoveFirst(n.stacks[i].value, s))
    ensures var m := |n.stacks|;
      Inv(c, Nav(d[..m - 1] + [Entry(n.active, d[m - 1].value + [s])], n.shared[s := n.active], n.active))
  {
    var m := |n.stacks|;
    var r := Nav(d[..m - 1] + [Entry(n.active, d[m - 1].value + [s])], n.shared[s := n.active], n.active);
    forall i | 0 <= i < m ensures WellFormedEntry(r.stacks[i], r.shared) {
      SharedStepEntry(c, n, s, d, i);
      if i < m - 1 {
        assert r.stacks[i] == d[i];
      }
    }
    InvSameKeys(c, n, r);
  }

  /** `MutableList.remove` on a concatenation: the first occurrence is in the front part if it is anywhere there. */
  lemma {:induction false} RemoveFirstConcat(a: seq<Route>, b: seq<Route>, x: Route)
    ensures RemoveFirst(a + b, x) == if x in a then RemoveFirst(a, x) + b else a + RemoveFirst(b, x)
  {
    if a == [] {
      assert a + b == b;
    } else if a[0] == x {
      assert (a + b)[1..] == a[1..] + b;
    } else {
      RemoveFirstConcat(a[1..], b, x);
      RemoveFirstConcatStep(a, b, x);
    }
  }

  /** The step of `RemoveFirstConcat` past a first element other than `x`. */
  lemma RemoveFirstConcatStep(a: seq<Route>, b: seq<Route>, x: Route)
    requires a != [] && a[0] != x
    requires RemoveFirst(a[1..] + b, x) == if x in a[1..] then RemoveFirst(a[1..], x) + b else a[1..] + RemoveFirst(b, x)
    ensures RemoveFirst(a + b, x) == if x in a then RemoveFirst(a, x) + b else a + RemoveFirst(b, x)
  {
    var t := a[1..];
    assert (a + b)[0] == a[0] && (a + b)[1..] == t + b;
    assert RemoveFirst(a + b, x) == [a[0]] + RemoveFirst(t + b, x);
    assert a == [a[0]] + t;
    if x in t {
      assert RemoveFirst(a, x) == [a[0]] + RemoveFirst(t, x);
      ConcatAssoc([a[0]], RemoveFirst(t, x), b);
    } else {
      assert x !in a;
      ConcatAssoc([a[0]], t, RemoveFirst(b, x));
    }
  }

  /** When `x` is live at most once, removing it from every stack is removing it from the back stack. */
  lemma {:induction false} FlattenRemoveFirst(a: Stacks, b: Stacks, x: Route)
    requires |a| == |b| && multiset(Flatten(a))[x] <= 1
    requires forall i :: 0 <= i < |a| ==> b[i].value == RemoveFirst(a[i].value, x)
    ensures Flatten(b) == RemoveFirst(Flatten(a), x)
  {
    if a != [] {
      var ap, va := a[..|a| - 1], a[|a| - 1].value;
      var bp, vb := b[..|b| - 1], b[|b| - 1].value;
      assert Flatten(a) == Flatten(ap) + va;
      assert Flatten(b) == Flatten(bp) + vb;
      assert multiset(Flatten(a)) == multiset(Flatten(ap)) + multiset(va);
      FlattenRemoveFirst(ap, bp, x);
      RemoveFirstConcat(Flatten(ap), va, x);
      if x in Flatten(ap) {
        assert x !in va;
        RemoveFirstCount(va, x);
        assert vb == va;
        assert Flatten(b) == RemoveFirst(Flatten(ap), x) + va;
      } else {
        RemoveFirstCount(Flatten(ap), x);
        assert Flatten(b) == Flatten(ap) + RemoveFirst(va, x);
      }
    }
  }

  /** Removing `x` from every stack and pushing it on the last one moves it to the top of the back stack. */
  lemma FlattenSharedPush(a: Stacks, b: Stacks, x: Route)
    requires |a| == |b| > 0 && multiset(Flatten(a))[x] <= 1
    requires forall i :: 0 <= i < |a| - 1 ==> b[i].value == RemoveFirst(a[i].value, x)
    requires b[|b| - 1].value == MoveToTop(a[|a| - 1].value, x)
    ensures Flatten(b) == MoveToTop(Flatten(a), x)
  {
    var m := |b|;
    var bp := b[..m - 1];
    forall i | 0 <= i < |bp| ensures bp[i].value == RemoveFirst(a[i].value, x) {
      assert bp[i] == b[i];
    }
    FlattenDetached(a, bp, b[m - 1].key, x);
    PushAfterConcat(Flatten(bp), RemoveFirst(a[m - 1].value, x), RemoveFirst(Flatten(a), x), x);
    assert Flatten(b) == Flatten(bp) + b[m - 1].value;
  }

  lemma ConcatAssoc<T>(p: seq<T>, q: seq<T>, r: seq<T>)
    ensures p + (q + r) == (p + q) + r
  {
  }

  lemma PushAfterConcat<T>(p: seq<T>, w: seq<T>, r: seq<T>, x: T)
    requires p + w == r
    ensures p + (w + [x]) == r + [x]
  {
  }

  /** The back stack with `x` removed from every stack. */
  lemma FlattenDetached(a: Stacks, bp: Stacks, k: Route, x: Route)
    requires |a| == |bp| + 1 && multiset(Flatten(a))[x] <= 1
    requires forall i :: 0 <= i < |bp| ==> bp[i].value == RemoveFirst(a[i].value, x)
    ensures Flatten(bp) + RemoveFirst(a[|bp|].value, x) == RemoveFirst(Flatten(a), x)
  {
    var e := Entry(k, RemoveFirst(a[|bp|].value, x));
    var b := bp + [e];
    forall i | 0 <= i < |a| ensures b[i].value == RemoveFirst(a[i].value, x) {
      if i < |bp| {
        assert b[i] == bp[i];
      }
    }
    FlattenRemoveFirst(a, b, x);
    FlattenAppend(bp, e);
  }

  /**
   * `navigate(s)` for a shared route: on the back stack, `s` is moved to the
   * top and is live exactly once; the registry keeps its keys and order, `s`
   * is recorded as owned by the active stack, and the invariant holds.
   */
  lemma NavigateSharedMovesToTop(c: Config, n: Nav, s: Route)
    requires Inv(c, n) && s.kind == Shared
    ensures Flatten(Navigate(c, n, s).stacks) == MoveToTop(Flatten(n.stacks), s)
    ensures multiset(Flatten(Navigate(c, n, s).stacks))[s] == 1
    ensures Keys(Navigate(c, n, s).stacks) == Keys(n.stacks)
    ensures Navigate(c, n, s).shared == n.shared[s := n.active] && Navigate(c, n, s).active == n.active
    ensures Inv(c, Navigate(c, n, s))
  {
    NavigateSharedShape(c, n, s);
    NavigateSharedKeepsInv(c, n, s);
    SharedRouteLiveOnce(c, n, s);
    var r := Navigate(c, n, s);
    FlattenSharedPush(n.stacks, r.stacks, s);
    var f := RemoveFirst(Flatten(n.stacks), s);
    assert multiset(f + [s]) == multiset(f) + multiset{s};
  }

  /**
   * Stack by stack: the stack that held `s` (its recorded owner's, if that
   * stack still exists) loses it, and the active stack gains it on top.
   */
  lemma NavigateSharedPerStack(c: Config, n: Nav, s: Route, k: Route)
    requires Inv(c, n) && s.kind == Shared && k in Keys(n.stacks)
    ensures k != n.active ==> Get(Navigate(c, n, s).stacks, k) == Some(RemoveFirst(Get(n.stacks, k).value, s))
    ensures k == n.active ==> Get(Navigate(c, n, s).stacks, k) == Some(MoveToTop(Get(n.stacks, k).value, s))
    ensures s in Get(n.stacks, k).value ==> s in n.shared && n.shared[s] == k
  {
    NavigateSharedShape(c, n, s);
    NavigateSharedKeepsInv(c, n, s);
    var r := Navigate(c, n, s);
    var i :| 0 <= i < |n.stacks| && Keys(n.stacks)[i] == k;
    GetMember(n.stacks, i);
    GetMember(r.stacks, i);
    assert WellFormedEntry(n.stacks[i], n.shared);
  }

  // ---------------------------------------------------------------------------
  // Every reachable state

  /** Every kind of `navigate` keeps the invariant. */
  lemma NavigateKeepsInv(c: Config, n: Nav, route: Route)
    requires Inv(c, n)
    ensures Inv(c, Navigate(c, n, route))
  {
    match route.kind
    case TopLevel =>
      if route == c.startRoute {
        NavigateStartResets(c, n);
      } else {
        NavigateTopLevelMovesLast(c, n, route);
      }
    case Shared => NavigateSharedKeepsInv(c, n, route);
    case Plain => NavigatePlainKeepsInv(c, n, route);
  }

  /** `goBack` on a state satisfying the invariant never throws and keeps the invariant. */
  lemma GoBackKeepsInv(c: Config, n: Nav)
    requires Inv(c, n)
    ensures GoBack(n).Some? && Inv(c, GoBack(n).value)
  {
    if |Flatten(n.stacks)| > 1 {
      GoBackPopsTop(c, n);
    }
  }

  /**
   * From construction on, any sequence of `navigate` and `goBack` calls runs
   * without an exception, and the invariant holds after it.
   */
  lemma {:induction false} RunKeepsInv(c: Config, n: Nav, actions: seq<Action>)
    requires Inv(c, n)
    ensures Run(c, n, actions).Some? && Inv(c, Run(c, n, actions).value)
    decreases |actions|
  {
    if actions != [] {
      match actions[0]
      case NavigateTo(route) =>
        NavigateKeepsInv(c, n, route);
        RunKeepsInv(c, Navigate(c, n, route), actions[1..]);
      case Back =>
        GoBackKeepsInv(c, n);
        RunKeepsInv(c, GoBack(n).value, actions[1..]);
    }
  }

  /** Every state reachable from construction satisfies the invariant. */
  lemma ReachableInv(c: Config, actions: seq<Action>)
    requires c.startRoute.kind == TopLevel
    ensures Run(c, Init(c), actions).Some? && Inv(c, Run(c, Init(c), actions).value)
  {
    InitState(c);
    RunKeepsInv(c, Init(c), actions);
  }

  // A walk through the app: from the home stack open a second tab, push a
  // shared detail screen onto it, and go back.

  const Home := Route("home", TopLevel)
  const Tab := Route("tab", TopLevel)
  const Detail := Route("detail", Shared)
  const Walk := Config(Home, true)

  /** With coexistence, a top-level route that has no stack yet gets `[route]` appended last. */
  lemma AddFreshTopLevel(c: Config, n: Nav, route: Route)
    requires route.kind == TopLevel && route != c.startRoute && c.canTopLevelRoutesExistTogether
    requires route !in Keys(n.stacks)
    ensures Navigate(c, n, route) == n.(stacks := n.stacks + [Entry(route, [route])], active := route)
  {
  }

  lemma OpenTabStep()
    ensures Navigate(Walk, Init(Walk), Tab) == Nav([Entry(Home, [Home]), Entry(Tab, [Tab])], map[], Tab)
  {
    assert Keys(Init(Walk).stacks) == [Home] && Tab != Home;
    AddFreshTopLevel(Walk, Init(Walk), Tab);
  }

  lemma PushDetailStep()
    ensures var s1 := [Entry(Home, [Home]), Entry(Tab, [Tab])];
      Navigate(Walk, Nav(s1, map[], Tab), Detail) == Nav([Entry(Home, [Home]), Entry(Tab, [Tab, Detail])], map[Detail := Tab], Tab)
  {
    var s1 := [Entry(Home, [Home]), Entry(Tab, [Tab])];
    var s2 := [Entry(Home, [Home]), Entry(Tab, [Tab, Detail])];
    assert DetachShared(Nav(s1, map[], Tab), Detail) == s1;
    assert Tab != Home && DistinctKeys(s1);
    GetMember(s1, 1);
    PutLast(s1, [Tab, Detail]);
    assert [Tab] + [Detail] == [Tab, Detail];
    assert s1[..1] + [Entry(Tab, [Tab, Detail])] == s2;
    assert PushActive(s1, Tab, Detail) == s2;
  }

  lemma BackStep()
    ensures var s2 := [Entry(Home, [Home]), Entry(Tab, [Tab, Detail])];
      GoBack(Nav(s2, map[Detail := Tab], Tab)) == Some(Nav([Entry(Home, [Home]), Entry(Tab, [Tab])], map[Detail := Tab], Tab))
  {
    var s1 := [Entry(Home, [Home]), Entry(Tab, [Tab])];
    var s2 := [Entry(Home, [Home]), Entry(Tab, [Tab, Detail])];
    assert Flatten(s2) == Flatten(s2[..1]) + [Tab, Detail];
    assert Tab != Home && DistinctKeys(s2);
    GetMember(s2, 1);
    PutLast(s2, [Tab]);
    assert [Tab, Detail][..1] == [Tab];
    assert s2[..1] + [Entry(Tab, [Tab])] == s1;
    assert PopActive(s2, Tab) == (s1, Some(Detail));
    assert Keys(s1) == [Home, Tab];
    assert Remove(s1, Detail) == s1;
  }

  /**
   * The walk itself: the back stack grows to home, tab, detail; going back
   * removes the detail screen, keeps its ownership record and the tab active.
   */
  lemma TabDetailBackScenario()
    ensures var n1 := Navigate(Walk, Init(Walk), Tab);
      var n2 := Navigate(Walk, n1, Detail);
      && Flatten(n1.stacks) == [Home, Tab]
      && Flatten(n2.stacks) == [Home, Tab, Detail]
      && GoBack(n2) == Some(n1.(shared := map[Detail := Tab]))
  {
    OpenTabStep();
    PushDetailStep();
    BackStep();
    WalkBackStacks();
  }

  /** The back stacks of the walk's two registries. */
  lemma WalkBackStacks()
    ensures Flatten([Entry(Home, [Home]), Entry(Tab, [Tab])]) == [Home, Tab]
    ensures Flatten([Entry(Home, [Home]), Entry(Tab, [Tab, Detail])]) == [Home, Tab, Detail]
  {
    FlattenTwo(Entry(Home, [Home]), Entry(Tab, [Tab]));
    FlattenTwo(Entry(Home, [Home]), Entry(Tab, [Tab, Detail]));
    assert [Home] + [Tab] == [Home, Tab];
    assert [Home] + [Tab, Detail] == [Home, Tab, Detail];
  }

  /** The back stack of a two-entry registry. */
  lemma FlattenTwo(a: Entry<Route, seq<Route>>, b: Entry<Route, seq<Route>>)
    ensures Flatten([a, b]) == a.value + b.value
  {
    assert [a, b][..1] == [a] && [a][..0] == [];
    assert Flatten([a]) == [] + a.value == a.value;
  }
}
