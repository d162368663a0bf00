/**
 * `setMenu` in app/src/components/MenuBar.tsx: the menu template is rewritten
 * for the main process, each click callback replaced by a fresh id that a
 * listener table maps back to the callback; a click message from the main
 * process then calls the callback registered under its id.
 */
module MenuTemplate {
  import opened Wrappers
  import opened MenuTree

  /** A listener id (a fresh uuid in the source, a counter value here). */
  type ListenerId = nat

  /** Number of options with a click, at any depth. */
  function ClickCount<C>(x: seq<MenuOption<C>>): nat
  {
    if x == [] then 0 else OptionClickCount(x[0]) + ClickCount(x[1..])
  }

  function OptionClickCount<C>(o: MenuOption<C>): nat
  {
    (if o.click.Some? then 1 else 0) + (if o.submenu.Submenu? then ClickCount(o.submenu.items) else 0)
  }

  /** The ids of the clicks of a rewritten template, in pre-order (the order they are handed out). */
  function ClickIds(y: seq<MenuOption<ListenerId>>): seq<ListenerId>
  {
    if y == [] then [] else ClickIds(y[..|y| - 1]) + OptionClickIds(y[|y| - 1])
  }

  function OptionClickIds(p: MenuOption<ListenerId>): seq<ListenerId>
  {
    (if p.click.Some? then [p.click.value] else [])
    + (if p.submenu.Submenu? then ClickIds(p.submenu.items) else [])
  }

  /** `ids` are the `n` consecutive ids from `lo`: each one new, none repeated. */
  ghost predicate Consecutive(ids: seq<ListenerId>, lo: nat, n: nat)
  {
    |ids| == n && forall k :: 0 <= k < n ==> ids[k] == lo + k
  }

  /** Two runs of consecutive ids, the second starting where the first stops, make one run. */
  lemma ConsecutiveAppend(a: seq<ListenerId>, b: seq<ListenerId>, lo: nat, n: nat, m: nat)
    requires Consecutive(a, lo, n) && Consecutive(b, lo + n, m)
    ensures Consecutive(a + b, lo, n + m)
  {
    forall k | 0 <= k < n + m ensures (a + b)[k] == lo + k {
      if k >= n {
        assert (a + b)[k] == b[k - n];
      }
    }
  }

  /** Consecutive ids are pairwise distinct, so no two clicks share a listener. */
  lemma ConsecutiveDistinct(ids: seq<ListenerId>, lo: nat, n: nat, i: int, j: int)
    requires Consecutive(ids, lo, n) && 0 <= i < j < n
    ensures ids[i] != ids[j]
  {
  }

  /**
   * `y` is `x` rewritten against the table `listeners`: same options, same
   * fields, same nesting, and where `x` has a click `y` has an id under which
   * the table holds that click.
   */
  ghost predicate Rewritten<F>(x: seq<MenuOption<F>>, y: seq<MenuOption<ListenerId>>, listeners: map<ListenerId, F>)
  {
    |x| == |y| && forall i :: 0 <= i < |x| ==> OptionRewritten(x[i], y[i], listeners)
  }

  ghost predicate OptionRewritten<F>(o: MenuOption<F>, p: MenuOption<ListenerId>, listeners: map<ListenerId, F>)
  {
    && p.itemType == o.itemType && p.labelText == o.labelText
    && p.accelerator == o.accelerator && p.checked == o.checked
    && p.click.Some? == o.click.Some?
    && (o.click.Some? ==> p.click.value in listeners && listeners[p.click.value] == o.click.value)
    && p.submenu.Submenu? == o.submenu.Submenu?
    && (o.submenu.Submenu? ==> Rewritten(o.submenu.items, p.submenu.items, listeners))
  }

  /** A rewritten template stays rewritten when the table only grows. */
  lemma {:induction false} RewrittenGrows<F>(x: seq<MenuOption<F>>, y: seq<MenuOption<ListenerId>>,
                                              small: map<ListenerId, F>, large: map<ListenerId, F>)
    requires Rewritten(x, y, small)
    requires forall id :: id in small ==> id in large && large[id] == small[id]
    ensures Rewritten(x, y, large)
    decreases x
  {
    forall i | 0 <= i < |x| ensures OptionRewritten(x[i], y[i], large) {
      OptionRewrittenGrows(x[i], y[i], small, large);
    }
  }

  lemma {:induction false} OptionRewrittenGrows<F>(o: MenuOption<F>, p: MenuOption<ListenerId>,
                                                    small: map<ListenerId, F>, large: map<ListenerId, F>)
    requires OptionRewritten(o, p, small)
    requires forall id :: id in small ==> id in large && large[id] == small[id]
    ensures OptionRewritten(o, p, large)
    decreases o
  {
    if o.submenu.Submenu? {
      RewrittenGrows(o.submenu.items, p.submenu.items, small, large);
    }
  }

  /** The template a rewritten one stands for: every id looked up in the table. */
  function Resolve<F>(y: seq<MenuOption<ListenerId>>, listeners: map<ListenerId, F>): seq<MenuOption<F>>
  {
    if y == [] then [] else [ResolveOption(y[0], listeners)] + Resolve(y[1..], listeners)
  }

  function ResolveOption<F>(p: MenuOption<ListenerId>, listeners: map<ListenerId, F>): MenuOption<F>
  {
    MenuOption(p.itemType, p.labelText, p.accelerator, p.checked,
               if p.click.Some? && p.click.value in listeners then Some(listeners[p.click.value]) else None,
               if p.submenu.Submenu? then Submenu(Resolve(p.submenu.items, listeners)) else NoSubmenu)
  }

  /**
   * Round trip: looking every id of a rewritten template up in its table gives
   * the original template back, so each click in the main process's menu reaches
   * the callback of the option it was shown for.
   */
  lemma {:induction false} ResolveRewritten<F>(x: seq<MenuOption<F>>, y: seq<MenuOption<ListenerId>>,
                                               listeners: map<ListenerId, F>)
    requires Rewritten(x, y, listeners)
    ensures Resolve(y, listeners) == x
    decreases x
  {
    if x != [] {
      assert OptionRewritten(x[0], y[0], listeners);
      ResolveOptionRewritten(x[0], y[0], listeners);
      assert Rewritten(x[1..], y[1..], listeners) by {
        forall i | 0 <= i < |x[1..]| ensures OptionRewritten(x[1..][i], y[1..][i], listeners) {
          assert OptionRewritten(x[i + 1], y[i + 1], listeners);
        }
      }
      ResolveRewritten(x[1..], y[1..], listeners);
      assert x == [x[0]] + x[1..];
    }
  }

  lemma {:induction false} ResolveOptionRewritten<F>(o: MenuOption<F>, p: MenuOption<ListenerId>,
                                                     listeners: map<ListenerId, F>)
    requires OptionRewritten(o, p, listeners)
    ensures ResolveOption(p, listeners) == o
    decreases o
  {
    if o.submenu.Submenu? {
      ResolveRewritten(o.submenu.items, p.submenu.items, listeners);
    }
  }

  /**
   * The listener table of the menu most recently set, and the source of fresh
   * ids (which, like uuids, are never handed out twice).
   */
  class MenuListeners<F> {
    var listeners: map<ListenerId, F>
    var nextId: ListenerId

    /** Every id in the table has been handed out. */
    ghost predicate Valid()
      reads this
    {
      forall id :: id in listeners ==> id < nextId
    }

    constructor()
      ensures Valid() && listeners == map[] && nextId == 0
    {
      listeners := map[];
      nextId := 0;
    }

    /** `transformClick`: registers `click` under a fresh id and returns the id. */
    method TransformClick(click: F) returns (id: ListenerId)
      requires Valid()
      modifies this
      ensures Valid()
      ensures id == old(nextId) && id !in old(listeners)
      ensures listeners == old(listeners)[id := click] && nextId == old(nextId) + 1
    {
      id := nextId;
      listeners := listeners[id := click];
      nextId := nextId + 1;
    }

    /**
     * `transformMenuTemplate`: rewrites every option in order, registering the
     * clicks under consecutive fresh ids (an option's own click before those of
     * its submenu).
     */
    method TransformTemplate(x: seq<MenuOption<F>>) returns (y: seq<MenuOption<ListenerId>>)
      requires Valid()
      modifies this
      decreases x
      ensures Valid()
      ensures Rewritten(x, y, listeners)
      ensures nextId == old(nextId) + ClickCount(x)
      ensures Consecutive(ClickIds(y), old(nextId), ClickCount(x))
      ensures forall id :: id in listeners <==> id in old(listeners) || old(nextId) <= id < nextId
      ensures forall id :: id in old(listeners) ==> listeners[id] == old(listeners)[id]
    {
      y := [];
      var i := 0;
      while i < |x|
        invariant Valid()
        invariant 0 <= i <= |x| && Rewritten(x[..i], y, listeners)
        invariant old(nextId) <= nextId == old(nextId) + ClickCount(x) - ClickCount(x[i..])
        invariant Consecutive(ClickIds(y), old(nextId), nextId - old(nextId))
        invariant forall id :: id in listeners <==> id in old(listeners) || old(nextId) <= id < nextId
        invariant forall id :: id in old(listeners) ==> listeners[id] == old(listeners)[id]
      {
        ClickCountSplit(x, i);
        ghost var before := listeners;
        ghost var mid := nextId;
        var p := TransformOption(x[i]);
        RewrittenGrows(x[..i], y, before, listeners);
        assert x[..i + 1] == x[..i] + [x[i]];
        ConsecutiveAppend(ClickIds(y), OptionClickIds(p), old(nextId), mid - old(nextId), nextId - mid);
        assert (y + [p])[..|y|] == y;
        y := y + [p];
        i := i + 1;
      }
      assert x[..i] == x;
    }

    /** One option of the template, with its click and its submenu rewritten. */
    method TransformOption(o: MenuOption<F>) returns (p: MenuOption<ListenerId>)
      requires Valid()
      modifies this
      decreases o
      ensures Valid()
      ensures OptionRewritten(o, p, listeners)
      ensures o.click.Some? ==> p.click == Some(old(nextId))
      ensures nextId == old(nextId) + OptionClickCount(o)
      ensures Consecutive(OptionClickIds(p), old(nextId), OptionClickCount(o))
      ensures forall id :: id in listeners <==> id in old(listeners) || old(nextId) <= id < nextId
      ensures forall id :: id in old(listeners) ==> listeners[id] == old(listeners)[id]
    {
      var click: Option<ListenerId> := None;
      if o.click.Some? {
        var id := TransformClick(o.click.value);
        click := Some(id);
      }
      ghost var own: seq<ListenerId> := if click.Some? then [click.value] else [];
      var submenu: Submenu<ListenerId> := NoSubmenu;
      if o.submenu.Submenu? {
        ghost var mid := nextId;
        var items := TransformTemplate(o.submenu.items);
        ConsecutiveAppend(own, ClickIds(items), old(nextId), mid - old(nextId), nextId - mid);
        submenu := Submenu(items);
      }
      p := MenuOption(o.itemType, o.labelText, o.accelerator, o.checked, click, submenu);
    }

    /**
     * `setMenu`: a new, empty table holds the listeners of the rewritten template,
     * which is what the main process receives.
     */
    method SetMenu(menu: seq<MenuOption<F>>) returns (transformed: seq<MenuOption<ListenerId>>)
      requires Valid()
      modifies this
      ensures Valid()
      ensures Rewritten(menu, transformed, listeners)
      ensures Resolve(transformed, listeners) == menu
      ensures forall id :: id in listeners <==> old(nextId) <= id < nextId
      ensures nextId == old(nextId) + ClickCount(menu)
      ensures Consecutive(ClickIds(transformed), old(nextId), ClickCount(menu))
      ensures forall id :: id in listeners <==> id in ClickIds(transformed)
    {
      listeners := map[];
      transformed := TransformTemplate(menu);
      ResolveRewritten(menu, transformed, listeners);
      forall id | id in listeners ensures id in ClickIds(transformed) {
        assert ClickIds(transformed)[id - old(nextId)] == id;
      }
    }

    /** A click message from the main process: the callback registered under `id`, if any. */
    function ClickTarget(id: ListenerId): (r: Option<F>)
      reads this
      ensures r.Some? <==> id in listeners
      ensures r.Some? ==> r.value == listeners[id]
    {
      if id in listeners then Some(listeners[id]) else None
    }
  }

  lemma {:induction false} ClickCountSplit<C>(x: seq<MenuOption<C>>, i: nat)
    requires i < |x|
    ensures ClickCount(x[i..]) == OptionClickCount(x[i]) + ClickCount(x[i + 1..])
  {
    assert x[i..][1..] == x[i + 1..];
  }
}
