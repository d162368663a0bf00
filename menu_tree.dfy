/**
 * The translation of the `MenuBar` component's children into native menu
 * options, `transformReactMenuTreeToMenuItemConstructorOptions` in
 * app/src/components/MenuBar.tsx. Callbacks are values of the type parameter `F`.
 */
module MenuTree {
  import opened Wrappers

  /** A child element of the menu bar, by component type. */
  datatype MenuChild<F> =
    | MenuItem(labelText: string, accelerator: Option<string>, callback: F)
    | MenuCheckbox(labelText: string, accelerator: Option<string>, checked: bool, callback: F)
    | MenuSeparator
    | MenuGroup(labelText: string, children: MenuChildren<F>)
    | OtherComponent(name: string)

  /** React children: one element, or an array of them. */
  datatype MenuChildren<F> = Single(child: MenuChild<F>) | Several(list: seq<MenuChild<F>>)

  /**
   * A native menu option (`MenuItemConstructorOptions`), with the fields the menu
   * bar sets; an absent field is `None`. `C` is what a click is: a callback, or
   * the id of one once the template is rewritten for the main process.
   */
  datatype MenuOption<C> = MenuOption(
    itemType: Option<string>,
    labelText: Option<string>,
    accelerator: Option<string>,
    checked: Option<bool>,
    click: Option<C>,
    submenu: Submenu<C>)

  datatype Submenu<C> = NoSubmenu | Submenu(items: seq<MenuOption<C>>)

  const UnknownComponent := "Unknown component encountered in Menubar"

  /** The options for the children of a menu bar or group. */
  function Transform<F>(children: MenuChildren<F>): (r: Result<seq<MenuOption<F>>, string>)
    ensures r.Ok? && children.Single? ==> |r.value| == 1
    ensures r.Ok? && children.Several? ==> |r.value| == |children.list|
    ensures r.Err? ==> r.error == UnknownComponent
  {
    match children
    case Single(c) =>
      (match TransformChild(c)
       case Ok(o) => Ok([o])
       case Err(e) => Err(e))
    case Several(list) => TransformList(list)
  }

  /** `children.map(...)`: the first unknown child aborts the whole translation. */
  function TransformList<F>(list: seq<MenuChild<F>>): (r: Result<seq<MenuOption<F>>, string>)
    ensures r.Ok? ==> |r.value| == |list|
    ensures r.Err? ==> r.error == UnknownComponent
  {
    if list == [] then Ok([])
    else
      match TransformChild(list[0])
      case Err(e) => Err(e)
      case Ok(o) =>
        match TransformList(list[1..])
        case Err(e) => Err(e)
        case Ok(rest) => Ok([o] + rest)
  }

  /** The option for one child, by its component type. */
  function TransformChild<F>(c: MenuChild<F>): (r: Result<MenuOption<F>, string>)
    ensures c.OtherComponent? ==> r.Err?
    ensures r.Err? ==> r.error == UnknownComponent
    ensures r.Ok? ==> (r.value.click.Some? <==> c.MenuItem? || c.MenuCheckbox?)
    ensures r.Ok? ==> (r.value.submenu.Submenu? <==> c.MenuGroup?)
  {
    match c
    case MenuItem(labelText, accelerator, callback) =>
      Ok(MenuOption(None, Some(labelText), accelerator, None, Some(callback), NoSubmenu))
    case MenuCheckbox(labelText, accelerator, checked, callback) =>
      Ok(MenuOption(Some("checkbox"), Some(labelText), accelerator, Some(checked), Some(callback), NoSubmenu))
    case MenuSeparator =>
      Ok(MenuOption(Some("separator"), None, None, None, None, NoSubmenu))
    case MenuGroup(labelText, children) =>
      (match Transform(children)
       case Ok(items) => Ok(MenuOption(None, Some(labelText), None, None, None, Submenu(items)))
       case Err(e) => Err(e))
    case OtherComponent(_) =>
      Err(UnknownComponent)
  }

  /** A single child is translated as the one-element list holding it. */
  lemma SingleIsOneElementList<F>(c: MenuChild<F>)
    ensures Transform(Single(c)) == Transform(Several([c]))
  {
    assert [c][1..] == [];
    assert TransformList([c][1..]) == Ok([]);
    if TransformChild(c).Ok? {
      assert [TransformChild(c).value] + [] == [TransformChild(c).value];
    }
  }

  /**
   * A successful translation yields exactly one option per child, in order, each
   * the translation of its child; a failed one has a child that fails.
   */
  lemma {:induction false} TransformListPointwise<F>(list: seq<MenuChild<F>>)
    ensures TransformList(list).Ok? ==>
      && |TransformList(list).value| == |list|
      && forall i :: 0 <= i < |list| ==> TransformChild(list[i]) == Ok(TransformList(list).value[i])
    ensures TransformList(list).Err? <==> exists i :: 0 <= i < |list| && TransformChild(list[i]).Err?
  {
    if list != [] {
      TransformListPointwise(list[1..]);
      if TransformChild(list[0]).Ok? && TransformList(list[1..]).Ok? {
        var rest := TransformList(list[1..]).value;
        forall i | 0 <= i < |list| ensures TransformChild(list[i]) == Ok(TransformList(list).value[i]) {
          if i > 0 {
            assert list[i] == list[1..][i - 1];
          }
        }
      }
      if TransformList(list[1..]).Err? {
        var i :| 0 <= i < |list[1..]| && TransformChild(list[1..][i]).Err?;
        assert TransformChild(list[i + 1]).Err?;
      }
      if TransformList(list).Ok? {
        forall i | 0 <= i < |list| ensures TransformChild(list[i]).Ok? {
          if i > 0 {
            assert list[i] == list[1..][i - 1];
          }
        }
      }
    }
  }

  /** Some component, at any depth, is not one of the four menu components. */
  predicate HasUnknown<F>(children: MenuChildren<F>)
  {
    match children
    case Single(c) => ChildHasUnknown(c)
    case Several(list) => ListHasUnknown(list)
  }

  predicate ListHasUnknown<F>(list: seq<MenuChild<F>>)
  {
    list != [] && (ChildHasUnknown(list[0]) || ListHasUnknown(list[1..]))
  }

  predicate ChildHasUnknown<F>(c: MenuChild<F>)
  {
    match c
    case OtherComponent(_) => true
    case MenuGroup(_, children) => HasUnknown(children)
    case _ => false
  }

  /** The translation raises exactly when an unknown component occurs, and then with the source's message. */
  lemma {:induction false} TransformFailsOnUnknown<F>(children: MenuChildren<F>)
    ensures Transform(children).Err? <==> HasUnknown(children)
    ensures Transform(children).Err? ==> Transform(children).error == UnknownComponent
    decreases children, 1
  {
    match children
    case Single(c) => ChildFailsOnUnknown(c);
    case Several(list) => ListFailsOnUnknown(list);
  }

  lemma {:induction false} ListFailsOnUnknown<F>(list: seq<MenuChild<F>>)
    ensures TransformList(list).Err? <==> ListHasUnknown(list)
    ensures TransformList(list).Err? ==> TransformList(list).error == UnknownComponent
    decreases list
  {
    if list != [] {
      ChildFailsOnUnknown(list[0]);
      ListFailsOnUnknown(list[1..]);
    }
  }

  lemma {:induction false} ChildFailsOnUnknown<F>(c: MenuChild<F>)
    ensures TransformChild(c).Err? <==> ChildHasUnknown(c)
    ensures TransformChild(c).Err? ==> TransformChild(c).error == UnknownComponent
    decreases c
  {
    match c
    case MenuGroup(_, children) => TransformFailsOnUnknown(children);
    case _ =>
  }

  /**
   * The menu tree an option list describes: the inverse of the translation. A
   * submenu becomes a group of several children.
   */
  function Recover<F>(items: seq<MenuOption<F>>): seq<MenuChild<F>>
  {
    if items == [] then [] else [RecoverOption(items[0])] + Recover(items[1..])
  }

  /**
   * The child an option stands for, accepted only in exactly the shape the
   * translation gives that component: a group has a label and a submenu and
   * nothing else, a separator has its type and nothing else, a checkbox has its
   * type, label, checked state and click, an item has no type, no checked state,
   * a label and a click. Any other option stands for no menu component.
   */
  function RecoverOption<F>(o: MenuOption<F>): MenuChild<F>
  {
    if o.submenu.Submenu? then
      if o.itemType.None? && o.labelText.Some? && o.accelerator.None? && o.checked.None? && o.click.None?
      then MenuGroup(o.labelText.value, Several(Recover(o.submenu.items)))
      else OtherComponent("")
    else if o.itemType == Some("separator") then
      if o.labelText.None? && o.accelerator.None? && o.checked.None? && o.click.None?
      then MenuSeparator
      else OtherComponent("")
    else if o.itemType == Some("checkbox") then
      if o.labelText.Some? && o.checked.Some? && o.click.Some?
      then MenuCheckbox(o.labelText.value, o.accelerator, o.checked.value, o.click.value)
      else OtherComponent("")
    else if o.itemType.None? && o.labelText.Some? && o.checked.None? && o.click.Some?
    then MenuItem(o.labelText.value, o.accelerator, o.click.value)
    else OtherComponent("")
  }

  /** The tree with every single child written as a one-element list. */
  function Normalize<F>(children: MenuChildren<F>): MenuChildren<F>
  {
    match children
    case Single(c) => Several([NormalizeChild(c)])
    case Several(list) => Several(NormalizeList(list))
  }

  function NormalizeList<F>(list: seq<MenuChild<F>>): seq<MenuChild<F>>
  {
    if list == [] then [] else [NormalizeChild(list[0])] + NormalizeList(list[1..])
  }

  function NormalizeChild<F>(c: MenuChild<F>): MenuChild<F>
  {
    match c
    case MenuGroup(labelText, children) => MenuGroup(labelText, Normalize(children))
    case _ => c
  }

  /**
   * The translation loses nothing but the difference between a single child and
   * a one-element list: recovering the tree from the options gives the children
   * back, labels, accelerators, checked states, callbacks and nesting included.
   */
  lemma {:induction false} TransformRecovers<F>(children: MenuChildren<F>)
    requires Transform(children).Ok?
    ensures Several(Recover(Transform(children).value)) == Normalize(children)
    decreases children, 1
  {
    match children
    case Single(c) =>
      ChildRecovers(c);
      assert Recover([TransformChild(c).value]) == [RecoverOption(TransformChild(c).value)];
    case Several(list) =>
      ListRecovers(list);
  }

  lemma {:induction false} ListRecovers<F>(list: seq<MenuChild<F>>)
    requires TransformList(list).Ok?
    ensures Recover(TransformList(list).value) == NormalizeList(list)
    decreases list
  {
    if list != [] {
      ChildRecovers(list[0]);
      ListRecovers(list[1..]);
      var o := TransformChild(list[0]).value;
      var rest := TransformList(list[1..]).value;
      assert ([o] + rest)[1..] == rest;
    }
  }

  lemma {:induction false} ChildRecovers<F>(c: MenuChild<F>)
    requires TransformChild(c).Ok?
    ensures RecoverOption(TransformChild(c).value) == NormalizeChild(c)
    decreases c
  {
    match c
    case MenuGroup(_, children) => TransformRecovers(children);
    case _ =>
  }

  /**
   * The other direction of the round trip: an option list that stands for a tree
   * of menu components is exactly the translation of that tree. With
   * `TransformRecovers`, the translation's output is fixed field by field.
   */
  lemma {:induction false} RecoveredTransforms<F>(items: seq<MenuOption<F>>)
    requires !ListHasUnknown(Recover(items))
    ensures TransformList(Recover(items)) == Ok(items)
    decreases items
  {
    if items != [] {
      assert Recover(items)[0] == RecoverOption(items[0]);
      assert Recover(items)[1..] == Recover(items[1..]);
      OptionRecoveredTransforms(items[0]);
      RecoveredTransforms(items[1..]);
      assert items == [items[0]] + items[1..];
    }
  }

  lemma {:induction false} OptionRecoveredTransforms<F>(o: MenuOption<F>)
    requires !ChildHasUnknown(RecoverOption(o))
    ensures TransformChild(RecoverOption(o)) == Ok(o)
    decreases o
  {
    if o.submenu.Submenu? {
      RecoveredTransforms(o.submenu.items);
    }
  }

  /**
   * The translation of a tree is the only option list that stands for it: any
   * list recovering to the same tree is that translation.
   */
  lemma TransformIsExact<F>(children: MenuChildren<F>, items: seq<MenuOption<F>>)
    requires Transform(children).Ok?
    requires Recover(items) == Recover(Transform(children).value)
    ensures items == Transform(children).value
  {
    TransformRecovers(children);
    TransformFailsOnUnknown(children);
    NormalizeKeepsKnown(children);
    RecoveredTransforms(items);
    RecoveredTransforms(Transform(children).value);
  }

  /** Writing single children as lists adds no unknown component. */
  lemma {:induction false} NormalizeKeepsKnown<F>(children: MenuChildren<F>)
    requires !HasUnknown(children)
    ensures !HasUnknown(Normalize(children))
    ensures Normalize(children).Several?
    decreases children, 1
  {
    match children
    case Single(c) =>
      NormalizeChildKeepsKnown(c);
      assert [NormalizeChild(c)][1..] == [];
      assert !ListHasUnknown([NormalizeChild(c)][1..]);
    case Several(list) =>
      NormalizeListKeepsKnown(list);
  }

  lemma {:induction false} NormalizeListKeepsKnown<F>(list: seq<MenuChild<F>>)
    requires !ListHasUnknown(list)
    ensures !ListHasUnknown(NormalizeList(list))
    decreases list
  {
    if list != [] {
      NormalizeChildKeepsKnown(list[0]);
      NormalizeListKeepsKnown(list[1..]);
      assert NormalizeList(list)[1..] == NormalizeList(list[1..]);
    }
  }

  lemma {:induction false} NormalizeChildKeepsKnown<F>(c: MenuChild<F>)
    requires !ChildHasUnknown(c)
    ensures !ChildHasUnknown(NormalizeChild(c))
    decreases c
  {
    match c
    case MenuGroup(_, children) => NormalizeKeepsKnown(children);
    case _ =>
  }
}
