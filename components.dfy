/**
 * The controls attached to a page with more than one page (lines 32-72 of
 * SapphireTemplatePaginatedMessage.ts). The action registry is walked in
 * insertion order: a button action becomes one button, the select action
 * with the "go to page" id becomes one select menu, and any other action
 * becomes nothing.
 */
module Components {
  import opened Wrappers
  import opened MenuOptions

  /** The custom id of the page-jump select action. */
  const GoToPageId: string := "@sapphire/paginated-messages.goToPage"

  /**
   * An entry of the action registry (`PaginatedMessageAction`). A select
   * action may carry an `options` list of its own; the handler is not modelled.
   */
  datatype Action =
    | ButtonAction(customId: string, style: nat, emoji: string)
    | SelectMenuAction(customId: string, placeholder: string, ownOptions: Option<seq<SelectOption>>)

  /** A built control: a `MessageButton` or a `MessageSelectMenu`. */
  datatype Component =
    | Button(customId: string, style: nat, emoji: string)
    | SelectMenu(customId: string, placeholder: string, options: seq<SelectOption>)

  predicate IsGoToPageAction(a: Action) {
    a.SelectMenuAction? && a.customId == GoToPageId
  }

  /** The options computed for the page-jump menu of n pages. */
  function MenuOptionsFor(n: nat, hook: LabelHook, ctx: MenuContext): seq<SelectOption> {
    if n > MaxOptions then SampledOptions(n) else StandardOptions(n, hook, ctx)
  }

  /**
   * `new MessageSelectMenu({ options, ...interaction })`: the action's fields
   * are spread after the computed options, so options of its own win.
   */
  function MenuFor(a: Action, computed: seq<SelectOption>): Component
    requires a.SelectMenuAction?
  {
    SelectMenu(a.customId, a.placeholder, if a.ownOptions.Some? then a.ownOptions.value else computed)
  }

  /** What one registry entry contributes to the component list. */
  function ActionComponents(a: Action, n: nat, hook: LabelHook, ctx: MenuContext): seq<Component> {
    match a
    case ButtonAction(id, style, emoji) => [Button(id, style, emoji)]
    case SelectMenuAction(id, _, _) =>
      if id == GoToPageId then [MenuFor(a, MenuOptionsFor(n, hook, ctx))] else []
  }

  /** The component list for the whole registry, in registry order. */
  function ComponentsFor(actions: seq<Action>, n: nat, hook: LabelHook, ctx: MenuContext): seq<Component>
    decreases |actions|
  {
    if actions == [] then []
    else ActionComponents(actions[0], n, hook, ctx) + ComponentsFor(actions[1..], n, hook, ctx)
  }

  /** The loop of lines 32-72. */
  method BuildComponents(actions: seq<Action>, n: nat, hook: LabelHook, ctx: MenuContext)
    returns (components: seq<Component>)
    ensures components == ComponentsFor(actions, n, hook, ctx)
  {
    components := [];
    for i := 0 to |actions|
      invariant components == ComponentsFor(actions[..i], n, hook, ctx)
    {
      var action := actions[i];
      match action {
        case ButtonAction(id, style, emoji) =>
          components := components + [Button(id, style, emoji)];
        case SelectMenuAction(id, _, _) =>
          if id == GoToPageId {
            var options;
            if n > MaxOptions {
              options := ChunkedOptions(n);
            } else {
              options := StandardOptions(n, hook, ctx);
            }
            components := components + [MenuFor(action, options)];
          }
      }
      assert actions[..i + 1] == actions[..i] + [action];
      ComponentsForAppend(actions[..i], [action], n, hook, ctx);
      assert ComponentsFor([action], n, hook, ctx) == ActionComponents(action, n, hook, ctx);
    }
    assert actions[..|actions|] == actions;
  }

  /** Components of consecutive stretches of the registry come out in that order. */
  lemma {:induction false} ComponentsForAppend(a: seq<Action>, b: seq<Action>, n: nat, hook: LabelHook, ctx: MenuContext)
    ensures ComponentsFor(a + b, n, hook, ctx) == ComponentsFor(a, n, hook, ctx) + ComponentsFor(b, n, hook, ctx)
    decreases |a|
  {
    if a == [] {
      assert a + b == b;
    } else {
      assert (a + b)[0] == a[0];
      assert (a + b)[1..] == a[1..] + b;
      ComponentsForAppend(a[1..], b, n, hook, ctx);
    }
  }

  /** The buttons a registry yields: one per button action, in registry order. */
  function ButtonsOf(actions: seq<Action>): seq<Component>
    decreases |actions|
  {
    if actions == [] then []
    else (match actions[0]
          case ButtonAction(id, style, emoji) => [Button(id, style, emoji)]
          case SelectMenuAction(_, _, _) => []) + ButtonsOf(actions[1..])
  }

  /** The buttons among a list of components, in order. */
  function ButtonComponents(cs: seq<Component>): seq<Component>
    decreases |cs|
  {
    if cs == [] then []
    else (if cs[0].Button? then [cs[0]] else []) + ButtonComponents(cs[1..])
  }

  lemma {:induction false} ButtonComponentsAppend(a: seq<Component>, b: seq<Component>)
    ensures ButtonComponents(a + b) == ButtonComponents(a) + ButtonComponents(b)
    decreases |a|
  {
    if a == [] {
      assert a + b == b;
    } else {
      assert (a + b)[0] == a[0];
      assert (a + b)[1..] == a[1..] + b;
      ButtonComponentsAppend(a[1..], b);
    }
  }

  /** Every button action yields exactly one button, and the buttons keep registry order. */
  lemma {:induction false} ButtonsInRegistryOrder(actions: seq<Action>, n: nat, hook: LabelHook, ctx: MenuContext)
    ensures ButtonComponents(ComponentsFor(actions, n, hook, ctx)) == ButtonsOf(actions)
    decreases |actions|
  {
    if actions != [] {
      var head := ActionComponents(actions[0], n, hook, ctx);
      ButtonComponentsAppend(head, ComponentsFor(actions[1..], n, hook, ctx));
      ButtonsInRegistryOrder(actions[1..], n, hook, ctx);
      if head != [] {
        assert head[1..] == [];
      }
    }
  }

  /**
   * Every select menu in the list comes from a "go to page" action: it has
   * that action's id, and when the action brings no options of its own it
   * holds the computed page options.
   */
  lemma {:induction false} MenusAreGoToPage(actions: seq<Action>, n: nat, hook: LabelHook, ctx: MenuContext, k: nat)
    requires k < |ComponentsFor(actions, n, hook, ctx)|
    requires ComponentsFor(actions, n, hook, ctx)[k].SelectMenu?
    ensures ComponentsFor(actions, n, hook, ctx)[k].customId == GoToPageId
    ensures exists a :: (a in actions && IsGoToPageAction(a) &&
                         ComponentsFor(actions, n, hook, ctx)[k] == MenuFor(a, MenuOptionsFor(n, hook, ctx)))
    decreases |actions|
  {
    var head := ActionComponents(actions[0], n, hook, ctx);
    if k < |head| {
      assert actions[0] in actions;
    } else {
      MenusAreGoToPage(actions[1..], n, hook, ctx, k - |head|);
      var a :| a in actions[1..] && IsGoToPageAction(a) &&
        ComponentsFor(actions[1..], n, hook, ctx)[k - |head|] == MenuFor(a, MenuOptionsFor(n, hook, ctx));
      assert a in actions;
    }
  }

  function CountButtons(actions: seq<Action>): nat
    decreases |actions|
  {
    if actions == [] then 0 else (if actions[0].ButtonAction? then 1 else 0) + CountButtons(actions[1..])
  }

  function CountGoToPage(actions: seq<Action>): nat
    decreases |actions|
  {
    if actions == [] then 0 else (if IsGoToPageAction(actions[0]) then 1 else 0) + CountGoToPage(actions[1..])
  }

  /** One component per button action and per "go to page" action, none for anything else. */
  lemma {:induction false} ComponentsCount(actions: seq<Action>, n: nat, hook: LabelHook, ctx: MenuContext)
    ensures |ComponentsFor(actions, n, hook, ctx)| == CountButtons(actions) + CountGoToPage(actions)
    decreases |actions|
  {
    if actions != [] {
      ComponentsCount(actions[1..], n, hook, ctx);
    }
  }

  /** The registry is keyed by custom id: no two entries share one. */
  predicate DistinctIds(actions: seq<Action>) {
    forall i, j :: 0 <= i < j < |actions| ==> actions[i].customId != actions[j].customId
  }

  lemma {:induction false} NoGoToPage(actions: seq<Action>)
    requires forall i :: 0 <= i < |actions| ==> actions[i].customId != GoToPageId
    ensures CountGoToPage(actions) == 0
    decreases |actions|
  {
    if actions != [] {
      NoGoToPage(actions[1..]);
    }
  }

  /** How many select menus a component list holds. */
  function CountMenus(cs: seq<Component>): nat
    decreases |cs|
  {
    if cs == [] then 0 else (if cs[0].SelectMenu? then 1 else 0) + CountMenus(cs[1..])
  }

  /** The list holds exactly one select menu per "go to page" action. */
  lemma {:induction false} MenusCount(actions: seq<Action>, n: nat, hook: LabelHook, ctx: MenuContext)
    ensures CountMenus(ComponentsFor(actions, n, hook, ctx)) == CountGoToPage(actions)
    decreases |actions|
  {
    if actions != [] {
      var head := ActionComponents(actions[0], n, hook, ctx);
      var tail := ComponentsFor(actions[1..], n, hook, ctx);
      CountMenusAppend(head, tail);
      MenusCount(actions[1..], n, hook, ctx);
      if head != [] {
        assert head[1..] == [];
      }
    }
  }

  lemma {:induction false} CountMenusAppend(a: seq<Component>, b: seq<Component>)
    ensures CountMenus(a + b) == CountMenus(a) + CountMenus(b)
    decreases |a|
  {
    if a == [] {
      assert a + b == b;
    } else {
      assert (a + b)[0] == a[0];
      assert (a + b)[1..] == a[1..] + b;
      CountMenusAppend(a[1..], b);
    }
  }

  /**
   * A registry keyed by custom id has at most one "go to page" action, so the
   * component list holds at most one select menu.
   */
  lemma {:induction false} AtMostOneMenu(actions: seq<Action>, n: nat, hook: LabelHook, ctx: MenuContext)
    requires DistinctIds(actions)
    ensures CountGoToPage(actions) <= 1
    ensures CountMenus(ComponentsFor(actions, n, hook, ctx)) <= 1
  {
    MenusCount(actions, n, hook, ctx);
    AtMostOneGoToPage(actions);
  }

  lemma {:induction false} AtMostOneGoToPage(actions: seq<Action>)
    requires DistinctIds(actions)
    ensures CountGoToPage(actions) <= 1
    decreases |actions|
  {
    if actions != [] {
      if IsGoToPageAction(actions[0]) {
        forall i | 0 <= i < |actions[1..]|
          ensures actions[1..][i].customId != GoToPageId
        {
          assert actions[1..][i] == actions[i + 1];
        }
        NoGoToPage(actions[1..]);
      } else {
        AtMostOneGoToPage(actions[1..]);
      }
    }
  }
}
