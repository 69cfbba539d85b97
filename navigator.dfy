/**
 * The navigator itself (SapphireTemplatePaginatedMessage.ts): its page list,
 * the resolved-page list the render reads from, the current index, the
 * action registry, the navigator-wide payload data and the response handle.
 */
module Navigator {
  import opened Wrappers
  import opened Decimal
  import opened MenuOptions
  import opened Components
  import opened Pages
  import opened Dispatch

  /** Why a render can stop before anything is shown. */
  datatype RenderError =
    | PageResolutionFailed  // the page callback's promise rejected
    | DispatchFailed        // the transport call's promise rejected

  class TemplatePaginatedMessage {
    var pages: seq<PageEntry>
    var messages: seq<Option<PageEntry>>
    var index: nat
    var actions: seq<Action>
    var paginatedMessageData: Option<Payload>
    var response: Option<Response>

    /**
     * A navigator on the given pages, resolved pages and registry, at page 0.
     * The starting response (None before any render) is the base class's
     * business and is taken as given.
     */
    constructor (pages: seq<PageEntry>, messages: seq<Option<PageEntry>>, actions: seq<Action>, data: Option<Payload>,
                 response: Option<Response>)
      ensures this.pages == pages && this.messages == messages
      ensures index == 0 && this.actions == actions && paginatedMessageData == data
      ensures this.response == response
    {
      this.pages := pages;
      this.messages := messages;
      index := 0;
      this.actions := actions;
      paginatedMessageData := data;
      this.response := response;
    }

    /** `addPage`: appends the page to `pages` (and to nothing else) and returns the navigator. */
    method AddPage(page: PageEntry) returns (self: TemplatePaginatedMessage)
      modifies this`pages
      ensures pages == old(pages) + [page]
      ensures self == this
    {
      pages := pages + [page];
      self := this;
    }

    /** The page about to be shown, resolved, or None when its callback rejected. */
    function CurrentPage(resolver: PageResolver): Option<Payload>
      reads this
    {
      ResolvePage(EntryAt(messages, index), index, pages, resolver)
    }

    /**
     * `setUpMessage`: builds the payload of the current page and picks the
     * call that shows it. `resolver` gives what each page callback resolves
     * to, `hook` is `selectMenuOptions`, `stored` is the current
     * `replied`/`deferred` state of the stored interaction (read only when the
     * response is one), and `sent` is what the transport call resolves to
     * (None when it rejects). Only `response` changes, and
     * only on the first render whose call succeeds.
     */
    method SetUpMessage(trigger: Trigger, targetUser: nat, resolver: PageResolver, hook: LabelHook,
                        stored: Acknowledgement, sent: Option<Delivered>)
      returns (r: Result<Call, RenderError>)
      requires sent.Some? ==> ResolvesAs(Decide(response, stored, trigger), sent.value)
      modifies this`response
      ensures CurrentPage(resolver).None? ==> r == Err(PageResolutionFailed) && response == old(response)
      ensures CurrentPage(resolver).Some? ==>
        var page := OutgoingPage(CurrentPage(resolver).value, paginatedMessageData, |pages|, actions,
                                 hook, ContextFor(trigger, targetUser));
        var d := CallFor(old(response), stored, trigger, page);
        r == (if d.op.NoDispatch? || sent.Some? then Ok(d) else Err(DispatchFailed)) &&
        response == NextResponse(old(response), sent)
    {
      var resolved := CurrentPage(resolver);
      if resolved.None? {
        return Err(PageResolutionFailed);
      }
      var page := Merge(resolved.value, paginatedMessageData);
      if |pages| > 1 {
        var components := BuildComponents(actions, |pages|, hook, ContextFor(trigger, targetUser));
        page := page[ComponentsField := PartitionedRows(components)];
      }
      var d := CallFor(response, stored, trigger, page);
      if d.op.NoDispatch? {
        return Ok(d);
      }
      if sent.None? {
        return Err(DispatchFailed);
      }
      if response.None? {
        response := Some(AsResponse(sent.value));
      }
      r := Ok(d);
    }
  }

  /**
   * What a render with 2 to 25 pages sends as its page menu: the outgoing
   * payload's `components` are the rows of the registry's list, and a menu in
   * that list, when its go-to-page action brings no options of its own, has
   * exactly one option per page, option k being the label hook's option for
   * the 1-based page k + 1, told this render's viewer, channel and guild,
   * with value k.
   */
  lemma RenderedStandardMenu(resolved: Payload, data: Option<Payload>, n: nat, actions: seq<Action>,
                             hook: LabelHook, trigger: Trigger, targetUser: nat, m: nat)
    requires 2 <= n <= MaxOptions
    requires forall a :: a in actions && IsGoToPageAction(a) ==> a.ownOptions.None?
    requires m < |ComponentsFor(actions, n, hook, ContextFor(trigger, targetUser))|
    requires ComponentsFor(actions, n, hook, ContextFor(trigger, targetUser))[m].SelectMenu?
    ensures var ctx := ContextFor(trigger, targetUser);
      var cs := ComponentsFor(actions, n, hook, ctx);
      OutgoingPage(resolved, data, n, actions, hook, ctx)[ComponentsField] == PartitionedRows(cs) &&
      cs[m].customId == GoToPageId &&
      |cs[m].options| == n &&
      forall k :: 0 <= k < n ==>
        cs[m].options[k] == PageOption(hook, ctx, k) &&
        IsDigits(cs[m].options[k].value) && OptionIndex(cs[m].options[k]) == k &&
        cs[m].options[k].text == hook(k + 1, ctx).text
  {
    var ctx := ContextFor(trigger, targetUser);
    MultiPageControls(resolved, data, n, actions, hook, ctx);
    MenusAreGoToPage(actions, n, hook, ctx, m);
    var a :| a in actions && IsGoToPageAction(a) &&
      ComponentsFor(actions, n, hook, ctx)[m] == MenuFor(a, MenuOptionsFor(n, hook, ctx));
    StandardOptionsShape(n, hook, ctx);
  }
}
