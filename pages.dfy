/**
 * The message payload of one render (lines 20-30 and 74 of
 * SapphireTemplatePaginatedMessage.ts): the current page is resolved, the
 * navigator-wide options are spread over it, and with more than one page its
 * `components` field is set to the built controls.
 */
module Pages {
  import opened Wrappers
  import opened MenuOptions
  import opened Components

  /** The payload field that holds the message's controls. */
  const ComponentsField: string := "components"

  /**
   * A payload field's value. Content, embeds and the like are opaque;
   * `PartitionedRows(cs)` is the row layout `createPartitionedMessageRow`
   * makes of the component list cs.
   */
  datatype Value = Opaque(id: nat) | Flag(b: bool) | PartitionedRows(components: seq<Component>)

  /** A message payload: the fields present on the options object, with their values. */
  type Payload = map<string, Value>

  /** A page: a payload, or a callback (named by an id) that produces one. */
  datatype PageEntry = StaticPage(payload: Payload) | DynamicPage(callback: nat)

  /**
   * What awaiting `page(index, pages, this)` gives for a callback id: the
   * payload, or None when the callback's promise rejects.
   */
  type PageResolver = (nat, nat, seq<PageEntry>) -> Option<Payload>

  /**
   * `{ ...page, ...(data ?? {}) }`: every field of the navigator-wide data
   * takes the data's value, and the page's other fields are kept.
   */
  function Merge(page: Payload, data: Option<Payload>): (r: Payload)
    ensures r.Keys == page.Keys + (if data.Some? then data.value.Keys else {})
    ensures data.Some? ==> forall k :: k in data.value ==> r[k] == data.value[k]
    ensures forall k :: k in page && (data.None? || k !in data.value) ==> r[k] == page[k]
  {
    match data
    case None => page
    case Some(d) => page + d
  }

  /**
   * `this.messages[this.index]`: None for an index past the end or an entry
   * not yet filled in (both `undefined`/`null` in the source).
   */
  function EntryAt(messages: seq<Option<PageEntry>>, index: nat): Option<PageEntry> {
    if index < |messages| then messages[index] else None
  }

  /**
   * Lines 21-24: a callback page is called with the index and `pages`; a
   * missing entry spreads as the empty object.
   */
  function ResolvePage(entry: Option<PageEntry>, index: nat, pages: seq<PageEntry>, resolver: PageResolver): Option<Payload> {
    match entry
    case None => Some(map[])
    case Some(StaticPage(p)) => Some(p)
    case Some(DynamicPage(callback)) => resolver(callback, index, pages)
  }

  /** The payload that is sent, for a resolved page and n pages. */
  function OutgoingPage(resolved: Payload, data: Option<Payload>, n: nat, actions: seq<Action>,
                        hook: LabelHook, ctx: MenuContext): Payload
  {
    var merged := Merge(resolved, data);
    if n > 1 then merged[ComponentsField := PartitionedRows(ComponentsFor(actions, n, hook, ctx))] else merged
  }

  /**
   * With at most one page no controls are attached: the payload is the merged
   * page, so `components` is there only if the page or the data brought it.
   */
  lemma SinglePageHasNoControls(resolved: Payload, data: Option<Payload>, n: nat, actions: seq<Action>,
                                hook: LabelHook, ctx: MenuContext)
    requires n <= 1
    ensures OutgoingPage(resolved, data, n, actions, hook, ctx) == Merge(resolved, data)
    ensures ComponentsField in OutgoingPage(resolved, data, n, actions, hook, ctx) <==>
      (ComponentsField in resolved || (data.Some? && ComponentsField in data.value))
  {
  }

  /**
   * With more than one page `components` holds the rows of the registry's
   * controls, whatever the page or the data said, and every other field is
   * the merged page's.
   */
  lemma MultiPageControls(resolved: Payload, data: Option<Payload>, n: nat, actions: seq<Action>,
                          hook: LabelHook, ctx: MenuContext)
    requires n > 1
    ensures OutgoingPage(resolved, data, n, actions, hook, ctx)[ComponentsField] ==
      PartitionedRows(ComponentsFor(actions, n, hook, ctx))
    ensures OutgoingPage(resolved, data, n, actions, hook, ctx).Keys == Merge(resolved, data).Keys + {ComponentsField}
    ensures forall k :: k in Merge(resolved, data) && k != ComponentsField ==>
      OutgoingPage(resolved, data, n, actions, hook, ctx)[k] == Merge(resolved, data)[k]
  {
  }
}
