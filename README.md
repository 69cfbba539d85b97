# Sapphire template paginated message — render step

This project models the render step of `SapphireTemplatePaginatedMessage`,
the paginated-message navigator of the Sapphire bot template. The navigator
holds a list of pages, the current index, an ordered registry of actions
(buttons and a "go to page" select menu) and the handle of the message it
shows. One render does four things:

1. It resolves the current page. A page is a payload or a callback that
   produces one.
2. It spreads the navigator-wide data over that page. The data's fields win.
3. With more than one page, it builds one control per button action and one
   select menu for the `@sapphire/paginated-messages.goToPage` select action.
   It stores those controls in the payload's `components` field. The menu
   gets one option per page for at most 25 pages. For more pages it gets
   options sampled with a stride of `Math.round(n / 25)`, at most 25 of them.
4. It picks the transport call: `editReply`, `reply`, `edit` or
   `channel.send`. It stores the returned message as the response, but only
   on the first render.

Modules, one per part of the source file:

- `Decimal`: the decimal text JavaScript's `toString` gives a natural number,
  and its inverse `ParseNat`. Option values are page indices written this way.
- `MenuOptions`: the stride, the sampled options (a pure function plus the
  `ChunkedOptions` loop proved equal to it), and the standard options.
- `Components`: the action and component datatypes, the component list as a
  function of the registry, and the `BuildComponents` loop proved equal to it.
- `Pages`: payloads as maps from field name to value, the spread merge, page
  resolution and the outgoing payload.
- `Dispatch`: triggers, responses, the call decision and the response update.
- `Navigator`: the class `TemplatePaginatedMessage`, with `AddPage` and
  `SetUpMessage`.

Calls the model cannot see become parameters:

- `resolver` is what each page callback's promise gives. None means it rejected.
- `hook` is `selectMenuOptions`.
- `stored` is the current `replied`/`deferred` state of a stored
  interaction, read afresh on every render as line 79 does.
- `sent` is what the transport call's promise gives: a `Message` or a raw
  API message, never an interaction, and always a `Message` for
  `channel.send` (`Dispatch.ResolvesAs`). None means it rejected, and then
  `response` is not assigned.

The runtime type checks of the source (`isFunction`, `runsOnInteraction`,
`isMessageInstance`, `isGuildBasedChannel`, `isMessageButtonInteraction`)
are tagged variants here.

Behaviour of the code that the model keeps, where a reader might expect otherwise:

- The code does not lay out rows itself. It hands the list to
  `createPartitionedMessageRow`. The model keeps the list (`PartitionedRows`)
  and does not model a 5+1 layout.
- The standard menu's labels come from the label hook. The code writes no
  "Page k" text there. Only the sampled menu has fixed labels.
- The sampled menu does not always cover every page. With 37 pages the
  stride rounds to 1, and the menu stops at options for pages 0 to 24
  (`MenuOptions.SampledMenuOf37Pages`). Every page is within one stride of an
  option when the menu was not cut off at 25 options
  (`MenuOptions.SampledOptionsCover`), and only then: when it was cut off,
  page 25 times the stride exists and no option's chunk holds it
  (`MenuOptions.SampledOptionsMissTail`).
- After the first render the stored response is what the call returned. For
  an interaction trigger that is the fetched reply message, so later renders
  `edit` that message. They do not `editReply` the interaction
  (`Dispatch.ResponseSetOnce`).
- `setUpMessage` reads the current page from `messages`, while the length
  test and the callback use `pages`. `addPage` appends only to `pages`.
  An index with no entry in `messages` spreads as the empty object.
- A response that is neither an interaction nor a `Message` instance (a raw
  API message) gets no call at all (`Op.NoDispatch`).
- The first reply's `fetchReply: true, ephemeral: false` are payload fields
  spread after the page, so they win over the page's own fields. The
  `reply` at line 82 passes the page as it is.
- A select action's own `options`, if it has any, are spread after the
  computed ones and win.

## Model

| member | source | states |
|---|---|---|
| `Navigator.TemplatePaginatedMessage.AddPage` | src/lib/structures/SapphireTemplatePaginatedMessage.ts:11-14 | `pages` becomes the old pages with the new page last; nothing else changes; the navigator itself is returned |
| `Navigator.TemplatePaginatedMessage.SetUpMessage` | src/lib/structures/SapphireTemplatePaginatedMessage.ts:16-96 | a rejected page callback aborts with no call and `response` unchanged; otherwise the result is the decided call carrying the outgoing payload, or `DispatchFailed` if that call rejects; a stored interaction's flags are those given for this render; `response` is assigned only when it was unset and the call succeeded; no other field changes |
| `Pages.Merge` | src/lib/structures/SapphireTemplatePaginatedMessage.ts:27 | the merged payload has the fields of both; fields of the data take the data's value; fields only in the page keep the page's value; absent data leaves the page as is |
| `Pages.SinglePageHasNoControls` | src/lib/structures/SapphireTemplatePaginatedMessage.ts:29-30 | with at most one page the outgoing payload is the merged page: `components` is present only if the page or the data had it |
| `Pages.MultiPageControls` | src/lib/structures/SapphireTemplatePaginatedMessage.ts:30-75 | with more than one page `components` holds the rows of the registry's component list, overriding page and data, and every other field is the merged page's |
| `Components.BuildComponents` | src/lib/structures/SapphireTemplatePaginatedMessage.ts:32-72 | the loop over the registry returns exactly `ComponentsFor` of the registry |
| `Components.ComponentsForAppend` | src/lib/structures/SapphireTemplatePaginatedMessage.ts:33-72 | the components of two consecutive stretches of the registry are the first stretch's followed by the second's, so registry order is kept |
| `Components.ButtonsInRegistryOrder` | src/lib/structures/SapphireTemplatePaginatedMessage.ts:33-35 | the buttons in the list are exactly one button per button action, with its id, style and emoji, in registry order |
| `Components.MenusAreGoToPage` | src/lib/structures/SapphireTemplatePaginatedMessage.ts:36-70 | every select menu in the list has the go-to-page id and is built from a go-to-page action of the registry with the computed page options, unless that action brings options of its own |
| `Components.ComponentsCount` | src/lib/structures/SapphireTemplatePaginatedMessage.ts:33-71 | the list has one component per button action plus one per go-to-page select action; other actions add nothing |
| `Components.MenusCount` | src/lib/structures/SapphireTemplatePaginatedMessage.ts:33-71 | the list holds exactly one select menu per go-to-page select action |
| `Components.AtMostOneMenu` | src/lib/structures/SapphireTemplatePaginatedMessage.ts:33-36 | a registry keyed by custom id has at most one go-to-page action, and its component list holds at most one select menu |
| `MenuOptions.Stride` | src/lib/structures/SapphireTemplatePaginatedMessage.ts:39 | the stride is n/25 rounded half up, stated as `25(2s-1) <= 2n < 25(2s+1)`, and is at least 1 for more than 25 pages |
| `MenuOptions.ChunkedOptions` | src/lib/structures/SapphireTemplatePaginatedMessage.ts:38-47 | the loop stepping by the stride and breaking at 25 options terminates and returns exactly `SampledOptions(n)` |
| `MenuOptions.SampledOptionsCount` | src/lib/structures/SapphireTemplatePaginatedMessage.ts:40-41 | the sampled menu has between 1 and 25 options and stops either at 25 or once the next step is past the last page |
| `MenuOptions.SampledOptionValues` | src/lib/structures/SapphireTemplatePaginatedMessage.ts:40-46 | option k stands for page k times the stride, which is below n; its label is "Page " and that page's 1-based number; it has no description |
| `MenuOptions.SampledOptionsIncreasing` | src/lib/structures/SapphireTemplatePaginatedMessage.ts:40-46 | the first option's value is "0" and the options' page indices strictly increase |
| `MenuOptions.SampledOptionsCover` | src/lib/structures/SapphireTemplatePaginatedMessage.ts:39-46 | when the menu was not cut off, every page p falls in the chunk of option p / stride, whose page lies less than one stride before p |
| `MenuOptions.SampledOptionsMissTail` | src/lib/structures/SapphireTemplatePaginatedMessage.ts:39-46 | when the menu was cut off it has 25 options, and the existing page at 25 strides lies at least one stride past every option's page |
| `MenuOptions.SampledMenuOf37Pages` | src/lib/structures/SapphireTemplatePaginatedMessage.ts:39-46 | with 37 pages the stride is 1, the menu has 25 options and its last one is page index 24 |
| `MenuOptions.StandardOptionsShape` | src/lib/structures/SapphireTemplatePaginatedMessage.ts:57-65 | with at most 25 pages there are exactly n options, option k has value k and the hook's label and description for the 1-based page k+1 |
| `Decimal.NatToString` | src/lib/structures/SapphireTemplatePaginatedMessage.ts:44-45 | `toString` of a natural number is a non-empty digit string without a leading zero |
| `Decimal.ParseNatToString` | src/lib/structures/SapphireTemplatePaginatedMessage.ts:45 | reading an option value back gives the page index it was written from |
| `Decimal.NatToStringInjective` | src/lib/structures/SapphireTemplatePaginatedMessage.ts:64 | distinct page indices give distinct option values, and the converse |
| `Dispatch.DecideAddressesTarget` | src/lib/structures/SapphireTemplatePaginatedMessage.ts:77-95 | the call is made on the response when it exists (no call for a raw message) and on the trigger or its channel otherwise |
| `Dispatch.EditReplyIffAcknowledged` | src/lib/structures/SapphireTemplatePaginatedMessage.ts:79-92 | editReply is chosen exactly when the interaction answered is, at this render, replied to or deferred; reply exactly when it is an interaction that is not |
| `Dispatch.StoredInteractionFollowsFlags` | src/lib/structures/SapphireTemplatePaginatedMessage.ts:78-83 | the same stored interaction gets reply while its flags say neither replied nor deferred and editReply once either is set; `SetUpMessage` takes those flags afresh on each call as its `stored` parameter |
| `Dispatch.SendOnlyFirstForMessages` | src/lib/structures/SapphireTemplatePaginatedMessage.ts:87-94 | `channel.send` is chosen exactly on the first render of a message trigger |
| `Dispatch.TriggerIrrelevantOnceResponded` | src/lib/structures/SapphireTemplatePaginatedMessage.ts:77-86 | once a response exists the trigger does not affect the call or the payload, which is the page as it is |
| `Dispatch.FirstReplyFetchesPublicly` | src/lib/structures/SapphireTemplatePaginatedMessage.ts:90-91 | the first reply to an unacknowledged interaction carries `fetchReply` true and `ephemeral` false, and all the page's other fields |
| `Dispatch.NextResponse` | src/lib/structures/SapphireTemplatePaginatedMessage.ts:87-95 | a response that exists is never reassigned; an unset one is set exactly when the call resolved, and never to an interaction |
| `Dispatch.ResponseSetOnce` | src/lib/structures/SapphireTemplatePaginatedMessage.ts:77-95 | after a first render stored what its call resolved to, a second render keeps it and its call depends only on it: a stored message is edited, a stored raw API message gets no call |
| `Dispatch.MessageTriggerEditsItsMessage` | src/lib/structures/SapphireTemplatePaginatedMessage.ts:76-94 | a message trigger gets one `channel.send` on the first render; the sent message is stored and every later render edits it, whatever its trigger |
| `Navigator.RenderedStandardMenu` | src/lib/structures/SapphireTemplatePaginatedMessage.ts:30-74 | with 2 to 25 pages, the outgoing `components` are the rows of the registry's list, and its menu (from a go-to-page action with no options of its own) has one option per page: option k is the label hook's option for page k+1 with this render's viewer, channel and guild, and value k |

## Left out

- src/listeners/ChatInputCommandError.ts: a framework listener that logs and replies with a fixed error text. It holds no state.
- `createPartitionedMessageRow`: a library function whose code is not part of this model. The payload holds the component list it is given, wrapped as `PartitionedRows`. No row layout is modelled.
- The navigation actions and their handlers (first, previous, next, last, stop, go to page) live in the `PaginatedMessage` base library, which is not part of this model. The registry is an opaque ordered list of button and select descriptors.
- The base class's constructor, its `run` step and its other members are not part of this model. `Navigator.TemplatePaginatedMessage.constructor` only sets the fields, at index 0, with the starting response given as a parameter.
- The discord.js transport (`reply`, `editReply`, `edit`, `channel.send`) is modelled only as the chosen `Op` plus the handle its promise resolves to. The `MessageButton` and `MessageSelectMenu` constructors are modelled as copying the fields listed in `Component`.
- The `replied` and `deferred` flags of the trigger and of a stored interaction are per-render inputs (`Trigger` fields and `stored`). The model does not say how a call changes them.
- A rejected `selectMenuOptions` promise (lines 57-66) is not modelled: `hook` is a total function. In the source such a rejection aborts the render before any call, as a rejected page callback does.
- Promises and concurrency are not modelled: the `await`s and the `Promise.all` over label hooks. Page callbacks and `selectMenuOptions` are function parameters, and the navigator argument passed to page callbacks is left out.
- Payload fields other than `components`, `fetchReply` and `ephemeral` are opaque values. The model does not cover the spread's handling of non-enumerable or inherited properties, or fields of other types.
