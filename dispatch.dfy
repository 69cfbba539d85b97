/**
 * Where the payload goes (lines 77-95 of SapphireTemplatePaginatedMessage.ts).
 * Once a response exists it is edited (an interaction through editReply or
 * reply, a message through edit); on the first render the trigger is answered
 * (an interaction through editReply or a fetched, public reply, a message by
 * a send in its channel) and the returned message becomes the response.
 */
module Dispatch {
  import opened Wrappers
  import opened MenuOptions
  import opened Pages

  /**
   * The message or interaction that asked for the render. A message always
   * has a channel; an interaction's channel may be absent.
   */
  datatype Trigger =
    | MessageTrigger(message: nat, channel: Channel)
    | InteractionTrigger(interaction: nat, interactionChannel: Option<Channel>, replied: bool, deferred: bool)

  /**
   * The navigator's `response`: an interaction, a `Message` instance, or a
   * raw API message (what editReply may resolve to), which is neither. An
   * interaction's `replied` and `deferred` flags are not part of the handle:
   * they are read afresh on every render (see `Acknowledgement`).
   */
  datatype Response =
    | InteractionResponse(interaction: nat)
    | MessageResponse(message: nat)
    | RawResponse(message: nat)

  /** The `replied` and `deferred` flags of an interaction as they are at the time of a render. */
  datatype Acknowledgement = Acknowledgement(replied: bool, deferred: bool)

  /**
   * What `editReply`, `reply({ fetchReply: true })` and `channel.send`
   * resolve to: a `Message` instance or a raw API message, never an interaction.
   */
  datatype Delivered = DeliveredMessage(message: nat) | DeliveredRaw(message: nat)

  function AsResponse(d: Delivered): Response {
    match d
    case DeliveredMessage(m) => MessageResponse(m)
    case DeliveredRaw(m) => RawResponse(m)
  }

  /** The transport call chosen, with the object it is made on. */
  datatype Op =
    | EditReply(interaction: nat)
    | Reply(interaction: nat)
    | Edit(message: nat)
    | Send(channel: nat)
    | NoDispatch

  /** A transport call and the payload it carries. */
  datatype Call = Call(op: Op, payload: Payload)

  /** The fields line 91 spreads over the page. */
  const FetchReplyFlags: Payload := map["fetchReply" := Flag(true), "ephemeral" := Flag(false)]

  /** The viewer, channel and guild handed to the label hook (lines 59-63). */
  function ContextFor(trigger: Trigger, targetUser: nat): MenuContext {
    var channel := match trigger
      case MessageTrigger(_, c) => Some(c)
      case InteractionTrigger(_, c, _, _) => c;
    MenuContext(targetUser, channel, if channel.Some? then channel.value.guild else None)
  }

  /**
   * The call of lines 77-95. `stored` is the current acknowledgement of the
   * stored interaction; it matters only when the response is an interaction.
   */
  function Decide(response: Option<Response>, stored: Acknowledgement, trigger: Trigger): Op {
    match response
    case Some(InteractionResponse(id)) =>
      if stored.replied || stored.deferred then EditReply(id) else Reply(id)
    case Some(MessageResponse(id)) => Edit(id)
    case Some(RawResponse(_)) => NoDispatch
    case None =>
      match trigger
      case InteractionTrigger(id, _, replied, deferred) =>
        if replied || deferred then EditReply(id) else Reply(id)
      case MessageTrigger(_, channel) => Send(channel.id)
  }

  /** The call and the payload it carries. */
  function CallFor(response: Option<Response>, stored: Acknowledgement, trigger: Trigger, page: Payload): Call {
    var op := Decide(response, stored, trigger);
    Call(op, if response.None? && op.Reply? then Merge(page, Some(FetchReplyFlags)) else page)
  }

  /**
   * `this.response` after the call: set to what the call returned on the
   * first render, when the call did not reject; never reassigned afterwards.
   */
  function NextResponse(response: Option<Response>, sent: Option<Delivered>): (r: Option<Response>)
    ensures response.Some? ==> r == response
    ensures response.None? ==> (r.Some? <==> sent.Some?)
    ensures response.None? && r.Some? ==> !r.value.InteractionResponse?
  {
    if response.None? && sent.Some? then Some(AsResponse(sent.value)) else response
  }

  predicate AnswersInteraction(id: nat, response: Option<Response>, trigger: Trigger) {
    (response == Some(InteractionResponse(id))) ||
    (response.None? && trigger.InteractionTrigger? && trigger.interaction == id)
  }

  /** Who is answered: the response once it exists, before that the trigger. */
  predicate Addresses(op: Op, response: Option<Response>, trigger: Trigger) {
    match op
    case EditReply(id) => AnswersInteraction(id, response, trigger)
    case Reply(id) => AnswersInteraction(id, response, trigger)
    case Edit(id) => response == Some(MessageResponse(id))
    case Send(id) => response.None? && trigger.MessageTrigger? && trigger.channel.id == id
    case NoDispatch => response.Some? && response.value.RawResponse?
  }

  /** Whether the interaction that will be answered was already replied to or deferred. */
  predicate AnswersAcknowledged(response: Option<Response>, stored: Acknowledgement, trigger: Trigger) {
    match response
    case Some(InteractionResponse(_)) => stored.replied || stored.deferred
    case Some(_) => false
    case None => trigger.InteractionTrigger? && (trigger.replied || trigger.deferred)
  }

  /** The call is always made on the response if there is one, else on the trigger. */
  lemma DecideAddressesTarget(response: Option<Response>, stored: Acknowledgement, trigger: Trigger)
    ensures Addresses(Decide(response, stored, trigger), response, trigger)
  {
  }

  /**
   * Interactions: editReply exactly when the interaction answered is
   * acknowledged at the time of the render, reply exactly when it is not.
   */
  lemma EditReplyIffAcknowledged(response: Option<Response>, stored: Acknowledgement, trigger: Trigger)
    ensures Decide(response, stored, trigger).EditReply? <==>
      AnswersAcknowledged(response, stored, trigger)
    ensures Decide(response, stored, trigger).Reply? <==>
      !AnswersAcknowledged(response, stored, trigger) &&
      (if response.Some? then response.value.InteractionResponse? else trigger.InteractionTrigger?)
  {
  }

  /**
   * A stored interaction that was not yet acknowledged gets a reply; once it
   * has been replied to or deferred, the next render edits its reply.
   */
  lemma StoredInteractionFollowsFlags(id: nat, before: Acknowledgement, after: Acknowledgement, trigger: Trigger)
    requires !before.replied && !before.deferred
    requires after.replied || after.deferred
    ensures Decide(Some(InteractionResponse(id)), before, trigger) == Reply(id)
    ensures Decide(Some(InteractionResponse(id)), after, trigger) == EditReply(id)
  {
  }

  /** A new message is sent to a channel only on the first render, and only for a message trigger. */
  lemma SendOnlyFirstForMessages(response: Option<Response>, stored: Acknowledgement, trigger: Trigger)
    ensures Decide(response, stored, trigger).Send? <==> response.None? && trigger.MessageTrigger?
  {
  }

  /** Once a response exists, the trigger no longer changes the call or its payload. */
  lemma TriggerIrrelevantOnceResponded(response: Option<Response>, stored: Acknowledgement,
                                       t1: Trigger, t2: Trigger, page: Payload)
    requires response.Some?
    ensures CallFor(response, stored, t1, page) == CallFor(response, stored, t2, page)
    ensures CallFor(response, stored, t1, page).payload == page
  {
  }

  /**
   * The first reply to an interaction that was not acknowledged fetches the
   * reply and is not ephemeral; the page's other fields go along unchanged.
   */
  lemma FirstReplyFetchesPublicly(stored: Acknowledgement, trigger: Trigger, page: Payload)
    requires trigger.InteractionTrigger? && !trigger.replied && !trigger.deferred
    ensures CallFor(None, stored, trigger, page).op == Reply(trigger.interaction)
    ensures CallFor(None, stored, trigger, page).payload["fetchReply"] == Flag(true)
    ensures CallFor(None, stored, trigger, page).payload["ephemeral"] == Flag(false)
    ensures forall k :: k in page && k != "fetchReply" && k != "ephemeral" ==>
      CallFor(None, stored, trigger, page).payload[k] == page[k]
  {
  }

  /**
   * Two renders in a row: the response the first one stored is kept by the
   * second and alone decides its call, whatever the second's trigger. It is
   * never an interaction, so when it is a message the second render edits
   * it, and when it is a raw API message the second render makes no call.
   */
  lemma ResponseSetOnce(sent1: Delivered, sent2: Option<Delivered>, stored: Acknowledgement,
                        t2: Trigger, page: Payload)
    ensures NextResponse(NextResponse(None, Some(sent1)), sent2) == Some(AsResponse(sent1))
    ensures CallFor(NextResponse(None, Some(sent1)), stored, t2, page) ==
      Call(Decide(Some(AsResponse(sent1)), stored, t2), page)
    ensures sent1.DeliveredMessage? ==>
      Decide(NextResponse(None, Some(sent1)), stored, t2) == Edit(sent1.message)
    ensures sent1.DeliveredRaw? ==>
      Decide(NextResponse(None, Some(sent1)), stored, t2) == NoDispatch
  {
  }

  /**
   * What each call resolves to, as far as the model needs: `channel.send`
   * always resolves to a `Message` instance; only `editReply` and a fetched
   * `reply` may give a raw API message.
   */
  predicate ResolvesAs(op: Op, d: Delivered) {
    op.Send? ==> d.DeliveredMessage?
  }

  /**
   * A navigator triggered by a message sends one message on its first
   * render, stores it, and edits that same message on every later render,
   * whatever triggers those.
   */
  lemma MessageTriggerEditsItsMessage(trigger: Trigger, stored1: Acknowledgement, sent: Delivered,
                                      stored2: Acknowledgement, t2: Trigger)
    requires trigger.MessageTrigger?
    requires ResolvesAs(Decide(None, stored1, trigger), sent)
    ensures Decide(None, stored1, trigger) == Send(trigger.channel.id)
    ensures NextResponse(None, Some(sent)) == Some(MessageResponse(sent.message))
    ensures Decide(NextResponse(None, Some(sent)), stored2, t2) == Edit(sent.message)
  {
  }
}
