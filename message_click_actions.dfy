/**
 * The MessageClickActions plugin: a flag that is set while Backspace is held, and what a click
 * on a message does with it: delete while the flag is set, otherwise edit the user's own
 * message or reply to another's on a double click.  The stores the plugin asks (the current
 * user, permissions, the edit store, NoReplyMention) are parameters, and so is the window
 * focus.
 */
module MessageClickActions {
  import opened Wrappers

  /** A keyboard or focus event the plugin listens to. */
  datatype Event = KeyDown(key: string) | KeyUp(key: string) | FocusChange(isFocused: bool)

  /** The flag after one event. */
  function Step(isDeletePressed: bool, e: Event): bool {
    match e
    case KeyDown(key) => if key == "Backspace" then true else isDeletePressed
    case KeyUp(key) => if key == "Backspace" then false else isDeletePressed
    case FocusChange(isFocused) => if !isFocused then false else isDeletePressed
  }

  /** The flag after a run of events. */
  function Run(isDeletePressed: bool, events: seq<Event>): bool {
    if events == [] then isDeletePressed
    else Step(Run(isDeletePressed, events[..|events| - 1]), events[|events| - 1])
  }

  /** The events that clear the flag: releasing Backspace, or the window losing focus. */
  predicate Clears(e: Event) {
    e == KeyUp("Backspace") || e == FocusChange(false)
  }

  /** Backspace went down at some point and nothing cleared the flag since. */
  predicate HeldSince(events: seq<Event>) {
    exists i :: 0 <= i < |events| && events[i] == KeyDown("Backspace")
      && forall j :: i < j < |events| ==> !Clears(events[j])
  }

  class KeyState {
    var isDeletePressed: bool

    constructor()
      ensures !isDeletePressed
    {
      isDeletePressed := false;
    }

    /** The `keydown` listener. */
    method Keydown(key: string)
      modifies this
      ensures isDeletePressed == Step(old(isDeletePressed), KeyDown(key))
      ensures key == "Backspace" ==> isDeletePressed
      ensures key != "Backspace" ==> isDeletePressed == old(isDeletePressed)
    {
      if key == "Backspace" {
        isDeletePressed := true;
      }
    }

    /** The `keyup` listener. */
    method Keyup(key: string)
      modifies this
      ensures isDeletePressed == Step(old(isDeletePressed), KeyUp(key))
      ensures key == "Backspace" ==> !isDeletePressed
      ensures key != "Backspace" ==> isDeletePressed == old(isDeletePressed)
    {
      if key == "Backspace" {
        isDeletePressed := false;
      }
    }

    /** The window store listener: losing focus clears the flag. */
    method FocusChanged(isFocused: bool)
      modifies this
      ensures isDeletePressed == Step(old(isDeletePressed), FocusChange(isFocused))
      ensures !isFocused ==> !isDeletePressed
      ensures isFocused ==> isDeletePressed == old(isDeletePressed)
    {
      if !isFocused {
        isDeletePressed := false;
      }
    }
  }

  /** Starting from a cleared flag, the flag is set exactly when Backspace went down and was
      neither released nor interrupted by a focus loss since. */
  lemma {:induction false} FlagMeansHeld(events: seq<Event>)
    ensures Run(false, events) <==> HeldSince(events)
  {
    if events != [] {
      var init := events[..|events| - 1];
      var e := events[|events| - 1];
      FlagMeansHeld(init);
      if e == KeyDown("Backspace") {
        assert events[|events| - 1] == KeyDown("Backspace");
      } else if Clears(e) {
        forall i | 0 <= i < |events| && events[i] == KeyDown("Backspace")
          ensures exists j :: i < j < |events| && Clears(events[j])
        {
          assert events[i] != e;
          assert Clears(events[|events| - 1]);
        }
      } else {
        assert Step(Run(false, init), e) == Run(false, init);
        if HeldSince(init) {
          var i :| 0 <= i < |init| && init[i] == KeyDown("Backspace")
            && forall j :: i < j < |init| ==> !Clears(init[j]);
          assert events[i] == init[i];
          assert forall j :: i < j < |events| ==> !Clears(events[j]) by {
            forall j | i < j < |events| ensures !Clears(events[j]) {
              if j < |init| { assert events[j] == init[j]; }
            }
          }
        }
        if HeldSince(events) {
          var i :| 0 <= i < |events| && events[i] == KeyDown("Backspace")
            && forall j :: i < j < |events| ==> !Clears(events[j]);
          assert i < |init|;
          assert init[i] == events[i];
          assert forall j :: i < j < |init| ==> !Clears(init[j]) by {
            forall j | i < j < |init| ensures !Clears(init[j]) {
              assert init[j] == events[j];
            }
          }
        }
      }
    }
  }

  // ---------------------------------------------------------------- onMessageClick

  datatype Settings = Settings(enableDeleteOnClick: bool, enableDoubleClickToEdit: bool,
                               enableDoubleClickToReply: bool, requireModifier: bool)

  datatype Channel = Channel(id: string, guildId: Option<string>)

  datatype Message = Message(id: string, authorId: string, content: string, deleted: bool,
                             state: string, ephemeral: bool)

  datatype MouseClick = MouseClick(detail: int, ctrlKey: bool, shiftKey: bool)

  /** What the host tells the handler: the current user, the two permissions in this channel,
      whether the message is being edited, and NoReplyMention's answer for a shift press
      when that plugin is enabled. */
  datatype Host = Host(currentUserId: string, canSendMessages: bool, canManageMessages: bool,
                       isEditing: bool, noReplyMention: Option<bool -> bool>)

  datatype Action =
    | NoAction
    | StartEditMessage(channelId: string, messageId: string, content: string)
    | CreatePendingReply(channelId: string, messageId: string, shouldMention: bool, showMentionToggle: bool)
    | LocalMessageDelete(channelId: string, messageId: string)
    | DeleteMessage(channelId: string, messageId: string)

  /** The action, and whether the click's default is prevented. */
  datatype Outcome = Outcome(action: Action, preventDefault: bool)

  predicate InGuild(channel: Channel) {
    channel.guildId.Some? && channel.guildId.value != ""
  }

  /** The guards a double click must pass before editing or replying. */
  predicate DoubleClickPasses(s: Settings, h: Host, msg: Message, channel: Channel, e: MouseClick) {
    && e.detail >= 2
    && (!s.requireModifier || e.ctrlKey || e.shiftKey)
    && (!InGuild(channel) || h.canSendMessages)
    && !msg.deleted
  }

  /** `shouldMention` for a reply. */
  function ShouldMention(s: Settings, h: Host, e: MouseClick): bool {
    var isShiftPress := e.shiftKey && !s.requireModifier;
    match h.noReplyMention
    case Some(shouldMention) => shouldMention(isShiftPress)
    case None => !isShiftPress
  }

  /** `onMessageClick(msg, channel, event)` with the delete flag as it is. */
  function OnMessageClick(isDeletePressed: bool, s: Settings, h: Host, msg: Message, channel: Channel, e: MouseClick): (r: Outcome)
    ensures r.preventDefault <==> r.action.StartEditMessage? || r.action.LocalMessageDelete? || r.action.DeleteMessage?
    ensures !isDeletePressed && !DoubleClickPasses(s, h, msg, channel, e) ==> r.action == NoAction
    ensures r.action.StartEditMessage? <==>
      !isDeletePressed && DoubleClickPasses(s, h, msg, channel, e) && msg.authorId == h.currentUserId
      && s.enableDoubleClickToEdit && !h.isEditing && msg.state == "SENT"
    ensures r.action.CreatePendingReply? <==>
      !isDeletePressed && DoubleClickPasses(s, h, msg, channel, e) && msg.authorId != h.currentUserId
      && s.enableDoubleClickToReply && !msg.ephemeral
    ensures r.action.CreatePendingReply? ==>
      r.action.shouldMention == ShouldMention(s, h, e) && r.action.showMentionToggle == channel.guildId.Some?
    ensures r.action.LocalMessageDelete? || r.action.DeleteMessage? <==>
      isDeletePressed && s.enableDeleteOnClick && (msg.authorId == h.currentUserId || h.canManageMessages)
    ensures r.action.LocalMessageDelete? ==> msg.deleted
    ensures r.action.DeleteMessage? ==> !msg.deleted
    ensures r.action != NoAction ==> r.action.channelId == channel.id && r.action.messageId == msg.id
  {
    var isMe := msg.authorId == h.currentUserId;
    if !isDeletePressed then
      if e.detail < 2 then Outcome(NoAction, false)
      else if s.requireModifier && !e.ctrlKey && !e.shiftKey then Outcome(NoAction, false)
      else if InGuild(channel) && !h.canSendMessages then Outcome(NoAction, false)
      else if msg.deleted then Outcome(NoAction, false)
      else if isMe then
        if !s.enableDoubleClickToEdit || h.isEditing || msg.state != "SENT" then Outcome(NoAction, false)
        else Outcome(StartEditMessage(channel.id, msg.id, msg.content), true)
      else
        if !s.enableDoubleClickToReply then Outcome(NoAction, false)
        else if msg.ephemeral then Outcome(NoAction, false)
        else Outcome(CreatePendingReply(channel.id, msg.id, ShouldMention(s, h, e), channel.guildId.Some?), false)
    else if s.enableDeleteOnClick && (isMe || h.canManageMessages) then
      if msg.deleted then Outcome(LocalMessageDelete(channel.id, msg.id), true)
      else Outcome(DeleteMessage(channel.id, msg.id), true)
    else Outcome(NoAction, false)
  }

  /** Holding Backspace rules out editing and replying; without it nothing is deleted. */
  lemma DeleteOnlyWhileHeld(s: Settings, h: Host, msg: Message, channel: Channel, e: MouseClick)
    ensures var a := OnMessageClick(true, s, h, msg, channel, e).action;
      !a.StartEditMessage? && !a.CreatePendingReply?
    ensures var a := OnMessageClick(false, s, h, msg, channel, e).action;
      !a.LocalMessageDelete? && !a.DeleteMessage?
  {
  }

  /** Without NoReplyMention, a reply mentions unless shift is held with no modifier required. */
  lemma MentionUnlessShift(s: Settings, h: Host, e: MouseClick)
    requires h.noReplyMention.None?
    ensures ShouldMention(s, h, e) == !(e.shiftKey && !s.requireModifier)
    ensures s.requireModifier ==> ShouldMention(s, h, e)
  {
  }
}
