/** The one active screen of a chat (`screen/manager.go`): showing a screen edits the active
    message or strips its buttons and sends a new one, against a messenger whose calls can fail. */
module Screens {
  import opened Options

  datatype Screen = Screen(id: string, text: string, keyboard: seq<string>, context: map<string, string>)
  datatype Message = Message(text: string, keyboard: seq<string>)
  datatype Record = Record(messageId: int, screenId: string, context: map<string, string>)

  type Messages = map<int, Message>

  /** One chat: the stored record and the messages the manager sent that still exist. */
  datatype Chat = Chat(active: Option<Record>, messages: Messages)

  /** How the messenger treats one operation: whether it refuses the edit, whether it refuses
      the send, and the id of a message it does send. An edit of a message that is gone fails
      in any case. */
  datatype Net = Net(editFails: bool, sendFails: bool, newId: int)

  datatype Op =
    | Show(screen: Screen)
    | Replace(screen: Screen)
    | EditInPlace(screen: Screen)
    | RetireActive
    | Vanish(messageId: int)  // not the manager: a message disappears from the chat

  class Telegram {
    var chats: map<int, Messages>

    constructor ()
      ensures chats == map[]
    {
      chats := map[];
    }

    function MessagesOf(chat: int): Messages
      reads this
    {
      if chat in chats then chats[chat] else map[]
    }

    method SendMessage(chat: int, text: string, keyboard: seq<string>, net: Net) returns (ok: bool, id: int)
      modifies this
      ensures ok == !net.sendFails && id == net.newId
      ensures chats == if ok then old(chats)[chat := old(MessagesOf(chat))[id := Message(text, keyboard)]]
                       else old(chats)
    {
      if net.sendFails {
        return false, net.newId;
      }
      chats := chats[chat := MessagesOf(chat)[net.newId := Message(text, keyboard)]];
      return true, net.newId;
    }

    method EditMessageText(chat: int, id: int, text: string, keyboard: seq<string>, net: Net) returns (ok: bool)
      modifies this
      ensures ok == (id in old(MessagesOf(chat)) && !net.editFails)
      ensures chats == if ok then old(chats)[chat := old(MessagesOf(chat))[id := Message(text, keyboard)]]
                       else old(chats)
    {
      ok := id in MessagesOf(chat) && !net.editFails;
      if ok {
        chats := chats[chat := MessagesOf(chat)[id := Message(text, keyboard)]];
      }
    }

    method StripKeyboard(chat: int, id: int, net: Net) returns (ok: bool)
      modifies this
      ensures MessagesOf(chat) == Strip(old(MessagesOf(chat)), id, net)
      ensures forall c | c != chat :: MessagesOf(c) == old(MessagesOf(c))
    {
      ok := id in MessagesOf(chat) && !net.editFails;
      if ok {
        chats := chats[chat := MessagesOf(chat)[id := MessagesOf(chat)[id].(keyboard := [])]];
      }
    }
  }

  function Strip(messages: Messages, id: int, net: Net): Messages {
    if id in messages && !net.editFails then messages[id := messages[id].(keyboard := [])] else messages
  }

  function SendNew(c: Chat, s: Screen, net: Net): (bool, Chat) {
    if net.sendFails then (false, c)
    else (true, Chat(Some(Record(net.newId, s.id, s.context)), c.messages[net.newId := Message(s.text, s.keyboard)]))
  }

  function EditActive(c: Chat, id: int, s: Screen, net: Net): (bool, Chat) {
    if id in c.messages && !net.editFails
    then (true, Chat(Some(Record(id, s.id, s.context)), c.messages[id := Message(s.text, s.keyboard)]))
    else SendNew(c, s, net)
  }

  function RetireThenSend(c: Chat, s: Screen, net: Net): (bool, Chat) {
    if c.active.None? then SendNew(c, s, net)
    else SendNew(c.(messages := Strip(c.messages, c.active.value.messageId, net)), s, net)
  }

  /** One operation on a chat: whether it reports success, and the chat afterwards. */
  function Step(c: Chat, op: Op, net: Net): (bool, Chat) {
    match op
    case Show(s) =>
      if c.active.Some? && c.active.value.screenId == s.id
      then EditActive(c, c.active.value.messageId, s, net)
      else RetireThenSend(c, s, net)
    case Replace(s) => RetireThenSend(c, s, net)
    case EditInPlace(s) =>
      if c.active.None? then SendNew(c, s, net) else EditActive(c, c.active.value.messageId, s, net)
    case RetireActive =>
      (true, if c.active.None? then c else Chat(None, Strip(c.messages, c.active.value.messageId, net)))
    case Vanish(id) => (true, c.(messages := c.messages - {id}))
  }

  class Manager {
    const telegram: Telegram
    var store: map<int, Record>

    constructor (telegram: Telegram)
      ensures this.telegram == telegram && store == map[]
    {
      this.telegram := telegram;
      store := map[];
    }

    ghost function View(chat: int): Chat
      reads this, telegram
    {
      Chat(if chat in store then Some(store[chat]) else None, telegram.MessagesOf(chat))
    }

    /** Only `chat` may have changed. */
    twostate predicate Others(chat: int)
      reads this, telegram
    {
      forall c | c != chat :: View(c) == old(View(c))
    }

    method SendNewMessage(chat: int, s: Screen, net: Net) returns (ok: bool)
      modifies this, telegram
      ensures (ok, View(chat)) == SendNew(old(View(chat)), s, net) && Others(chat)
    {
      var id;
      ok, id := telegram.SendMessage(chat, s.text, s.keyboard, net);
      if !ok {
        return;
      }
      store := store[chat := Record(id, s.id, s.context)];
    }

    method EditActiveMessage(chat: int, id: int, s: Screen, net: Net) returns (ok: bool)
      modifies this, telegram
      ensures (ok, View(chat)) == EditActive(old(View(chat)), id, s, net) && Others(chat)
    {
      ok := telegram.EditMessageText(chat, id, s.text, s.keyboard, net);
      if !ok {
        ok := SendNewMessage(chat, s, net);
        return;
      }
      store := store[chat := Record(id, s.id, s.context)];
    }

    method Show(chat: int, s: Screen, net: Net) returns (ok: bool)
      modifies this, telegram
      ensures (ok, View(chat)) == Step(old(View(chat)), Op.Show(s), net) && Others(chat)
    {
      var found := chat in store;
      if found && store[chat].screenId == s.id {
        ok := EditActiveMessage(chat, store[chat].messageId, s, net);
        return;
      }
      if found {
        var _ := telegram.StripKeyboard(chat, store[chat].messageId, net);
      }
      ok := SendNewMessage(chat, s, net);
    }

    method Replace(chat: int, s: Screen, net: Net) returns (ok: bool)
      modifies this, telegram
      ensures (ok, View(chat)) == Step(old(View(chat)), Op.Replace(s), net) && Others(chat)
    {
      if chat in store {
        var _ := telegram.StripKeyboard(chat, store[chat].messageId, net);
      }
      ok := SendNewMessage(chat, s, net);
    }

    method EditInPlace(chat: int, s: Screen, net: Net) returns (ok: bool)
      modifies this, telegram
      ensures (ok, View(chat)) == Step(old(View(chat)), Op.EditInPlace(s), net) && Others(chat)
    {
      if chat !in store {
        ok := SendNewMessage(chat, s, net);
        return;
      }
      ok := EditActiveMessage(chat, store[chat].messageId, s, net);
    }

    method RetireActive(chat: int, net: Net)
      modifies this, telegram
      ensures (true, View(chat)) == Step(old(View(chat)), Op.RetireActive, net) && Others(chat)
    {
      if chat !in store {
        return;
      }
      var _ := telegram.StripKeyboard(chat, store[chat].messageId, net);
      store := store - {chat};
    }
  }

  /** The message still exists and still has buttons to press. */
  predicate IsLive(c: Chat, id: int) {
    id in c.messages && c.messages[id].keyboard != []
  }

  predicate IsActive(c: Chat, id: int) {
    c.active.Some? && c.active.value.messageId == id
  }

  /** Only the stored active message may have live buttons, so at most one message has. */
  ghost predicate OnlyActiveIsLive(c: Chat) {
    forall id :: IsLive(c, id) ==> IsActive(c, id)
  }

  /** The operation moves on from a live message whose buttons the messenger refused to take. */
  predicate LeavesLiveBehind(c: Chat, op: Op, net: Net) {
    && c.active.Some? && IsLive(c, c.active.value.messageId)
    && net.editFails
    && (op.RetireActive? || (!op.Vanish? && !net.sendFails))
  }

  /** The invariant survives an operation exactly when it does not leave a live message behind:
      a failed send never breaks it, nor does a failed edit of a message that is gone. */
  lemma StepKeepsOnlyActiveLiveIff(c: Chat, op: Op, net: Net)
    requires OnlyActiveIsLive(c) && net.newId !in c.messages
    ensures OnlyActiveIsLive(Step(c, op, net).1) <==> !LeavesLiveBehind(c, op, net)
  {
    var next := Step(c, op, net).1;
    if LeavesLiveBehind(c, op, net) {
      var left := c.active.value.messageId;
      assert IsLive(next, left) && !IsActive(next, left);
    } else {
      forall id | IsLive(next, id)
        ensures IsActive(next, id)
      {
        assert IsLive(c, id) || id == net.newId || IsActive(next, id);
      }
    }
  }

  function Run(c: Chat, ops: seq<(Op, Net)>): Chat
    decreases |ops|
  {
    if ops == [] then c else Step(Run(c, ops[..|ops| - 1]), ops[|ops| - 1].0, ops[|ops| - 1].1).1
  }

  /** A messenger that gives every new message a new id, and that refuses to edit a message only
      when it is gone. */
  ghost predicate Reliable(c: Chat, ops: seq<(Op, Net)>) {
    forall k | 0 <= k < |ops| ::
      var now, net := Run(c, ops[..k]), ops[k].1;
      && net.newId !in now.messages
      && (net.editFails && now.active.Some? ==> now.active.value.messageId !in now.messages)
  }

  /** Over any run, whatever sends fail and whatever messages disappear, at most one managed
      message has live buttons, and it is the stored one. */
  lemma {:induction false} RunKeepsOnlyActiveLive(c: Chat, ops: seq<(Op, Net)>)
    requires OnlyActiveIsLive(c) && Reliable(c, ops)
    ensures OnlyActiveIsLive(Run(c, ops))
    decreases |ops|
  {
    if ops != [] {
      var n := |ops| - 1;
      forall k | 0 <= k < n
        ensures ops[..n][..k] == ops[..k]
      {
      }
      assert Reliable(c, ops[..n]);
      RunKeepsOnlyActiveLive(c, ops[..n]);
      StepKeepsOnlyActiveLiveIff(Run(c, ops[..n]), ops[n].0, ops[n].1);
    }
  }

  /** After a successful operation the stored record names a message that shows exactly the
      screen that was asked for. */
  lemma SuccessShowsScreen(c: Chat, op: Op, net: Net)
    requires op.Show? || op.Replace? || op.EditInPlace?
    requires Step(c, op, net).0
    ensures var next := Step(c, op, net).1;
            && next.active.Some?
            && var r := next.active.value;
               && r == Record(r.messageId, op.screen.id, op.screen.context)
               && r.messageId in next.messages
               && next.messages[r.messageId] == Message(op.screen.text, op.screen.keyboard)
               && (r.messageId == net.newId || IsActive(c, r.messageId))
  {
  }

  /** A failed operation sent nothing and kept the stored record; at most it took the buttons off. */
  lemma FailureKeepsRecord(c: Chat, op: Op, net: Net)
    requires !Step(c, op, net).0
    ensures net.sendFails && Step(c, op, net).1.active == c.active
    ensures Step(c, op, net).1.messages.Keys == c.messages.Keys
    ensures forall id | id in c.messages ::
              Step(c, op, net).1.messages[id] in {c.messages[id], c.messages[id].(keyboard := [])}
  {
  }

  /** Showing the screen that is active already, or changing it in place, edits the active message
      if the messenger lets it: the message stays the stored one and nothing is sent. */
  lemma SameScreenIsEdited(c: Chat, op: Op, net: Net)
    requires c.active.Some? && c.active.value.messageId in c.messages && !net.editFails
    requires op.EditInPlace? || (op.Show? && c.active.value.screenId == op.screen.id)
    ensures var (ok, next) := Step(c, op, net);
            && ok && next.active.Some? && next.active.value.messageId == c.active.value.messageId
            && next.messages == c.messages[c.active.value.messageId := Message(op.screen.text, op.screen.keyboard)]
  {
  }

  /** Any other screen, and a replacement, is a new message if it can be sent; the old active one
      loses its buttons if the messenger lets it, and every other message is untouched. */
  lemma OtherScreenIsSent(c: Chat, op: Op, net: Net)
    requires op.Replace? || (op.Show? && (c.active.None? || c.active.value.screenId != op.screen.id))
    requires net.newId !in c.messages
    ensures var (ok, next) := Step(c, op, net);
            && ok == !net.sendFails
            && (net.newId in next.messages <==> ok)
            && (ok ==> next.active == Some(Record(net.newId, op.screen.id, op.screen.context))
                       && next.messages[net.newId] == Message(op.screen.text, op.screen.keyboard))
            && (!ok ==> next.active == c.active)
            && forall id | id in c.messages ::
                 id in next.messages
                 && next.messages[id] == if IsActive(c, id) && !net.editFails then Message(c.messages[id].text, [])
                                         else c.messages[id]
  {
  }

  /** A message that cannot be edited is left as it is, and the screen is sent anew. */
  lemma RefusedEditIsSent(c: Chat, op: Op, net: Net)
    requires c.active.Some? && (c.active.value.messageId !in c.messages || net.editFails)
    requires op.EditInPlace? || (op.Show? && c.active.value.screenId == op.screen.id)
    ensures Step(c, op, net)
            == if net.sendFails then (false, c)
               else (true, Chat(Some(Record(net.newId, op.screen.id, op.screen.context)),
                                c.messages[net.newId := Message(op.screen.text, op.screen.keyboard)]))
  {
  }

  /** Retiring forgets the active message, and takes its buttons if the messenger lets it. */
  lemma RetireForgets(c: Chat, net: Net)
    ensures var (ok, next) := Step(c, RetireActive, net);
            && ok && next.active == None && next.messages.Keys == c.messages.Keys
            && forall id | id in c.messages ::
                 next.messages[id] == if IsActive(c, id) && !net.editFails then Message(c.messages[id].text, [])
                                      else c.messages[id]
  {
  }
}
