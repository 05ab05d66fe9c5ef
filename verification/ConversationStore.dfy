/** The in-memory conversation store (store/store.go): conversations by id, conversation ids by user, messages by
    conversation. A call's fresh ids and its clock reading are parameters. */
module ConversationStore {
  import opened Sorting
  import opened Text

  datatype Content = Content(kind: string, text: string, name: string)

  datatype Message = Message(id: string, conversation: string, sender: string, contentType: string, content: Content,
                             proactive: bool, createdAt: int)

  datatype Conversation = Conversation(id: string, user: string, bot: string, botName: string, lastMessage: string,
                                       lastMessageAt: int, unread: int, proactive: bool)

  datatype State = State(convs: map<string, Conversation>, byUser: map<string, seq<string>>,
                         messages: map<string, seq<Message>>)

  datatype Event =
    | CreateBot(user: string, bot: string, name: string, id: string, now: int)
    | EnsureConversation(user: string, bot: string, name: string, id: string, now: int)
    | SaveMessage(user: string, message: Message, id: string, now: int)
    | MarkRead(user: string, conversation: string)

  const EMPTY := State(map[], map[], map[])

  // ---------------------------------------------------------------- the operations

  function IDs(s: State, user: string): seq<string> { if user in s.byUser then s.byUser[user] else [] }

  function Messages(s: State, id: string): seq<Message> { if id in s.messages then s.messages[id] else [] }

  /** conversationsByID[id], checked against its owner. */
  predicate Owns(s: State, user: string, id: string) { id in s.convs && s.convs[id].user == user }

  predicate HasBot(s: State, id: string, bot: string) { id in s.convs && s.convs[id].bot == bot }

  /** The first of the ids whose conversation is with the bot. */
  function FindBot(s: State, ids: seq<string>, bot: string): Option<Conversation> {
    if ids == [] then None
    else if HasBot(s, ids[0], bot) then Some(s.convs[ids[0]])
    else FindBot(s, ids[1..], bot)
  }

  function NewConversation(user: string, bot: string, name: string, id: string, now: int): Conversation {
    Conversation(id, user, bot, name, "", now, 0, false)
  }

  function Add(s: State, c: Conversation): State {
    s.(convs := s.convs[c.id := c], byUser := s.byUser[c.user := IDs(s, c.user) + [c.id]])
  }

  /** previewText. */
  function Preview(m: Message): string {
    if m.content.kind == "image" then "[图片]"
    else if m.content.kind == "location" then (if m.content.name != "" then "📍" + m.content.name else "📍位置")
    else m.content.text
  }

  function Stamped(m: Message, id: string, now: int): Message {
    m.(id := if Blank(m.id) then id else m.id, createdAt := now,
       contentType := if m.contentType == "" then m.content.kind else m.contentType)
  }

  function Touched(c: Conversation, m: Message): Conversation {
    c.(lastMessage := Preview(m), lastMessageAt := m.createdAt, proactive := m.proactive,
       unread := c.unread + if m.sender == "bot" then 1 else 0)
  }

  /** Saving and marking read are refused for a conversation that does not exist or belongs to another user. */
  predicate Accepted(s: State, e: Event) {
    match e
    case CreateBot(_, _, _, _, _) => true
    case EnsureConversation(user, bot, _, _, _) => FindBot(s, IDs(s, user), bot).None?
    case SaveMessage(user, m, _, _) => Owns(s, user, m.conversation)
    case MarkRead(user, id) => Owns(s, user, id)
  }

  function Next(s: State, e: Event): State {
    if !Accepted(s, e) then s
    else match e
      case CreateBot(user, bot, name, id, now) => Add(s, NewConversation(user, bot, name, id, now))
      case EnsureConversation(user, bot, name, id, now) => Add(s, NewConversation(user, bot, name, id, now))
      case SaveMessage(_, m, id, now) =>
        var stored := Stamped(m, id, now);
        s.(messages := s.messages[m.conversation := Messages(s, m.conversation) + [stored]],
           convs := s.convs[m.conversation := Touched(s.convs[m.conversation], stored)])
      case MarkRead(_, id) => s.(convs := s.convs[id := s.convs[id].(unread := 0)])
  }

  function After(events: seq<Event>): State {
    if events == [] then EMPTY else Next(After(events[..|events| - 1]), events[|events| - 1])
  }

  /** The ids that NewID returns are new: no conversation has the id, and none is with a bot of that id. */
  ghost predicate Fresh(s: State, e: Event) {
    match e
    case CreateBot(_, bot, _, id, _) => id !in s.convs && forall c :: c in s.convs ==> s.convs[c].bot != bot
    case EnsureConversation(_, _, _, id, _) => id !in s.convs
    case _ => true
  }

  ghost predicate FreshRun(events: seq<Event>) {
    forall i :: 0 <= i < |events| ==> Fresh(After(events[..i]), events[i])
  }

  // ---------------------------------------------------------------- the indexes agree

  ghost predicate Distinct(ids: seq<string>) { forall i, j :: 0 <= i < j < |ids| ==> ids[i] != ids[j] }

  /** The id map and the per-user lists hold the same conversations, each once, and a user has at most one
      conversation with a bot. */
  ghost predicate Sound(s: State) { Listed(s) && Owned(s) && AllDistinct(s) && OnePerBot(s) && MessagesKnown(s) }

  ghost predicate Listed(s: State) {
    forall id :: id in s.convs ==> s.convs[id].id == id && id in IDs(s, s.convs[id].user)
  }

  ghost predicate Owned(s: State) {
    forall user, id :: user in s.byUser && id in IDs(s, user) ==> Owns(s, user, id)
  }

  ghost predicate AllDistinct(s: State) { forall user :: user in s.byUser ==> Distinct(IDs(s, user)) }

  predicate SamePair(a: Conversation, b: Conversation) { a.user == b.user && a.bot == b.bot }

  ghost predicate OnePerBot(s: State) {
    forall a, b :: a in s.convs && b in s.convs && SamePair(s.convs[a], s.convs[b]) ==> a == b
  }

  ghost predicate MessagesKnown(s: State) { forall id :: id in s.messages ==> id in s.convs }

  lemma {:induction false} FindBotIs(s: State, ids: seq<string>, bot: string)
    ensures FindBot(s, ids, bot).Some? <==> exists i :: 0 <= i < |ids| && HasBot(s, ids[i], bot)
    ensures FindBot(s, ids, bot).Some? ==>
              exists i :: 0 <= i < |ids| && HasBot(s, ids[i], bot) && FindBot(s, ids, bot).value == s.convs[ids[i]]
  {
    if ids != [] {
      FindBotIs(s, ids[1..], bot);
      if !HasBot(s, ids[0], bot) {
        forall i | 0 <= i < |ids| && HasBot(s, ids[i], bot) ensures HasBot(s, ids[1..][i - 1], bot) {}
        forall i | 0 <= i < |ids| - 1 && HasBot(s, ids[1..][i], bot) ensures HasBot(s, ids[i + 1], bot) {}
      }
    }
  }

  /** FindConversationByBot finds the user's conversation with the bot exactly when there is one. */
  lemma FindBotExact(s: State, user: string, bot: string)
    requires Sound(s)
    ensures var r := FindBot(s, IDs(s, user), bot);
            && (r.Some? ==>
                r.value.id in s.convs && s.convs[r.value.id] == r.value && r.value.user == user && r.value.bot == bot)
            && (r.None? ==> forall id :: id in s.convs ==> !(s.convs[id].user == user && s.convs[id].bot == bot))
  {
    var ids := IDs(s, user);
    FindBotIs(s, ids, bot);
    hide FindBot;
    var r := FindBot(s, ids, bot);
    if r.Some? {
      var i :| 0 <= i < |ids| && HasBot(s, ids[i], bot) && r.value == s.convs[ids[i]];
      assert ids[i] in ids && user in s.byUser;
      assert Owns(s, user, ids[i]);
    } else {
      forall id | id in s.convs && s.convs[id].user == user ensures s.convs[id].bot != bot {
        var i :| 0 <= i < |ids| && ids[i] == id;
        assert !HasBot(s, ids[i], bot);
      }
    }
  }

  lemma AddIDs(s: State, c: Conversation, user: string)
    ensures IDs(Add(s, c), user) == if user == c.user then IDs(s, user) + [c.id] else IDs(s, user)
  {
  }

  lemma AddFields(s: State, c: Conversation)
    ensures Add(s, c).convs == s.convs[c.id := c] && Add(s, c).messages == s.messages
    ensures Add(s, c).byUser.Keys == s.byUser.Keys + {c.user}
  {
  }

  lemma AddListed(s: State, c: Conversation)
    requires Listed(s) && c.id !in s.convs
    ensures Listed(Add(s, c))
  {
    var t := Add(s, c);
    AddFields(s, c);
    hide Add, IDs;
    forall id | id in t.convs ensures t.convs[id].id == id && id in IDs(t, t.convs[id].user) {
      AddIDs(s, c, t.convs[id].user);
      if id == c.id { assert (IDs(s, c.user) + [c.id])[|IDs(s, c.user)|] == c.id; }
    }
  }

  lemma AddOwned(s: State, c: Conversation)
    requires Owned(s) && c.id !in s.convs
    ensures Owned(Add(s, c))
  {
    var t := Add(s, c);
    AddFields(s, c);
    forall user, id | user in t.byUser && id in IDs(t, user) ensures Owns(t, user, id) {
      AddIDs(s, c, user);
      if user == c.user && id == c.id {
        assert t.convs[id] == c;
      } else {
        assert id in IDs(s, user) && Owns(s, user, id);
      }
    }
  }

  lemma NotListed(s: State, user: string, id: string)
    requires Owned(s) && id !in s.convs
    ensures id !in IDs(s, user)
  {
  }

  lemma AddDistinct(s: State, c: Conversation)
    requires AllDistinct(s) && Owned(s) && c.id !in s.convs
    ensures AllDistinct(Add(s, c))
  {
    var t := Add(s, c);
    forall user | user in t.byUser ensures Distinct(IDs(t, user)) {
      AddIDs(s, c, user);
      NotListed(s, user, c.id);
      assert Distinct(IDs(s, user));
    }
  }

  lemma AddKeepsSound(s: State, c: Conversation)
    requires Sound(s) && c.id !in s.convs
    requires forall id :: id in s.convs ==> !(s.convs[id].user == c.user && s.convs[id].bot == c.bot)
    ensures Sound(Add(s, c))
  {
    hide Listed, Owned, AllDistinct, Add;
    AddFields(s, c);
    AddListed(s, c);
    AddOwned(s, c);
    AddDistinct(s, c);
  }

  /** t has the same lists and the same identities as s. */
  ghost predicate SameIndex(s: State, t: State) {
    && t.convs.Keys == s.convs.Keys && t.byUser == s.byUser
    && forall id :: id in s.convs ==>
        t.convs[id].id == s.convs[id].id && t.convs[id].user == s.convs[id].user && t.convs[id].bot == s.convs[id].bot
  }

  lemma SameIndexListed(s: State, t: State)
    requires SameIndex(s, t) && Listed(s) && Owned(s)
    ensures Listed(t) && Owned(t)
  {
    assert forall user :: IDs(t, user) == IDs(s, user);
  }

  lemma SameIndexDistinct(s: State, t: State)
    requires SameIndex(s, t) && AllDistinct(s) && OnePerBot(s)
    ensures AllDistinct(t) && OnePerBot(t)
  {
    assert forall user :: IDs(t, user) == IDs(s, user);
    hide Distinct;
  }

  lemma SameIndexSound(s: State, t: State)
    requires SameIndex(s, t) && Sound(s) && MessagesKnown(t)
    ensures Sound(t)
  {
    hide Listed, Owned, AllDistinct, OnePerBot, SameIndex, MessagesKnown;
    SameIndexListed(s, t);
    SameIndexDistinct(s, t);
  }

  lemma SaveKeepsIndex(s: State, e: Event)
    requires e.SaveMessage? && Accepted(s, e) && MessagesKnown(s)
    ensures SameIndex(s, Next(s, e)) && MessagesKnown(Next(s, e))
  {
    hide Preview, Blank;
  }

  lemma MarkKeepsIndex(s: State, e: Event)
    requires e.MarkRead? && Accepted(s, e) && MessagesKnown(s)
    ensures SameIndex(s, Next(s, e)) && MessagesKnown(Next(s, e))
  {
  }

  lemma NextKeepsSound(s: State, e: Event)
    requires Sound(s) && Fresh(s, e)
    ensures Sound(Next(s, e))
  {
    hide Listed, Owned, AllDistinct, OnePerBot, SameIndex, MessagesKnown, FindBot, Preview, Blank, IDs;
    if Accepted(s, e) {
      match e {
        case CreateBot(user, bot, name, id, now) => AddKeepsSound(s, NewConversation(user, bot, name, id, now));
        case EnsureConversation(user, bot, name, id, now) =>
          FindBotExact(s, user, bot);
          AddKeepsSound(s, NewConversation(user, bot, name, id, now));
        case SaveMessage(_, _, _, _) =>
          SaveKeepsIndex(s, e);
          SameIndexSound(s, Next(s, e));
        case MarkRead(_, _) =>
          MarkKeepsIndex(s, e);
          SameIndexSound(s, Next(s, e));
      }
    }
  }

  /** The indexes agree after every run. */
  lemma {:induction false} RunSound(events: seq<Event>)
    requires FreshRun(events)
    ensures Sound(After(events))
  {
    hide Next, Fresh;
    if events == [] {
      assert Sound(EMPTY);
    } else {
      var n := |events| - 1;
      FreshPrefix(events, n);
      RunSound(events[..n]);
      hide Sound;
      NextKeepsSound(After(events[..n]), events[n]);
    }
  }

  lemma FreshPrefix(events: seq<Event>, n: nat)
    requires n < |events| && FreshRun(events)
    ensures FreshRun(events[..n]) && Fresh(After(events[..n]), events[n])
  {
    hide Fresh, After;
    forall i | 0 <= i < n ensures Fresh(After(events[..n][..i]), events[..n][i]) {
      assert events[..n][..i] == events[..i];
    }
  }

  /** A bot's conversation is the one found for it, and ensuring it again changes nothing. */
  lemma CreatedIsEnsured(s: State, user: string, bot: string, name: string, id: string, now: int, again: Event)
    requires Sound(s) && Fresh(s, CreateBot(user, bot, name, id, now))
    requires again.EnsureConversation? && again.user == user && again.bot == bot
    ensures var t := Next(s, CreateBot(user, bot, name, id, now));
            FindBot(t, IDs(t, user), bot) == Some(NewConversation(user, bot, name, id, now)) && Next(t, again) == t
  {
    var e := CreateBot(user, bot, name, id, now);
    var t := Next(s, e);
    NextKeepsSound(s, e);
    assert t.convs[id] == NewConversation(user, bot, name, id, now);
    FindBotExact(t, user, bot);
    hide FindBot, IDs, Add;
    var r := FindBot(t, IDs(t, user), bot);
    if r.Some? { assert r.value.id == id; }
  }

  // ---------------------------------------------------------------- what the counters mean

  /** The messages accepted for a conversation, in order. */
  function Log(events: seq<Event>, id: string): seq<Message> {
    if events == [] then []
    else
      var n := |events| - 1;
      var e := events[n];
      if e.SaveMessage? && e.message.conversation == id && Accepted(After(events[..n]), e)
      then Log(events[..n], id) + [Stamped(e.message, e.id, e.now)] else Log(events[..n], id)
  }

  /** How many of them were there when the conversation was last marked read. */
  function ReadMark(events: seq<Event>, id: string): (k: nat)
    ensures k <= |Log(events, id)|
  {
    if events == [] then 0
    else
      var n := |events| - 1;
      var e := events[n];
      if e.MarkRead? && e.conversation == id && Accepted(After(events[..n]), e) then |Log(events[..n], id)|
      else ReadMark(events[..n], id)
  }

  function BotMessages(messages: seq<Message>): nat {
    if messages == [] then 0
    else BotMessages(messages[..|messages| - 1]) + if messages[|messages| - 1].sender == "bot" then 1 else 0
  }

  /** A conversation shows the last message of its log and counts the bot's messages since it was read. */
  ghost predicate Shows(s: State, id: string, log: seq<Message>, mark: nat) {
    && mark <= |log| && Messages(s, id) == log
    && (id in s.convs ==>
          && s.convs[id].unread == BotMessages(log[mark..])
          && (if log == [] then s.convs[id].lastMessage == ""
              else && s.convs[id].lastMessage == Preview(log[|log| - 1])
                   && s.convs[id].lastMessageAt == log[|log| - 1].createdAt
                   && s.convs[id].proactive == log[|log| - 1].proactive))
    && (id !in s.convs ==> log == [])
  }

  lemma BotMessagesSnoc(log: seq<Message>, mark: nat, m: Message)
    requires mark <= |log|
    ensures BotMessages((log + [m])[mark..]) == BotMessages(log[mark..]) + if m.sender == "bot" then 1 else 0
  {
    assert (log + [m])[mark..] == log[mark..] + [m];
    assert (log[mark..] + [m])[..|log| - mark] == log[mark..];
  }

  lemma ShowsOther(s: State, t: State, id: string, log: seq<Message>, mark: nat)
    requires Shows(s, id, log, mark) && Messages(t, id) == Messages(s, id)
    requires id in s.convs <==> id in t.convs
    requires id in s.convs ==> t.convs[id] == s.convs[id]
    ensures Shows(t, id, log, mark)
  {
    hide BotMessages, Preview, Messages;
  }

  lemma ShowsAdd(s: State, c: Conversation, id: string, log: seq<Message>, mark: nat)
    requires Shows(s, id, log, mark) && c.id !in s.convs && c.lastMessage == "" && c.unread == 0
    ensures Shows(Add(s, c), id, log, mark)
  {
    assert Messages(Add(s, c), id) == Messages(s, id);
    if id != c.id { ShowsOther(s, Add(s, c), id, log, mark); } else { assert log[mark..] == []; }
  }

  lemma ShowsSave(s: State, e: Event, id: string, log: seq<Message>, mark: nat)
    requires e.SaveMessage? && Accepted(s, e) && Shows(s, id, log, mark)
    ensures var log' := if e.message.conversation == id then log + [Stamped(e.message, e.id, e.now)] else log;
            Shows(Next(s, e), id, log', mark)
  {
    var m := Stamped(e.message, e.id, e.now);
    var t := Next(s, e);
    hide Preview, Blank;
    if e.message.conversation == id {
      assert t.convs[id] == Touched(s.convs[id], m) && Messages(t, id) == log + [m];
      BotMessagesSnoc(log, mark, m);
      assert (log + [m])[|log|] == m && m.sender == e.message.sender;
      hide BotMessages, Next, Stamped;
    } else {
      assert Messages(t, id) == Messages(s, id);
      hide Next;
      ShowsOther(s, t, id, log, mark);
    }
  }

  lemma ShowsMark(s: State, e: Event, id: string, log: seq<Message>, mark: nat)
    requires e.MarkRead? && Accepted(s, e) && Shows(s, id, log, mark)
    ensures Shows(Next(s, e), id, log, if e.conversation == id then |log| else mark)
  {
    var t := Next(s, e);
    assert Messages(t, id) == Messages(s, id);
    hide Preview;
    if e.conversation != id { ShowsOther(s, t, id, log, mark); } else { assert log[|log|..] == []; }
  }

  /** After every run, UnreadCount is the number of bot messages saved since the conversation was last marked read,
      the preview is that of the last message, and the stored messages are exactly the accepted ones in order. */
  lemma {:induction false} RunShows(events: seq<Event>, id: string)
    requires FreshRun(events)
    ensures Shows(After(events), id, Log(events, id), ReadMark(events, id))
  {
    if events == [] {
      assert Messages(EMPTY, id) == [];
    } else {
      var n := |events| - 1;
      var s, e := After(events[..n]), events[n];
      FreshPrefix(events, n);
      RunShows(events[..n], id);
      var log, mark := Log(events[..n], id), ReadMark(events[..n], id);
      hide FreshRun, Shows, FindBot, Log, ReadMark;
      LogStep(events, id);
      if Accepted(s, e) {
        match e {
          case CreateBot(user, bot, name, c, now) =>
              ShowsAdd(s, NewConversation(user, bot, name, c, now), id, log, mark);
          case EnsureConversation(user, bot, name, c, now) =>
              ShowsAdd(s, NewConversation(user, bot, name, c, now), id, log, mark);
          case SaveMessage(_, _, _, _) => ShowsSave(s, e, id, log, mark);
          case MarkRead(_, _) => ShowsMark(s, e, id, log, mark);
        }
      }
    }
  }

  lemma LogStep(events: seq<Event>, id: string)
    requires events != []
    ensures var n := |events| - 1;
            var e := events[n];
            var ok := Accepted(After(events[..n]), e);
            && Log(events, id) == (if e.SaveMessage? && e.message.conversation == id && ok
                                   then Log(events[..n], id) + [Stamped(e.message, e.id, e.now)]
                                   else Log(events[..n], id))
            && ReadMark(events, id) == (if e.MarkRead? && e.conversation == id && ok then |Log(events[..n], id)|
                                        else ReadMark(events[..n], id))
  {
    hide Accepted, After, Stamped;
  }

  /** The log of a conversation only ever grows at its end. */
  lemma {:induction false} LogGrows(events: seq<Event>, n: nat, id: string)
    requires n <= |events|
    ensures Log(events[..n], id) <= Log(events, id)
  {
    hide Accepted, After, Stamped, Log;
    if n < |events| {
      LogStep(events, id);
      var k := |events| - 1;
      LogGrows(events[..k], n, id);
      assert events[..k][..n] == events[..n];
    } else {
      assert events[..n] == events;
    }
  }

  /** What was saved is in the log as it came, at the place where the log ended then, with the time of the call, its own
      id or the new one, and the kind of its content where it had no type. */
  lemma {:induction false} SavedIsLogged(events: seq<Event>, i: nat)
    requires i < |events| && events[i].SaveMessage? && Accepted(After(events[..i]), events[i])
    ensures var e := events[i];
            var log, p := Log(events, e.message.conversation), |Log(events[..i], e.message.conversation)|;
            && p < |log| && log[p].conversation == e.message.conversation && log[p].sender == e.message.sender
            && log[p].content == e.message.content && log[p].proactive == e.message.proactive
            && log[p].createdAt == e.now && log[p].id == (if Trim(e.message.id) == "" then e.id else e.message.id)
            && log[p].contentType ==
                 (if e.message.contentType == "" then e.message.content.kind else e.message.contentType)
  {
    var id := events[i].message.conversation;
    assert events[..i + 1][..i] == events[..i];
    LogStep(events[..i + 1], id);
    LogGrows(events, i + 1, id);
    hide Accepted, After, Log, Trim;
    var log := Log(events, id);
    assert Log(events[..i + 1], id) == log[..|Log(events[..i + 1], id)|];
  }

  /** What a list of conversations shows of a message. */
  lemma PreviewIs(m: Message)
    ensures m.content.kind !in {"image", "location"} ==> Preview(m) == m.content.text
    ensures m.content.kind == "image" ==> Preview(m) == "[图片]"
    ensures m.content.kind == "location" ==>
              Preview(m) == if m.content.name == "" then "📍位置" else "📍" + m.content.name
  {
    assert |"image"| != |"location"|;
  }

  /** A new conversation is empty, unread by nobody and dated at its creation; it comes last in the list of its user. */
  lemma CreatedIs(s: State, user: string, bot: string, name: string, id: string, now: int)
    requires id !in s.convs
    ensures var t := Next(s, CreateBot(user, bot, name, id, now));
            && t.convs.Keys == s.convs.Keys + {id} && t.messages == s.messages
            && t.convs[id].id == id && t.convs[id].user == user && t.convs[id].bot == bot
            && t.convs[id].botName == name && t.convs[id].lastMessage == "" && t.convs[id].lastMessageAt == now
            && t.convs[id].unread == 0 && !t.convs[id].proactive
            && IDs(t, user) == IDs(s, user) + [id]
            && (forall c :: c in s.convs ==> t.convs[c] == s.convs[c])
            && forall other :: other != user ==> IDs(t, other) == IDs(s, other)
  {
  }

  /** ListMessages. */
  function Listing(s: State, user: string, id: string, limit: int): Option<seq<Message>> {
    if !Owns(s, user, id) then None
    else
      var messages := Messages(s, id);
      Some(if limit <= 0 || |messages| <= limit then messages else messages[|messages| - limit..])
  }

  /** A listing is a suffix of the accepted messages: all of them, or the last `limit`; and only for the owner. */
  lemma ListingIsSuffix(events: seq<Event>, user: string, id: string, limit: int)
    requires FreshRun(events)
    ensures var r := Listing(After(events), user, id, limit);
            var log := Log(events, id);
            && (r.Some? <==> Owns(After(events), user, id))
            && (r.Some? ==> && |r.value| <= |log| && r.value == log[|log| - |r.value|..]
                            && |r.value| == if 0 < limit < |log| then limit else |log|)
  {
    RunShows(events, id);
    ListingOf(After(events), user, id, limit, Log(events, id), ReadMark(events, id));
    hide *;
  }

  lemma ListingOf(s: State, user: string, id: string, limit: int, log: seq<Message>, mark: nat)
    requires Shows(s, id, log, mark)
    ensures var r := Listing(s, user, id, limit);
            && (r.Some? <==> Owns(s, user, id))
            && (r.Some? ==> && |r.value| <= |log| && r.value == log[|log| - |r.value|..]
                            && |r.value| == if 0 < limit < |log| then limit else |log|)
  {
    assert Messages(s, id) == log;
    hide Shows, Owns, Messages;
    assert log[0..] == log;
  }

  // ---------------------------------------------------------------- the conversation dated last

  const NO_CONVERSATION := Conversation("", "", "", "", "", 0, 0, false)

  /** conversationsByID at the ids; a missing one yields the zero conversation. */
  function Loaded(s: State, ids: seq<string>): (r: seq<Conversation>)
    ensures |r| == |ids|
  {
    seq(|ids|, i requires 0 <= i < |ids| => if ids[i] in s.convs then s.convs[ids[i]] else NO_CONVERSATION)
  }

  predicate Later(a: Conversation, b: Conversation) { a.lastMessageAt > b.lastMessageAt }

  /** The clock does not go back. */
  ghost predicate Ticking(events: seq<Event>) {
    forall i, j :: 0 <= i < j < |events| && !events[i].MarkRead? && !events[j].MarkRead? ==>
      events[i].now <= events[j].now
  }

  /** The conversation is the user's and not dated before `time`. */
  predicate DatedSince(s: State, user: string, id: string, time: int) {
    Owns(s, user, id) && s.convs[id].lastMessageAt >= time
  }

  lemma NextKeepsDate(s: State, e: Event, user: string, id: string, time: int)
    requires DatedSince(s, user, id, time) && Fresh(s, e) && (!e.MarkRead? ==> time <= e.now)
    ensures DatedSince(Next(s, e), user, id, time)
  {
    hide Preview, Blank, FindBot;
  }

  lemma SavingDates(s: State, e: Event)
    requires e.SaveMessage? && Accepted(s, e)
    ensures DatedSince(Next(s, e), e.user, e.message.conversation, e.now)
  {
    hide Preview, Blank;
  }

  /** Once a message is saved, its conversation stays dated no earlier, over the rest of every run. */
  lemma {:induction false} SavedStaysDated(events: seq<Event>, i: nat)
    requires FreshRun(events) && Ticking(events) && i < |events|
    requires events[i].SaveMessage? && Accepted(After(events[..i]), events[i])
    ensures DatedSince(After(events), events[i].user, events[i].message.conversation, events[i].now)
  {
    hide Accepted, Next, Fresh, FreshRun, Ticking, DatedSince;
    var n, e := |events| - 1, events[i];
    FreshPrefix(events, n);
    if i == n {
      SavingDates(After(events[..n]), e);
    } else {
      TickingPrefix(events, i, n);
      assert events[..n][..i] == events[..i];
      SavedStaysDated(events[..n], i);
      NextKeepsDate(After(events[..n]), events[n], e.user, e.message.conversation, e.now);
    }
  }

  lemma TickingPrefix(events: seq<Event>, i: nat, n: nat)
    requires Ticking(events) && i < n < |events| && !events[i].MarkRead?
    ensures Ticking(events[..n]) && (!events[n].MarkRead? ==> events[i].now <= events[n].now)
  {
  }

  /** Whatever order ListConversations leaves among equals, the first conversation it lists is dated no earlier than any
      message that was saved for the user. */
  lemma LatestIsDated(events: seq<Event>, i: nat, listed: seq<Conversation>)
    requires FreshRun(events) && Ticking(events) && i < |events|
    requires events[i].SaveMessage? && Accepted(After(events[..i]), events[i])
    requires multiset(listed) == multiset(Loaded(After(events), IDs(After(events), events[i].user)))
    requires Sorted(Later, listed)
    ensures listed != [] && listed[0].lastMessageAt >= events[i].now
  {
    SavedStaysDated(events, i);
    RunSound(events);
    var s, e := After(events), events[i];
    IsLoaded(s, e.user, e.message.conversation);
    hide *;
    HeadIsLatest(listed, Loaded(s, IDs(s, e.user)), s.convs[e.message.conversation]);
  }

  lemma IsLoaded(s: State, user: string, id: string)
    requires Sound(s) && Owns(s, user, id)
    ensures s.convs[id] in Loaded(s, IDs(s, user))
  {
    hide AllDistinct, OnePerBot, MessagesKnown, Owned, IDs;
    var ids := IDs(s, user);
    var k :| 0 <= k < |ids| && ids[k] == id;
    assert Loaded(s, ids)[k] == s.convs[id];
  }

  lemma HeadIsLatest(listed: seq<Conversation>, all: seq<Conversation>, c: Conversation)
    requires multiset(listed) == multiset(all) && Sorted(Later, listed) && c in all
    ensures listed != [] && listed[0].lastMessageAt >= c.lastMessageAt
  {
    SameElements(listed, all);
    var p :| 0 <= p < |listed| && listed[p] == c;
    assert p > 0 ==> !Later(listed[p], listed[0]);
  }

  // ---------------------------------------------------------------- the class

  class Store {
    var conversationsByID: map<string, Conversation>
    var conversationsByUser: map<string, seq<string>>
    var messagesByConv: map<string, seq<Message>>

    function Now(): State
      reads this
    {
      State(conversationsByID, conversationsByUser, messagesByConv)
    }

    constructor ()
      ensures Now() == EMPTY
    {
      conversationsByID := map[];
      conversationsByUser := map[];
      messagesByConv := map[];
    }

    method AddConversation(conv: Conversation)
      modifies this
      ensures Now() == Add(old(Now()), conv)
    {
      conversationsByID := conversationsByID[conv.id := conv];
      var ids := if conv.user in conversationsByUser then conversationsByUser[conv.user] else [];
      conversationsByUser := conversationsByUser[conv.user := ids + [conv.id]];
    }

    /** The part of CreateBot that concerns conversations. */
    method CreateBot(userID: string, botID: string, name: string, newID: string, now: int)
      modifies this
      ensures Now() == Next(old(Now()), Event.CreateBot(userID, botID, name, newID, now))
    {
      AddConversation(NewConversation(userID, botID, name, newID, now));
    }

    method ListConversations(userID: string) returns (out: seq<Conversation>)
      ensures multiset(out) == multiset(Loaded(Now(), IDs(Now(), userID)))
      ensures Sorted(Later, out)
    {
      var ids := if userID in conversationsByUser then conversationsByUser[userID] else [];
      out := [];
      for k := 0 to |ids|
        invariant out == Loaded(Now(), ids)[..k]
      {
        var conv := if ids[k] in conversationsByID then conversationsByID[ids[k]] else NO_CONVERSATION;
        out := out + [conv];
      }
      assert out == Loaded(Now(), ids);
      out := SortSlice(out, Later);
    }

    /** FindConversationByBot. */
    method FindConversationByBot(userID: string, botID: string) returns (r: Option<Conversation>)
      ensures r == FindBot(Now(), IDs(Now(), userID), botID)
    {
      var ids := if userID in conversationsByUser then conversationsByUser[userID] else [];
      assert ids[0..] == ids;
      for k := 0 to |ids|
        invariant FindBot(Now(), ids, botID) == FindBot(Now(), ids[k..], botID)
      {
        assert ids[k..][1..] == ids[k + 1..];
        if ids[k] in conversationsByID && conversationsByID[ids[k]].bot == botID {
          return Some(conversationsByID[ids[k]]);
        }
      }
      return None;
    }

    method EnsureConversation(userID: string, botID: string, name: string, newID: string, now: int)
        returns (conv: Conversation)
      modifies this
      ensures Now() == Next(old(Now()), Event.EnsureConversation(userID, botID, name, newID, now))
      ensures var found := FindBot(old(Now()), IDs(old(Now()), userID), botID);
              conv == if found.Some? then found.value else NewConversation(userID, botID, name, newID, now)
    {
      var found := FindConversationByBot(userID, botID);
      hide FindBot;
      if found.Some? { return found.value; }
      conv := NewConversation(userID, botID, name, newID, now);
      AddConversation(conv);
    }

    method ListMessages(userID: string, conversationID: string, limit: int) returns (r: Option<seq<Message>>)
      ensures r == Listing(Now(), userID, conversationID, limit)
    {
      if conversationID !in conversationsByID || conversationsByID[conversationID].user != userID { return None; }
      var messages := if conversationID in messagesByConv then messagesByConv[conversationID] else [];
      if limit <= 0 || |messages| <= limit { return Some(messages); }
      return Some(messages[|messages| - limit..]);
    }

    method MarkConversationRead(userID: string, conversationID: string) returns (ok: bool)
      modifies this
      ensures ok == Accepted(old(Now()), MarkRead(userID, conversationID))
      ensures Now() == Next(old(Now()), MarkRead(userID, conversationID))
    {
      if conversationID !in conversationsByID || conversationsByID[conversationID].user != userID { return false; }
      var conv := conversationsByID[conversationID];
      conversationsByID := conversationsByID[conversationID := conv.(unread := 0)];
      return true;
    }

    method SaveMessage(userID: string, message: Message, newID: string, now: int) returns (r: Option<Message>)
      modifies this
      ensures r == if Accepted(old(Now()), Event.SaveMessage(userID, message, newID, now))
              then Some(Stamped(message, newID, now)) else None
      ensures Now() == Next(old(Now()), Event.SaveMessage(userID, message, newID, now))
    {
      hide Blank, Preview;
      var id := message.conversation;
      if id !in conversationsByID || conversationsByID[id].user != userID { return None; }
      var conv := conversationsByID[id];
      var m := message;
      if Blank(m.id) { m := m.(id := newID); }
      m := m.(createdAt := now);
      if m.contentType == "" { m := m.(contentType := m.content.kind); }
      assert m == Stamped(message, newID, now);
      hide Stamped;
      messagesByConv := messagesByConv[id := (if id in messagesByConv then messagesByConv[id] else []) + [m]];
      conv := conv.(lastMessage := Preview(m), lastMessageAt := m.createdAt, proactive := m.proactive);
      if m.sender == "bot" { conv := conv.(unread := conv.unread + 1); }
      conversationsByID := conversationsByID[id := conv];
      r := Some(m);
    }
  }
}
