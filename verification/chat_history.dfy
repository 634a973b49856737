/** The tRPC `chatHistory` router: chat sessions and their messages, each
    session visible to its owner only. Saving a message bumps the session's
    `updatedAt`, and the first USER message of a session still called
    "New Chat" gives it a title. Every write takes the next tick of a
    logical clock, which stands for `new Date()`. */
module ChatHistory {
  import opened Wrappers
  import opened Text
  import opened Schemas
  import opened Ranking
  import Store

  const DefaultTitle: string := "New Chat"
  const SessionNotFound: string := "Session not found"
  /** An automatic title keeps this many characters of the message. */
  const TitleLength: nat := 50

  datatype Role = USER | ASSISTANT

  datatype ChatSession = ChatSession(id: string, title: string, userId: string, createdAt: nat, updatedAt: nat)

  /** A message; `sources` is the optional JSON value stored with it. */
  datatype ChatMessage = ChatMessage(id: nat, sessionId: string, role: Role, content: string, sources: Option<string>, createdAt: nat)

  /** `message.role.toLowerCase()`. */
  function RoleName(role: Role): string {
    match role
    case USER => "user"
    case ASSISTANT => "assistant"
  }

  /** `z.enum(["USER", "ASSISTANT"])`. */
  function ParseRole(s: string): (r: Option<Role>)
    ensures r.Some? <==> s == "USER" || s == "ASSISTANT"
    ensures r.Some? ==> RoleName(r.value) == Lower(s)
  {
    if s == "USER" then Some(USER) else if s == "ASSISTANT" then Some(ASSISTANT) else None
  }

  /** `input.title || "New Chat"`. */
  function SessionTitle(title: Option<string>): (r: string)
    ensures r != []
    ensures title.Some? && title.value != [] ==> r == title.value
  {
    if title.Some? && title.value != [] then title.value else DefaultTitle
  }

  /** The title taken from a message: the message itself up to 50
      characters, else its first 50 characters and "...". */
  function AutoTitle(content: string): (r: string)
    ensures |r| <= TitleLength + 3
    ensures |content| <= TitleLength ==> r == content
    ensures |content| > TitleLength ==> |r| == TitleLength + 3 && r[..TitleLength] == content[..TitleLength] && EndsWith(r, "...")
  {
    if |content| > TitleLength then content[..TitleLength] + "..." else content
  }

  /** An automatic title is "New Chat" again only for the message "New
      Chat", so any other first USER message retitles the session once and
      for all. */
  lemma AutoTitleLeavesDefault(content: string)
    ensures AutoTitle(content) == DefaultTitle <==> content == DefaultTitle
  {
    if |content| > TitleLength {
      assert |AutoTitle(content)| != |DefaultTitle|;
    }
  }

  // ------------------------------------------------------------------ store predicates

  predicate UniqueSessionIds(sessions: seq<ChatSession>) {
    forall i, j :: 0 <= i < j < |sessions| ==> sessions[i].id != sessions[j].id
  }

  /** Messages are stored in strictly increasing `createdAt` order. */
  predicate MessagesInOrder(messages: seq<ChatMessage>) {
    forall i, j :: 0 <= i < j < |messages| ==> messages[i].createdAt < messages[j].createdAt
  }

  /** Replacing a session by one with the same id keeps ids unique. */
  lemma ReplaceKeepsUnique(sessions: seq<ChatSession>, i: nat, s: ChatSession)
    requires UniqueSessionIds(sessions) && i < |sessions| && s.id == sessions[i].id
    ensures UniqueSessionIds(sessions[i := s])
  {
  }

  /** Removing a session keeps ids unique. */
  lemma RemoveKeepsUnique(sessions: seq<ChatSession>, i: nat)
    requires UniqueSessionIds(sessions) && i < |sessions|
    ensures UniqueSessionIds(sessions[..i] + sessions[i + 1..])
  {
    var after := sessions[..i] + sessions[i + 1..];
    forall a, b | 0 <= a < b < |after|
      ensures after[a].id != after[b].id
    {
      var a' := if a < i then a else a + 1;
      var b' := if b < i then b else b + 1;
      assert after[a] == sessions[a'] && after[b] == sessions[b'];
    }
  }

  /** The index of the session with id `id`, if there is one. */
  function SessionIndex(sessions: seq<ChatSession>, id: string): (r: Option<nat>)
    ensures r.Some? ==> r.value < |sessions| && sessions[r.value].id == id
    ensures r.None? ==> forall s :: s in sessions ==> s.id != id
    decreases |sessions|
  {
    if sessions == [] then None
    else if sessions[|sessions| - 1].id == id then Some(|sessions| - 1)
    else SessionIndex(sessions[..|sessions| - 1], id)
  }

  /** `chatSession.findFirst({ where: { id, userId } })`, as an index. */
  function OwnedIndex(sessions: seq<ChatSession>, id: string, userId: string): (r: Option<nat>)
    ensures r.Some? ==> r.value < |sessions| && sessions[r.value].id == id && sessions[r.value].userId == userId
  {
    match SessionIndex(sessions, id)
    case Some(i) => if sessions[i].userId == userId then Some(i) else None
    case None => None
  }

  /** With unique ids, the lookup fails exactly when the caller owns no
      session with that id. */
  lemma {:induction false} OwnedIndexNone(sessions: seq<ChatSession>, id: string, userId: string)
    requires UniqueSessionIds(sessions)
    ensures OwnedIndex(sessions, id, userId).None? <==> forall s :: s in sessions && s.id == id ==> s.userId != userId
    decreases |sessions|
  {
    if sessions != [] && sessions[|sessions| - 1].id != id {
      var init := sessions[..|sessions| - 1];
      OwnedIndexNone(init, id, userId);
      assert sessions == init + [sessions[|sessions| - 1]];
    }
  }

  /** The messages of one session, in storage order. */
  function MessagesOf(messages: seq<ChatMessage>, sessionId: string): (r: seq<ChatMessage>)
    ensures |r| <= |messages|
    ensures forall m :: m in r <==> m in messages && m.sessionId == sessionId
    decreases |messages|
  {
    if messages == [] then []
    else (MessagesOf(messages[..|messages| - 1], sessionId)
      + (if messages[|messages| - 1].sessionId == sessionId then [messages[|messages| - 1]] else []))
  }

  /** The messages of every session but one, in storage order. */
  function MessagesNotOf(messages: seq<ChatMessage>, sessionId: string): (r: seq<ChatMessage>)
    ensures |r| <= |messages|
    ensures forall m :: m in r <==> m in messages && m.sessionId != sessionId
    decreases |messages|
  {
    if messages == [] then []
    else (MessagesNotOf(messages[..|messages| - 1], sessionId)
      + (if messages[|messages| - 1].sessionId != sessionId then [messages[|messages| - 1]] else []))
  }

  /** A filtered run of ordered messages is still ordered. */
  lemma {:induction false} MessagesOfInOrder(messages: seq<ChatMessage>, sessionId: string)
    requires MessagesInOrder(messages)
    ensures MessagesInOrder(MessagesOf(messages, sessionId))
    decreases |messages|
  {
    if messages != [] {
      var init := messages[..|messages| - 1];
      MessagesOfInOrder(init, sessionId);
      var last := messages[|messages| - 1];
      forall m | m in MessagesOf(init, sessionId)
        ensures m.createdAt < last.createdAt
      {
        var k :| 0 <= k < |init| && init[k] == m;
        assert messages[k] == m;
      }
    }
  }

  /** Dropping one session's messages keeps the rest in order. */
  lemma {:induction false} MessagesNotOfInOrder(messages: seq<ChatMessage>, sessionId: string)
    requires MessagesInOrder(messages)
    ensures MessagesInOrder(MessagesNotOf(messages, sessionId))
    decreases |messages|
  {
    if messages != [] {
      var init := messages[..|messages| - 1];
      MessagesNotOfInOrder(init, sessionId);
      var last := messages[|messages| - 1];
      forall m | m in MessagesNotOf(init, sessionId)
        ensures m.createdAt < last.createdAt
      {
        var k :| 0 <= k < |init| && init[k] == m;
        assert messages[k] == m;
      }
    }
  }

  // ------------------------------------------------------------------ the store

  datatype MessageView = MessageView(id: nat, kind: string, content: string, sources: Option<string>, timestamp: nat)

  function ViewOf(m: ChatMessage): MessageView {
    MessageView(m.id, RoleName(m.role), m.content, m.sources, m.createdAt)
  }

  class ChatStore {
    var sessions: seq<ChatSession>
    var messages: seq<ChatMessage>
    /** The logical clock: the time the next write takes. */
    var clock: nat
    /** The id the next message gets. */
    var nextMessageId: nat

    ghost predicate Valid()
      reads this
    {
      && UniqueSessionIds(sessions)
      && (forall s :: s in sessions ==> s.updatedAt < clock)
      && (forall m :: m in messages ==> m.createdAt < clock)
      && MessagesInOrder(messages)
    }

    constructor()
      ensures Valid() && sessions == [] && messages == []
    {
      sessions, messages, clock, nextMessageId := [], [], 0, 0;
    }

    /** `createSession`: a new session owned by the caller, titled with the
        given title or "New Chat"; `newId` is the id the database
        generates. */
    method CreateSession(userId: string, title: Option<string>, newId: string) returns (r: Result<ChatSession>)
      requires Valid()
      modifies this
      ensures Valid() && messages == old(messages)
      ensures SessionIndex(old(sessions), newId).Some? ==> r == Err(Store.UniqueViolation) && sessions == old(sessions)
      ensures SessionIndex(old(sessions), newId).None? ==>
        && r == Ok(ChatSession(newId, SessionTitle(title), userId, old(clock), old(clock)))
        && sessions == old(sessions) + [r.value]
    {
      if SessionIndex(sessions, newId).Some? {
        return Err(Store.UniqueViolation);
      }
      var s := ChatSession(newId, SessionTitle(title), userId, clock, clock);
      sessions := sessions + [s];
      clock := clock + 1;
      return Ok(s);
    }

    /** `saveMessage`: appends the message, then bumps the session's
        `updatedAt`, then, for a USER message on a session still called
        "New Chat", sets the automatic title. */
    method SaveMessage(userId: string, sessionId: string, role: string, content: string, sources: Option<string>)
      returns (r: Result<MessageView>)
      requires Valid()
      modifies this
      ensures Valid()
      ensures !IsCuid(sessionId) || ParseRole(role).None? || content == [] ==>
        r == Err(BadRequest) && sessions == old(sessions) && messages == old(messages)
      ensures IsCuid(sessionId) && ParseRole(role).Some? && content != [] && OwnedIndex(old(sessions), sessionId, userId).None? ==>
        r == Err(SessionNotFound) && sessions == old(sessions) && messages == old(messages)
      ensures IsCuid(sessionId) && ParseRole(role).Some? && content != [] && OwnedIndex(old(sessions), sessionId, userId).Some? ==>
        var i := OwnedIndex(old(sessions), sessionId, userId).value;
        var s := old(sessions)[i];
        var m := ChatMessage(old(nextMessageId), sessionId, ParseRole(role).value, content, sources, old(clock));
        && messages == old(messages) + [m]
        && r == Ok(ViewOf(m))
        && sessions == old(sessions)[i := s.(
             updatedAt := old(clock) + 1,
             title := if m.role == USER && s.title == DefaultTitle then AutoTitle(content) else s.title)]
    {
      var parsedRole := ParseRole(role);
      if !IsCuid(sessionId) || parsedRole.None? || content == [] {
        return Err(BadRequest);
      }
      var found := OwnedIndex(sessions, sessionId, userId);
      if found.None? {
        return Err(SessionNotFound);
      }
      var i := found.value;
      var session := sessions[i];
      var m := ChatMessage(nextMessageId, sessionId, parsedRole.value, content, sources, clock);
      messages := messages + [m];
      nextMessageId := nextMessageId + 1;
      clock := clock + 1;
      var updated := session.(updatedAt := clock);
      clock := clock + 1;
      if parsedRole.value == USER && session.title == DefaultTitle {
        updated := updated.(title := AutoTitle(content));
      }
      ReplaceKeepsUnique(sessions, i, updated);
      sessions := sessions[i := updated];
      return Ok(ViewOf(m));
    }

    /** `updateSession`: replaces the title of an owned session with one of
        1 to 100 characters. */
    method UpdateSession(userId: string, sessionId: string, title: string) returns (r: Result<ChatSession>)
      requires Valid()
      modifies this
      ensures Valid() && messages == old(messages)
      ensures !IsCuid(sessionId) || !LengthWithin(title, 1, 100) ==> r == Err(BadRequest) && sessions == old(sessions)
      ensures IsCuid(sessionId) && LengthWithin(title, 1, 100) && OwnedIndex(old(sessions), sessionId, userId).None? ==>
        r == Err(SessionNotFound) && sessions == old(sessions)
      ensures IsCuid(sessionId) && LengthWithin(title, 1, 100) && OwnedIndex(old(sessions), sessionId, userId).Some? ==>
        var i := OwnedIndex(old(sessions), sessionId, userId).value;
        && sessions == old(sessions)[i := old(sessions)[i].(title := title)]
        && r == Ok(sessions[i])
    {
      if !IsCuid(sessionId) || !LengthWithin(title, 1, 100) {
        return Err(BadRequest);
      }
      var found := OwnedIndex(sessions, sessionId, userId);
      if found.None? {
        return Err(SessionNotFound);
      }
      var i := found.value;
      sessions := sessions[i := sessions[i].(title := title)];
      return Ok(sessions[i]);
    }

    /** `deleteSession`: removes an owned session together with its
        messages. */
    method DeleteSession(userId: string, sessionId: string) returns (r: Result<bool>)
      requires Valid()
      modifies this
      ensures Valid()
      ensures !IsCuid(sessionId) ==> r == Err(BadRequest) && sessions == old(sessions) && messages == old(messages)
      ensures IsCuid(sessionId) && OwnedIndex(old(sessions), sessionId, userId).None? ==>
        r == Err(SessionNotFound) && sessions == old(sessions) && messages == old(messages)
      ensures IsCuid(sessionId) && OwnedIndex(old(sessions), sessionId, userId).Some? ==>
        var i := OwnedIndex(old(sessions), sessionId, userId).value;
        && r == Ok(true)
        && sessions == old(sessions)[..i] + old(sessions)[i + 1..]
        && messages == MessagesNotOf(old(messages), sessionId)
    {
      if !IsCuid(sessionId) {
        return Err(BadRequest);
      }
      var found := OwnedIndex(sessions, sessionId, userId);
      if found.None? {
        return Err(SessionNotFound);
      }
      var i := found.value;
      MessagesNotOfInOrder(messages, sessionId);
      RemoveKeepsUnique(sessions, i);
      sessions := sessions[..i] + sessions[i + 1..];
      messages := MessagesNotOf(messages, sessionId);
      return Ok(true);
    }
  }

  // ------------------------------------------------------------------ reads

  datatype SessionSummary = SessionSummary(
    id: string,
    title: string,
    createdAt: nat,
    updatedAt: nat,
    messageCount: nat,
    lastMessage: Option<string>,
    lastMessageAt: Option<nat>)

  /** A session with its message count and its last stored message. */
  function Summary(s: ChatSession, messages: seq<ChatMessage>): SessionSummary {
    var own := MessagesOf(messages, s.id);
    SessionSummary(s.id, s.title, s.createdAt, s.updatedAt, |own|,
                   if own == [] then None else Some(own[|own| - 1].content),
                   if own == [] then None else Some(own[|own| - 1].createdAt))
  }

  /** With messages in creation order, the summary's last message is the
      session's newest one. */
  lemma SummaryNewest(s: ChatSession, messages: seq<ChatMessage>)
    requires MessagesInOrder(messages)
    ensures var v := Summary(s, messages);
      && v.messageCount == |MessagesOf(messages, s.id)|
      && (v.lastMessageAt.Some? <==> exists m :: m in messages && m.sessionId == s.id)
      && forall m :: m in messages && m.sessionId == s.id ==>
           v.lastMessageAt.Some? && m.createdAt <= v.lastMessageAt.value
  {
    var own := MessagesOf(messages, s.id);
    MessagesOfInOrder(messages, s.id);
    forall m | m in messages && m.sessionId == s.id
      ensures m.createdAt <= own[|own| - 1].createdAt
    {
      var k :| 0 <= k < |own| && own[k] == m;
    }
  }

  /** The caller's sessions, keyed for the sort by `updatedAt`. */
  function OwnedSessions(sessions: seq<ChatSession>, userId: string): (r: seq<Scored<ChatSession>>)
    ensures forall k :: 0 <= k < |r| ==> r[k].score == r[k].item.updatedAt
    ensures forall x :: x in r <==> x.item in sessions && x.item.userId == userId && x.score == x.item.updatedAt
    decreases |sessions|
  {
    if sessions == [] then []
    else
      (if sessions[0].userId == userId then [Scored(sessions[0], sessions[0].updatedAt)] else [])
        + OwnedSessions(sessions[1..], userId)
  }

  function Summaries(ranked: seq<Scored<ChatSession>>, messages: seq<ChatMessage>): (r: seq<SessionSummary>)
    ensures |r| == |ranked|
    ensures forall k :: 0 <= k < |r| ==> r[k] == Summary(ranked[k].item, messages)
    decreases |ranked|
  {
    if ranked == [] then [] else [Summary(ranked[0].item, messages)] + Summaries(ranked[1..], messages)
  }

  /** `listSessions`: the caller's sessions, most recently active first. */
  function ListSessions(sessions: seq<ChatSession>, messages: seq<ChatMessage>, userId: string): seq<SessionSummary> {
    Summaries(Sort(OwnedSessions(sessions, userId)), messages)
  }

  /** Every session the caller owns is listed. */
  lemma ListSessionsComplete(sessions: seq<ChatSession>, messages: seq<ChatMessage>, userId: string, s: ChatSession)
    requires s in sessions && s.userId == userId
    ensures Summary(s, messages) in ListSessions(sessions, messages, userId)
  {
    var owned := OwnedSessions(sessions, userId);
    var ranked := Sort(owned);
    SortPermutes(owned);
    var x := Scored(s, s.updatedAt);
    assert x in multiset(ranked);
    var k :| 0 <= k < |ranked| && ranked[k] == x;
    assert ListSessions(sessions, messages, userId)[k] == Summary(s, messages);
  }

  /** Only sessions the caller owns are listed. */
  lemma ListSessionsOwned(sessions: seq<ChatSession>, messages: seq<ChatMessage>, userId: string, v: SessionSummary)
    requires v in ListSessions(sessions, messages, userId)
    ensures exists s :: s in sessions && s.userId == userId && v == Summary(s, messages)
  {
    var owned := OwnedSessions(sessions, userId);
    var ranked := Sort(owned);
    SortPermutes(owned);
    var r := ListSessions(sessions, messages, userId);
    var k :| 0 <= k < |r| && r[k] == v;
    assert ranked[k] in multiset(owned);
  }

  /** The list is ordered by `updatedAt`, most recent first. */
  lemma ListSessionsOrdered(sessions: seq<ChatSession>, messages: seq<ChatMessage>, userId: string)
    ensures var r := ListSessions(sessions, messages, userId);
      forall i, j :: 0 <= i < j < |r| ==> r[i].updatedAt >= r[j].updatedAt
  {
    var owned := OwnedSessions(sessions, userId);
    var ranked := Sort(owned);
    SortPermutes(owned);
    SortDescending(owned);
    var r := ListSessions(sessions, messages, userId);
    forall i, j | 0 <= i < j < |r|
      ensures r[i].updatedAt >= r[j].updatedAt
    {
      assert ranked[i] in multiset(owned) && ranked[j] in multiset(owned);
    }
  }

  datatype SessionDetail = SessionDetail(id: string, title: string, createdAt: nat, updatedAt: nat, messages: seq<MessageView>)

  function Views(messages: seq<ChatMessage>): (r: seq<MessageView>)
    ensures |r| == |messages|
    ensures forall k :: 0 <= k < |r| ==> r[k] == ViewOf(messages[k])
    decreases |messages|
  {
    if messages == [] then [] else [ViewOf(messages[0])] + Views(messages[1..])
  }

  /** `getSession`: an owned session with all its messages, oldest first. */
  function GetSession(sessions: seq<ChatSession>, messages: seq<ChatMessage>, userId: string, sessionId: string)
    : (r: Result<SessionDetail>)
    ensures !IsCuid(sessionId) ==> r == Err(BadRequest)
    ensures IsCuid(sessionId) && r.Err? ==> r == Err(SessionNotFound)
    ensures r.Ok? ==> exists s :: s in sessions && s.id == sessionId && s.userId == userId && r.value.title == s.title
  {
    if !IsCuid(sessionId) then Err(BadRequest)
    else match OwnedIndex(sessions, sessionId, userId)
      case None => Err(SessionNotFound)
      case Some(i) =>
        var s := sessions[i];
        Ok(SessionDetail(s.id, s.title, s.createdAt, s.updatedAt, Views(MessagesOf(messages, s.id))))
  }

  /** The session's messages come out in strictly increasing time order,
      each typed with its lower-cased role, and all of them are there. */
  lemma GetSessionMessages(sessions: seq<ChatSession>, messages: seq<ChatMessage>, userId: string, sessionId: string)
    requires MessagesInOrder(messages)
    ensures var r := GetSession(sessions, messages, userId, sessionId);
      r.Ok? ==>
        && |r.value.messages| == |MessagesOf(messages, sessionId)|
        && (forall k :: 0 <= k < |r.value.messages| ==> r.value.messages[k].kind == RoleName(MessagesOf(messages, sessionId)[k].role))
        && (forall i, j :: 0 <= i < j < |r.value.messages| ==> r.value.messages[i].timestamp < r.value.messages[j].timestamp)
  {
    MessagesOfInOrder(messages, sessionId);
  }

  /** A well-formed id naming a session the caller owns is found, with that
      session's own fields and exactly its messages, in storage order. */
  lemma GetSessionFound(sessions: seq<ChatSession>, messages: seq<ChatMessage>, userId: string, sessionId: string, s: ChatSession)
    requires UniqueSessionIds(sessions)
    requires IsCuid(sessionId) && s in sessions && s.id == sessionId && s.userId == userId
    ensures GetSession(sessions, messages, userId, sessionId) ==
      Ok(SessionDetail(s.id, s.title, s.createdAt, s.updatedAt, Views(MessagesOf(messages, sessionId))))
  {
    OwnedIndexNone(sessions, sessionId, userId);
    var i := OwnedIndex(sessions, sessionId, userId).value;
    assert sessions[i] == s;
  }
}
