/**
 * The read side of the chat history (app/api/routers/history.py): a user's conversations, newest
 * first, and the messages of one of their conversations, oldest first. Both are queries over the
 * committed rows; the current user comes from authentication (see Deps).
 */
module History {

  import opened Wrappers
  import opened ChatModels
  import opened Sorting
  import opened Http

  function ConversationNewestFirst(c: Conversation): int { -c.createdAt }

  function MessageCreatedAt(m: Message): int { m.createdAt }

  function OwnedBy(userId: int): Conversation -> bool {
    (c: Conversation) => c.userId == userId
  }

  function InConversation(conversationId: int): Message -> bool {
    (m: Message) => m.conversationId == conversationId
  }

  /** GET /conversations for the current user. */
  function GetConversations(conversations: seq<Conversation>, userId: int): (r: seq<Conversation>)
    ensures multiset(r) == multiset(Filter(conversations, OwnedBy(userId)))
    ensures forall i, j :: 0 <= i < j < |r| ==> r[i].createdAt >= r[j].createdAt
  {
    var result := SortBy(Filter(conversations, OwnedBy(userId)), ConversationNewestFirst);
    assert forall i, j :: 0 <= i < j < |result| ==> ConversationNewestFirst(result[i]) <= ConversationNewestFirst(result[j]);
    result
  }

  /** Exactly the user's own conversations are listed, each as often as it is stored. */
  lemma GetConversationsOwnership(conversations: seq<Conversation>, userId: int, c: Conversation)
    ensures c in GetConversations(conversations, userId) <==> c in conversations && c.userId == userId
    ensures multiset(GetConversations(conversations, userId))[c] ==
      if c.userId == userId then multiset(conversations)[c] else 0
  {
    var r := GetConversations(conversations, userId);
    FilterCount(conversations, OwnedBy(userId), c);
    assert c in r <==> c in multiset(r);
  }

  /** Whether the current user owns a conversation with this id (the 404 check). */
  predicate OwnsConversation(conversations: seq<Conversation>, userId: int, conversationId: int) {
    exists i :: 0 <= i < |conversations| && conversations[i].id == conversationId && conversations[i].userId == userId
  }

  /** GET /conversations/{id}/messages for the current user. */
  function GetMessages(conversations: seq<Conversation>, messages: seq<Message>, userId: int, conversationId: int)
    : (r: Result<seq<Message>, HttpError>)
    ensures r.Err? <==> !OwnsConversation(conversations, userId, conversationId)
    ensures r.Err? ==> r.error == Plain(404, "Conversation not found")
    ensures r.Ok? ==> multiset(r.value) == multiset(Filter(messages, InConversation(conversationId)))
    ensures r.Ok? ==> forall i, j :: 0 <= i < j < |r.value| ==> r.value[i].createdAt <= r.value[j].createdAt
  {
    if !OwnsConversation(conversations, userId, conversationId) then Err(Plain(404, "Conversation not found"))
    else
      var result := SortBy(Filter(messages, InConversation(conversationId)), MessageCreatedAt);
      assert forall i, j :: 0 <= i < j < |result| ==> MessageCreatedAt(result[i]) <= MessageCreatedAt(result[j]);
      Ok(result)
  }

  /** Another user's conversation reads exactly like a missing one: the answer depends only on the
      current user's own conversations. */
  lemma GetMessagesSeesOnlyOwnConversations(conversations: seq<Conversation>, messages: seq<Message>,
                                            userId: int, conversationId: int)
    ensures GetMessages(conversations, messages, userId, conversationId) ==
            GetMessages(Filter(conversations, OwnedBy(userId)), messages, userId, conversationId)
  {
    var own := Filter(conversations, OwnedBy(userId));
    if OwnsConversation(conversations, userId, conversationId) {
      var i :| 0 <= i < |conversations| && conversations[i].id == conversationId && conversations[i].userId == userId;
      FilterCount(conversations, OwnedBy(userId), conversations[i]);
      assert multiset(own)[conversations[i]] == multiset(conversations)[conversations[i]] > 0;
      assert conversations[i] in own;
      var j :| 0 <= j < |own| && own[j] == conversations[i];
    }
    if OwnsConversation(own, userId, conversationId) {
      var j :| 0 <= j < |own| && own[j].id == conversationId && own[j].userId == userId;
      FilterCount(conversations, OwnedBy(userId), own[j]);
      assert own[j] in multiset(own);
      assert multiset(conversations)[own[j]] > 0;
      assert own[j] in conversations;
    }
  }
}
