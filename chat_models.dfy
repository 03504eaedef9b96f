/**
 * The conversation and message tables and the SQLAlchemy session that writes them. The table
 * definitions themselves (app/models/chat.py) are not part of this model; the fields are those the
 * code reads and writes. Identifiers come from per-table counters (MySQL auto-increment does not
 * hand a value out twice, even after a rollback); created_at is the instant passed in.
 */
module ChatModels {

  datatype Conversation = Conversation(id: int, userId: int, title: string, createdAt: int)

  datatype Message = Message(id: int, conversationId: int, role: string, content: string, createdAt: int)

  /** A row added to the session and not yet committed. */
  datatype Row = ConversationRow(c: Conversation) | MessageRow(m: Message)

  function PendingConversations(rows: seq<Row>): seq<Conversation> {
    if rows == [] then []
    else
      var last := rows[|rows| - 1];
      PendingConversations(rows[..|rows| - 1]) + (if last.ConversationRow? then [last.c] else [])
  }

  function PendingMessages(rows: seq<Row>): seq<Message> {
    if rows == [] then []
    else
      var last := rows[|rows| - 1];
      PendingMessages(rows[..|rows| - 1]) + (if last.MessageRow? then [last.m] else [])
  }

  /** Some committed conversation has this id. */
  predicate HasConversation(conversations: seq<Conversation>, id: int) {
    exists i :: 0 <= i < |conversations| && conversations[i].id == id
  }

  /** Every message belongs to one of the conversations. */
  predicate AllHaveConversations(conversations: seq<Conversation>, messages: seq<Message>) {
    forall m :: m in messages ==> HasConversation(conversations, m.conversationId)
  }

  /** Committing one more conversation, and messages of that conversation, keeps every message owned. */
  lemma ExtendKeepsOwnership(conversations: seq<Conversation>, messages: seq<Message>, c: Conversation,
                             added: seq<Message>)
    requires AllHaveConversations(conversations, messages)
    requires forall m :: m in added ==> m.conversationId == c.id
    ensures AllHaveConversations(conversations + [c], messages + added)
  {
    var cs := conversations + [c];
    forall m | m in messages + added
      ensures HasConversation(cs, m.conversationId)
    {
      if m in messages {
        var i :| 0 <= i < |conversations| && conversations[i].id == m.conversationId;
        assert cs[i] == conversations[i];
      } else {
        assert cs[|conversations|] == c;
      }
    }
  }

  lemma PendingOfOneConversation(c: Conversation)
    ensures PendingConversations([ConversationRow(c)]) == [c]
    ensures PendingMessages([ConversationRow(c)]) == []
  {
    assert [ConversationRow(c)][..0] == [];
  }

  lemma PendingOfTwoMessages(m1: Message, m2: Message)
    ensures PendingConversations([MessageRow(m1), MessageRow(m2)]) == []
    ensures PendingMessages([MessageRow(m1), MessageRow(m2)]) == [m1, m2]
  {
    var rows := [MessageRow(m1), MessageRow(m2)];
    var first := [MessageRow(m1)];
    assert rows[..1] == first && first[..0] == [];
    assert PendingMessages(first) == [m1] && PendingConversations(first) == [];
  }

  class Session {
    var conversations: seq<Conversation>
    var messages: seq<Message>
    var pending: seq<Row>
    var nextConversationId: int
    var nextMessageId: int

    constructor ()
      ensures conversations == [] && messages == [] && pending == []
      ensures nextConversationId == 1 && nextMessageId == 1
    {
      conversations, messages, pending := [], [], [];
      nextConversationId, nextMessageId := 1, 1;
    }

    /** Every committed message belongs to a committed conversation. */
    ghost predicate MessagesHaveConversations()
      reads this
    {
      AllHaveConversations(conversations, messages)
    }

    /** db.add(Conversation(...)) followed by the flush that assigns its id. */
    method AddConversation(userId: int, title: string, now: int) returns (c: Conversation)
      modifies this
      ensures c == Conversation(old(nextConversationId), userId, title, now)
      ensures pending == old(pending) + [ConversationRow(c)]
      ensures nextConversationId == old(nextConversationId) + 1
      ensures conversations == old(conversations) && messages == old(messages)
      ensures nextMessageId == old(nextMessageId)
    {
      c := Conversation(nextConversationId, userId, title, now);
      pending := pending + [ConversationRow(c)];
      nextConversationId := nextConversationId + 1;
    }

    /** db.add(Message(...)). */
    method AddMessage(conversationId: int, role: string, content: string, now: int) returns (m: Message)
      modifies this
      ensures m == Message(old(nextMessageId), conversationId, role, content, now)
      ensures pending == old(pending) + [MessageRow(m)]
      ensures nextMessageId == old(nextMessageId) + 1
      ensures conversations == old(conversations) && messages == old(messages)
      ensures nextConversationId == old(nextConversationId)
    {
      m := Message(nextMessageId, conversationId, role, content, now);
      pending := pending + [MessageRow(m)];
      nextMessageId := nextMessageId + 1;
    }

    /** db.commit(); fails tells whether the database refuses it (the call then raises and nothing is written). */
    method Commit(fails: bool) returns (ok: bool)
      modifies this
      ensures ok == !fails
      ensures ok ==> conversations == old(conversations) + PendingConversations(old(pending))
      ensures ok ==> messages == old(messages) + PendingMessages(old(pending)) && pending == []
      ensures !ok ==> conversations == old(conversations) && messages == old(messages) && pending == old(pending)
      ensures nextConversationId == old(nextConversationId) && nextMessageId == old(nextMessageId)
    {
      ok := !fails;
      if ok {
        conversations := conversations + PendingConversations(pending);
        messages := messages + PendingMessages(pending);
        pending := [];
      }
    }

    /** db.rollback(): the rows added since the last commit are discarded. */
    method Rollback()
      modifies this
      ensures pending == []
      ensures conversations == old(conversations) && messages == old(messages)
      ensures nextConversationId == old(nextConversationId) && nextMessageId == old(nextMessageId)
    {
      pending := [];
    }
  }
}
