/** ChatMessageService: saving a message under its conversation id and reading back the
    history of a pair of users. */
module ChatMessages {
  import opened Types
  import opened ChatRooms
  import Exceptions

  /** A stored message. The id is the payload's (store-side id generation is not modelled);
      the timestamp is milliseconds since the epoch. */
  datatype ChatMessage = ChatMessage(
    id: string,
    chatId: string,
    senderId: string,
    recipientId: string,
    content: string,
    timestamp: int)

  const ROOM_NOT_FOUND_MESSAGE := "Could not create or find chat room"

  /** chatMessageRepository.findByChatId: the stored messages with that chatId, in store
      order, each as many times as it is stored. */
  function FindByChatId(messages: seq<ChatMessage>, chatId: string): (r: seq<ChatMessage>)
    ensures forall m :: m in r <==> m in messages && m.chatId == chatId
    ensures forall m :: multiset(r)[m] == if m.chatId == chatId then multiset(messages)[m] else 0
    ensures |r| <= |messages|
  {
    if messages == [] then []
    else
      var rest := FindByChatId(messages[1..], chatId);
      assert messages == [messages[0]] + messages[1..];
      assert multiset(messages) == multiset([messages[0]]) + multiset(messages[1..]);
      assert forall m :: m in messages <==> m == messages[0] || m in messages[1..];
      if messages[0].chatId == chatId then
        assert multiset([messages[0]] + rest) == multiset([messages[0]]) + multiset(rest);
        [messages[0]] + rest
      else rest
  }

  /** findChatMessages(sender, recipient): the messages under the pair's room id, or an
      empty list when the pair has no room. */
  function History(rooms: seq<ChatRoom>, messages: seq<ChatMessage>, senderId: string, recipientId: string): seq<ChatMessage> {
    match FindChatId(rooms, senderId, recipientId)
    case None => []
    case Some(chatId) => FindByChatId(messages, chatId)
  }

  /** Every stored message carries the id of its own sender->recipient room. */
  predicate Filed(rooms: seq<ChatRoom>, messages: seq<ChatMessage>) {
    forall i :: 0 <= i < |messages| ==>
      FindChatId(rooms, messages[i].senderId, messages[i].recipientId) == Some(messages[i].chatId)
  }

  predicate Between(m: ChatMessage, a: string, b: string) {
    (m.senderId == a && m.recipientId == b) || (m.senderId == b && m.recipientId == a)
  }

  // ---------------------------------------------------------------------------------
  // Lemmas

  /** Saving a message (resolve with creation, then append) keeps every message filed. */
  lemma SaveKeepsFiled(format: IdFormat, rooms: seq<ChatRoom>, messages: seq<ChatMessage>, m: ChatMessage)
    requires ValidRooms(format, rooms) && Filed(rooms, messages)
    ensures Filed(WithRoom(format, rooms, m.senderId, m.recipientId),
                  messages + [m.(chatId := ResolvedChatId(format, rooms, m.senderId, m.recipientId))])
  {
    var rooms' := WithRoom(format, rooms, m.senderId, m.recipientId);
    var saved := m.(chatId := ResolvedChatId(format, rooms, m.senderId, m.recipientId));
    var messages' := messages + [saved];
    WithRoomResolves(format, rooms, m.senderId, m.recipientId);
    forall i | 0 <= i < |messages'|
      ensures FindChatId(rooms', messages'[i].senderId, messages'[i].recipientId) == Some(messages'[i].chatId)
    {
      if i < |messages| {
        assert messages'[i] == messages[i];
        WithRoomKeepsExistingRooms(format, rooms, m.senderId, m.recipientId, messages[i].senderId, messages[i].recipientId);
      } else {
        assert messages'[i] == saved;
      }
    }
  }

  /** The history of a pair does not depend on which of the two asks. */
  lemma HistorySymmetric(rooms: seq<ChatRoom>, messages: seq<ChatMessage>, a: string, b: string)
    requires Mirrored(rooms) && PairConsistent(rooms)
    ensures History(rooms, messages, a, b) == History(rooms, messages, b, a)
  {
    LookupSymmetric(rooms, a, b);
  }

  /** Every stored message exchanged between a and b, in either direction, is in their
      history, whichever id format the rooms were built with. */
  lemma HistoryComplete(rooms: seq<ChatRoom>, messages: seq<ChatMessage>, a: string, b: string, m: ChatMessage)
    requires Mirrored(rooms) && PairConsistent(rooms) && Filed(rooms, messages)
    requires m in messages && Between(m, a, b)
    ensures m in History(rooms, messages, a, b)
  {
    var i :| 0 <= i < |messages| && messages[i] == m;
    LookupSymmetric(rooms, a, b);
    assert FindChatId(rooms, m.senderId, m.recipientId) == Some(m.chatId);
  }

  /** With the escaped ids, every message in the history of a and b was exchanged between
      a and b. This rests on ChatIdInjective and fails for the source's underscore-joined
      ids (SourceHistoryLeaks). */
  lemma HistorySound(rooms: seq<ChatRoom>, messages: seq<ChatMessage>, a: string, b: string, m: ChatMessage)
    requires ValidRooms(EscapedFormat, rooms) && Filed(rooms, messages)
    requires m in History(rooms, messages, a, b)
    ensures Between(m, a, b)
  {
    var chatId := FindChatId(rooms, a, b).value;
    var i :| 0 <= i < |rooms| && Joins(rooms[i], a, b) && rooms[i].chatId == chatId;
    var k :| 0 <= k < |messages| && messages[k] == m;
    assert FindChatId(rooms, m.senderId, m.recipientId) == Some(m.chatId);
    var j :| 0 <= j < |rooms| && Joins(rooms[j], m.senderId, m.recipientId) && rooms[j].chatId == m.chatId;
    RowsOfOneConversation(rooms, i, j);
  }

  /** A message saved from a to b and one saved from b to a carry the same chatId, in
      whichever order they are saved. */
  lemma BothDirectionsShareChatId(format: IdFormat, rooms: seq<ChatRoom>, a: string, b: string)
    requires ValidRooms(format, rooms)
    ensures ResolvedChatId(format, WithRoom(format, rooms, a, b), b, a) == ResolvedChatId(format, rooms, a, b)
    ensures ResolvedChatId(format, WithRoom(format, rooms, b, a), a, b) == ResolvedChatId(format, rooms, b, a)
    ensures ResolvedChatId(format, rooms, a, b) == ResolvedChatId(format, rooms, b, a) || FindChatId(rooms, a, b).None?
  {
    WithRoomIdempotent(format, rooms, a, b);
    WithRoomIdempotent(format, rooms, b, a);
    LookupSymmetric(rooms, a, b);
  }

  /** The rooms behind SourceHistoryLeaks: a_b's first message to c and a's first message
      to b_c both build "a_b_c", and the store stays valid. */
  lemma SourceLeakRooms()
    ensures var rooms1 := WithRoom(SourceFormat, [], "a_b", "c");
      && ResolvedChatId(SourceFormat, [], "a_b", "c") == "a_b_c"
      && ValidRooms(SourceFormat, rooms1)
      && FindChatId(rooms1, "a_b", "c") == Some("a_b_c")
      && FindChatId(rooms1, "a", "b_c").None?
      && ResolvedChatId(SourceFormat, rooms1, "a", "b_c") == "a_b_c"
      && ValidRooms(SourceFormat, WithRoom(SourceFormat, rooms1, "a", "b_c"))
      && FindChatId(WithRoom(SourceFormat, rooms1, "a", "b_c"), "a", "b_c") == Some("a_b_c")
  {
    var rooms1 := WithRoom(SourceFormat, [], "a_b", "c");
    SourceChatIdCollides();
    assert SourceChatId("a_b", "c") == "a_b_c";
    WithRoomResolves(SourceFormat, [], "a_b", "c");
    assert !Joins(rooms1[0], "a", "b_c") by { assert "a_b" != "a"; }
    assert !Joins(rooms1[1], "a", "b_c") by { assert "c" != "a"; }
    assert FindChatId(rooms1, "a", "b_c").None?;
    WithRoomResolves(SourceFormat, rooms1, "a", "b_c");
  }

  /** A store of two messages is filed when each one's own pair resolves to its chatId. */
  lemma FiledPair(rooms: seq<ChatRoom>, m1: ChatMessage, m2: ChatMessage)
    requires FindChatId(rooms, m1.senderId, m1.recipientId) == Some(m1.chatId)
    requires FindChatId(rooms, m2.senderId, m2.recipientId) == Some(m2.chatId)
    ensures Filed(rooms, [m1, m2])
  {
    forall i | 0 <= i < 2
      ensures FindChatId(rooms, [m1, m2][i].senderId, [m1, m2][i].recipientId) == Some([m1, m2][i].chatId)
    {
      if i == 0 { assert [m1, m2][i] == m1; } else { assert [m1, m2][i] == m2; }
    }
  }

  /** A stored message whose chatId is the pair's room id is in the pair's history. */
  lemma InHistory(rooms: seq<ChatRoom>, messages: seq<ChatMessage>, a: string, b: string, m: ChatMessage)
    requires FindChatId(rooms, a, b) == Some(m.chatId) && m in messages
    ensures m in History(rooms, messages, a, b)
  {
  }

  /** The leak the source's id format allows, on a store the service reaches from empty:
      a_b writes to c, then a writes to b_c. Both saves find no room and build
      "a_b_c", so the room invariant and Filed hold, and yet the history that a and b_c
      read back holds a_b's message, which neither of them sent or received. */
  lemma SourceHistoryLeaks(first: ChatMessage, second: ChatMessage)
    requires first.senderId == "a_b" && first.recipientId == "c"
    requires second.senderId == "a" && second.recipientId == "b_c"
    ensures
      var rooms1 := WithRoom(SourceFormat, [], "a_b", "c");
      var saved1 := first.(chatId := ResolvedChatId(SourceFormat, [], "a_b", "c"));
      var rooms2 := WithRoom(SourceFormat, rooms1, "a", "b_c");
      var saved2 := second.(chatId := ResolvedChatId(SourceFormat, rooms1, "a", "b_c"));
      && ValidRooms(SourceFormat, rooms2)
      && Filed(rooms2, [saved1, saved2])
      && saved1 in History(rooms2, [saved1, saved2], "a", "b_c")
      && !Between(saved1, "a", "b_c")
  {
    var rooms1 := WithRoom(SourceFormat, [], "a_b", "c");
    var rooms2 := WithRoom(SourceFormat, rooms1, "a", "b_c");
    var saved1 := first.(chatId := "a_b_c");
    var saved2 := second.(chatId := "a_b_c");
    SourceLeakRooms();
    WithRoomKeepsExistingRooms(SourceFormat, rooms1, "a", "b_c", "a_b", "c");
    FiledPair(rooms2, saved1, saved2);
    InHistory(rooms2, [saved1, saved2], "a", "b_c", saved1);
    assert !Between(saved1, "a", "b_c") by { assert "a_b" != "a"; assert "c" != "a"; }
  }

  // ---------------------------------------------------------------------------------
  // The service

  class ChatMessageService {
    var messages: seq<ChatMessage>
    const roomService: ChatRoomService

    ghost predicate Valid()
      reads this, roomService
    {
      roomService.Valid() && Filed(roomService.rooms, messages)
    }

    constructor (roomService: ChatRoomService)
      requires roomService.Valid()
      ensures Valid() && messages == [] && this.roomService == roomService
    {
      messages := [];
      this.roomService := roomService;
    }

    /** save: stamps the message with getChatRoomId(sender, recipient, true) and appends it.
        The ChatRoomNotFoundException branch is unreachable because creation is requested. */
    method Save(chatMessage: ChatMessage) returns (saved: Result<ChatMessage, Exceptions.Exception>)
      requires Valid()
      modifies this, roomService
      ensures Valid()
      ensures saved.Success?
      ensures saved.value ==
        chatMessage.(chatId := ResolvedChatId(roomService.format, old(roomService.rooms), chatMessage.senderId, chatMessage.recipientId))
      ensures roomService.rooms == WithRoom(roomService.format, old(roomService.rooms), chatMessage.senderId, chatMessage.recipientId)
      ensures messages == old(messages) + [saved.value]
    {
      SaveKeepsFiled(roomService.format, roomService.rooms, messages, chatMessage);
      var chatId := roomService.GetChatRoomId(chatMessage.senderId, chatMessage.recipientId, true);
      match chatId
      case None =>
        saved := Failure(Exceptions.Exception(Exceptions.ChatRoomNotFound, Some(ROOM_NOT_FOUND_MESSAGE)));
      case Some(id) =>
        var stamped := chatMessage.(chatId := id);
        messages := messages + [stamped];
        saved := Success(stamped);
    }

    /** findChatMessages: resolves the room without creating one and returns its messages;
        no store changes. Every stored message between the two is returned; only with the
        escaped ids is every returned message one of theirs. */
    method FindChatMessages(senderId: string, recipientId: string) returns (history: seq<ChatMessage>)
      requires Valid()
      modifies roomService
      ensures Valid() && roomService.rooms == old(roomService.rooms)
      ensures history == History(roomService.rooms, messages, senderId, recipientId)
      ensures FindChatId(roomService.rooms, senderId, recipientId).None? ==> history == []
      ensures forall m :: m in messages && Between(m, senderId, recipientId) ==> m in history
      ensures forall m :: m in history ==> m in messages
      ensures roomService.format == EscapedFormat ==>
        forall m :: m in history <==> m in messages && Between(m, senderId, recipientId)
    {
      var chatId := roomService.GetChatRoomId(senderId, recipientId, false);
      match chatId {
        case None =>
          history := [];
        case Some(id) =>
          history := FindByChatId(messages, id);
      }
      if roomService.format == EscapedFormat {
        forall m | m in history ensures Between(m, senderId, recipientId) {
          HistorySound(roomService.rooms, messages, senderId, recipientId, m);
        }
      }
      forall m | m in messages && Between(m, senderId, recipientId) ensures m in history {
        HistoryComplete(roomService.rooms, messages, senderId, recipientId, m);
      }
    }
  }
}
