/** ChatRoomService: the identity of a two-party conversation, kept as one directed row
    per ordered pair of parties in the room store. */
module ChatRooms {
  import opened Types

  /** One row of the room store. The store-generated document @Id is not modelled. */
  datatype ChatRoom = ChatRoom(chatId: string, senderId: string, recipientId: string)

  /** The row for the same conversation seen from the other party. */
  function Mirror(room: ChatRoom): ChatRoom {
    ChatRoom(room.chatId, room.recipientId, room.senderId)
  }

  predicate Joins(room: ChatRoom, senderId: string, recipientId: string) {
    room.senderId == senderId && room.recipientId == recipientId
  }

  /** findBySenderIdAndRecipientId(sender, recipient).map(ChatRoom::getChatId). */
  function FindChatId(rooms: seq<ChatRoom>, senderId: string, recipientId: string): (r: Option<string>)
    ensures r.Some? ==>
      exists i :: 0 <= i < |rooms| && Joins(rooms[i], senderId, recipientId) && rooms[i].chatId == r.value
    ensures r.None? ==> forall i :: 0 <= i < |rooms| ==> !Joins(rooms[i], senderId, recipientId)
  {
    if |rooms| == 0 then None
    else if Joins(rooms[0], senderId, recipientId) then Some(rooms[0].chatId)
    else
      var r := FindChatId(rooms[1..], senderId, recipientId);
      assert r.Some? ==> exists i :: 1 <= i < |rooms| && Joins(rooms[i], senderId, recipientId) && rooms[i].chatId == r.value by {
        if r.Some? {
          var k :| 0 <= k < |rooms[1..]| && Joins(rooms[1..][k], senderId, recipientId) && rooms[1..][k].chatId == r.value;
          assert rooms[k + 1] == rooms[1..][k];
        }
      }
      r
  }

  // ---------------------------------------------------------------------------------
  // Conversation ids

  /** The id the source builds: String.format("%s_%s", senderId, recipientId). */
  function SourceChatId(senderId: string, recipientId: string): string {
    senderId + "_" + recipientId
  }

  /** The source's id is not injective: an underscore inside a nickname moves the
      apparent separator, so two different conversations get one id. */
  lemma SourceChatIdCollides()
    ensures SourceChatId("a_b", "c") == SourceChatId("a", "b_c")
  {
    assert SourceChatId("a_b", "c") == "a_b_c";
    assert SourceChatId("a", "b_c") == "a_b_c";
  }

  /** The sender's nickname with every '\' and '_' preceded by a '\'. */
  function EscapeSender(s: string): string {
    if s == [] then []
    else (if s[0] == '\\' || s[0] == '_' then ['\\', s[0]] else [s[0]]) + EscapeSender(s[1..])
  }

  /** The corrected conversation id: the source's format with the sender escaped, so that
      the first unescaped '_' always ends the sender part. */
  function ChatId(senderId: string, recipientId: string): string {
    EscapeSender(senderId) + "_" + recipientId
  }

  /** Which id createChatId builds: the source's as written, or the corrected one. */
  datatype IdFormat = SourceFormat | EscapedFormat

  function BuildChatId(format: IdFormat, senderId: string, recipientId: string): string {
    match format
    case SourceFormat => SourceChatId(senderId, recipientId)
    case EscapedFormat => ChatId(senderId, recipientId)
  }

  /** Reads the two parties back out of a conversation id. */
  function SplitChatId(id: string): Option<(string, string)> {
    if id == [] then None
    else if id[0] == '_' then Some(([], id[1..]))
    else if id[0] == '\\' then
      if |id| < 2 then None
      else match SplitChatId(id[2..])
        case None => None
        case Some(parts) => Some(([id[1]] + parts.0, parts.1))
    else match SplitChatId(id[1..])
      case None => None
      case Some(parts) => Some(([id[0]] + parts.0, parts.1))
  }

  lemma {:induction false} SplitChatIdInverts(senderId: string, recipientId: string)
    ensures SplitChatId(ChatId(senderId, recipientId)) == Some((senderId, recipientId))
    decreases |senderId|
  {
    var id := ChatId(senderId, recipientId);
    if senderId == [] {
      assert id == "_" + recipientId;
    } else {
      var rest := ChatId(senderId[1..], recipientId);
      SplitChatIdInverts(senderId[1..], recipientId);
      if senderId[0] == '\\' || senderId[0] == '_' {
        assert id == ['\\', senderId[0]] + rest;
        assert id[2..] == rest;
      } else {
        assert id == [senderId[0]] + rest;
        assert id[1..] == rest;
      }
      assert [senderId[0]] + senderId[1..] == senderId;
    }
  }

  /** Distinct ordered pairs of parties get distinct conversation ids. */
  lemma ChatIdInjective(s1: string, r1: string, s2: string, r2: string)
    requires ChatId(s1, r1) == ChatId(s2, r2)
    ensures s1 == s2 && r1 == r2
  {
    SplitChatIdInverts(s1, r1);
    SplitChatIdInverts(s2, r2);
  }

  /** For every sender nickname without '\' or '_' the id is exactly the source's
      sender + "_" + recipient. */
  lemma ChatIdMatchesSourceFormat(senderId: string, recipientId: string)
    requires forall i :: 0 <= i < |senderId| ==> senderId[i] != '\\' && senderId[i] != '_'
    ensures ChatId(senderId, recipientId) == SourceChatId(senderId, recipientId)
  {
    EscapeSenderPlain(senderId);
  }

  lemma {:induction false} EscapeSenderPlain(s: string)
    requires forall i :: 0 <= i < |s| ==> s[i] != '\\' && s[i] != '_'
    ensures EscapeSender(s) == s
    decreases |s|
  {
    if s != [] {
      assert forall i :: 0 <= i < |s[1..]| ==> s[1..][i] == s[i + 1];
      EscapeSenderPlain(s[1..]);
      assert EscapeSender(s) == [s[0]] + EscapeSender(s[1..]);
      assert [s[0]] + s[1..] == s;
    }
  }

  // ---------------------------------------------------------------------------------
  // The room-store invariant

  /** Every row has its mirror row, carrying the same chatId. */
  predicate Mirrored(rooms: seq<ChatRoom>) {
    forall i :: 0 <= i < |rooms| ==> Mirror(rooms[i]) in rooms
  }

  /** All rows of one ordered pair carry the same chatId. */
  predicate PairConsistent(rooms: seq<ChatRoom>) {
    forall i, j :: 0 <= i < |rooms| && 0 <= j < |rooms| && Joins(rooms[j], rooms[i].senderId, rooms[i].recipientId)
      ==> rooms[i].chatId == rooms[j].chatId
  }

  /** Every chatId was built from its own row's two parties, in one order or the other. */
  predicate IdsDerived(format: IdFormat, rooms: seq<ChatRoom>) {
    forall i :: 0 <= i < |rooms| ==>
      rooms[i].chatId == BuildChatId(format, rooms[i].senderId, rooms[i].recipientId) ||
      rooms[i].chatId == BuildChatId(format, rooms[i].recipientId, rooms[i].senderId)
  }

  /** An ordered pair has two rows only when both parties are the same user (the two
      rows written for a conversation with oneself coincide). */
  predicate Unique(rooms: seq<ChatRoom>) {
    forall i, j :: 0 <= i < j < |rooms| && Joins(rooms[j], rooms[i].senderId, rooms[i].recipientId)
      ==> rooms[i].senderId == rooms[i].recipientId
  }

  predicate ValidRooms(format: IdFormat, rooms: seq<ChatRoom>) {
    Mirrored(rooms) && PairConsistent(rooms) && IdsDerived(format, rooms) && Unique(rooms)
  }

  /** The two rows createChatId saves, sender->recipient first. */
  function RoomPair(chatId: string, senderId: string, recipientId: string): seq<ChatRoom> {
    [ChatRoom(chatId, senderId, recipientId), ChatRoom(chatId, recipientId, senderId)]
  }

  /** The id getChatRoomId(sender, recipient, true) returns. */
  function ResolvedChatId(format: IdFormat, rooms: seq<ChatRoom>, senderId: string, recipientId: string): string {
    match FindChatId(rooms, senderId, recipientId)
    case Some(id) => id
    case None => BuildChatId(format, senderId, recipientId)
  }

  /** The room store after getChatRoomId(sender, recipient, true). */
  function WithRoom(format: IdFormat, rooms: seq<ChatRoom>, senderId: string, recipientId: string): seq<ChatRoom> {
    if FindChatId(rooms, senderId, recipientId).Some? then rooms
    else rooms + RoomPair(BuildChatId(format, senderId, recipientId), senderId, recipientId)
  }

  // ---------------------------------------------------------------------------------
  // Lemmas

  /** Under the invariant the lookup finds the chatId of any row of the pair. */
  lemma FindChatIdOfRow(rooms: seq<ChatRoom>, i: int)
    requires PairConsistent(rooms) && 0 <= i < |rooms|
    ensures FindChatId(rooms, rooms[i].senderId, rooms[i].recipientId) == Some(rooms[i].chatId)
  {
    var r := FindChatId(rooms, rooms[i].senderId, rooms[i].recipientId);
    assert r.Some?;
    var k :| 0 <= k < |rooms| && Joins(rooms[k], rooms[i].senderId, rooms[i].recipientId) && rooms[k].chatId == r.value;
  }

  /** Lookups in both directions agree, found or not. */
  lemma LookupSymmetric(rooms: seq<ChatRoom>, a: string, b: string)
    requires Mirrored(rooms) && PairConsistent(rooms)
    ensures FindChatId(rooms, a, b) == FindChatId(rooms, b, a)
  {
    var ab := FindChatId(rooms, a, b);
    var ba := FindChatId(rooms, b, a);
    if ab.Some? {
      var i :| 0 <= i < |rooms| && Joins(rooms[i], a, b) && rooms[i].chatId == ab.value;
      var j :| 0 <= j < |rooms| && rooms[j] == Mirror(rooms[i]);
      FindChatIdOfRow(rooms, j);
    }
  }

  /** Appending rows never changes a lookup that already succeeds, and a lookup that
      fails continues into the appended rows. */
  lemma {:induction false} FindChatIdAppend(rooms: seq<ChatRoom>, extra: seq<ChatRoom>, senderId: string, recipientId: string)
    ensures FindChatId(rooms + extra, senderId, recipientId) ==
      if FindChatId(rooms, senderId, recipientId).Some? then FindChatId(rooms, senderId, recipientId)
      else FindChatId(extra, senderId, recipientId)
    decreases |rooms|
  {
    if rooms == [] {
      assert rooms + extra == extra;
    } else {
      assert (rooms + extra)[0] == rooms[0];
      assert (rooms + extra)[1..] == rooms[1..] + extra;
      FindChatIdAppend(rooms[1..], extra, senderId, recipientId);
    }
  }

  /** Creating a room for a pair nobody has contacted keeps the invariant. */
  lemma CreationPreservesValidity(format: IdFormat, rooms: seq<ChatRoom>, senderId: string, recipientId: string)
    requires ValidRooms(format, rooms) && FindChatId(rooms, senderId, recipientId).None?
    ensures ValidRooms(format, rooms + RoomPair(BuildChatId(format, senderId, recipientId), senderId, recipientId))
  {
    LookupSymmetric(rooms, senderId, recipientId);
    var pair := RoomPair(BuildChatId(format, senderId, recipientId), senderId, recipientId);
    CreationKeepsMirrored(rooms, pair);
    CreationKeepsPairConsistent(rooms, pair);
    CreationKeepsIdsDerived(format, rooms, pair);
    CreationKeepsUnique(rooms, pair);
  }

  lemma CreationKeepsMirrored(rooms: seq<ChatRoom>, pair: seq<ChatRoom>)
    requires Mirrored(rooms) && |pair| == 2 && pair[1] == Mirror(pair[0])
    ensures Mirrored(rooms + pair)
  {
    var after := rooms + pair;
    forall i | 0 <= i < |after| ensures Mirror(after[i]) in after {
      if i < |rooms| {
        assert after[i] == rooms[i];
        assert Mirror(rooms[i]) in rooms;
      } else if i == |rooms| {
        assert after[i] == pair[0] && after[i + 1] == pair[1];
      } else {
        assert after[i] == pair[1] && after[i - 1] == pair[0];
      }
    }
  }

  lemma CreationKeepsPairConsistent(rooms: seq<ChatRoom>, pair: seq<ChatRoom>)
    requires PairConsistent(rooms) && |pair| == 2 && pair[1] == Mirror(pair[0])
    requires forall i :: 0 <= i < |rooms| ==>
      !Joins(rooms[i], pair[0].senderId, pair[0].recipientId) && !Joins(rooms[i], pair[1].senderId, pair[1].recipientId)
    ensures PairConsistent(rooms + pair)
  {
    var after := rooms + pair;
    forall i, j | 0 <= i < |after| && 0 <= j < |after| && Joins(after[j], after[i].senderId, after[i].recipientId)
      ensures after[i].chatId == after[j].chatId
    {
      if i < |rooms| && j < |rooms| {
        assert after[i] == rooms[i] && after[j] == rooms[j];
      } else if |rooms| <= i && |rooms| <= j {
        assert after[i] == pair[i - |rooms|] && after[j] == pair[j - |rooms|];
      }
    }
  }

  lemma CreationKeepsIdsDerived(format: IdFormat, rooms: seq<ChatRoom>, pair: seq<ChatRoom>)
    requires IdsDerived(format, rooms) && |pair| == 2 && pair[1] == Mirror(pair[0])
    requires pair[0].chatId == BuildChatId(format, pair[0].senderId, pair[0].recipientId)
    ensures IdsDerived(format, rooms + pair)
  {
    var after := rooms + pair;
    forall i | 0 <= i < |after|
      ensures after[i].chatId == BuildChatId(format, after[i].senderId, after[i].recipientId) ||
              after[i].chatId == BuildChatId(format, after[i].recipientId, after[i].senderId)
    {
      if i < |rooms| {
        assert after[i] == rooms[i];
      } else {
        assert after[i] == pair[i - |rooms|];
      }
    }
  }

  lemma CreationKeepsUnique(rooms: seq<ChatRoom>, pair: seq<ChatRoom>)
    requires Unique(rooms) && |pair| == 2 && pair[1] == Mirror(pair[0])
    requires forall i :: 0 <= i < |rooms| ==>
      !Joins(rooms[i], pair[0].senderId, pair[0].recipientId) && !Joins(rooms[i], pair[1].senderId, pair[1].recipientId)
    ensures Unique(rooms + pair)
  {
    var after := rooms + pair;
    forall i, j | 0 <= i < j < |after| && Joins(after[j], after[i].senderId, after[i].recipientId)
      ensures after[i].senderId == after[i].recipientId
    {
      if j < |rooms| {
        assert after[i] == rooms[i] && after[j] == rooms[j];
      } else if |rooms| <= i {
        assert i == |rooms| && j == |rooms| + 1;
        assert after[i] == pair[0] && after[j] == pair[1];
      }
    }
  }

  /** After the first contact between a and b, both directions resolve to the id built
      from the first sender: the first direction to make contact fixes the id. */
  lemma FirstContactFixesId(format: IdFormat, rooms: seq<ChatRoom>, a: string, b: string)
    requires FindChatId(rooms, a, b).None? && FindChatId(rooms, b, a).None?
    ensures FindChatId(WithRoom(format, rooms, a, b), a, b) == Some(BuildChatId(format, a, b))
    ensures FindChatId(WithRoom(format, rooms, a, b), b, a) == Some(BuildChatId(format, a, b))
  {
    var pair := RoomPair(BuildChatId(format, a, b), a, b);
    FindChatIdAppend(rooms, pair, a, b);
    FindChatIdAppend(rooms, pair, b, a);
  }

  /** getChatRoomId(_, _, true) keeps the invariant, and afterwards both directions of
      the pair resolve to the id it returned. */
  lemma WithRoomResolves(format: IdFormat, rooms: seq<ChatRoom>, a: string, b: string)
    requires ValidRooms(format, rooms)
    ensures ValidRooms(format, WithRoom(format, rooms, a, b))
    ensures FindChatId(WithRoom(format, rooms, a, b), a, b) == Some(ResolvedChatId(format, rooms, a, b))
    ensures FindChatId(WithRoom(format, rooms, a, b), b, a) == Some(ResolvedChatId(format, rooms, a, b))
  {
    LookupSymmetric(rooms, a, b);
    if FindChatId(rooms, a, b).None? {
      CreationPreservesValidity(format, rooms, a, b);
      FirstContactFixesId(format, rooms, a, b);
    }
  }

  /** Resolving again, in either direction, returns the same id and adds no rows. */
  lemma WithRoomIdempotent(format: IdFormat, rooms: seq<ChatRoom>, a: string, b: string)
    requires ValidRooms(format, rooms)
    ensures WithRoom(format, WithRoom(format, rooms, a, b), a, b) == WithRoom(format, rooms, a, b)
    ensures WithRoom(format, WithRoom(format, rooms, a, b), b, a) == WithRoom(format, rooms, a, b)
    ensures ResolvedChatId(format, WithRoom(format, rooms, a, b), a, b) == ResolvedChatId(format, rooms, a, b)
    ensures ResolvedChatId(format, WithRoom(format, rooms, a, b), b, a) == ResolvedChatId(format, rooms, a, b)
  {
    WithRoomResolves(format, rooms, a, b);
  }

  /** Resolving one pair leaves the answer for every pair that already had a room. */
  lemma WithRoomKeepsExistingRooms(format: IdFormat, rooms: seq<ChatRoom>, a: string, b: string, x: string, y: string)
    requires FindChatId(rooms, x, y).Some?
    ensures FindChatId(WithRoom(format, rooms, a, b), x, y) == FindChatId(rooms, x, y)
  {
    if FindChatId(rooms, a, b).None? {
      FindChatIdAppend(rooms, RoomPair(BuildChatId(format, a, b), a, b), x, y);
    }
  }

  /** Two rows with the same chatId belong to the same conversation: they are the same
      row or mirror rows, when the ids are the escaped ones. The source's underscore-joined
      id does not give this (SourceChatIdCollides). */
  lemma RowsOfOneConversation(rooms: seq<ChatRoom>, i: int, j: int)
    requires ValidRooms(EscapedFormat, rooms)
    requires 0 <= i < |rooms| && 0 <= j < |rooms|
    requires rooms[i].chatId == rooms[j].chatId
    ensures rooms[j] == rooms[i] || rooms[j] == Mirror(rooms[i])
  {
    var ri, rj := rooms[i], rooms[j];
    if ri.chatId == ChatId(ri.senderId, ri.recipientId) {
      if rj.chatId == ChatId(rj.senderId, rj.recipientId) {
        ChatIdInjective(ri.senderId, ri.recipientId, rj.senderId, rj.recipientId);
      } else {
        ChatIdInjective(ri.senderId, ri.recipientId, rj.recipientId, rj.senderId);
      }
    } else {
      if rj.chatId == ChatId(rj.senderId, rj.recipientId) {
        ChatIdInjective(ri.recipientId, ri.senderId, rj.senderId, rj.recipientId);
      } else {
        ChatIdInjective(ri.recipientId, ri.senderId, rj.recipientId, rj.senderId);
      }
    }
  }

  // ---------------------------------------------------------------------------------
  // The service

  /** The service, with the id format it builds as a configuration value: SourceFormat is
      the code as written, EscapedFormat the corrected id. */
  class ChatRoomService {
    var rooms: seq<ChatRoom>
    const format: IdFormat

    ghost predicate Valid()
      reads this
    {
      ValidRooms(format, rooms)
    }

    constructor (format: IdFormat)
      ensures Valid() && rooms == [] && this.format == format
    {
      rooms := [];
      this.format := format;
    }

    /** getChatRoomId: the pair's id if a row exists; otherwise, when creation is
        requested, a new id with its two rows; otherwise nothing. */
    method GetChatRoomId(senderId: string, recipientId: string, createNewRoomIfNotExists: bool)
      returns (chatId: Option<string>)
      requires Valid()
      modifies this
      ensures Valid()
      ensures FindChatId(old(rooms), senderId, recipientId).Some? ==>
        chatId == FindChatId(old(rooms), senderId, recipientId) && rooms == old(rooms)
      ensures FindChatId(old(rooms), senderId, recipientId).None? && !createNewRoomIfNotExists ==>
        chatId == None && rooms == old(rooms)
      ensures FindChatId(old(rooms), senderId, recipientId).None? && createNewRoomIfNotExists ==>
        chatId == Some(BuildChatId(format, senderId, recipientId)) &&
        rooms == old(rooms) + RoomPair(BuildChatId(format, senderId, recipientId), senderId, recipientId)
      ensures createNewRoomIfNotExists ==>
        chatId == Some(ResolvedChatId(format, old(rooms), senderId, recipientId)) &&
        rooms == WithRoom(format, old(rooms), senderId, recipientId)
      ensures chatId.Some? ==>
        FindChatId(rooms, senderId, recipientId) == chatId && FindChatId(rooms, recipientId, senderId) == chatId
    {
      var found := FindChatId(rooms, senderId, recipientId);
      WithRoomResolves(format, rooms, senderId, recipientId);
      if found.Some? {
        chatId := found;
      } else if createNewRoomIfNotExists {
        var id := CreateChatId(senderId, recipientId);
        chatId := Some(id);
      } else {
        chatId := None;
      }
    }

    /** createChatId: builds the id and saves the sender->recipient row, then the
        recipient->sender row. Only called when the pair has no row. */
    method CreateChatId(senderId: string, recipientId: string) returns (chatId: string)
      requires Valid() && FindChatId(rooms, senderId, recipientId).None?
      modifies this
      ensures Valid()
      ensures chatId == BuildChatId(format, senderId, recipientId)
      ensures rooms == old(rooms) + RoomPair(chatId, senderId, recipientId)
      ensures FindChatId(rooms, senderId, recipientId) == Some(chatId)
      ensures FindChatId(rooms, recipientId, senderId) == Some(chatId)
    {
      chatId := BuildChatId(format, senderId, recipientId);
      var senderRecipient := ChatRoom(chatId, senderId, recipientId);
      var recipientSender := ChatRoom(chatId, recipientId, senderId);
      ghost var after := WithRoom(format, rooms, senderId, recipientId);
      CreationPreservesValidity(format, rooms, senderId, recipientId);
      LookupSymmetric(rooms, senderId, recipientId);
      FirstContactFixesId(format, rooms, senderId, recipientId);
      assert after == rooms + [senderRecipient] + [recipientSender];
      rooms := rooms + [senderRecipient];
      rooms := rooms + [recipientSender];
    }
  }
}
