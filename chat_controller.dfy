/** ChatController: relays an incoming message to its recipient's private queue, and
    serves a pair's history over REST. */
module ChatControl {
  import opened Types
  import opened ChatRooms
  import opened ChatMessages
  import Exceptions

  /** The user destination every notification goes to. */
  const MESSAGES_QUEUE := "/queue/messages"

  /** The push payload: the saved message without its chatId and timestamp. */
  datatype ChatNotification = ChatNotification(id: string, senderId: string, recipientId: string, content: string)

  /** One convertAndSendToUser call: the user, the destination and the payload. */
  datatype Delivery = Delivery(user: string, destination: string, payload: ChatNotification)

  datatype ResponseEntity<T> = ResponseEntity(status: int, body: Option<T>)

  function NotificationOf(m: ChatMessage): ChatNotification {
    ChatNotification(m.id, m.senderId, m.recipientId, m.content)
  }

  /** The 200/500 wrapping of findChatMessages: the list on success, an empty 500 when the
      service throws. */
  function HistoryResponse(outcome: Result<seq<ChatMessage>, Exceptions.Exception>): (r: ResponseEntity<seq<ChatMessage>>)
    ensures r.status == Exceptions.OK <==> outcome.Success?
    ensures outcome.Success? ==> r.body == Some(outcome.value)
    ensures outcome.Failure? ==> r.status == Exceptions.INTERNAL_SERVER_ERROR && r.body == None
  {
    match outcome
    case Success(messages) => ResponseEntity(Exceptions.OK, Some(messages))
    case Failure(_) => ResponseEntity(Exceptions.INTERNAL_SERVER_ERROR, None)
  }

  /** The messaging template, reduced to the record of what it was asked to send. */
  class MessagingTemplate {
    var sent: seq<Delivery>

    constructor ()
      ensures sent == []
    {
      sent := [];
    }

    method ConvertAndSendToUser(user: string, destination: string, payload: ChatNotification)
      modifies this
      ensures sent == old(sent) + [Delivery(user, destination, payload)]
    {
      sent := sent + [Delivery(user, destination, payload)];
    }
  }

  class ChatController {
    const messagingTemplate: MessagingTemplate
    const chatMessageService: ChatMessageService

    ghost predicate Valid()
      reads this, chatMessageService, chatMessageService.roomService
    {
      chatMessageService.Valid()
    }

    constructor (messagingTemplate: MessagingTemplate, chatMessageService: ChatMessageService)
      requires chatMessageService.Valid()
      ensures Valid()
      ensures this.messagingTemplate == messagingTemplate && this.chatMessageService == chatMessageService
    {
      this.messagingTemplate := messagingTemplate;
      this.chatMessageService := chatMessageService;
    }

    /** processMessage: saves the message, then sends exactly one notification, addressed to
        the saved message's own recipient on /queue/messages. A ChatRoomNotFoundException
        would be swallowed with nothing sent; save never raises it. */
    method ProcessMessage(message: ChatMessage)
      requires Valid()
      modifies messagingTemplate, chatMessageService, chatMessageService.roomService
      ensures Valid()
      ensures
        var format := chatMessageService.roomService.format;
        var saved := message.(chatId := ResolvedChatId(format, old(chatMessageService.roomService.rooms), message.senderId, message.recipientId));
        && chatMessageService.messages == old(chatMessageService.messages) + [saved]
        && chatMessageService.roomService.rooms == WithRoom(format, old(chatMessageService.roomService.rooms), message.senderId, message.recipientId)
        && messagingTemplate.sent == old(messagingTemplate.sent) + [Delivery(message.recipientId, MESSAGES_QUEUE, NotificationOf(saved))]
    {
      var saved := chatMessageService.Save(message);
      match saved {
        case Success(savedMessage) =>
          messagingTemplate.ConvertAndSendToUser(savedMessage.recipientId, MESSAGES_QUEUE, NotificationOf(savedMessage));
        case Failure(_) =>
          // the source logs the exception to standard error and sends nothing
      }
    }

    /** GET /messages/{senderId}/{recipientId}: the service's history with status 200. */
    method FindChatMessages(senderId: string, recipientId: string) returns (response: ResponseEntity<seq<ChatMessage>>)
      requires Valid()
      modifies chatMessageService.roomService
      ensures Valid()
      ensures chatMessageService.roomService.rooms == old(chatMessageService.roomService.rooms)
      ensures response == ResponseEntity(Exceptions.OK, Some(History(chatMessageService.roomService.rooms, chatMessageService.messages, senderId, recipientId)))
    {
      var messages := chatMessageService.FindChatMessages(senderId, recipientId);
      response := HistoryResponse(Success(messages));
    }
  }
}
