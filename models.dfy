/** The records the chat and user services store and exchange. */
module Models {
  import opened Wrappers
  import opened Uuids

  /** A `DateTime<Utc>` value; the clock itself is a parameter wherever it is read. */
  type Instant = int

  datatype Chat = Chat(uid: Uuid, name: Option<string>, createdAt: Instant, updatedAt: Instant)

  datatype CreateChatDto = CreateChatDto(participants: seq<Uuid>, name: Option<string>)

  /** One membership row; (chatUid, userUid) is the table's key. */
  datatype ChatParticipant = ChatParticipant(chatUid: Uuid, userUid: Uuid, joinedAt: Instant)

  datatype Message = Message(uid: Uuid, chatUid: Uuid, userUid: Uuid, content: string, createdAt: Instant)

  datatype CreateMessageDto = CreateMessageDto(chatUid: Uuid, userUid: Uuid, content: string)

  datatype User = User(uid: Uuid, username: string, email: string, passwordHash: string,
                       createdAt: Instant, updatedAt: Instant)

  datatype UserDto = UserDto(username: string, email: string, password: string)
}
