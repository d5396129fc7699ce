/** `MessageService`: content checks and the guard order in front of the message store. */
module MessageService {
  import opened Wrappers
  import opened Uuids
  import opened Text
  import opened Models
  import opened ServiceErrors

  /** A call into a repository. */
  datatype MessageCall = GetChat(chatUid: Uuid) | ListMessages(chatUid: Uuid) | StoreMessage(dto: CreateMessageDto)

  datatype Trace<T> = Trace(calls: seq<MessageCall>, result: Result<T, ServiceError>)

  /** The longest content accepted, in UTF-8 bytes. */
  const MaxContentBytes: nat := 5000

  /**
   * `get_all_messages_by_chat_uid`: a malformed id is a 400, the chat must be
   * found (its error is returned as is), and only then are messages listed.
   * The source calls `get_by_uid`, which its repository trait names `get_by_id`.
   */
  function GetAllMessagesByChatUid(chatUid: string,
                                   getChat: Uuid -> Result<Chat, ServiceError>,
                                   list: Uuid -> Result<seq<Message>, ServiceError>): (t: Trace<seq<Message>>)
    ensures Parse(chatUid).Err? ==>
              t == Trace([], Err(BadRequest("Invalid UUID format: " + Describe(Parse(chatUid).error))))
    ensures Parse(chatUid).Ok? && getChat(Parse(chatUid).value).Err? ==>
              t == Trace([GetChat(Parse(chatUid).value)], Err(getChat(Parse(chatUid).value).error))
    ensures Parse(chatUid).Ok? && getChat(Parse(chatUid).value).Ok? ==>
              var id := Parse(chatUid).value;
              t == Trace([GetChat(id), ListMessages(id)], list(id))
  {
    match Parse(chatUid)
    case Err(e) => Trace([], Err(BadRequest("Invalid UUID format: " + Describe(e))))
    case Ok(id) =>
      match getChat(id)
      case Err(e) => Trace([GetChat(id)], Err(e))
      case Ok(_) => Trace([GetChat(id), ListMessages(id)], list(id))
  }

  /** `create`: trimmed-empty content, then content over 5000 bytes, are refused before the store. */
  function Create(dto: CreateMessageDto, store: CreateMessageDto -> Result<Message, ServiceError>): (t: Trace<Message>)
    ensures AllWhitespace(dto.content) ==>
              t == Trace([], Err(BadRequest("Message content cannot be empty")))
    ensures !AllWhitespace(dto.content) && Utf8Length(dto.content) > MaxContentBytes ==>
              t == Trace([], Err(BadRequest("Message content too long (maximum 5000 characters)")))
    ensures !AllWhitespace(dto.content) && Utf8Length(dto.content) <= MaxContentBytes ==>
              t == Trace([StoreMessage(dto)], store(dto))
  {
    TrimEmpty(dto.content);
    if |Trim(dto.content)| == 0 then Trace([], Err(BadRequest("Message content cannot be empty")))
    else if Utf8Length(dto.content) > MaxContentBytes then
      Trace([], Err(BadRequest("Message content too long (maximum 5000 characters)")))
    else Trace([StoreMessage(dto)], store(dto))
  }

  /** White space alone is "empty" at any length, even far beyond the limit. */
  lemma WhitespaceIsEmptyAtAnyLength(chatUid: Uuid, userUid: Uuid, n: nat,
                                     store: CreateMessageDto -> Result<Message, ServiceError>)
    ensures var dto := CreateMessageDto(chatUid, userUid, seq(n, _ => ' '));
            Create(dto, store).result == Err(BadRequest("Message content cannot be empty"))
  {
    var dto := CreateMessageDto(chatUid, userUid, seq(n, _ => ' '));
    assert AllWhitespace(dto.content);
  }

  /** Accepted content reaches the store exactly once and unchanged, and is never blank. */
  lemma StoredContentIsChecked(dto: CreateMessageDto, store: CreateMessageDto -> Result<Message, ServiceError>)
    ensures var t := Create(dto, store);
            t.calls != [] ==> t.calls == [StoreMessage(dto)] && !AllWhitespace(dto.content)
                              && 1 <= Utf8Length(dto.content) <= MaxContentBytes
  {
    Utf8LengthBounds(dto.content);
  }
}
