/** Types shared by the chat front-end: the `ChatMessage` record the
    components exchange, and an optional value. */
module ChatTypes {

  datatype Option<T> = None | Some(value: T)

  /** The three roles a chat message can carry. */
  datatype Role = System | User | Assistant

  /** One entry of the conversation log, `{role, content}`. */
  datatype Message = Message(role: Role, content: string)
}
