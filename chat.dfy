/** Chat messages and the outcome of one chat-completion call. */
module Chat {

  datatype Role = System | User | Assistant

  /** One `{"role": ..., "content": ...}` entry of a message list. */
  datatype Message = Message(role: Role, content: string)

  /**
   * What a chat-completion call produced: the first choice's content, or the
   * text of the exception it raised (network, authentication, quota, or a
   * malformed provider response).
   */
  datatype CallResult = Answer(content: string) | Failure(error: string)
}
