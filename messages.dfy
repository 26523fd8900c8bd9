/** Conversation messages as the core sees them. The source dispatches on the
    message class with isinstance checks; here the class is the variant. */
module Messages {

  /** A chat message: a human turn, an assistant turn, or anything else
      (every other message class is treated alike, as a system message). */
  datatype Msg = Human(content: string) | AI(content: string) | System(content: string)
}
