/** The value of every computation: a 64-bit number or an error text. */
module Results {
  import opened Numeric

  /** An error text. The source decides "is this an error?" by testing the
      text for emptiness, and every text it ever builds is non-empty, so the
      model keeps error texts non-empty by type. */
  type Message = s: string | s != [] witness "?"

  /** Result of node.h: either a number or a message. */
  datatype Result = Value(number: Int64) | Failure(message: Message) {

    /** The message field; a numeric result carries the empty text. */
    function Text(): string {
      if Value? then "" else message
    }

    /** A result is an error exactly when its text is non-empty. */
    predicate IsError()
      ensures IsError() <==> Text() != ""
    {
      Failure?
    }
  }
}
