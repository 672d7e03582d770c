/** The message classification of internal/engine/message.go, shared by the consumers of messages. */
module Messages {
  import opened Bytes

  /** Untyped is the empty MsgType, which the parser leaves on a text with neither method nor id. */
  datatype MsgType = Request | Response | Notification | Stderr | Untyped

  /** An error text is missing when it is empty or the JSON text `null`; any other one is an error. */
  lemma ErrorTexts(errorData: Bytes)
    ensures !HasError([]) && !HasError([0x6E, 0x75, 0x6C, 0x6C])
    ensures errorData != [] && |errorData| != 4 ==> HasError(errorData)
    ensures |errorData| == 4 && !HasError(errorData) ==> errorData == [0x6E, 0x75, 0x6C, 0x6C]
  {
  }

  predicate HasError(errorData: Bytes) { errorData != [] && errorData != NULL }
}
