/** Value types shared by the models of the worker's tasks. */
module Common {

  datatype Option<+T> = None | Some(value: T)

  /** How one database write ended. `LostThenThrew` stored nothing, `LandedThenThrew`
      stored the change and then lost the acknowledgement; the caller sees both as a throw. */
  datatype Write = Landed | LostThenThrew | LandedThenThrew
  {
    predicate Stored() {
      !LostThenThrew?
    }

    predicate Threw() {
      !Landed?
    }
  }

  /** What happened to a call that asks Slack to post one message. A call that throws may
      or may not have reached the channel, and the caller cannot tell. */
  datatype PostAnswer = Accepted | Refused | ThrewUnsent | ThrewSent
  {
    /** The message is in the channel. */
    predicate Delivered() {
      Accepted? || ThrewSent?
    }
  }

  /** The program's strings are sequences of UTF-16 code units, by which it indexes, measures
      and compares them. */
  type CodeUnit = u: int | 0 <= u < 0x1_0000

  type Utf16 = seq<CodeUnit>

  /** A literal in that encoding; characters beyond the basic plane take two units. */
  function Units(text: string): Utf16 {
    if text == "" then []
    else
      var c := text[0] as int;
      (if c < 0x1_0000 then [c] else [0xD800 + (c - 0x1_0000) / 0x400, 0xDC00 + (c - 0x1_0000) % 0x400])
      + Units(text[1..])
  }
}
