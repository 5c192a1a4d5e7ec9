/** Subscription messages, which the encoders and the CURVE layer turn into commands (msg.hpp). */
module MessageKinds {
  import opened Bytes

  datatype Kind = Plain | Subscribe | Cancel

  const SUB_CMD_NAME: seq<Byte> := [9, 83, 85, 66, 83, 67, 82, 73, 66, 69]   // "\x9SUBSCRIBE"
  const CANCEL_CMD_NAME: seq<Byte> := [6, 67, 65, 78, 67, 69, 76]            // "\6CANCEL"

  /** What precedes the body: a command name, or one byte for peers that do not know these commands. */
  function Prefix(downgrade: bool, k: Kind): (r: seq<Byte>)
    ensures |r| <= 10 && (k.Plain? <==> r == [])
  {
    match k
    case Plain => []
    case Subscribe => if downgrade then [1] else SUB_CMD_NAME
    case Cancel => if downgrade then [0] else CANCEL_CMD_NAME
  }

  /** A command's name is preceded by its length. */
  lemma {:induction false} PrefixIs(downgrade: bool)
    ensures Prefix(downgrade, Plain) == []
    ensures Prefix(downgrade, Subscribe) == if downgrade then [1] else [9] + Ascii("SUBSCRIBE")
    ensures Prefix(downgrade, Cancel) == if downgrade then [0] else [6] + Ascii("CANCEL")
  {
    hide Ascii;
    assert SUB_CMD_NAME[1..] == Ascii("SUBSCRIBE") && CANCEL_CMD_NAME[1..] == Ascii("CANCEL");
  }
}
