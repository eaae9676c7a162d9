/** The bytes of an RSM Link frame, one by one, and the message types of the protocol. */
module LinkFormat {
  import opened Bytes
  import opened Crc
  import opened Frames

  // ----- the layout -----

  /** The string is the frame: "RSML", frame version 1, protocol 1 of any minor version, the header
   *  flags, type, message flags, request, sequence and payload length, the payload from byte 24 on,
   *  and the CRC-32C of all that. */
  predicate IsFrame(x: seq<byte>, f: Frame) {
    var n := |f.payload|;
    && |x| == 28 + n && n <= 1_048_548
    && x[0] == 0x52 && x[1] == 0x53 && x[2] == 0x4d && x[3] == 0x4c
    && x[4] == 1 && x[5] == 1 && x[7] == f.headerFlags
    && Half(x, 8, f.messageType) && Half(x, 10, f.messageFlags)
    && Word(x, 12, f.requestId) && Word(x, 16, f.sequence) && Word(x, 20, n)
    && x[24..24 + n] == f.payload
    && Word(x, 24 + n, Checksum(0x82f6_3b78, x[..24 + n]))
  }

  /** Encoding writes the frame, with minor version 0. */
  lemma {:induction false} FrameIsWritten(f: Frame)
    requires Encodable(f)
    ensures IsFrame(Encode(f), f) && Encode(f)[6] == 0
  {
    hide Checksum, Header, Le32, Half, Word, U16, U32;
    var body := Header(f) + f.payload;
    var stored := Le32(Checksum(CRC32C_POLYNOMIAL, body));
    var x := Encode(f);
    assert x == Header(f) + (f.payload + stored);
    HeaderFields(f, f.payload + stored);
    assert x[..4] == MAGIC && x[0] == x[..4][0] && x[1] == x[..4][1] && x[2] == x[..4][2] && x[3] == x[..4][3];
    assert x[24..24 + |f.payload|] == f.payload && x[..24 + |f.payload|] == body;
    assert x == body + stored + [];
    FieldOf(body, stored, []);
    HalfIs(x, 8, f.messageType);
    HalfIs(x, 10, f.messageFlags);
    WordIs(x, 12, f.requestId);
    WordIs(x, 16, f.sequence);
    WordIs(x, 20, |f.payload|);
    WordIs(x, 24 + |f.payload|, Checksum(CRC32C_POLYNOMIAL, body));
  }

  /** A string is a frame in this sense, without reserved header flags, exactly when the decoders take
   *  it, and they give that frame. */
  lemma {:induction false} FrameIsRead(x: seq<byte>, f: Frame)
    ensures IsFrame(x, f) && f.headerFlags <= 1 <==> FrameOk(x) && FieldsOf(x) == f
  {
    hide Checksum, Half, Word, U16, U32;
    if |x| >= 28 {
      assert x[..4] == [x[0], x[1], x[2], x[3]];
      HalfIs(x, 8, f.messageType);
      HalfIs(x, 10, f.messageFlags);
      WordIs(x, 12, f.requestId);
      WordIs(x, 16, f.sequence);
      WordIs(x, 20, |f.payload|);
      WordIs(x, |x| - 4, Checksum(0x82f6_3b78, x[..|x| - 4]));
      if FrameOk(x) && FieldsOf(x) == f {
        assert |f.payload| == |x| - 28;
      }
    }
  }

  /** No frame is longer than 1_048_576 bytes, and these are the fields that fit. */
  lemma {:induction false} FrameSizes(x: seq<byte>, f: Frame)
    ensures MIN_FRAME == 28 && MAX_FRAME == 1_048_576
    ensures IsFrame(x, f) ==> 28 <= |x| <= 1_048_576
    ensures Encodable(f) <==>
            && |f.payload| <= 1_048_548 && f.messageType < 65_536 && f.messageFlags < 65_536 && f.headerFlags < 256
            && f.requestId < 4_294_967_296 && f.sequence < 4_294_967_296
  {
    hide Checksum, Half, Word;
  }

  // ----- message types -----

  datatype MessageType =
    | HELLO | HELLO_RESPONSE | CAPABILITIES_REQUEST | CAPABILITIES_RESPONSE | HEARTBEAT | HEARTBEAT_RESPONSE
    | GET_PROGRAM_INFO | PROGRAM_INFO | PROGRAM_BEGIN | PROGRAM_CHUNK | PROGRAM_VALIDATE | PROGRAM_VALIDATION_RESULT
    | PROGRAM_ACTIVATE | PROGRAM_ACTIVATION_RESULT | PROGRAM_ABORT | PROGRAM_ROLLBACK
    | GET_MODE | MODE_STATUS | SET_MODE
    | GET_TAG_MANIFEST | TAG_MANIFEST_BEGIN | TAG_MANIFEST_CHUNK | TAG_MANIFEST_END
    | READ_TAG | READ_TAG_RESPONSE | WRITE_TAG | SET_SIM_INPUT
    | FORCE_TAG | CLEAR_FORCE | CLEAR_ALL_FORCES | FORCE_STATUS
    | SUBSCRIBE_TAGS | SUBSCRIPTION_STATUS | UNSUBSCRIBE_TAGS | TAG_UPDATE
    | GET_SNAPSHOT | SNAPSHOT_BEGIN | SNAPSHOT_CHUNK | SNAPSHOT_END
    | GET_DIAGNOSTICS | DIAGNOSTICS_RESPONSE | FAULT_EVENT
    | ACK | ERROR

  function Code(t: MessageType): nat {
    match t
    case HELLO => 1 case HELLO_RESPONSE => 2 case CAPABILITIES_REQUEST => 3 case CAPABILITIES_RESPONSE => 4
    case HEARTBEAT => 5 case HEARTBEAT_RESPONSE => 6
    case GET_PROGRAM_INFO => 16 case PROGRAM_INFO => 17 case PROGRAM_BEGIN => 18 case PROGRAM_CHUNK => 19
    case PROGRAM_VALIDATE => 20 case PROGRAM_VALIDATION_RESULT => 21 case PROGRAM_ACTIVATE => 22
    case PROGRAM_ACTIVATION_RESULT => 23 case PROGRAM_ABORT => 24 case PROGRAM_ROLLBACK => 25
    case GET_MODE => 32 case MODE_STATUS => 33 case SET_MODE => 34
    case GET_TAG_MANIFEST => 48 case TAG_MANIFEST_BEGIN => 49 case TAG_MANIFEST_CHUNK => 50 case TAG_MANIFEST_END => 51
    case READ_TAG => 52 case READ_TAG_RESPONSE => 53 case WRITE_TAG => 54 case SET_SIM_INPUT => 55
    case FORCE_TAG => 64 case CLEAR_FORCE => 65 case CLEAR_ALL_FORCES => 66 case FORCE_STATUS => 67
    case SUBSCRIBE_TAGS => 80 case SUBSCRIPTION_STATUS => 81 case UNSUBSCRIBE_TAGS => 82 case TAG_UPDATE => 83
    case GET_SNAPSHOT => 96 case SNAPSHOT_BEGIN => 97 case SNAPSHOT_CHUNK => 98 case SNAPSHOT_END => 99
    case GET_DIAGNOSTICS => 100 case DIAGNOSTICS_RESPONSE => 101 case FAULT_EVENT => 102
    case ACK => 126 case ERROR => 127
  }

  /** The member with a code, if any. */
  function OfCode(n: nat): Option<MessageType> {
    if n < 16 then
      (match n
       case 1 => Some(HELLO) case 2 => Some(HELLO_RESPONSE) case 3 => Some(CAPABILITIES_REQUEST)
       case 4 => Some(CAPABILITIES_RESPONSE) case 5 => Some(HEARTBEAT) case 6 => Some(HEARTBEAT_RESPONSE)
       case _ => None)
    else if n < 32 then
      (match n
       case 16 => Some(GET_PROGRAM_INFO) case 17 => Some(PROGRAM_INFO) case 18 => Some(PROGRAM_BEGIN)
       case 19 => Some(PROGRAM_CHUNK) case 20 => Some(PROGRAM_VALIDATE) case 21 => Some(PROGRAM_VALIDATION_RESULT)
       case 22 => Some(PROGRAM_ACTIVATE) case 23 => Some(PROGRAM_ACTIVATION_RESULT) case 24 => Some(PROGRAM_ABORT)
       case 25 => Some(PROGRAM_ROLLBACK)
       case _ => None)
    else if n < 64 then
      (match n
       case 32 => Some(GET_MODE) case 33 => Some(MODE_STATUS) case 34 => Some(SET_MODE)
       case 48 => Some(GET_TAG_MANIFEST) case 49 => Some(TAG_MANIFEST_BEGIN) case 50 => Some(TAG_MANIFEST_CHUNK)
       case 51 => Some(TAG_MANIFEST_END) case 52 => Some(READ_TAG) case 53 => Some(READ_TAG_RESPONSE)
       case 54 => Some(WRITE_TAG) case 55 => Some(SET_SIM_INPUT)
       case _ => None)
    else if n < 96 then
      (match n
       case 64 => Some(FORCE_TAG) case 65 => Some(CLEAR_FORCE) case 66 => Some(CLEAR_ALL_FORCES)
       case 67 => Some(FORCE_STATUS) case 80 => Some(SUBSCRIBE_TAGS) case 81 => Some(SUBSCRIPTION_STATUS)
       case 82 => Some(UNSUBSCRIBE_TAGS) case 83 => Some(TAG_UPDATE)
       case _ => None)
    else
      (match n
       case 96 => Some(GET_SNAPSHOT) case 97 => Some(SNAPSHOT_BEGIN) case 98 => Some(SNAPSHOT_CHUNK)
       case 99 => Some(SNAPSHOT_END) case 100 => Some(GET_DIAGNOSTICS) case 101 => Some(DIAGNOSTICS_RESPONSE)
       case 102 => Some(FAULT_EVENT) case 126 => Some(ACK) case 127 => Some(ERROR)
       case _ => None)
  }

  lemma {:induction false} CodeIsKnown(t: MessageType)
    ensures KnownType(Code(t)) && OfCode(Code(t)) == Some(t)
  {
  }

  lemma {:induction false} KnownHasCode(n: nat)
    requires KnownType(n)
    ensures OfCode(n).Some? && Code(OfCode(n).value) == n
  {
  }

  /** A type is known exactly when it is the code of a member of the enumeration. */
  lemma {:induction false} KnownTypes(n: nat)
    ensures KnownType(n) <==> exists t :: Code(t) == n
  {
    hide KnownType, OfCode;
    if KnownType(n) {
      KnownHasCode(n);
    }
    forall t | Code(t) == n
      ensures KnownType(n)
    {
      CodeIsKnown(t);
    }
  }

  /** The Python decoder gives the frame exactly when the bytes are that frame and its type is in the
   *  enumeration or its first header flag marks it optional. */
  lemma {:induction false} PythonReads(x: seq<byte>, f: Frame)
    ensures Decoded(x) == Some(f) <==>
            IsFrame(x, f) && (f.headerFlags == 1 || (f.headerFlags == 0 && exists t :: Code(t) == f.messageType))
  {
    hide IsFrame, KnownType, Code;
    FrameIsRead(x, f);
    KnownTypes(f.messageType);
    if FrameOk(x) {
      FlagsSmall(x);
    }
    hide FrameOk, FieldsOf;
  }

  lemma {:induction false} FlagsSmall(x: seq<byte>)
    requires FrameOk(x)
    ensures FieldsOf(x).headerFlags == 0 || FieldsOf(x).headerFlags == 1
  {
  }
}
