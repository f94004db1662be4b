/** The 64-bit tags that name io_uring operations (`UserData` in src/main.rs). */
module Tags {
  import opened Basics

  type u64 = x: int | 0 <= x < 0x1_0000_0000_0000_0000

  datatype OpType = Ep0Poll | BulkOutReadHeader | BulkOutReadPayload | BulkInWrite | PtyRead | SocketRead

  function OpCode(op: OpType): u32 {
    match op
    case Ep0Poll => 1
    case BulkOutReadHeader => 2
    case BulkOutReadPayload => 3
    case BulkInWrite => 4
    case PtyRead => 5
    case SocketRead => 6
  }

  function OpOf(v: u32): Option<OpType> {
    match v
    case 1 => Some(Ep0Poll)
    case 2 => Some(BulkOutReadHeader)
    case 3 => Some(BulkOutReadPayload)
    case 4 => Some(BulkInWrite)
    case 5 => Some(PtyRead)
    case 6 => Some(SocketRead)
    case _ => None
  }

  type NonZero = x: u32 | x > 0 witness 1

  datatype UserData = UserData(op: OpType, data: Option<NonZero>)

  function DataWord(d: Option<NonZero>): u32 {
    match d case None => 0 case Some(v) => v
  }

  /** Operation code in the high word, data in the low word, 0 standing for no data. */
  function Pack(u: UserData): u64 {
    OpCode(u.op) * 0x1_0000_0000 + DataWord(u.data)
  }

  function Unpack(tag: u64): Option<UserData> {
    match OpOf(tag / 0x1_0000_0000)
    case None => None
    case Some(op) =>
      var low := tag % 0x1_0000_0000;
      Some(UserData(op, if low == 0 then None else Some(low)))
  }

  lemma UnpackOfPack(u: UserData)
    ensures Unpack(Pack(u)) == Some(u)
  {
    assert Pack(u) / 0x1_0000_0000 == OpCode(u.op);
    match u.op
    case Ep0Poll => case BulkOutReadHeader => case BulkOutReadPayload =>
    case BulkInWrite => case PtyRead => case SocketRead =>
  }

  /** Tags are accepted exactly when their high word is a known operation, and then
      packing gives the tag back. */
  lemma PackOfUnpack(tag: u64)
    ensures Unpack(tag).Some? <==> 1 <= tag / 0x1_0000_0000 <= 6
    ensures Unpack(tag).Some? ==> Pack(Unpack(tag).value) == tag
  {
    var high := tag / 0x1_0000_0000;
    assert tag == high * 0x1_0000_0000 + tag % 0x1_0000_0000;
  }
}
