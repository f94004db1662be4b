/** One sync session: parsing requests, starting and finishing transfers (`SyncService` in src/sync.rs). */
module SyncService {
  import opened Basics
  import opened SyncCodec
  import opened Receiver
  import opened Sender

  datatype OpenAnswer = Opened(contents: seq<byte>) | OpenFailed(msg: Text)
  datatype CreateAnswer = Created(disk: Disk) | CreateFailed(msg: Text)
  datatype StatAnswer = Found(mode: u32, size: u32, mtime: u32) | NotFound

  /** What the file system would answer to each question one request can raise. */
  datatype FsAnswers = FsAnswers(stat: StatAnswer, open: OpenAnswer, create: CreateAnswer, read: ReadAnswer)

  datatype SyncState = Idle | Sending(sender: Sender) | Receiving(receiver: Receiver)

  /** A session, with the files its pushes have left behind so far. */
  datatype Session = Session(state: SyncState, finished: seq<File>) {
    predicate Valid() {
      && (state.Sending? ==> state.sender.Valid())
      && (state.Receiving? ==> state.receiver.Valid())
    }
  }

  const NEW_SESSION: Session := Session(Idle, [])

  datatype SyncResult = Stat(stat: SyncStat) | Response(reply: Reply) | Continue | Quit

  function INVALID_REQUEST(): Text { Ascii("invalid sync request") }

  function StatOf(a: StatAnswer): SyncStat {
    match a
    case Found(mode, size, mtime) => SyncStat(ID_LSTAT_V1, mode, size, mtime)
    case NotFound => SyncStat(ID_LSTAT_V1, 0, 0, 0)
  }

  function Handle(s: Session, data: seq<byte>, fs: FsAnswers): (r: (Session, SyncResult))
    requires s.Valid()
    ensures r.0.Valid()
  {
    if s.state.Receiving? then
      match Feed(s.state.receiver, data)
      case More(r) => (s.(state := Receiving(r)), SyncResult.Continue)
      case Finished(reply, file) => (Session(Idle, s.finished + [file]), Response(reply))
    else
      match ParseSyncPacket(data)
      case None => (s, Response(FailResponse(INVALID_REQUEST())))
      case Some(Parsed(LStatV1(_), _)) => (s, Stat(StatOf(fs.stat)))
      case Some(Parsed(RecvV1(_), _)) => HandleRecv(s, fs)
      case Some(Parsed(SendV1(_, mode), leftover)) => HandleSend(s, mode, leftover, fs)
      case Some(Parsed(Quit, _)) => (s, SyncResult.Quit)
  }

  function HandleRecv(s: Session, fs: FsAnswers): (r: (Session, SyncResult))
    requires s.Valid()
    ensures r.0.Valid()
  {
    match fs.open
    case OpenFailed(msg) => (s, Response(FailResponse(msg)))
    case Opened(contents) => (s.(state := Sending(Sender(contents, 0, false))), SyncResult.Continue)
  }

  function HandleSend(s: Session, mode: u32, leftover: seq<byte>, fs: FsAnswers): (r: (Session, SyncResult))
    requires s.Valid()
    ensures r.0.Valid()
  {
    match fs.create
    case CreateFailed(msg) => (s, Response(FailResponse(msg)))
    case Created(disk) =>
      match Feed(Receiver(EMPTY_FILE, disk, mode, Header), leftover)
      case More(r) => (s.(state := Receiving(r)), SyncResult.Continue)
      case Finished(reply, file) => (s.(finished := s.finished + [file]), Response(reply))
  }

  /** A session that is not receiving answers an LSTAT request, whatever its path, with the mode,
      size and mtime of the file, or zeros if there is none, and is otherwise unchanged. */
  lemma StatAnswered(s: Session, path: seq<byte>, rest: seq<byte>, fs: FsAnswers)
    requires s.Valid() && !s.state.Receiving? && |path| <= U32_MAX
    ensures var (s', result) := Handle(s, PathRequest(ID_LSTAT_V1, path) + rest, fs);
            && s' == s && result.Stat?
            && var b := StatBytes(result.stat);
               && b[..4] == Ascii("STAT")
               && (fs.stat.Found? ==> && LeU32(b[4..8]) == fs.stat.mode
                                      && LeU32(b[8..12]) == fs.stat.size
                                      && LeU32(b[12..16]) == fs.stat.mtime)
               && (fs.stat.NotFound? ==> LeU32(b[4..8]) == 0 && LeU32(b[8..12]) == 0 && LeU32(b[12..16]) == 0)
  {
    hide ParseSyncPacket, StatBytes, LeU32;
    ParseOfPathRequest(ID_LSTAT_V1, path, rest);
    var b := StatBytes(StatOf(fs.stat));
    StatWords(StatOf(fs.stat));
    LeBytesOfLeU32(b[..4]);
    RequestIdsSpellTheirNames();
  }

  // ----- The session as the daemon holds it -----

  datatype StateRef = IdleRef | SendingRef(sender: FileSender) | ReceivingRef(receiver: FileReceiver)

  class SyncServer {
    var state: StateRef
    var finished: seq<File>

    function Repr(): set<object>
      reads this
    {
      match state
      case IdleRef => {this}
      case SendingRef(s) => {this, s}
      case ReceivingRef(r) => {this, r}
    }

    ghost function View(): Session
      reads this, Repr()
    {
      Session(match state
              case IdleRef => Idle
              case SendingRef(s) => Sending(s.View())
              case ReceivingRef(r) => Receiving(r.View()),
              finished)
    }

    constructor ()
      ensures View() == NEW_SESSION && fresh(Repr())
    {
      state, finished := IdleRef, [];
    }

    method HandlePayload(data: seq<byte>, fs: FsAnswers) returns (res: SyncResult)
      requires View().Valid()
      modifies Repr()
      ensures (View(), res) == Handle(old(View()), data, fs)
      ensures fresh(Repr() - old(Repr()))
    {
      if state.ReceivingRef? {
        var receiver := state.receiver;
        var r := receiver.Receive(data);
        match r
        case Continue => return SyncResult.Continue;
        case Done(reply) =>
          state, finished := IdleRef, finished + [receiver.file];
          return Response(reply);
      }
      match ParseSyncPacket(data)
      case None => res := Response(FailResponse(INVALID_REQUEST()));
      case Some(Parsed(LStatV1(_), _)) => res := Stat(StatOf(fs.stat));
      case Some(Parsed(RecvV1(_), _)) => res := Recv(fs);
      case Some(Parsed(SendV1(_, mode), leftover)) => res := Send(mode, leftover, fs);
      case Some(Parsed(Quit, _)) => res := SyncResult.Quit;
    }

    method Recv(fs: FsAnswers) returns (res: SyncResult)
      requires View().Valid()
      modifies this
      ensures (View(), res) == HandleRecv(old(View()), fs)
      ensures fresh(Repr() - old(Repr()))
    {
      match fs.open
      case OpenFailed(msg) => res := Response(FailResponse(msg));
      case Opened(contents) =>
        var sender := new FileSender(contents);
        state := SendingRef(sender);
        res := SyncResult.Continue;
    }

    /** The frames packed behind the request reach the new receiver before it is installed; if
        they already end the transfer it never is. */
    method Send(mode: u32, leftover: seq<byte>, fs: FsAnswers) returns (res: SyncResult)
      requires View().Valid()
      modifies this
      ensures (View(), res) == HandleSend(old(View()), mode, leftover, fs)
      ensures fresh(Repr() - old(Repr()))
    {
      match fs.create
      case CreateFailed(msg) => res := Response(FailResponse(msg));
      case Created(disk) =>
        var receiver := new FileReceiver(disk, mode);
        if leftover != [] {
          var r := receiver.Receive(leftover);
          if r.Done? {
            finished := finished + [receiver.file];
            return Response(r.reply);
          }
        }
        state := ReceivingRef(receiver);
        res := SyncResult.Continue;
    }
  }
}
