/**
 The start of a restore: the server's login thread (Baseline/src/Server/serverOptThread.cc),
 the decoder thread it starts before it has read the recipe header
 (Baseline/src/Server/recvDecoder.cc) and the client (Baseline/src/Client/dataRetriever.cc).
 The two server threads share one file handle without a lock. One step is one send, one
 receive, one file read or one thread start; steps interleave in any order.
 */
module RestoreLogin {
  import opened Sequences
  import opened Bytes

  datatype Message = LoginDownload | RestoreReady | LoginResponse(head: Data) | FileNonExist

  datatype LoginAt = AwaitLogin | Reject | StartDecoder | ReadHead | Respond | Join
  datatype DecoderAt = NotStarted | AwaitReady | ReadEntries | Finished
  datatype ClientAt = SendLogin | AwaitResponse | SendReady | Receive | GaveUp

  datatype Actor = LoginThread | DecoderThread | Client

  /** `file` is the recipe file, `cursor` the position of the shared handle. `failed` stands
      for an exit of the program because of an unexpected message. */
  datatype State = State(
    login: LoginAt, decoder: DecoderAt, client: ClientAt,
    toServer: seq<Message>, toClient: seq<Message>,
    cursor: nat, headBuf: Data, batches: seq<Data>, head: Data, failed: bool)

  /** The recipe file if there is one, and the sizes of a header and of a batch of entries. */
  datatype Setup = Setup(found: bool, file: Data, headSize: nat, batchSize: nat)

  function Init(): State {
    State(AwaitLogin, NotStarted, SendLogin, [], [], 0, [], [], [], false)
  }

  /** The bytes that a read of `n` bytes at the cursor delivers. */
  function ReadBytes(file: Data, cursor: nat, n: nat): Data {
    if cursor >= |file| then [] else if cursor + n <= |file| then file[cursor..cursor + n] else file[cursor..]
  }

  function LoginStep(u: Setup, s: State): State {
    match s.login
    case AwaitLogin =>
      if s.toServer == [] then s
      else if s.toServer[0] != LoginDownload then s.(failed := true)
      else s.(toServer := s.toServer[1..], login := if u.found then StartDecoder else Reject)
    case Reject => s.(toClient := s.toClient + [FileNonExist], login := Join)
    case StartDecoder => s.(decoder := AwaitReady, login := ReadHead)
    case ReadHead =>
      var d := ReadBytes(u.file, s.cursor, u.headSize);
      s.(headBuf := d, cursor := s.cursor + |d|, login := Respond)
    case Respond => s.(toClient := s.toClient + [LoginResponse(s.headBuf)], login := Join)
    case Join => s
  }

  function DecoderStep(u: Setup, s: State): State {
    match s.decoder
    case NotStarted => s
    case AwaitReady =>
      if s.toServer == [] then s
      else if s.toServer[0] != RestoreReady then s.(failed := true)
      else s.(toServer := s.toServer[1..], decoder := ReadEntries)
    case ReadEntries =>
      var d := ReadBytes(u.file, s.cursor, u.batchSize);
      if d == [] then s.(decoder := Finished)
      else s.(batches := s.batches + [d], cursor := s.cursor + |d|,
        decoder := if |d| < u.batchSize then Finished else ReadEntries)
    case Finished => s
  }

  function ClientStep(s: State): State {
    match s.client
    case SendLogin => s.(toServer := s.toServer + [LoginDownload], client := AwaitResponse)
    case AwaitResponse =>
      if s.toClient == [] then s else
      (match s.toClient[0]
       case LoginResponse(head) => s.(toClient := s.toClient[1..], head := head, client := SendReady)
       case FileNonExist => s.(toClient := s.toClient[1..], client := GaveUp)
       case _ => s.(failed := true))
    case SendReady => s.(toServer := s.toServer + [RestoreReady], client := Receive)
    case Receive => s
    case GaveUp => s
  }

  function Step(u: Setup, s: State, a: Actor): State {
    match a
    case LoginThread => LoginStep(u, s)
    case DecoderThread => DecoderStep(u, s)
    case Client => ClientStep(s)
  }

  function Run(u: Setup, schedule: seq<Actor>): State {
    if schedule == [] then Init() else Step(u, Run(u, schedule[..|schedule| - 1]), schedule[|schedule| - 1])
  }

  // ----- the invariant -----

  /** The login thread is past reading the header. */
  predicate HeadRead(s: State) {
    s.login == Respond || (s.login == Join && s.decoder != NotStarted)
  }

  predicate Channels(s: State) {
    match s.client
    case SendLogin => s.toServer == [] && s.toClient == [] && s.login == AwaitLogin
    case AwaitResponse =>
      && (s.toServer == if s.login == AwaitLogin then [LoginDownload] else [])
      && (s.toClient == if s.login != Join then []
            else if s.decoder == NotStarted then [FileNonExist] else [LoginResponse(s.headBuf)])
    case SendReady => s.toServer == [] && s.toClient == [] && s.login == Join && s.decoder == AwaitReady
    case Receive =>
      && s.toClient == [] && s.login == Join && s.decoder != NotStarted
      && (s.toServer == if s.decoder == AwaitReady then [RestoreReady] else [])
    case GaveUp => s.toServer == [] && s.toClient == [] && s.login == Join && s.decoder == NotStarted
  }

  ghost predicate Inv(u: Setup, s: State) {
    && !s.failed && Channels(s)
    && (s.login == AwaitLogin || s.login == Reject || s.login == StartDecoder ==> s.decoder == NotStarted)
    && (s.login == ReadHead || s.login == Respond ==> s.decoder == AwaitReady)
    && ((s.decoder == ReadEntries || s.decoder == Finished) ==> s.client == Receive)
    && (s.decoder == NotStarted || s.decoder == AwaitReady ==> s.batches == [])
    && s.cursor <= |u.file|
    && (if HeadRead(s)
        then s.headBuf == ReadBytes(u.file, 0, u.headSize) && s.headBuf + Flatten(s.batches) == u.file[..s.cursor]
        else s.cursor == 0 && s.batches == [] && s.headBuf == [])
    && (s.decoder == Finished ==> s.cursor == |u.file|)
    && (s.client == SendReady || s.client == Receive ==> s.head == s.headBuf)
  }

  lemma ReadExtends(file: Data, cursor: nat, n: nat)
    requires cursor <= |file|
    ensures var d := ReadBytes(file, cursor, n);
      && cursor + |d| <= |file| && file[..cursor] + d == file[..cursor + |d|]
      && (|d| < n ==> cursor + |d| == |file|)
  {
  }

  lemma StepKeeps(u: Setup, s: State, a: Actor)
    requires Inv(u, s) && u.batchSize > 0
    ensures Inv(u, Step(u, s, a))
  {
    hide ReadBytes, Flatten;
    match a {
      case LoginThread =>
        ReadExtends(u.file, s.cursor, u.headSize);
        NoBatches();
      case DecoderThread =>
        var d := ReadBytes(u.file, s.cursor, u.batchSize);
        ReadExtends(u.file, s.cursor, u.batchSize);
        FlattenSnoc(s.batches, d);
        assert s.headBuf + (Flatten(s.batches) + d) == s.headBuf + Flatten(s.batches) + d;
      case Client =>
    }
  }

  lemma NoBatches()
    ensures Flatten<Byte>([]) == []
  {
  }

  lemma {:induction false} EveryRun(u: Setup, schedule: seq<Actor>)
    requires u.batchSize > 0
    ensures Inv(u, Run(u, schedule))
  {
    hide Inv, Step;
    if schedule == [] {
      Start(u);
    } else {
      EveryRun(u, schedule[..|schedule| - 1]);
      StepKeeps(u, Run(u, schedule[..|schedule| - 1]), schedule[|schedule| - 1]);
    }
  }

  lemma Start(u: Setup)
    ensures Inv(u, Init())
  {
  }

  /** In every interleaving no thread meets an unexpected message, the two server threads are
      never both about to read the shared handle, the client gets the file's header, and the
      decoder reads the bytes behind the header, in order; all of them once it is finished. */
  lemma HeaderBeforeEntries(u: Setup, schedule: seq<Actor>)
    requires u.batchSize > 0
    ensures var s := Run(u, schedule);
      var header := ReadBytes(u.file, 0, u.headSize);
      && !s.failed && !(s.login == ReadHead && s.decoder == ReadEntries)
      && (s.client == SendReady || s.client == Receive ==> s.head == header)
      && |header| <= |u.file| && Flatten(s.batches) <= u.file[|header|..]
      && (s.decoder == Finished ==> Flatten(s.batches) == u.file[|header|..])
  {
    hide Run;
    EveryRun(u, schedule);
    var s, header := Run(u, schedule), ReadBytes(u.file, 0, u.headSize);
    NoBatches();
    if HeadRead(s) {
      assert u.file[..s.cursor][|header|..] == u.file[|header|..][..s.cursor - |header|];
    }
  }
}
