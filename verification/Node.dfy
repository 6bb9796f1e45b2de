/** The node as a state machine over its tables.  One step is one committed transaction: a submission, a processing
    attempt with its rollback and error handling, a fetch result, or a garbage collection
    (`src/aleph/handlers/message_handler.py`, `src/aleph/handlers/content/forget.py`,
    `src/aleph/jobs/process_pending_messages.py`). */
module Node {
  import opened Wrappers
  import opened Records
  import opened Lifecycle
  import Posts
  import Aggregates
  import Files
  import Vms
  import Balances

  datatype State = State(tables: Tables, posts: Posts.PostTable, aggs: Aggregates.AggTables, files: Files.FileTables,
                         vms: Vms.VmTable, balances: Balances.BalanceTable)

  /** How the database breaks ties, the grace period of unpinned files, and whether files are stored at all. */
  datatype Config = Config(first: RowChoice, grace: nat, storesFiles: bool)

  /** The content of a message once fetched. */
  datatype Body = Body(inline: bool, address: Address, time: Time, content: Content)

  /** What the outside world decides about one attempt: the outcome of signature check and fetch, the checks on
      balances, sizes and replaced machines, the clock, and whether the retries are used up. */
  datatype Outcome = Outcome(fetch: Result<Body, ProcessingError>, verdict: Option<ProcessingError>, now: Time,
                             giveUp: bool)

  function MessageOf(row: PendingRow, body: Body): Message {
    Message(row.sender, row.signature, body.inline, body.address, body.time, body.content)
  }

  // ----- checks of a FORGET

  function CheckHashes(s: State, hashes: seq<Hash>): Option<ProcessingError> {
    if hashes == [] then None
    else if hashes[0] !in s.tables.messages then Some(ForgetTargetNotFound)
    else if Vms.CheckVolume(s.vms, hashes[0]).Some? then Vms.CheckVolume(s.vms, hashes[0])
    else CheckHashes(s, hashes[1..])
  }

  function CheckKeys(s: State, owner: Address, keys: seq<string>): Option<ProcessingError> {
    if keys == [] then None
    else if Aggregates.AggKey(keys[0], owner) !in s.aggs.rows then Some(ForgetTargetNotFound)
    else CheckKeys(s, owner, keys[1..])
  }

  function CheckForget(s: State, m: Message): Option<ProcessingError>
    requires m.content.Forget?
  {
    if m.content.hashes == [] && m.content.aggregates == [] then Some(NoForgetTarget)
    else if CheckHashes(s, m.content.hashes).Some? then CheckHashes(s, m.content.hashes)
    else CheckKeys(s, m.address, m.content.aggregates)
  }

  /** A set as a list, in the order the database returns it. */
  function Listed(hs: set<Hash>, first: RowChoice): (l: seq<Hash>)
    requires Chooses(first)
    ensures forall h :: h in l <==> h in hs
  {
    if hs == {} then [] else [first(hs)] + Listed(hs - {first(hs)}, first)
  }

  function ElementsOf(s: State, owner: Address, keys: seq<string>, first: RowChoice): seq<Hash>
    requires Chooses(first)
  {
    if keys == [] then []
    else
      Listed(Aggregates.Of(s.aggs.elements, Aggregates.AggKey(keys[0], owner)), first)
      + ElementsOf(s, owner, keys[1..], first)
  }

  /** `_list_target_messages`: the given hashes, then every element of the given aggregates. */
  function Targets(s: State, m: Message, first: RowChoice): seq<Hash>
    requires m.content.Forget? && Chooses(first)
  {
    m.content.hashes + ElementsOf(s, m.address, m.content.aggregates, first)
  }

  function CheckTarget(t: Tables, sender: Address, h: Hash): Option<ProcessingError> {
    if h !in t.status then Some(ForgetTargetNotFound)
    else match t.status[h]
      case Forgotten => None
      case Rejected => None
      case Pending => Some(ForgetTargetNotFound)
      case Processed =>
        if h !in t.messages then Some(Internal)
        else if t.messages[h].content.Forget? then Some(CannotForgetForget)
        else if t.messages[h].sender != sender then Some(PermissionDenied)
        else None
  }

  function CheckTargets(t: Tables, sender: Address, targets: seq<Hash>): Option<ProcessingError> {
    if targets == [] then None
    else if CheckTarget(t, sender, targets[0]).Some? then CheckTarget(t, sender, targets[0])
    else CheckTargets(t, sender, targets[1..])
  }

  // ----- the checks of every kind of message

  function CheckDependencies(s: State, m: Message): Option<ProcessingError> {
    match m.content
    case Post(_, _, _, _) => Posts.CheckDependencies(s.posts, m.content)
    case Aggregate(_, _) => None
    case Store(_, _, _) => Files.CheckDependencies(s.files, m.content)
    case Vm(machine, volumes) =>
      if Vms.Missing(machine, volumes, s.files.messagePins.Keys, s.files.tags.Keys) == {} then None
        else Some(VmVolumeNotFound)
    case Forget(_, _) => CheckForget(s, m)
  }

  function CheckPermissions(s: State, h: Hash, m: Message, first: RowChoice): Option<ProcessingError>
    requires Chooses(first)
  {
    match m.content
    case Store(_, _, _) => Files.CheckPermissions(s.files, h, m)
    case Forget(_, _) => CheckTargets(s.tables, m.sender, Targets(s, m, first))
    case _ => None
  }

  // ----- forgetting

  /** The cleanup of each kind of message, and the further messages that go with it. */
  function CleanedUp(s: State, h: Hash, m: Message, now: Time, cfg: Config): Result<(State, set<Hash>), ProcessingError>
    requires Chooses(cfg.first)
  {
    match m.content
    case Post(_, _, _, _) =>
      (match Posts.Forgotten(s.posts, h, m.content, cfg.first)
       case Ok(p) => Ok((s.(posts := p), Posts.AmendsOf(s.posts, h)))
       case Err(e) => Err(e))
    case Aggregate(_, _) =>
      (match Aggregates.Forgotten(s.aggs, h, m.content, m.address, cfg.first)
       case Ok(a) => Ok((s.(aggs := a), {}))
       case Err(e) => Err(e))
    case Store(_, _, _) =>
      (match Files.Forgotten(s.files, h, m, now, cfg.grace)
       case Ok(f) => Ok((s.(files := f), {}))
       case Err(e) => Err(e))
    case Vm(_, _) => Ok((s.(vms := s.vms - {h}), {}))
    case Forget(_, _) => Err(CannotForgetForget)
  }

  function MessageForgotten(s: State, h: Hash, m: Message, g: Hash, now: Time, cfg: Config)
      : Result<State, ProcessingError>
    requires Chooses(cfg.first)
  {
    match MovedToForgotten(s.tables, {h}, g)
    case Err(e) => Err(e)
    case Ok(t1) =>
      match CleanedUp(s.(tables := t1), h, m, now, cfg)
      case Err(e) => Err(e)
      case Ok((s2, more)) =>
        match MovedToForgotten(s2.tables, more, g)
        case Err(e) => Err(e)
        case Ok(t3) => Ok(s2.(tables := t3))
  }

  /** `_forget_item_hash`. */
  function ItemForgotten(s: State, h: Hash, g: Hash, now: Time, cfg: Config): Result<State, ProcessingError>
    requires Chooses(cfg.first)
  {
    if h !in s.tables.status then Err(ForgetTargetNotFound)
    else if s.tables.status[h] == Forgotten then Ok(s.(tables := ForgottenAgain(s.tables, h, g)))
    else if s.tables.status[h] != Processed then Err(ForgetTargetNotFound)
    else if h !in s.tables.messages then Err(ForgetTargetNotFound)
    else if s.tables.messages[h].content.Forget? then Err(CannotForgetForget)
    else MessageForgotten(s, h, s.tables.messages[h], g, now, cfg)
  }

  function AllForgotten(s: State, targets: seq<Hash>, g: Hash, now: Time, cfg: Config): Result<State, ProcessingError>
    requires Chooses(cfg.first)
    decreases |targets|
  {
    if targets == [] then Ok(s)
    else match ItemForgotten(s, targets[0], g, now, cfg)
      case Err(e) => Err(e)
      case Ok(s1) => AllForgotten(s1, targets[1..], g, now, cfg)
  }

  // ----- one processing attempt

  /** `insert_message`: the message row, the pin of its content file, the pending row, status and confirmation. */
  function Inserted(s: State, id: nat, h: Hash, m: Message): Result<State, ProcessingError>
    requires id in s.tables.pending
  {
    var s1 := s.(tables := MessageInserted(s.tables, id, h, m));
    if m.inline then Ok(s1)
    else if h in s.files.contentPins then Err(Database)
    else Ok(s1.(files := s.files.(files := s.files.files + {h},
                                  contentPins := s.files.contentPins[h := Files.ContentPin(h, m.sender, m.time)])))
  }

  /** The content handler's `process`. */
  function Handled(s: State, h: Hash, m: Message, now: Time, cfg: Config): Result<State, ProcessingError>
    requires Chooses(cfg.first)
  {
    match m.content
    case Post(_, _, _, balances) =>
      if Posts.CheckDependencies(s.posts, m.content).Some? then Err(Internal)
      else if h in s.posts then Err(Database)
      else
        var s1 := s.(posts := Posts.Inserted(s.posts, h, m));
        (match balances
         case NoBalances => Ok(s1)
         case Malformed => Err(InvalidFormat)
         case Balances(chain, dapp, height, amounts) =>
           Ok(s1.(balances := Balances.Applied(s.balances, Balances.Update(chain, dapp, height, amounts)))))
    case Aggregate(_, _) =>
      (match Aggregates.Inserted(s.aggs, h, m)
       case Ok(a) => Ok(s.(aggs := a))
       case Err(e) => Err(e))
    case Store(_, _, _) =>
      (match Files.Pinned(s.files, h, m)
       case Ok(f) => Ok(s.(files := f))
       case Err(e) => Err(e))
    case Vm(_, _) => if h in s.vms then Err(Database) else Ok(s.(vms := s.vms[h := Vms.RowOf(m)]))
    case Forget(_, _) => AllForgotten(s, Targets(s, m, cfg.first), h, now, cfg)
  }

  /** `fetch_related_content`: the file of a STORE becomes known to the database. */
  function Fetched(s: State, m: Message, cfg: Config): State {
    if m.content.Store? && cfg.storesFiles then s.(files := s.files.(files := s.files.files + {m.content.file})) else s
  }

  function ProcessedNew(s: State, id: nat, h: Hash, m: Message, o: Outcome, cfg: Config): Result<State, ProcessingError>
    requires id in s.tables.pending && Chooses(cfg.first)
  {
    var s1 := Fetched(s, m, cfg);
    if CheckDependencies(s1, m).Some? then Err(CheckDependencies(s1, m).value)
    else if CheckPermissions(s1, h, m, cfg.first).Some? then Err(CheckPermissions(s1, h, m, cfg.first).value)
    else if o.verdict.Some? then Err(o.verdict.value)
    else match Inserted(s1, id, h, m)
      case Err(e) => Err(e)
      case Ok(s2) => Handled(s2, h, m, o.now, cfg)
  }

  /** `MessageHandler.process`: confirm a live message, drop a copy of a forgotten one, or process a new one. */
  function Attempted(s: State, id: nat, o: Outcome, cfg: Config): Result<State, ProcessingError>
    requires id in s.tables.pending && Chooses(cfg.first)
  {
    var row := s.tables.pending[id];
    var h := row.hash;
    if h in s.tables.messages then
      if row.signature != s.tables.messages[h].signature then Err(InvalidSignature)
      else Ok(s.(tables := Confirmed(WithoutPending(s.tables, id), h, row.tx)))
    else if h in s.tables.forgotten then
      if row.signature != s.tables.forgotten[h].signature then Err(InvalidSignature)
      else Ok(s.(tables := WithoutPending(s.tables, id)))
    else match o.fetch
      case Err(e) => Err(e)
      case Ok(body) => ProcessedNew(s, id, h, MessageOf(row, body), o, cfg)
  }

  // ----- steps

  datatype Step =
    | Submit(id: nat, row: PendingRow)
    | Refuse(hash: Option<Hash>, error: ProcessingError)
    | FetchDone(id: nat, file: Option<Hash>)
    | FetchFailed(id: nat, error: ProcessingError, giveUp: bool)
    | Process(id: nat, outcome: Outcome)
    | PinTx(pin: Files.TxPin)
    | Collect(time: Time, deleted: set<Hash>)

  /** The files a collection may delete: those without a pin; the database refuses one that a tag names. */
  predicate CollectionOk(t: Files.FileTables, d: Time, deleted: set<Hash>) {
    var unpinned := Files.Unpinned(Files.Expired(t, d));
    && deleted <= unpinned
    && (forall tag :: tag in t.tags ==> t.tags[tag].file !in deleted)
    && ((forall tag :: tag in t.tags ==> t.tags[tag].file !in unpinned) ==> deleted == unpinned)
  }

  /** When a step can happen.  A submitted message has passed the schema, which checks the shape of its hash. */
  predicate Enabled(s: State, step: Step) {
    match step
    case Submit(id, row) => id !in s.tables.pending && IsItemHash(row.hash)
    case Refuse(_, _) => true
    case FetchDone(id, _) => id in s.tables.pending && !s.tables.pending[id].fetched
    case FetchFailed(id, _, _) => id in s.tables.pending && !s.tables.pending[id].fetched
    case Process(id, _) => id in s.tables.pending && s.tables.pending[id].fetched
    case PinTx(_) => true
    case Collect(d, deleted) => CollectionOk(s.files, d, deleted)
  }

  function Next(s: State, step: Step, cfg: Config): State
    requires Enabled(s, step) && Chooses(cfg.first)
  {
    match step
    case Submit(id, row) => s.(tables := Submitted(s.tables, id, row))
    case Refuse(h, e) => s.(tables := RejectedNew(s.tables, h, e))
    case FetchDone(id, file) =>
      var s1 := s.(tables := s.tables.(pending := s.tables.pending[id := s.tables.pending[id].(fetched := true)]));
      if file.Some? then s1.(files := s.files.(files := s.files.files + {file.value})) else s1
    case FetchFailed(id, e, giveUp) => s.(tables := ErrorHandled(s.tables, id, e, giveUp))
    case Process(id, o) =>
      (match Attempted(s, id, o, cfg)
       case Ok(s') => s'
       case Err(e) => s.(tables := ErrorHandled(s.tables, id, e, o.giveUp)))
    case PinTx(pin) => s.(files := s.files.(files := s.files.files + {pin.file}, txPins := s.files.txPins + {pin}))
    case Collect(d, deleted) => s.(files := Files.Expired(s.files, d).(files := s.files.files - deleted))
  }

  const EMPTY: State := State(Tables(map[], map[], map[], map[], map[], {}), map[], Aggregates.AggTables(map[], map[]),
                              Files.FileTables({}, map[], map[], {}, {}, map[]), map[], map[])
}
