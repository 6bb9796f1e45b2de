/** Every step of the node keeps the invariant. */
module NodeSteps {
  import opened Wrappers
  import opened Records
  import opened Lifecycle
  import opened Node
  import opened NodeInvariant
  import opened NodeForget
  import Posts
  import Aggregates
  import Files
  import Vms
  import Balances

  // ----- files that arrive

  lemma {:induction false} MoreFilesOk(f: Files.FileTables, more: set<Hash>, txPins: set<Files.TxPin>, ever: set<Hash>)
    requires FilesInv(f, ever) && forall p :: p in txPins ==> p.file in more
    ensures FilesInv(f.(files := f.files + more, txPins := f.txPins + txPins), ever)
  {
    var f' := f.(files := f.files + more, txPins := f.txPins + txPins);
    forall tag | Files.IsHashTag(tag) ensures Files.TagOk(f', tag) {
      assert Files.TagOk(f, tag);
    }
  }

  lemma {:induction false} FetchedInv(s: State, m: Message, cfg: Config)
    requires Inv(s)
    ensures Inv(Fetched(s, m, cfg)) && Fetched(s, m, cfg).tables == s.tables
  {
    if m.content.Store? {
      MoreFilesOk(s.files, {m.content.file}, {}, Ever(s.tables));
      assert s.files.txPins + {} == s.files.txPins;
    }
  }

  // ----- a new message

  lemma {:induction false} HandledPost(s2: State, h: Hash, m: Message, now: Time, cfg: Config, s': State)
    requires m.content.Post? && Chooses(cfg.first) && Handled(s2, h, m, now, cfg) == Ok(s')
    ensures Posts.CheckDependencies(s2.posts, m.content).None?
    ensures s' == s2.(posts := Posts.Inserted(s2.posts, h, m), balances := s'.balances)
  {
  }

  lemma {:induction false} NewPost(s: State, h: Hash, m: Message, s2: State, now: Time, cfg: Config, s': State)
    requires Inv(s) && h !in Ever(s.tables) && Arrived(s, h, m, s2) && m.content.Post? && Chooses(cfg.first)
    requires Handled(s2, h, m, now, cfg) == Ok(s')
    ensures Inv(s') && s'.tables == s2.tables
  {
    hide Posts.PostsOk, Aggregates.TablesOk, Files.HashTagsOk, Files.PinKeysOk, Vms.VolumesPinned, Consistent,
         ElementsMatch, PinsMatch, VmsMatch;
    HandledPost(s2, h, m, now, cfg, s');
    PostArrives(s.tables.messages, s.posts, h, m);
    Posts.InsertedOk(s.posts, h, m);
    OthersMatch(s.tables.messages, s, h, m);
  }

  lemma {:induction false} NewElement(s: State, h: Hash, m: Message, s2: State, now: Time, cfg: Config, s': State)
    requires Inv(s) && h !in Ever(s.tables) && Arrived(s, h, m, s2) && m.content.Aggregate? && Chooses(cfg.first)
    requires Handled(s2, h, m, now, cfg) == Ok(s')
    ensures Inv(s') && s'.tables == s2.tables
  {
    hide Posts.PostsOk, Files.HashTagsOk, Files.PinKeysOk, Vms.VolumesPinned, Consistent, PostsMatch, PinsMatch,
         VmsMatch;
    ElementArrives(s.tables.messages, s.aggs, h, m);
    OthersMatch(s.tables.messages, s, h, m);
  }

  lemma {:induction false} NewStore(s: State, h: Hash, m: Message, s2: State, now: Time, cfg: Config, s': State)
    requires Inv(s) && h !in Ever(s.tables) && Arrived(s, h, m, s2) && m.content.Store? && Chooses(cfg.first)
    requires Files.CheckDependencies(s.files, m.content).None? && Files.CheckPermissions(s.files, h, m).None?
    requires Handled(s2, h, m, now, cfg) == Ok(s')
    ensures Inv(s') && s'.tables == s2.tables
  {
    hide Posts.PostsOk, Aggregates.TablesOk, PinsInv, Consistent, PostsMatch, ElementsMatch, VmsMatch;
    PinArrives(s.tables.messages, s2.files, Ever(s.tables), h, m);
    OthersMatch(s.tables.messages, s, h, m);
  }

  lemma {:induction false} VmArrives(messages: Messages, vms: Vms.VmTable, h: Hash, m: Message, pins: set<Hash>)
    requires VmsMatch(messages, vms) && h !in messages && m.content.Vm?
    requires Vms.VolumesPinned(vms, pins) && Vms.FixedRefs(Vms.RowOf(m)) <= pins
    ensures VmsMatch(messages[h := m], vms[h := Vms.RowOf(m)]) && Vms.VolumesPinned(vms[h := Vms.RowOf(m)], pins)
  {
    hide Vms.FixedRefs;
  }

  lemma {:induction false} NewVm(s: State, h: Hash, m: Message, s2: State, now: Time, cfg: Config, s': State)
    requires Inv(s) && h !in Ever(s.tables) && Arrived(s, h, m, s2) && m.content.Vm? && Chooses(cfg.first)
    requires Vms.Missing(m.content.machine, m.content.volumes, s.files.messagePins.Keys, s.files.tags.Keys) == {}
    requires Handled(s2, h, m, now, cfg) == Ok(s')
    ensures Inv(s') && s'.tables == s2.tables
  {
    hide Posts.PostsOk, Aggregates.TablesOk, Files.HashTagsOk, Files.PinKeysOk, Consistent, PostsMatch, ElementsMatch,
         PinsMatch, VmsMatch, Vms.VolumesPinned, Vms.FixedRefs, Vms.Missing;
    Vms.AdmittedPinned(m, s.files.messagePins.Keys, s.files.tags.Keys);
    VmArrives(s.tables.messages, s.vms, h, m, s.files.messagePins.Keys);
    OthersMatch(s.tables.messages, s, h, m);
  }

  lemma {:induction false} ArrivedForgetInv(s: State, h: Hash, m: Message, s2: State)
    requires Inv(s) && h !in Ever(s.tables) && Arrived(s, h, m, s2) && m.content.Forget?
    ensures Inv(s2)
  {
    OthersMatch(s.tables.messages, s, h, m);
  }

  /** The balances after a message: a post from a balance address carries an update. */
  function BalancesAfter(t: Balances.BalanceTable, m: Message): Balances.BalanceTable {
    if UpdateIn(m).Some? then Balances.Applied(t, UpdateIn(m).value) else t
  }

  function UpdateIn(m: Message): Option<Balances.Update> {
    match m.content
    case Post(_, _, _, Balances(chain, dapp, height, amounts)) => Some(Balances.Update(chain, dapp, height, amounts))
    case _ => None
  }

  /** What a new message of any kind but FORGET leaves alone, and when it keeps an aggregate right. */
  ghost predicate Added(s: State, h: Hash, m: Message, s': State) {
    && s'.tables.messages == s.tables.messages[h := m] && s'.tables.forgotten == s.tables.forgotten
    && Files.HoldsKept(s.files, s'.files) && s'.balances == BalancesAfter(s.balances, m)
    && (forall id :: Aggregates.ArrivalFor(s.aggs, m, s'.aggs, id))
    && s.aggs.elements.Keys <= s'.aggs.elements.Keys
    && (Files.TagFilesPinned(s.files) ==> Files.TagFilesPinned(s'.files))
  }

  lemma {:induction false} HandledShape(s2: State, h: Hash, m: Message, now: Time, cfg: Config, s': State)
    requires !m.content.Forget? && Chooses(cfg.first) && Handled(s2, h, m, now, cfg) == Ok(s')
    ensures s'.balances == BalancesAfter(s2.balances, m)
    ensures if m.content.Aggregate? then Aggregates.Inserted(s2.aggs, h, m) == Ok(s'.aggs) else s'.aggs == s2.aggs
    ensures if m.content.Store? then Files.Pinned(s2.files, h, m) == Ok(s'.files) else s'.files == s2.files
  {
  }

  lemma {:induction false} NewAggregates(s: State, h: Hash, m: Message, s2: State, s': State)
    requires Aggregates.TablesOk(s.aggs) && ElementsMatch(s.tables.messages, s.aggs.elements) && h !in s.tables.messages
    requires s2.aggs == s.aggs
    requires if m.content.Aggregate? then Aggregates.Inserted(s2.aggs, h, m) == Ok(s'.aggs) else s'.aggs == s2.aggs
    ensures forall id :: Aggregates.ArrivalFor(s.aggs, m, s'.aggs, id)
    ensures s.aggs.elements.Keys <= s'.aggs.elements.Keys
  {
    if m.content.Aggregate? {
      forall id ensures Aggregates.ArrivalFor(s.aggs, m, s'.aggs, id) {
        Aggregates.InsertedFor(s.aggs, h, m, id);
      }
    }
  }

  lemma {:induction false} NewAdded(s: State, h: Hash, m: Message, s2: State, now: Time, cfg: Config, s': State)
    requires Inv(s) && h !in Ever(s.tables) && Arrived(s, h, m, s2) && !m.content.Forget? && Chooses(cfg.first)
    requires Handled(s2, h, m, now, cfg) == Ok(s') && s'.tables == s2.tables
    ensures Added(s, h, m, s')
  {
    hide Consistent, Posts.PostsOk, Aggregates.TablesOk, Files.HashTagsOk, Vms.VolumesPinned, PostsMatch, PinsMatch,
         VmsMatch, ElementsMatch, Aggregates.ArrivalFor, Aggregates.Inserted, Files.TagFilesPinned, Handled,
         BalancesAfter;
    HandledShape(s2, h, m, now, cfg, s');
    NewAggregates(s, h, m, s2, s');
    if Files.TagFilesPinned(s.files) {
      TagsStayHeld(s.files, s2.files);
      if m.content.Store? {
        Files.PinnedKeys(s2.files, h, m);
      }
    }
  }

  // ----- a new FORGET

  lemma {:induction false} ElementsSame(s: State, s2: State, owner: Address, keys: seq<string>, first: RowChoice)
    requires Chooses(first) && s2.aggs == s.aggs
    ensures ElementsOf(s2, owner, keys, first) == ElementsOf(s, owner, keys, first)
  {
    if keys != [] {
      ElementsSame(s, s2, owner, keys[1..], first);
    }
  }

  lemma {:induction false} SinceStart(s: State, h: Hash, m: Message, s2: State, targets: seq<Hash>, deadline: Time)
    requires Arrived(s, h, m, s2)
    ensures Since(s, targets, m.sender, h, deadline, s2)
  {
    hide Aggregates.AggsLeft, Files.TagFilesPinned, Files.ClashFree, Consistent, PinsInv;
    Aggregates.AggsLeftSelf(s.aggs);
    if Files.TagsHeld(s.files) {
      TagsStayHeld(s.files, s2.files);
    }
  }

  lemma {:induction false} AllDue(s: State, h: Hash, m: Message, cfg: Config)
    requires Inv(s) && h !in Ever(s.tables) && m.content.Forget? && Chooses(cfg.first)
    requires CheckForget(s, m).None? && CheckTargets(s.tables, m.sender, Targets(s, m, cfg.first)).None?
    ensures var targets := Targets(s, m, cfg.first);
            forall k :: k in targets ==> k in s.tables.messages && Due(s, s.vms, targets, m.sender, h, k)
  {
    hide Inv, Unused, CheckForget, CheckTarget, Targets;
    TargetsUnused(s, m, cfg.first);
    CheckTargetsAll(s.tables, m.sender, Targets(s, m, cfg.first));
  }

  lemma {:induction false} NewForget(s: State, h: Hash, m: Message, s2: State, now: Time, cfg: Config, s': State)
    requires Inv(s) && h !in Ever(s.tables) && Arrived(s, h, m, s2) && m.content.Forget? && Chooses(cfg.first)
    requires CheckForget(s, m).None? && CheckTargets(s.tables, m.sender, Targets(s, m, cfg.first)).None?
    requires Handled(s2, h, m, now, cfg) == Ok(s')
    ensures Inv(s') && Ever(s'.tables) == Ever(s.tables) + {h} && h in s'.tables.messages
    ensures Fewer(s2.tables, s'.tables) && SamePins(s2.files, s'.files)
    ensures forall k :: k in Targets(s, m, cfg.first) ==> k in s.tables.messages && ForgottenBy(s'.tables, k, h)
    ensures Since(s, Targets(s, m, cfg.first), m.sender, h, now + cfg.grace, s')
  {
    hide Inv, Consistent, PinsInv, Since, Fewer, ForgottenBy, ContentAdded, Due, AllForgotten, CheckForget,
         CheckTargets;
    var targets := Targets(s, m, cfg.first);
    ArrivedForgetInv(s, h, m, s2);
    ElementsSame(s, s2, m.address, m.content.aggregates, cfg.first);
    SinceStart(s, h, m, s2, targets, now + cfg.grace);
    AllDue(s, h, m, cfg);
    AllForgottenInv(s, s2, targets, targets, m.sender, h, now, cfg, s');
  }

  // ----- one processed message

  /** All targets were live and are forgotten by it, and whatever else is has a reason. */
  ghost predicate ForgetEffect(s: State, h: Hash, m: Message, now: Time, cfg: Config, s': State)
    requires Chooses(cfg.first) && m.content.Forget?
  {
    && Since(s, Targets(s, m, cfg.first), m.sender, h, now + cfg.grace, s')
    && forall k :: k in Targets(s, m, cfg.first) ==> k in s.tables.messages && ForgottenBy(s'.tables, k, h)
  }

  /** The effect of processing a new message: it is processed if it was pending. */
  ghost predicate Effect(s: State, h: Hash, m: Message, now: Time, cfg: Config, s': State)
    requires Chooses(cfg.first)
  {
    && Ever(s'.tables) == Ever(s.tables) + {h} && h in s'.tables.messages && s'.tables.messages[h] == m
    && h in s.tables.status && (IsProcessed(s'.tables, h) <==> s.tables.status[h] == Pending)
       && StatusKept(s.tables, s'.tables)
    && if m.content.Forget? then ForgetEffect(s, h, m, now, cfg, s') else Added(s, h, m, s')
  }

  lemma {:induction false} ArrivedStatus(s: State, h: Hash, m: Message, s2: State, s': State)
    requires Arrived(s, h, m, s2) && h !in s.tables.messages && h in s'.tables.messages
    requires Fewer(s2.tables, s'.tables)
    ensures h in s.tables.status && (IsProcessed(s'.tables, h) <==> s.tables.status[h] == Pending)
    ensures StatusKept(s.tables, s'.tables)
  {
    hide Consistent, PinsInv, ContentAdded;
    forall k | k in s.tables.messages && k in s'.tables.messages
      ensures IsProcessed(s'.tables, k) <==> IsProcessed(s.tables, k)
    {
      assert IsProcessed(s2.tables, k) <==> IsProcessed(s.tables, k);
    }
  }

  lemma {:induction false} NewEffect(s: State, h: Hash, m: Message, s2: State, now: Time, cfg: Config, s': State)
    requires Inv(s) && h !in Ever(s.tables) && Arrived(s, h, m, s2) && Chooses(cfg.first)
    requires CheckDependencies(s, m).None? && CheckPermissions(s, h, m, cfg.first).None?
    requires Handled(s2, h, m, now, cfg) == Ok(s')
    ensures Inv(s') && Effect(s, h, m, now, cfg, s') && Fewer(s2.tables, s'.tables) && SamePins(s2.files, s'.files)
  {
    hide Inv, Consistent, PinsInv, ContentAdded, Added, Since, Handled, StatusKept, Fewer;
    match m.content {
      case Post(_, _, _, _) => NewPost(s, h, m, s2, now, cfg, s'); NewAdded(s, h, m, s2, now, cfg, s');
      case Aggregate(_, _) => NewElement(s, h, m, s2, now, cfg, s'); NewAdded(s, h, m, s2, now, cfg, s');
      case Store(_, _, _) => NewStore(s, h, m, s2, now, cfg, s'); NewAdded(s, h, m, s2, now, cfg, s');
      case Vm(_, _) => NewVm(s, h, m, s2, now, cfg, s'); NewAdded(s, h, m, s2, now, cfg, s');
      case Forget(_, _) => NewForget(s, h, m, s2, now, cfg, s');
    }
    if !m.content.Forget? {
      FewerSelf(s2.tables);
      HandledPins(s2, h, m, now, cfg, s');
    }
    ArrivedStatus(s, h, m, s2, s');
    FewerRow(s2.tables, s'.tables, h);
  }

  lemma {:induction false} FewerRow(t: Tables, t': Tables, h: Hash)
    requires Fewer(t, t') && h in t'.messages
    ensures h in t.messages && t'.messages[h] == t.messages[h]
  {
  }

  lemma {:induction false} HandledPins(s2: State, h: Hash, m: Message, now: Time, cfg: Config, s': State)
    requires !m.content.Forget? && Chooses(cfg.first) && Handled(s2, h, m, now, cfg) == Ok(s')
    ensures SamePins(s2.files, s'.files)
  {
    HandledShape(s2, h, m, now, cfg, s');
  }

  /** The rows of a processed message itself: its pending row is gone, its own transaction confirms it, and a content
      that is not part of the message is pinned as a file of its sender. */
  ghost predicate Booked(s: State, id: nat, h: Hash, m: Message, s': State)
    requires id in s.tables.pending
  {
    var tx, f := s.tables.pending[id].tx, s.files;
    && s'.tables.pending == s.tables.pending - {id} && s'.tables.rejected == s.tables.rejected
    && (forall c :: c in s'.tables.confirmations <==>
                    (c in s.tables.confirmations || (c.hash == h && tx == Some(c.tx))) && c.hash in s'.tables.messages)
    && s'.files.contentPins ==
       (if m.inline then f.contentPins else f.contentPins[h := Files.ContentPin(h, m.sender, m.time)])
    && s'.files.txPins == f.txPins
  }

  lemma {:induction false} InsertedBooked(s: State, id: nat, h: Hash, m: Message, s2: State, s': State)
    requires id in s.tables.pending && Inserted(s, id, h, m) == Ok(s2)
    requires Fewer(s2.tables, s'.tables) && SamePins(s2.files, s'.files)
    ensures Booked(s, id, h, m, s')
  {
    hide StatusKept, ForgottenKept;
  }

  lemma {:induction false} FetchedSame(s: State, m: Message, cfg: Config)
    ensures var s1 := Fetched(s, m, cfg); s1 == s.(files := s1.files) && ContentAdded(s.files, s1.files)
    ensures m.content.Forget? ==> Fetched(s, m, cfg) == s
  {
  }

  lemma {:induction false} FetchedPins(s: State, m: Message, cfg: Config)
    ensures Fetched(s, m, cfg).tables == s.tables && SamePins(s.files, Fetched(s, m, cfg).files)
  {
  }

  /** What is seen after fetching the file of a STORE holds of the state before. */
  lemma {:induction false} FetchedEffect(s: State, h: Hash, m: Message, now: Time, cfg: Config, s': State)
    requires Chooses(cfg.first) && Effect(Fetched(s, m, cfg), h, m, now, cfg, s')
    ensures Effect(s, h, m, now, cfg, s')
  {
    hide Aggregates.ArrivalFor, Files.TagFilesPinned, ForgetEffect, StatusKept;
    FetchedSame(s, m, cfg);
    if Files.TagFilesPinned(s.files) {
      TagsStayHeld(s.files, Fetched(s, m, cfg).files);
    }
  }

  lemma {:induction false} ProcessedNewInv(s: State, id: nat, h: Hash, m: Message, o: Outcome, cfg: Config, s': State)
    requires Inv(s) && id in s.tables.pending && s.tables.pending[id].hash == h && h !in Ever(s.tables)
             && Chooses(cfg.first)
    requires ProcessedNew(s, id, h, m, o, cfg) == Ok(s')
    ensures Inv(s') && Effect(s, h, m, o.now, cfg, s') && Booked(s, id, h, m, s')
  {
    hide Inv, Effect, Handled, Arrived, CheckDependencies, CheckPermissions, Inserted, Fetched, Fewer;
    var s1 := Fetched(s, m, cfg);
    FetchedInv(s, m, cfg);
    InsertedShape(s1, id, h, m);
    NewEffect(s1, h, m, Inserted(s1, id, h, m).value, o.now, cfg, s');
    InsertedBooked(s1, id, h, m, Inserted(s1, id, h, m).value, s');
    FetchedEffect(s, h, m, o.now, cfg, s');
    FetchedPins(s, m, cfg);
  }

  // ----- every step

  /** Nothing but bookkeeping changed: the messages and everything derived from them are the same. */
  ghost predicate Quiet(s: State, s': State) {
    && s'.tables.messages == s.tables.messages && s'.tables.forgotten == s.tables.forgotten
       && StatusKept(s.tables, s'.tables)
    && s'.posts == s.posts && s'.aggs == s.aggs && s'.vms == s.vms && s'.balances == s.balances
    && s'.files.messagePins == s.files.messagePins && s'.files.tags == s.files.tags
  }

  /** The step runs the content handler of the message `h`, and the transaction commits. */
  predicate Applies(s: State, step: Step, cfg: Config, h: Hash)
    requires Chooses(cfg.first)
  {
    && step.Process? && step.id in s.tables.pending && s.tables.pending[step.id].hash == h && h !in Ever(s.tables)
    && Attempted(s, step.id, step.outcome, cfg).Ok?
  }

  function AppliedMessage(s: State, step: Step, cfg: Config, h: Hash): Message
    requires Chooses(cfg.first) && Applies(s, step, cfg, h)
  {
    MessageOf(s.tables.pending[step.id], step.outcome.fetch.value)
  }

  lemma {:induction false} TablesOnlyInv(s: State, t: Tables)
    requires Inv(s) && Consistent(t) && t.messages == s.tables.messages && t.forgotten.Keys == s.tables.forgotten.Keys
    ensures Inv(s.(tables := t))
  {
    hide Consistent, PostsMatch, ElementsMatch, PinsMatch, VmsMatch, Posts.PostsOk, Aggregates.TablesOk, FilesInv,
         Vms.VolumesPinned;
    assert Ever(t) == Ever(s.tables);
  }

  lemma {:induction false} FilesOnlyInv(s: State, f: Files.FileTables)
    requires Inv(s) && FilesInv(f, Ever(s.tables)) && f.messagePins == s.files.messagePins
    ensures Inv(s.(files := f))
  {
    hide Consistent, PostsMatch, ElementsMatch, PinsMatch, VmsMatch, Posts.PostsOk, Aggregates.TablesOk, FilesInv,
         Vms.VolumesPinned;
  }

  lemma {:induction false} CollectInv(f: Files.FileTables, ever: set<Hash>, d: Time, deleted: set<Hash>)
    requires FilesInv(f, ever) && CollectionOk(f, d, deleted)
    ensures FilesInv(Files.Expired(f, d).(files := f.files - deleted), ever)
  {
    var t1 := Files.Expired(f, d);
    var f' := t1.(files := f.files - deleted);
    forall tag | Files.IsHashTag(tag) ensures Files.TagOk(f', tag) {
      assert Files.TagOk(f, tag);
    }
    CollectPinKeys(f, d, deleted);
  }

  lemma {:induction false} CollectPinKeys(f: Files.FileTables, d: Time, deleted: set<Hash>)
    requires Files.PinKeysOk(f) && deleted <= Files.Unpinned(Files.Expired(f, d))
    ensures Files.PinKeysOk(Files.Expired(f, d).(files := f.files - deleted))
  {
    var t1 := Files.Expired(f, d);
    forall file | file in deleted ensures !Files.IsPinned(t1, file) { }
  }

  /** Everything but the processing of a new message. */
  lemma {:induction false} QuietStep(s: State, step: Step, cfg: Config)
    requires Inv(s) && Chooses(cfg.first) && Enabled(s, step) && !step.Process?
    ensures Inv(Next(s, step, cfg)) && Quiet(s, Next(s, step, cfg))
  {
    hide Inv, Consistent, FilesInv, IsItemHash, CollectionOk, Submitted, ErrorHandled;
    assert Consistent(s.tables) && FilesInv(s.files, Ever(s.tables)) by { InvParts(s); }
    var s' := Next(s, step, cfg);
    match step
    case Submit(id, row) =>
      SubmittedConsistent(s.tables, id, row);
      TablesOnlyInv(s, s'.tables);
    case Refuse(h, e) =>
      if h.Some? {
        RejectedConsistent(s.tables, h.value, e);
      }
      TablesOnlyInv(s, s'.tables);
    case FetchDone(id, file) =>
      RefetchConsistent(s.tables, id, true);
      TablesOnlyInv(s, s'.tables);
      if file.Some? {
        MoreFilesOk(s.files, {file.value}, {}, Ever(s.tables));
        assert s.files.txPins + {} == s.files.txPins;
      }
      FilesOnlyInv(s.(tables := s'.tables), s'.files);
    case FetchFailed(id, e, giveUp) =>
      ErrorHandledConsistent(s.tables, id, e, giveUp);
      TablesOnlyInv(s, s'.tables);
    case PinTx(pin) =>
      MoreFilesOk(s.files, {pin.file}, {pin}, Ever(s.tables));
      FilesOnlyInv(s, s'.files);
    case Collect(d, deleted) =>
      CollectInv(s.files, Ever(s.tables), d, deleted);
      FilesOnlyInv(s, s'.files);
  }

  lemma {:induction false} InvParts(s: State)
    requires Inv(s)
    ensures Consistent(s.tables) && FilesInv(s.files, Ever(s.tables))
            && s.tables.messages.Keys !! s.tables.forgotten.Keys
  {
    ConsistentDisjoint(s.tables);
  }

  /** An attempt that fails is rolled back and leaves only the handling of its error. */
  lemma {:induction false} FailedAttempt(s: State, id: nat, e: ProcessingError, giveUp: bool)
    requires Inv(s) && id in s.tables.pending
    ensures var s' := s.(tables := ErrorHandled(s.tables, id, e, giveUp)); Inv(s') && Quiet(s, s')
  {
    hide Inv, Consistent, ErrorHandled;
    InvParts(s);
    ErrorHandledConsistent(s.tables, id, e, giveUp);
    TablesOnlyInv(s, ErrorHandled(s.tables, id, e, giveUp));
  }

  /** A copy of a live message adds a confirmation at most, and a copy of a forgotten one is dropped. */
  lemma {:induction false} KnownAttempt(s: State, id: nat, o: Outcome, cfg: Config, s': State)
    requires Inv(s) && Chooses(cfg.first) && id in s.tables.pending && s.tables.pending[id].hash in Ever(s.tables)
    requires Attempted(s, id, o, cfg) == Ok(s')
    ensures Inv(s') && Quiet(s, s')
  {
    hide Inv, Consistent, FilesInv, ProcessedNew;
    InvParts(s);
    var row := s.tables.pending[id];
    WithoutPendingConsistent(s.tables, id);
    if row.hash in s.tables.messages {
      ConfirmedConsistent(WithoutPending(s.tables, id), row.hash, row.tx);
    }
    TablesOnlyInv(s, s'.tables);
  }

  /** Every step keeps the invariant.  It either runs the handler of one message that was never processed before, with
      the effect stated above, or leaves messages and derived tables as they are. */
  lemma {:induction false} NextInv(s: State, step: Step, cfg: Config)
    requires Inv(s) && Chooses(cfg.first) && Enabled(s, step)
    ensures Inv(Next(s, step, cfg))
    ensures forall h :: Applies(s, step, cfg, h) ==>
              Effect(s, h, AppliedMessage(s, step, cfg, h), step.outcome.now, cfg, Next(s, step, cfg))
                && Booked(s, step.id, h, AppliedMessage(s, step, cfg, h), Next(s, step, cfg))
    ensures (forall h :: !Applies(s, step, cfg, h)) ==> Quiet(s, Next(s, step, cfg))
  {
    hide Inv, Effect, Quiet, ProcessedNew, Booked;
    if step.Process? {
      var h := s.tables.pending[step.id].hash;
      if Applies(s, step, cfg, h) {
        ProcessedNewInv(s, step.id, h, AppliedMessage(s, step, cfg, h), step.outcome, cfg, Next(s, step, cfg));
      } else if Attempted(s, step.id, step.outcome, cfg).Ok? {
        KnownAttempt(s, step.id, step.outcome, cfg, Next(s, step, cfg));
      } else {
        FailedAttempt(s, step.id, Attempted(s, step.id, step.outcome, cfg).error, step.outcome.giveUp);
      }
    } else {
      QuietStep(s, step, cfg);
    }
  }

  /** Apart from collections, no step drops a file or a pin other than a message pin. */
  lemma {:induction false} StepHolds(s: State, step: Step, cfg: Config)
    requires Inv(s) && Chooses(cfg.first) && Enabled(s, step) && !step.Collect?
    ensures Files.HoldsKept(s.files, Next(s, step, cfg).files)
  {
    hide Inv, ProcessedNew, Aggregates.ArrivalFor, Aggregates.AggsLeft, Files.TagsHeld, ForgottenKept, ForgottenFor,
         Justified;
    NextInv(s, step, cfg);
    if step.Process? {
      var h := s.tables.pending[step.id].hash;
      if Applies(s, step, cfg, h) {
        assert Effect(s, h, AppliedMessage(s, step, cfg, h), step.outcome.now, cfg, Next(s, step, cfg));
      }
    }
  }

  /** A file held until a deadline stays held through collections up to it. */
  lemma {:induction false} StepHeld(s: State, step: Step, cfg: Config, file: Hash, deadline: Time)
    requires Inv(s) && Chooses(cfg.first) && Enabled(s, step) && (step.Collect? ==> step.time <= deadline)
    requires Files.HeldUntil(s.files, file, deadline)
    ensures Files.HeldUntil(Next(s, step, cfg).files, file, deadline)
  {
    hide Inv;
    if !step.Collect? {
      StepHolds(s, step, cfg);
      Files.HeldKept(s.files, Next(s, step, cfg).files, file, deadline);
    }
  }
}
