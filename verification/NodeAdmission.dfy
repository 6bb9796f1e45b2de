/** When a new message is accepted and with which error it fails, told from the live messages alone; what a FORGET may
    name; and what accepted messages leave behind for good. */
module NodeAdmission {
  import opened Wrappers
  import opened Records
  import opened Lifecycle
  import opened Node
  import opened NodeInvariant
  import opened NodeForget
  import opened NodeSteps
  import opened NodeRuns
  import opened NodeOrigins
  import Posts
  import Aggregates
  import Files
  import Vms
  import Balances

  // ----- any kind but FORGET

  predicate LivePost(t: Tables, h: Hash) {
    h in t.messages && t.messages[h].content.Post?
  }

  predicate LiveStore(t: Tables, h: Hash) {
    h in t.messages && t.messages[h].content.Store?
  }

  /** A volume is there: as a tag if the latest version will do, as a live STORE otherwise. */
  predicate VolumeThere(s: State, r: VolumeRef) {
    if r.useLatest then r.ref in s.files.tags else LiveStore(s.tables, r.ref)
  }

  /** What a message of any kind but FORGET lacks: an amend needs a live post that is no amend, a STORE with an item
      hash for a reference needs a live STORE without one, and a machine needs its volumes. */
  ghost function Lacks(s: State, c: Content): Option<ProcessingError>
    requires !c.Forget?
  {
    var messages := s.tables.messages;
    match c
    case Post(postType, ref, _, _) =>
      if postType != "amend" then None
      else if ref.NoRef? then Some(NoAmendTarget)
      else if !LivePost(s.tables, ref.hash) then Some(AmendTargetNotFound)
      else if messages[ref.hash].content.postType == "amend" then Some(CannotAmendAmend)
      else None
    case Aggregate(_, _) => None
    case Store(_, _, ref) =>
      if ref.None? || !IsItemHash(ref.value) then None
      else if !LiveStore(s.tables, ref.value) then Some(StoreRefNotFound)
      else if messages[ref.value].content.ref.Some? then Some(StoreUpdatesRevision)
      else None
    case Vm(machine, volumes) =>
      if forall r :: Vms.Refers(machine, volumes, r) ==> VolumeThere(s, r) then None else Some(VmVolumeNotFound)
  }

  /** A STORE must not move a tag of another owner.  Its tag is the item hash it refers to, or a name of its own. */
  function Trespasses(s: State, address: Address, c: Content): Option<ProcessingError> {
    if !c.Store? || c.ref.None? then None
    else
      var tag := if IsItemHash(c.ref.value) then c.ref.value else address + "/" + c.ref.value;
      if tag in s.files.tags && s.files.tags[tag].owner != address then Some(PermissionDenied) else None
  }

  /** What the handler itself finds: balances without a required field, or a file that the database does not know. */
  function Fails(s: State, h: Hash, b: Body, cfg: Config): Option<ProcessingError> {
    if b.content.Post? && b.content.balances.Malformed? then Some(InvalidFormat)
    else if b.content.Store? && !cfg.storesFiles && b.content.file !in s.files.files
            && (b.inline || b.content.file != h) then Some(Database)
    else None
  }

  /** The first thing wrong with a new message, in the order of the checks. */
  ghost function FirstError(s: State, h: Hash, b: Body, verdict: Option<ProcessingError>, cfg: Config)
      : Option<ProcessingError>
    requires !b.content.Forget?
  {
    if Lacks(s, b.content).Some? then Lacks(s, b.content)
    else if Trespasses(s, b.address, b.content).Some? then Trespasses(s, b.address, b.content)
    else if verdict.Some? then verdict
    else Fails(s, h, b, cfg)
  }

  lemma {:induction false} LacksMeans(s: State, m: Message)
    requires Matches(s) && !m.content.Forget?
    ensures CheckDependencies(s, m) == Lacks(s, m.content)
  {
    match m.content
    case Post(_, ref, _, _) =>
      if !ref.NoRef? && ref.hash in s.posts {
        assert s.posts[ref.hash].(latestAmend := None) == Posts.RowOf(s.tables.messages[ref.hash]);
      }
    case Vm(machine, volumes) => VolumesMean(s, machine, volumes);
    case _ =>
  }

  lemma {:induction false} VolumesMean(s: State, machine: Machine, volumes: seq<Volume>)
    requires PinsMatch(s.tables.messages, s.files.messagePins)
    ensures Vms.Missing(machine, volumes, s.files.messagePins.Keys, s.files.tags.Keys) == {} <==>
            forall r :: Vms.Refers(machine, volumes, r) ==> VolumeThere(s, r)
  {
    hide Vms.Missing, Vms.Refers;
    var pins, tags := s.files.messagePins.Keys, s.files.tags.Keys;
    var missing := Vms.Missing(machine, volumes, pins, tags);
    forall r | Vms.Refers(machine, volumes, r) && !VolumeThere(s, r) ensures r.ref in missing {
      assert !Vms.Available(r, pins, tags);
      Vms.MissingIff(machine, volumes, pins, tags, r.ref);
    }
    if h :| h in missing {
      Vms.MissingIff(machine, volumes, pins, tags, h);
      var r :| Vms.Refers(machine, volumes, r) && r.ref == h && !Vms.Available(r, pins, tags);
      assert !VolumeThere(s, r);
    }
  }

  lemma {:induction false} FetchedLacks(s: State, m: Message, cfg: Config)
    requires Matches(s) && !m.content.Forget? && Chooses(cfg.first)
    ensures CheckDependencies(Fetched(s, m, cfg), m) == Lacks(s, m.content)
    ensures forall h :: CheckPermissions(Fetched(s, m, cfg), h, m, cfg.first) == Trespasses(s, m.address, m.content)
  {
    hide Lacks;
    LacksMeans(s, m);
  }

  lemma {:induction false} HandlerFails(s: State, id: nat, h: Hash, m: Message, b: Body, now: Time, cfg: Config)
    requires Inv(s) && id in s.tables.pending && s.tables.pending[id].hash == h && h !in Ever(s.tables)
    requires Chooses(cfg.first) && !b.content.Forget? && CheckDependencies(s, m).None?
    requires m.inline == b.inline && m.content == b.content
    ensures var s1 := Fetched(s, m, cfg);
            && Inserted(s1, id, h, m).Ok?
            && var r := Handled(Inserted(s1, id, h, m).value, h, m, now, cfg);
               (r.Ok? <==> Fails(s, h, b, cfg).None?) && (r.Err? ==> Some(r.error) == Fails(s, h, b, cfg))
  {
    hide Consistent, Posts.PostsOk, Aggregates.TablesOk, Vms.VolumesPinned, PinsInv, PostsMatch, ElementsMatch,
         PinsMatch, VmsMatch, MessageInserted, Posts.Inserted, Aggregates.Inserted, Balances.Applied, Files.TagUpserted;
    assert h !in s.posts && h !in s.vms && h !in s.files.messagePins && h !in s.files.contentPins by {
      NotDerived(s, h);
    }
    if m.content.Aggregate? {
      ElementArrives(s.tables.messages, s.aggs, h, m);
    }
  }

  lemma {:induction false} NotDerived(s: State, h: Hash)
    requires Inv(s) && h !in Ever(s.tables)
    ensures h !in s.posts && h !in s.vms && h !in s.files.messagePins && h !in s.files.contentPins
  {
  }

  /** A message that was never processed, of any kind but FORGET, is accepted if and only if nothing is wrong with it,
      and otherwise fails with the first thing that is. */
  lemma {:induction false} AdmissionExact(s: State, id: nat, o: Outcome, cfg: Config)
    requires Inv(s) && Chooses(cfg.first) && id in s.tables.pending && s.tables.pending[id].hash !in Ever(s.tables)
    requires o.fetch.Ok? && !o.fetch.value.content.Forget?
    ensures var r := Attempted(s, id, o, cfg);
            var e := FirstError(s, s.tables.pending[id].hash, o.fetch.value, o.verdict, cfg);
            (r.Ok? <==> e.None?) && (r.Err? ==> Some(r.error) == e)
  {
    hide Inv, Handled, Inserted, Lacks, Trespasses, Fails, CheckDependencies, CheckPermissions, Fetched;
    var p, b := s.tables.pending[id], o.fetch.value;
    var m := MessageOf(p, b);
    MatchesOf(s);
    FetchedLacks(s, m, cfg);
    if CheckDependencies(s, m).None? {
      HandlerFails(s, id, p.hash, m, b, o.now, cfg);
    }
    LacksMeans(s, m);
  }

  /** A STORE that refers to another by hash is refused unless both have the same owner. */
  lemma {:induction false} RevisionOwner(s: State, address: Address, c: Content, r: Hash)
    requires Inv(s) && c.Store? && c.ref == Some(r) && Files.IsHashTag(r) && Lacks(s, c).None?
    ensures Trespasses(s, address, c).Some? <==> s.tables.messages[r].address != address
  {
    hide Consistent, PostsMatch, ElementsMatch, VmsMatch, Posts.PostsOk, Aggregates.TablesOk, Files.RefsKnown,
         Files.PinKeysOk, Vms.VolumesPinned;
    assert r in Files.PinsOf(s.files.messagePins, r);
    assert Files.TagOk(s.files, r);
  }

  // ----- FORGETs

  /** A live machine uses the volume, in whatever version. */
  ghost predicate InUse(t: Tables, volume: Hash) {
    exists v :: v in t.messages && t.messages[v].content.Vm?
                && Vms.Holds(Vms.VmRow(t.messages[v].address, t.messages[v].content.machine,
                                       t.messages[v].content.volumes), volume)
  }

  lemma {:induction false} CheckHashesIff(s: State, hashes: seq<Hash>)
    requires VmsMatch(s.tables.messages, s.vms)
    ensures CheckHashes(s, hashes).None? <==>
            forall h :: h in hashes ==> h in s.tables.messages && !InUse(s.tables, h)
  {
    if hashes != [] {
      CheckHashesIff(s, hashes[1..]);
      InUseMeans(s, hashes[0]);
      assert forall h :: h in hashes <==> h == hashes[0] || h in hashes[1..];
    }
  }

  lemma {:induction false} InUseMeans(s: State, volume: Hash)
    requires VmsMatch(s.tables.messages, s.vms)
    ensures Vms.CheckVolume(s.vms, volume).Some? <==> InUse(s.tables, volume)
  {
    hide Vms.Holds, Vms.CheckVolume;
    Vms.RefusedIffHeld(s.vms, volume);
    if v :| v in s.vms && Vms.Holds(s.vms[v], volume) {
      assert v in s.tables.messages && s.tables.messages[v].content.Vm?;
    }
  }

  lemma {:induction false} CheckKeysIff(s: State, owner: Address, keys: seq<string>)
    ensures CheckKeys(s, owner, keys).None? <==>
            forall key :: key in keys ==> Aggregates.AggKey(key, owner) in s.aggs.rows
    ensures CheckKeys(s, owner, keys).Some? ==> CheckKeys(s, owner, keys).value == ForgetTargetNotFound
  {
    if keys != [] {
      CheckKeysIff(s, owner, keys[1..]);
      assert forall key :: key in keys <==> key == keys[0] || key in keys[1..];
    }
  }

  /** A FORGET passes its first check if and only if it names something, every hash it names is that of a live message
      that no live machine uses, and every aggregate it names exists. */
  lemma {:induction false} ForgetNamesIff(s: State, m: Message)
    requires Inv(s) && m.content.Forget?
    ensures CheckDependencies(s, m).None? <==>
            && (m.content.hashes != [] || m.content.aggregates != [])
            && (forall h :: h in m.content.hashes ==> h in s.tables.messages && !InUse(s.tables, h))
            && (forall key :: key in m.content.aggregates ==> Aggregates.AggKey(key, m.address) in s.aggs.rows)
    ensures CheckDependencies(s, m) == Some(NoForgetTarget) <==> m.content.hashes == [] && m.content.aggregates == []
  {
    hide Consistent, Posts.PostsOk, Aggregates.TablesOk, FilesInv, Vms.VolumesPinned, PostsMatch, ElementsMatch,
         PinsMatch, InUse;
    CheckHashesIff(s, m.content.hashes);
    CheckHashesErrors(s, m.content.hashes);
    CheckKeysIff(s, m.address, m.content.aggregates);
  }

  /** The first bad hash of a FORGET decides its error: one that is not live may yet arrive, one that a machine uses is
      refused. */
  lemma {:induction false} FirstBadHash(s: State, m: Message, i: nat)
    requires Inv(s) && m.content.Forget? && i < |m.content.hashes|
    requires forall h :: h in m.content.hashes[..i] ==> h in s.tables.messages && !InUse(s.tables, h)
    requires m.content.hashes[i] !in s.tables.messages || InUse(s.tables, m.content.hashes[i])
    ensures CheckDependencies(s, m) ==
            if m.content.hashes[i] !in s.tables.messages then Some(ForgetTargetNotFound)
            else Vms.CheckVolume(s.vms, m.content.hashes[i])
  {
    hide Consistent, Posts.PostsOk, Aggregates.TablesOk, FilesInv, Vms.VolumesPinned, PostsMatch, ElementsMatch,
         PinsMatch, VmsMatch, InUse, Vms.CheckVolume;
    HashesUpTo(s, m.content.hashes, i);
  }

  lemma {:induction false} HashesUpTo(s: State, hashes: seq<Hash>, i: nat)
    requires VmsMatch(s.tables.messages, s.vms) && i < |hashes|
    requires forall h :: h in hashes[..i] ==> h in s.tables.messages && !InUse(s.tables, h)
    requires hashes[i] !in s.tables.messages || InUse(s.tables, hashes[i])
    ensures CheckHashes(s, hashes) == if hashes[i] !in s.tables.messages then Some(ForgetTargetNotFound)
                                      else Vms.CheckVolume(s.vms, hashes[i])
    ensures CheckHashes(s, hashes).Some?
  {
    hide InUse, Vms.CheckVolume, VmsMatch;
    InUseMeans(s, hashes[0]);
    if i > 0 {
      assert hashes[0] in hashes[..i];
      assert forall h :: h in hashes[1..][..i - 1] ==> h in hashes[..i];
      HashesUpTo(s, hashes[1..], i - 1);
    }
  }

  lemma {:induction false} CheckHashesErrors(s: State, hashes: seq<Hash>)
    ensures CheckHashes(s, hashes) != Some(NoForgetTarget)
  {
    if hashes != [] {
      CheckHashesErrors(s, hashes[1..]);
    }
  }

  /** What the second check says of one live message: it may be forgotten by its own sender, unless it is a FORGET; one
      whose hash is pending again is not found, and one whose hash was rejected is left to the loop. */
  lemma {:induction false} TargetCheck(t: Tables, sender: Address, h: Hash)
    requires Consistent(t) && h in t.messages
    ensures h in t.status && t.status[h] != Forgotten
    ensures CheckTarget(t, sender, h) ==
            match t.status[h]
            case Processed =>
              if t.messages[h].content.Forget? then Some(CannotForgetForget)
              else if t.messages[h].sender != sender then Some(PermissionDenied)
              else None
            case Pending => Some(ForgetTargetNotFound)
            case _ => None
  {
    assert StatusOk(t, h);
  }

  lemma {:induction false} CheckTargetsIff(t: Tables, sender: Address, targets: seq<Hash>)
    ensures CheckTargets(t, sender, targets).None? <==> forall h :: h in targets ==> CheckTarget(t, sender, h).None?
  {
    if targets != [] {
      CheckTargetsIff(t, sender, targets[1..]);
      assert forall h :: h in targets <==> h == targets[0] || h in targets[1..];
    }
  }

  /** A live message that the FORGET of that sender may name. */
  predicate Forgettable(t: Tables, sender: Address, h: Hash)
    requires h in t.messages && h in t.status
  {
    || t.status[h] == Rejected
    || (t.status[h] == Processed && t.messages[h].sender == sender && !t.messages[h].content.Forget?)
  }

  /** Once it has passed the first check, a FORGET passes the second if and only if every live message it names may be
      forgotten by its sender. */
  lemma {:induction false} ForgetPermittedIff(s: State, g: Hash, row: PendingRow, b: Body, cfg: Config)
    requires Inv(s) && Chooses(cfg.first) && b.content.Forget? && CheckDependencies(s, MessageOf(row, b)).None?
    ensures CheckPermissions(s, g, MessageOf(row, b), cfg.first).None? <==>
            forall h :: h in s.tables.messages && Selects(b, h, s.tables.messages[h]) ==>
              h in s.tables.status && Forgettable(s.tables, row.sender, h)
  {
    hide Posts.PostsOk, Aggregates.TablesOk, FilesInv, Vms.VolumesPinned, PostsMatch, ElementsMatch, PinsMatch,
         VmsMatch, Targets, Selects, CheckForget, CheckTarget, Unused;
    var m, t := MessageOf(row, b), s.tables;
    CheckTargetsIff(t, m.sender, Targets(s, m, cfg.first));
    TargetsUnused(s, m, cfg.first);
    forall h | h in t.messages
      ensures h in Targets(s, m, cfg.first) <==> Selects(b, h, t.messages[h])
      ensures h in t.status && (CheckTarget(t, m.sender, h).None? <==> Forgettable(t, row.sender, h))
    {
      TargetsSelected(s, row, b, cfg, h);
      LiveHasStatus(t, h);
      TargetCheck(t, m.sender, h);
    }
  }

  /** Two different newest elements would be left of the aggregate. */
  ghost predicate ElementsTie(t: Tables, h: Hash, key: string, owner: Address) {
    exists x, y :: x != y && NewestElement(t, h, key, owner, x) && NewestElement(t, h, key, owner, y)
  }

  predicate ElementBut(t: Tables, h: Hash, key: string, owner: Address, x: Hash) {
    && x != h && x in t.messages && t.messages[x].content.Aggregate? && t.messages[x].content.key == key
    && t.messages[x].address == owner
  }

  ghost predicate NewestElement(t: Tables, h: Hash, key: string, owner: Address, x: Hash) {
    ElementBut(t, h, key, owner, x)
    && forall y :: ElementBut(t, h, key, owner, y) ==> t.messages[y].time <= t.messages[x].time
  }

  lemma {:induction false} ElementsTieMeans(s: State, h: Hash, key: string, owner: Address)
    requires ElementsMatch(s.tables.messages, s.aggs.elements)
    ensures var elements := s.aggs.elements - {h};
            var newest := Aggregates.Newest(elements, Aggregates.Of(elements, Aggregates.AggKey(key, owner)));
            ElementsTie(s.tables, h, key, owner) <==> exists x, y :: x in newest && y in newest && x != y
  {
    var elements := s.aggs.elements - {h};
    var hs := Aggregates.Of(elements, Aggregates.AggKey(key, owner));
    var newest := Aggregates.Newest(elements, hs);
    forall x ensures ElementBut(s.tables, h, key, owner, x) <==> x in hs { }
    forall x ensures NewestElement(s.tables, h, key, owner, x) <==> x in newest { }
  }

  /** A live message can be forgotten by hash if and only if it is processed and no FORGET; an amend must name its post
      by hash; no two newest elements may be left of an aggregate; and for a STORE its tag must stay decided, and the
      type must be right if the file is left without a pin. */
  lemma {:induction false} ItemForgottenIff(s: State, h: Hash, g: Hash, now: Time, cfg: Config)
    requires Inv(s) && Chooses(cfg.first) && h in s.tables.messages
    ensures var m := s.tables.messages[h];
            ItemForgotten(s, h, g, now, cfg).Ok? <==>
              && IsProcessed(s.tables, h)
              && match m.content
                 case Post(postType, ref, _, _) => postType == "amend" ==> ref.HashRef?
                 case Aggregate(key, _) => !ElementsTie(s.tables, h, key, m.address)
                 case Store(_, _, _) => Files.Forgotten(s.files, h, m, now, cfg.grace).Ok?
                 case Vm(_, _) => true
                 case Forget(_, _) => false
  {
    hide Posts.PostsOk, Aggregates.TablesOk, FilesInv, Vms.VolumesPinned, PostsMatch, ElementsMatch, PinsMatch,
         VmsMatch, Files.Forgotten, Aggregates.Forgotten, Posts.Forgotten, ElementsTie;
    var m := s.tables.messages[h];
    assert StatusOk(s.tables, h);
    if m.content.Post? && IsProcessed(s.tables, h) {
      PostForgottenIff(s, h, g, now, cfg);
    } else if m.content.Aggregate? {
      Aggregates.ForgottenOkIff(s.aggs, h, m.content, m.address, cfg.first);
      ElementsTieMeans(s, h, m.content.key, m.address);
    }
    OthersMoveOk(s, h, g);
  }

  /** Why it fails: what is unknown or not processed may yet become so, a FORGET never can be forgotten; what is
      forgotten already only gets one more FORGET on its row. */
  lemma {:induction false} ItemErrors(s: State, h: Hash, g: Hash, now: Time, cfg: Config)
    requires Inv(s) && Chooses(cfg.first)
    ensures var r := ItemForgotten(s, h, g, now, cfg);
            if h !in s.tables.status || s.tables.status[h] in {Pending, Rejected} then r == Err(ForgetTargetNotFound)
            else if s.tables.status[h] == Forgotten then
              && h in s.tables.forgotten && r.Ok?
              && var row := s.tables.forgotten[h];
                 r.value == s.(tables := s.tables.(forgotten :=
                                 s.tables.forgotten[h := row.(forgottenBy := row.forgottenBy + [g])]))
            else
              h in s.tables.messages
                && (s.tables.messages[h].content.Forget? ==> r == Err(CannotForgetForget))
  {
    hide Matches, Posts.PostsOk, Aggregates.TablesOk, FilesInv, Vms.VolumesPinned, MessageForgotten;
    assert StatusOk(s.tables, h);
  }

  lemma {:induction false} OthersMoveOk(s: State, h: Hash, g: Hash)
    requires Consistent(s.tables) && h in s.tables.messages
    ensures MovedToForgotten(s.tables, {h}, g).Ok?
    ensures MovedToForgotten(MovedToForgotten(s.tables, {h}, g).value, {}, g).Ok?
  {
    assert StatusOk(s.tables, h);
  }

  // ----- balances

  /** A processed post with balances sets the entries of its chain and dapp for the addresses it lists, from lower
      heights only.  No other message touches the balances. */
  lemma {:induction false} BalancesPosted(s: State, step: Step, cfg: Config, k: Balances.BalanceKey)
    requires Inv(s) && Chooses(cfg.first) && Enabled(s, step)
    ensures var t, t' := s.balances, Next(s, step, cfg).balances;
            if && step.Process? && Applies(s, step, cfg, s.tables.pending[step.id].hash) && step.outcome.fetch.Ok?
               && step.outcome.fetch.value.content.Post? && step.outcome.fetch.value.content.balances.Balances? then
              var u := step.outcome.fetch.value.content.balances;
              var own := && k.address in u.amounts && k.chain == u.chain
                         && (if u.dapp.None? || u.dapp.value == "" then k.dapp.None? else k.dapp == u.dapp);
              && (k in t' <==> k in t || own)
              && (k in t && !(own && u.height > t[k].height) ==> t'[k] == t[k])
              && (own && (k !in t || u.height > t[k].height) ==>
                    t'[k] == Balances.BalanceRow(u.amounts[k.address], u.height))
            else t' == t
  {
    hide Inv, Next, Attempted, Aggregates.ArrivalFor, Aggregates.AggsLeft, ForgottenFor, ForgottenKept, Files.TagsHeld,
         Files.HoldsKept, Files.PinsLeft, StatusKept, Booked, Quiet, Balances.Applied, Targets;
    NextInv(s, step, cfg);
    if h :| Applies(s, step, cfg, h) {
      var m := AppliedMessage(s, step, cfg, h);
      assert Effect(s, h, m, step.outcome.now, cfg, Next(s, step, cfg));
      AppliedBody(s, step, cfg, h);
      if UpdateIn(m).Some? {
        Balances.AppliedEntry(s.balances, UpdateIn(m).value, k);
      }
    } else {
      QuietBalances(s, Next(s, step, cfg));
    }
  }

  lemma {:induction false} QuietBalances(s: State, s': State)
    requires Quiet(s, s')
    ensures s'.balances == s.balances
  {
  }

  // ----- what stays for good

  lemma {:induction false} StepLasting(s: State, step: Step, cfg: Config, file: Hash)
    requires Inv(s) && Chooses(cfg.first) && Enabled(s, step) && Files.LastingPin(s.files, file)
    ensures Files.LastingPin(Next(s, step, cfg).files, file)
  {
    hide Inv;
    if !step.Collect? {
      hide Next, Enabled;
      StepHolds(s, step, cfg);
    }
  }

  lemma {:induction false} RunLasting(run: seq<Step>, cfg: Config, i: nat, file: Hash)
    requires Chooses(cfg.first) && Legal(run, cfg) && i <= |run| && Files.LastingPin(At(run[..i], cfg).files, file)
    ensures Files.LastingPin(At(run, cfg).files, file) && file in At(run, cfg).files.files
    decreases |run| - i
  {
    hide Inv, Enabled, Next, Reached, Files.LastingPin;
    if i == |run| {
      assert run[..i] == run;
      RunInv(run, cfg);
      LastingIsStored(At(run, cfg), file);
    } else {
      OneStep(run, cfg, i);
      RunInv(run[..i], cfg);
      StepLasting(At(run[..i], cfg), run[i], cfg, file);
      RunLasting(run, cfg, i + 1, file);
    }
  }

  lemma {:induction false} LastingIsStored(s: State, file: Hash)
    requires Inv(s) && Files.LastingPin(s.files, file)
    ensures file in s.files.files
  {
  }

  /** The content file of a processed message is never collected, not even after the message is forgotten; nor is a file
      that a chain transaction pinned. */
  lemma {:induction false} PinnedForGood(run: seq<Step>, cfg: Config, i: nat, h: Hash)
    requires Chooses(cfg.first) && Legal(run, cfg) && i < |run|
    requires || (run[i].PinTx? && run[i].pin.file == h)
             || (Applies(At(run[..i], cfg), run[i], cfg, h) && run[i].outcome.fetch.Ok?
                 && !run[i].outcome.fetch.value.inline)
    ensures h in At(run, cfg).files.files
  {
    hide Inv, Reached, Enabled, Next, Applies;
    OneStep(run, cfg, i);
    RunInv(run[..i], cfg);
    var s, s' := At(run[..i], cfg), At(run[..i + 1], cfg);
    if run[i].PinTx? && run[i].pin.file == h {
      assert run[i] == PinTx(run[i].pin);
      TxPinned(s, run[i].pin, cfg);
    } else {
      AppliedRows(s, run[i], cfg, h);
      assert h in s'.files.contentPins && s'.files.contentPins[h].file == h;
    }
    RunLasting(run, cfg, i + 1, h);
  }

  lemma {:induction false} TxPinned(s: State, pin: Files.TxPin, cfg: Config)
    requires Chooses(cfg.first)
    ensures Files.LastingPin(Next(s, PinTx(pin), cfg).files, pin.file)
  {
    assert pin in Next(s, PinTx(pin), cfg).files.txPins;
  }

  // ----- revisions

  /** A live STORE refers by hash only to a STORE that refers to none. */
  ghost predicate NoTree(t: Tables, h: Hash, r: Hash) {
    LiveStore(t, h) && t.messages[h].content.ref == Some(r) && IsItemHash(r) && LiveStore(t, r) ==>
      t.messages[r].content.ref.None?
  }

  lemma {:induction false} TreeStep(s: State, step: Step, cfg: Config, h: Hash, r: Hash)
    requires Inv(s) && Chooses(cfg.first) && Enabled(s, step) && NoTree(s.tables, h, r)
    ensures NoTree(Next(s, step, cfg).tables, h, r)
  {
    hide Inv, Enabled, Next, Attempted, IsItemHash;
    var t, t' := s.tables, Next(s, step, cfg).tables;
    if LiveStore(t', h) && t'.messages[h].content.ref == Some(r) && IsItemHash(r) && LiveStore(t', r) {
      StepMessages(s, step, cfg, h);
      StepMessages(s, step, cfg, r);
      if h in t.messages {
        RefKnown(s, h, r);
      } else {
        AdmissionExact(s, step.id, step.outcome, cfg);
      }
    }
  }

  lemma {:induction false} RefKnown(s: State, h: Hash, r: Hash)
    requires Inv(s) && LiveStore(s.tables, h) && s.tables.messages[h].content.ref == Some(r) && IsItemHash(r)
    ensures r in Ever(s.tables)
  {
    hide Consistent, Posts.PostsOk, Aggregates.TablesOk, Vms.VolumesPinned, PostsMatch, ElementsMatch, VmsMatch,
         Files.HashTagsOk, IsItemHash;
    assert h in s.files.messagePins;
  }

  /** Revisions never form a tree: in every run, whatever a live STORE refers to by hash refers to nothing itself. */
  lemma {:induction false} NoRevisionTrees(run: seq<Step>, cfg: Config, h: Hash, r: Hash)
    requires Chooses(cfg.first) && Legal(run, cfg)
    ensures NoTree(At(run, cfg).tables, h, r)
    decreases |run|
  {
    if run != [] {
      hide Inv, Enabled, Next, Reached, NoTree;
      var n := |run| - 1;
      assert run[..n + 1] == run;
      OneStep(run, cfg, n);
      RunInv(run[..n], cfg);
      NoRevisionTrees(run[..n], cfg, h, r);
      TreeStep(At(run[..n], cfg), run[n], cfg, h, r);
    }
  }
}
