/** The message handler as an object over the table objects: checks, processing, FORGET, and the transaction around an
    attempt (`src/aleph/handlers/message_handler.py`, `src/aleph/handlers/content/forget.py`,
    `src/aleph/jobs/process_pending_messages.py`).  Every method computes the step of the state machine. */
module Handler {
  import opened Wrappers
  import opened Records
  import opened Lifecycle
  import opened Node
  import Posts
  import Aggregates
  import Files
  import Vms
  import Balances
  import MessageStores
  import AggregateStores
  import FileStores
  import NodeInvariant
  import NodeSteps

  class MessageHandler {
    const tables: MessageStores.MessageStore
    const posts: Posts.PostStore
    const aggregates: AggregateStores.AggregateStore
    const files: FileStores.FileStore
    var vms: Vms.VmTable
    var balances: Balances.BalanceTable
    const cfg: Config

    ghost predicate Valid() {
      Chooses(cfg.first) && posts.first == cfg.first && aggregates.first == cfg.first && files.grace == cfg.grace
    }

    function Contents(): State
      reads this, tables, posts, aggregates, files
    {
      State(tables.Contents(), posts.rows, aggregates.Contents(), files.Contents(), vms, balances)
    }

    constructor (cfg: Config)
      requires Chooses(cfg.first)
      ensures Valid() && Contents() == EMPTY && this.cfg == cfg
    {
      this.cfg := cfg;
      tables := new MessageStores.MessageStore();
      posts := new Posts.PostStore(cfg.first);
      aggregates := new AggregateStores.AggregateStore(cfg.first);
      files := new FileStores.FileStore(cfg.grace);
      vms, balances := map[], map[];
    }

    // ----- the checks of a FORGET

    method CheckForgetDependencies(m: Message) returns (r: Option<ProcessingError>)
      requires m.content.Forget?
      ensures r == CheckForget(Contents(), m)
    {
      if m.content.hashes == [] && m.content.aggregates == [] {
        return Some(NoForgetTarget);
      }
      ghost var s := Contents();
      var hashes := m.content.hashes;
      while hashes != []
        invariant CheckHashes(s, hashes) == CheckHashes(s, m.content.hashes)
      {
        if hashes[0] !in tables.messages {
          return Some(ForgetTargetNotFound);
        }
        var dependent := Vms.CheckVolume(vms, hashes[0]);
        if dependent.Some? {
          return dependent;
        }
        hashes := hashes[1..];
      }
      var keys := m.content.aggregates;
      while keys != []
        invariant CheckKeys(s, m.address, keys) == CheckKeys(s, m.address, m.content.aggregates)
      {
        if Aggregates.AggKey(keys[0], m.address) !in aggregates.rows {
          return Some(ForgetTargetNotFound);
        }
        keys := keys[1..];
      }
      r := None;
    }

    /** The given hashes, then the elements of every given aggregate. */
    method ListTargetMessages(m: Message) returns (targets: seq<Hash>)
      requires m.content.Forget? && Valid()
      ensures targets == Targets(Contents(), m, cfg.first)
    {
      ghost var s := Contents();
      targets := m.content.hashes;
      var keys := m.content.aggregates;
      while keys != []
        invariant targets + ElementsOf(s, m.address, keys, cfg.first) == Targets(s, m, cfg.first)
      {
        targets := targets +
          Listed(Aggregates.Of(aggregates.elements, Aggregates.AggKey(keys[0], m.address)), cfg.first);
        keys := keys[1..];
      }
    }

    method CheckForgetPermissions(m: Message) returns (r: Option<ProcessingError>)
      requires m.content.Forget? && Valid()
      ensures r == CheckTargets(tables.Contents(), m.sender, Targets(Contents(), m, cfg.first))
    {
      var all := ListTargetMessages(m);
      ghost var t := tables.Contents();
      var targets := all;
      while targets != []
        invariant CheckTargets(t, m.sender, targets) == CheckTargets(t, m.sender, all)
      {
        var h := targets[0];
        targets := targets[1..];
        if h !in tables.status {
          return Some(ForgetTargetNotFound);
        }
        if tables.status[h] == Forgotten || tables.status[h] == Rejected {
          continue;
        }
        if tables.status[h] != Processed {
          return Some(ForgetTargetNotFound);
        }
        if h !in tables.messages {
          return Some(Internal);
        }
        if tables.messages[h].content.Forget? {
          return Some(CannotForgetForget);
        }
        if tables.messages[h].sender != m.sender {
          return Some(PermissionDenied);
        }
      }
      r := None;
    }

    // ----- the checks of every kind

    method CheckAllDependencies(m: Message) returns (r: Option<ProcessingError>)
      ensures r == CheckDependencies(Contents(), m)
    {
      match m.content
      case Post(_, _, _, _) => r := Posts.CheckDependencies(posts.rows, m.content);
      case Aggregate(_, _) => r := None;
      case Store(_, _, _) => r := Files.CheckDependencies(files.Contents(), m.content);
      case Vm(machine, volumes) =>
        var missing := Vms.FindMissingVolumes(machine, volumes, files.messagePins.Keys, files.tags.Keys);
        r := if missing == {} then None else Some(VmVolumeNotFound);
      case Forget(_, _) => r := CheckForgetDependencies(m);
    }

    method CheckAllPermissions(h: Hash, m: Message) returns (r: Option<ProcessingError>)
      requires Valid()
      ensures r == CheckPermissions(Contents(), h, m, cfg.first)
    {
      match m.content
      case Store(_, _, _) => r := Files.CheckPermissions(files.Contents(), h, m);
      case Forget(_, _) => r := CheckForgetPermissions(m);
      case _ => r := None;
    }

    // ----- forgetting

    /** The cleanup of each kind, and the further messages that go along. */
    method ForgetByMessageType(h: Hash, m: Message, now: Time) returns (r: Result<set<Hash>, ProcessingError>)
      requires Valid()
      modifies this, posts, aggregates, files
      ensures match CleanedUp(old(Contents()), h, m, now, cfg)
              case Ok((s, more)) => r == Ok(more) && Contents() == s
              case Err(e) => r == Err(e)
    {
      match m.content
      case Post(_, _, _, _) =>
        r := posts.ForgetMessage(h, m.content);
      case Aggregate(_, _) =>
        var done := aggregates.ForgetMessage(h, m.content, m.address);
        r := if done.Ok? then Ok({}) else Err(done.error);
      case Store(_, _, _) =>
        var done := files.ForgetMessage(h, m, now);
        r := if done.Ok? then Ok({}) else Err(done.error);
      case Vm(_, _) =>
        vms := vms - {h};
        r := Ok({});
      case Forget(_, _) =>
        r := Err(CannotForgetForget);
    }

    method ForgetLiveMessage(h: Hash, m: Message, g: Hash, now: Time) returns (r: Result<(), ProcessingError>)
      requires Valid()
      modifies this, tables, posts, aggregates, files
      ensures match MessageForgotten(old(Contents()), h, m, g, now, cfg)
              case Ok(s) => r == Ok(()) && Contents() == s
              case Err(e) => r == Err(e)
    {
      r := tables.ForgetMessage(h, g);
      if r.Err? {
        return;
      }
      var more := ForgetByMessageType(h, m, now);
      if more.Err? {
        return Err(more.error);
      }
      r := tables.ForgetMessages(more.value, g);
    }

    method ForgetItemHash(h: Hash, g: Hash, now: Time) returns (r: Result<(), ProcessingError>)
      requires Valid()
      modifies this, tables, posts, aggregates, files
      ensures match ItemForgotten(old(Contents()), h, g, now, cfg)
              case Ok(s) => r == Ok(()) && Contents() == s
              case Err(e) => r == Err(e)
    {
      if h !in tables.status {
        return Err(ForgetTargetNotFound);
      }
      if tables.status[h] == Forgotten {
        tables.AppendToForgottenBy(h, g);
        return Ok(());
      }
      if tables.status[h] != Processed {
        return Err(ForgetTargetNotFound);
      }
      if h !in tables.messages {
        return Err(ForgetTargetNotFound);
      }
      var m := tables.messages[h];
      if m.content.Forget? {
        return Err(CannotForgetForget);
      }
      r := ForgetLiveMessage(h, m, g, now);
    }

    method ProcessForget(g: Hash, m: Message, now: Time) returns (r: Result<(), ProcessingError>)
      requires Valid() && m.content.Forget?
      modifies this, tables, posts, aggregates, files
      ensures match AllForgotten(old(Contents()), Targets(old(Contents()), m, cfg.first), g, now, cfg)
              case Ok(s) => r == Ok(()) && Contents() == s
              case Err(e) => r == Err(e)
    {
      ghost var s0 := Contents();
      var all := ListTargetMessages(m);
      var left := all;
      while left != []
        invariant AllForgotten(Contents(), left, g, now, cfg) == AllForgotten(s0, all, g, now, cfg)
        decreases |left|
      {
        r := ForgetItemHash(left[0], g, now);
        if r.Err? {
          return;
        }
        left := left[1..];
      }
      r := Ok(());
    }

    // ----- one attempt

    method InsertMessage(id: nat, h: Hash, m: Message) returns (r: Result<(), ProcessingError>)
      requires id in tables.pending
      modifies tables, files
      ensures match Inserted(old(Contents()), id, h, m)
              case Ok(s) => r == Ok(()) && Contents() == s
              case Err(e) => r == Err(e)
    {
      if !m.inline {
        files.UpsertFile(h);
        r := files.InsertContentPin(h, m);
        if r.Err? {
          return;
        }
      }
      tables.InsertMessage(id, h, m);
      r := Ok(());
    }

    method ProcessPost(h: Hash, m: Message) returns (r: Result<(), ProcessingError>)
      requires Valid() && m.content.Post?
      modifies this, posts
      ensures match Handled(old(Contents()), h, m, 0, cfg)
              case Ok(s) => r == Ok(()) && Contents() == s
              case Err(e) => r == Err(e)
    {
      if Posts.CheckDependencies(posts.rows, m.content).Some? {
        return Err(Internal);
      }
      if h in posts.rows {
        return Err(Database);
      }
      posts.ProcessPost(h, m);
      r := Ok(());
      match m.content.balances
      case NoBalances =>
      case Malformed => r := Err(InvalidFormat);
      case Balances(chain, dapp, height, amounts) =>
        balances := Balances.UpdateBalances(balances, Balances.Update(chain, dapp, height, amounts));
    }

    method ProcessContent(h: Hash, m: Message, now: Time) returns (r: Result<(), ProcessingError>)
      requires Valid()
      modifies this, tables, posts, aggregates, files
      ensures match Handled(old(Contents()), h, m, now, cfg)
              case Ok(s) => r == Ok(()) && Contents() == s
              case Err(e) => r == Err(e)
    {
      match m.content
      case Post(_, _, _, _) => r := ProcessPost(h, m);
      case Aggregate(_, _) => r := aggregates.ProcessElement(h, m);
      case Store(_, _, _) => r := files.PinAndTagFile(h, m);
      case Vm(_, _) =>
        if h in vms {
          return Err(Database);
        }
        vms := vms[h := Vms.RowOf(m)];
        r := Ok(());
      case Forget(_, _) => r := ProcessForget(h, m, now);
    }

    method ProcessNew(id: nat, h: Hash, m: Message, o: Outcome) returns (r: Result<(), ProcessingError>)
      requires Valid() && id in tables.pending
      modifies this, tables, posts, aggregates, files
      ensures match ProcessedNew(old(Contents()), id, h, m, o, cfg)
              case Ok(s) => r == Ok(()) && Contents() == s
              case Err(e) => r == Err(e)
    {
      if m.content.Store? && cfg.storesFiles {
        files.UpsertFile(m.content.file);
      }
      assert Contents() == Fetched(old(Contents()), m, cfg);
      var problem := CheckAllDependencies(m);
      if problem.Some? {
        return Err(problem.value);
      }
      problem := CheckAllPermissions(h, m);
      if problem.Some? {
        return Err(problem.value);
      }
      if o.verdict.Some? {
        return Err(o.verdict.value);
      }
      r := InsertMessage(id, h, m);
      if r.Err? {
        return;
      }
      r := ProcessContent(h, m, o.now);
    }

    /** `MessageHandler.process`: confirm a live message, drop a copy of a forgotten one, or process a new one. */
    method Process(id: nat, o: Outcome) returns (r: Result<(), ProcessingError>)
      requires Valid() && id in tables.pending
      modifies this, tables, posts, aggregates, files
      ensures match Attempted(old(Contents()), id, o, cfg)
              case Ok(s) => r == Ok(()) && Contents() == s
              case Err(e) => r == Err(e)
    {
      var row := tables.pending[id];
      if row.hash in tables.messages {
        r := tables.ConfirmExisting(id);
        return;
      }
      if row.hash in tables.forgotten {
        r := tables.ConfirmExistingForgotten(id);
        return;
      }
      match o.fetch
      case Err(e) => r := Err(e);
      case Ok(body) => r := ProcessNew(id, row.hash, MessageOf(row, body), o);
    }

    /** One turn of the processing loop: a failed attempt is rolled back before its error is handled. */
    method ProcessPending(id: nat, o: Outcome) returns (r: Result<(), ProcessingError>)
      requires Valid() && id in tables.pending && tables.pending[id].fetched
      modifies this, tables, posts, aggregates, files
      ensures Contents() == Next(old(Contents()), Step.Process(id, o), cfg)
      ensures old(NodeInvariant.Inv(Contents())) ==> NodeInvariant.Inv(Contents())
    {
      hide NodeInvariant.Inv;
      if NodeInvariant.Inv(Contents()) {
        NodeSteps.NextInv(Contents(), Step.Process(id, o), cfg);
      }
      var before := Contents();
      r := Process(id, o);
      if r.Err? {
        tables.Restore(before.tables);
        posts.rows := before.posts;
        aggregates.Restore(before.aggs);
        files.Restore(before.files);
        vms, balances := before.vms, before.balances;
        tables.HandleProcessingError(id, r.error, o.giveUp);
      }
    }
  }
}
