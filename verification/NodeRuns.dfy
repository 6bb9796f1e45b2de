/** What holds over every run of the node from the empty database: any sequence of submissions, refusals, fetches,
    processing attempts and collections that the tables allow, with any outcome of the outside world. */
module NodeRuns {
  import opened Wrappers
  import opened Records
  import opened Lifecycle
  import opened Node
  import opened NodeInvariant
  import opened NodeForget
  import opened NodeSteps
  import Posts
  import Aggregates
  import Files
  import Vms
  import Balances

  function Reached(run: seq<Step>, cfg: Config): Option<State>
    requires Chooses(cfg.first)
  {
    if run == [] then Some(EMPTY)
    else
      match Reached(run[..|run| - 1], cfg)
      case None => None
      case Some(s) => if Enabled(s, run[|run| - 1]) then Some(Next(s, run[|run| - 1], cfg)) else None
  }

  /** Every step is enabled where it happens. */
  predicate Legal(run: seq<Step>, cfg: Config)
    requires Chooses(cfg.first)
  {
    Reached(run, cfg).Some?
  }

  /** The state after a run. */
  function At(run: seq<Step>, cfg: Config): State
    requires Chooses(cfg.first)
  {
    Reached(run, cfg).GetOr(EMPTY)
  }

  lemma {:induction false} LegalPrefix(run: seq<Step>, cfg: Config, i: nat)
    requires Chooses(cfg.first) && Legal(run, cfg) && i <= |run|
    ensures Legal(run[..i], cfg)
    decreases |run| - i
  {
    if i == |run| {
      assert run[..i] == run;
    } else {
      LegalPrefix(run, cfg, i + 1);
      assert run[..i + 1][..i] == run[..i];
    }
  }

  lemma {:induction false} OneStep(run: seq<Step>, cfg: Config, i: nat)
    requires Chooses(cfg.first) && Legal(run, cfg) && i < |run|
    ensures Legal(run[..i], cfg) && Enabled(At(run[..i], cfg), run[i])
            && At(run[..i + 1], cfg) == Next(At(run[..i], cfg), run[i], cfg)
  {
    hide Enabled, Next;
    LegalPrefix(run, cfg, i + 1);
    assert run[..i + 1][..i] == run[..i];
  }

  // ----- table consistency

  /** In every reachable state the tables agree: messages and forgotten are disjoint, statuses match the tables they
      speak of, confirmations name live messages, the derived tables are keyed exactly by the live messages of
      their kind, the amend and tag indexes are right, and every volume a machine uses in a fixed version is pinned. */
  lemma {:induction false} RunInv(run: seq<Step>, cfg: Config)
    requires Chooses(cfg.first) && Legal(run, cfg)
    ensures Inv(At(run, cfg))
  {
    if run == [] {
      EmptyInv();
    } else {
      hide Inv, Enabled, Next;
      var i := |run| - 1;
      assert run[..i + 1] == run;
      OneStep(run, cfg, i);
      RunInv(run[..i], cfg);
      NextInv(At(run[..i], cfg), run[i], cfg);
    }
  }

  // ----- what is never undone

  ghost predicate Kept(s: State, s': State) {
    Ever(s.tables) <= Ever(s'.tables) && ForgottenKept(s.tables.forgotten, s'.tables.forgotten)
  }

  /** The step runs no handler. */
  ghost predicate NoneApplies(s: State, step: Step, cfg: Config)
    requires Chooses(cfg.first)
  {
    forall h :: !Applies(s, step, cfg, h)
  }

  lemma {:induction false} StepKept(s: State, step: Step, cfg: Config)
    requires Inv(s) && Chooses(cfg.first) && Enabled(s, step)
    ensures Kept(s, Next(s, step, cfg))
  {
    hide Inv, Enabled, Next, RowsSince, ForgottenFor, Aggregates.ArrivalFor, Files.TagsHeld, Files.HoldsKept;
    NextInv(s, step, cfg);
    if h :| Applies(s, step, cfg, h) {
      assert Effect(s, h, AppliedMessage(s, step, cfg, h), step.outcome.now, cfg, Next(s, step, cfg));
    }
  }

  lemma {:induction false} RunKept(run: seq<Step>, cfg: Config, i: nat)
    requires Chooses(cfg.first) && Legal(run, cfg) && i <= |run|
    ensures Kept(At(run[..i], cfg), At(run, cfg))
    decreases |run| - i
  {
    hide Inv, Enabled, Next, Reached;
    if i == |run| {
      assert run[..i] == run;
    } else {
      RunKept(run, cfg, i + 1);
      OneStep(run, cfg, i);
      RunInv(run[..i], cfg);
      StepKept(At(run[..i], cfg), run[i], cfg);
    }
  }

  /** A content handler takes effect at most once for each item hash, whatever copies, confirmations, rejections and
      retries arrive. */
  lemma {:induction false} ExactlyOnce(run: seq<Step>, cfg: Config, i: nat, j: nat, h: Hash)
    requires Chooses(cfg.first) && Legal(run, cfg) && i < j < |run|
    requires Applies(At(run[..i], cfg), run[i], cfg, h)
    ensures !Applies(At(run[..j], cfg), run[j], cfg, h)
  {
    hide Inv, Enabled, Next, Reached, Since, Added, Attempted;
    LegalPrefix(run, cfg, j);
    OneStep(run, cfg, i);
    RunInv(run[..i], cfg);
    NextInv(At(run[..i], cfg), run[i], cfg);
    assert Effect(At(run[..i], cfg), h, AppliedMessage(At(run[..i], cfg), run[i], cfg, h), run[i].outcome.now, cfg,
                  At(run[..i + 1], cfg));
    RunKept(run[..j], cfg, i + 1);
    assert run[..j][..i + 1] == run[..i + 1];
  }

  /** Nothing else has an effect: a step that runs no handler leaves the messages and everything derived from them. */
  lemma {:induction false} OthersQuiet(run: seq<Step>, cfg: Config, i: nat)
    requires Chooses(cfg.first) && Legal(run, cfg) && i < |run| && NoneApplies(At(run[..i], cfg), run[i], cfg)
    ensures Quiet(At(run[..i], cfg), At(run[..i + 1], cfg))
  {
    hide Inv, Enabled, Next, Reached, Applies, Quiet;
    OneStep(run, cfg, i);
    RunInv(run[..i], cfg);
    NextInv(At(run[..i], cfg), run[i], cfg);
  }

  /** A forgotten message never comes back, nor does anything derived from it, and its row only gains FORGETs. */
  lemma {:induction false} NoResurrection(run: seq<Step>, cfg: Config, i: nat, f: Hash)
    requires Chooses(cfg.first) && Legal(run, cfg) && i <= |run| && f in At(run[..i], cfg).tables.forgotten
    ensures var s := At(run, cfg);
            && f in s.tables.forgotten && Extends(At(run[..i], cfg).tables.forgotten[f], s.tables.forgotten[f])
            && f !in s.tables.messages && s.tables.status.Keys >= {f} && s.tables.status[f] == Forgotten
            && f !in s.posts && f !in s.aggs.elements && f !in s.files.messagePins && f !in s.vms
            && forall c :: c in s.tables.confirmations ==> c.hash != f
  {
    hide Enabled, Next, Reached, Posts.PostsOk, Aggregates.TablesOk, FilesInv, Vms.VolumesPinned;
    RunKept(run, cfg, i);
    RunInv(run, cfg);
    assert StatusOk(At(run, cfg).tables, f);
  }

  // ----- FORGETs

  lemma {:induction false} ForgetSpared(s: State, h: Hash, m: Message, now: Time, cfg: Config, s': State, g: Hash)
    requires Chooses(cfg.first) && Effect(s, h, m, now, cfg, s') && LiveForget(s, g) && h !in Ever(s.tables)
    requires s.tables.messages.Keys !! s.tables.forgotten.Keys
    ensures g in s'.tables.messages && s'.tables.messages[g] == s.tables.messages[g]
  {
    hide Aggregates.ArrivalFor, Aggregates.AggsLeft, Files.TagsHeld, Files.HoldsKept, Files.PinsLeft, OwnTarget,
         Targets, BalancesAfter;
    assert g in Ever(s.tables);
  }

  lemma {:induction false} ForgetStays(s: State, step: Step, cfg: Config, g: Hash)
    requires Inv(s) && Chooses(cfg.first) && Enabled(s, step) && LiveForget(s, g)
    ensures LiveForget(Next(s, step, cfg), g) && Next(s, step, cfg).tables.messages[g] == s.tables.messages[g]
  {
    hide Inv, Enabled, Next, Effect;
    NextInv(s, step, cfg);
    InvParts(s);
    if h :| Applies(s, step, cfg, h) {
      ForgetSpared(s, h, AppliedMessage(s, step, cfg, h), step.outcome.now, cfg, Next(s, step, cfg), g);
    }
  }

  /** No FORGET is ever forgotten: once processed, it stays as it is. */
  lemma {:induction false} ForgetsStay(run: seq<Step>, cfg: Config, i: nat, g: Hash)
    requires Chooses(cfg.first) && Legal(run, cfg) && i <= |run| && LiveForget(At(run[..i], cfg), g)
    ensures LiveForget(At(run, cfg), g) && At(run, cfg).tables.messages[g] == At(run[..i], cfg).tables.messages[g]
    decreases |run| - i
  {
    hide Inv, Enabled, Next, Reached;
    if i == |run| {
      assert run[..i] == run;
    } else {
      OneStep(run, cfg, i);
      RunInv(run[..i], cfg);
      ForgetStays(At(run[..i], cfg), run[i], cfg, g);
      ForgetsStay(run, cfg, i + 1, g);
    }
  }

  /** A FORGET with this body names the message: by its hash, or as an element of an aggregate of its own address. */
  predicate Selects(b: Body, h: Hash, m: Message) {
    && b.content.Forget?
    && (h in b.content.hashes
        || (m.content.Aggregate? && m.content.key in b.content.aggregates && m.address == b.address))
  }

  predicate Amends(m: Message, o: Hash) {
    m.content.Post? && m.content.postType == "amend" && m.content.postRef in {HashRef(o), ChainRef(o)}
  }

  /** A processed message of that sender which the FORGET names. */
  predicate OwnSelected(t: Tables, sender: Address, b: Body, h: Hash) {
    && h in t.messages && h in t.status && t.status[h] == Processed
    && t.messages[h].sender == sender && !t.messages[h].content.Forget? && Selects(b, h, t.messages[h])
  }

  /** The step processes the FORGET `g`, and `f` is a message of the FORGET's sender that it names, or an amend of
      one. */
  ghost predicate ForgetsBy(s: State, step: Step, cfg: Config, g: Hash, f: Hash)
    requires Chooses(cfg.first)
  {
    && Applies(s, step, cfg, g) && step.outcome.fetch.Ok?
    && var sender, b, t := s.tables.pending[step.id].sender, step.outcome.fetch.value, s.tables;
       && b.content.Forget? && f in t.messages
       && (OwnSelected(t, sender, b, f)
           || exists o :: OwnSelected(t, sender, b, o) && Amends(t.messages[f], o))
  }

  lemma {:induction false} TargetsSelected(s: State, row: PendingRow, b: Body, cfg: Config, h: Hash)
    requires ElementsMatch(s.tables.messages, s.aggs.elements) && Chooses(cfg.first) && b.content.Forget?
    requires h in s.tables.messages
    ensures h in Targets(s, MessageOf(row, b), cfg.first) <==> Selects(b, h, s.tables.messages[h])
  {
    ElementsOfMembers(s, b.address, b.content.aggregates, cfg.first);
  }

  lemma {:induction false} AmendsMeans(s: State, a: Hash, o: Hash)
    requires PostsMatch(s.tables.messages, s.posts) && a in s.tables.messages
    ensures a in Posts.AmendsOf(s.posts, o) <==> Amends(s.tables.messages[a], o)
  {
    if a in s.posts {
      assert s.posts[a].(latestAmend := None) == Posts.RowOf(s.tables.messages[a]);
    }
  }

  lemma {:induction false} JustifiedMeans(s: State, row: PendingRow, b: Body, cfg: Config, f: Hash)
    requires Matches(s) && Chooses(cfg.first) && b.content.Forget?
    requires Justified(s, Targets(s, MessageOf(row, b), cfg.first), row.sender, f)
    ensures f in s.tables.messages
    ensures OwnSelected(s.tables, row.sender, b, f)
            || exists o :: OwnSelected(s.tables, row.sender, b, o) && Amends(s.tables.messages[f], o)
  {
    hide Targets, Selects, Amends, ElementsMatch, PostsMatch, VmsMatch, PinsMatch, Posts.AmendsOf;
    var targets := Targets(s, MessageOf(row, b), cfg.first);
    TargetsSelected(s, row, b, cfg, f);
    if !OwnTarget(s, targets, row.sender, f) {
      var o :| OwnTarget(s, targets, row.sender, o) && f in Posts.AmendsOf(s.posts, o);
      TargetsSelected(s, row, b, cfg, o);
      AmendsMeans(s, f, o);
    }
  }

  ghost predicate ForgottenAt(run: seq<Step>, cfg: Config, i: int, g: Hash, f: Hash)
    requires Chooses(cfg.first)
  {
    0 <= i < |run| && ForgetsBy(At(run[..i], cfg), run[i], cfg, g, f)
  }

  lemma {:induction false} StepForgets(s: State, step: Step, cfg: Config, f: Hash)
    requires Inv(s) && Chooses(cfg.first) && Enabled(s, step)
    requires f in Next(s, step, cfg).tables.forgotten && f !in s.tables.forgotten
    ensures var row := Next(s, step, cfg).tables.forgotten[f];
            row.forgottenBy != [] && ForgetsBy(s, step, cfg, row.forgottenBy[0], f)
              && RowFor(row, s.tables.messages[f])
  {
    hide Inv, Enabled, Next, RowsSince, Justified, RowFor, Targets, Booked, Attempted, OwnSelected, Amends,
         Aggregates.ArrivalFor, Aggregates.AggsLeft, Files.TagsHeld, Files.HoldsKept, StatusKept, BalancesAfter;
    NextInv(s, step, cfg);
    var s' := Next(s, step, cfg);
    assert exists h :: Applies(s, step, cfg, h);
    var h :| Applies(s, step, cfg, h);
    assert Effect(s, h, AppliedMessage(s, step, cfg, h), step.outcome.now, cfg, s');
    var m := AppliedMessage(s, step, cfg, h);
    assert ForgottenFor(s, Targets(s, m, cfg.first), m.sender, h, s', f);
    MatchesOf(s);
    AppliedBody(s, step, cfg, h);
    JustifiedMeans(s, s.tables.pending[step.id], step.outcome.fetch.value, cfg, f);
    RowHasForget(s'.tables.forgotten[f], s.tables.messages[f]);
  }

  lemma {:induction false} RowHasForget(row: ForgottenRow, m: Message)
    requires RowFor(row, m)
    ensures row.forgottenBy != []
  {
  }

  lemma {:induction false} MatchesOf(s: State)
    requires Inv(s)
    ensures Matches(s)
  {
  }

  lemma {:induction false} AppliedBody(s: State, step: Step, cfg: Config, h: Hash)
    requires Chooses(cfg.first) && Applies(s, step, cfg, h)
    ensures step.outcome.fetch.Ok?
    ensures var row, b := s.tables.pending[step.id], step.outcome.fetch.value;
            AppliedMessage(s, step, cfg, h) == MessageOf(row, b) && MessageOf(row, b).sender == row.sender
              && MessageOf(row, b).content == b.content
  {
    hide ProcessedNew;
  }

  lemma {:induction false} ForgottenEarlier(run: seq<Step>, cfg: Config, n: nat, i: int, g: Hash, f: Hash)
    requires Chooses(cfg.first) && n <= |run| && ForgottenAt(run[..n], cfg, i, g, f)
    ensures ForgottenAt(run, cfg, i, g, f)
  {
    hide At, ForgetsBy;
    assert run[..i] == run[..n][..i];
  }

  lemma {:induction false} StepKeepsFirst(s: State, step: Step, cfg: Config, f: Hash)
    requires Inv(s) && Chooses(cfg.first) && Enabled(s, step)
    requires f in s.tables.forgotten && s.tables.forgotten[f].forgottenBy != []
    ensures f in Next(s, step, cfg).tables.forgotten && Next(s, step, cfg).tables.forgotten[f].forgottenBy != []
    ensures Next(s, step, cfg).tables.forgotten[f].forgottenBy[0] == s.tables.forgotten[f].forgottenBy[0]
  {
    hide Inv, Enabled, Next;
    StepKept(s, step, cfg);
  }

  /** Each forgotten message was, when the first FORGET on its row was processed, a processed target with that
      FORGET's own sender, or an amend of such a target. */
  lemma {:induction false} Provenance(run: seq<Step>, cfg: Config, f: Hash)
    requires Chooses(cfg.first) && Legal(run, cfg) && f in At(run, cfg).tables.forgotten
    ensures At(run, cfg).tables.forgotten[f].forgottenBy != []
    ensures exists i :: ForgottenAt(run, cfg, i, At(run, cfg).tables.forgotten[f].forgottenBy[0], f)
    decreases |run|
  {
    assert run != [];
    hide Inv, Enabled, Next, Reached, Legal, At, ForgetsBy, Extends, Kept;
    var n := |run| - 1;
    var init := run[..n];
    assert run[..n + 1] == run;
    OneStep(run, cfg, n);
    RunInv(init, cfg);
    if f in At(init, cfg).tables.forgotten {
      Provenance(init, cfg, f);
      StepKeepsFirst(At(init, cfg), run[n], cfg, f);
      var g := At(init, cfg).tables.forgotten[f].forgottenBy[0];
      var i :| ForgottenAt(init, cfg, i, g, f);
      ForgottenEarlier(run, cfg, n, i, g, f);
    } else {
      StepForgets(At(init, cfg), run[n], cfg, f);
      assert ForgottenAt(run, cfg, n, At(run, cfg).tables.forgotten[f].forgottenBy[0], f);
    }
  }

  // ----- statuses

  lemma {:induction false} StepStatus(s: State, step: Step, cfg: Config)
    requires Inv(s) && Chooses(cfg.first) && Enabled(s, step)
    ensures StatusKept(s.tables, Next(s, step, cfg).tables)
  {
    hide Inv, Enabled, Next, StatusKept, ForgetEffect, Added;
    NextInv(s, step, cfg);
    if h :| Applies(s, step, cfg, h) {
      assert Effect(s, h, AppliedMessage(s, step, cfg, h), step.outcome.now, cfg, Next(s, step, cfg));
    }
  }

  /** A message live at two points of a run is live in between, and processed at one exactly if at the other. */
  lemma {:induction false} RunStatus(run: seq<Step>, cfg: Config, i: nat, h: Hash)
    requires Chooses(cfg.first) && Legal(run, cfg) && i <= |run|
    requires h in At(run[..i], cfg).tables.messages && h in At(run, cfg).tables.messages
    ensures IsProcessed(At(run, cfg).tables, h) <==> IsProcessed(At(run[..i], cfg).tables, h)
    decreases |run| - i
  {
    hide Inv, Enabled, Next, Reached, IsProcessed;
    if i == |run| {
      assert run[..i] == run;
    } else {
      OneStep(run, cfg, i);
      RunInv(run[..i], cfg);
      StepKept(At(run[..i], cfg), run[i], cfg);
      if h in At(run[..i + 1], cfg).tables.forgotten {
        NoResurrection(run, cfg, i + 1, h);
      }
      StepStatus(At(run[..i], cfg), run[i], cfg);
      RunStatus(run, cfg, i + 1, h);
    }
  }

  /** A live message has the status PROCESSED if and only if its status was PENDING when its handler ran. */
  lemma {:induction false} ProcessedIff(run: seq<Step>, cfg: Config, j: nat, h: Hash)
    requires Chooses(cfg.first) && Legal(run, cfg) && j < |run|
    requires Applies(At(run[..j], cfg), run[j], cfg, h) && h in At(run, cfg).tables.messages
    ensures h in At(run[..j], cfg).tables.status
    ensures IsProcessed(At(run, cfg).tables, h) <==> At(run[..j], cfg).tables.status[h] == Pending
  {
    hide Inv, Enabled, Next, Reached, IsProcessed, Attempted, ForgetEffect, Added, StatusKept;
    OneStep(run, cfg, j);
    RunInv(run[..j], cfg);
    NextInv(At(run[..j], cfg), run[j], cfg);
    assert Effect(At(run[..j], cfg), h, AppliedMessage(At(run[..j], cfg), run[j], cfg, h), run[j].outcome.now, cfg,
                  At(run[..j + 1], cfg));
    RunStatus(run, cfg, j + 1, h);
  }

  /** The message is an amend. */
  predicate AmendMessage(m: Message) {
    m.content.Post? && m.content.postType == "amend"
  }

  /** The FORGET names the hash, or an aggregate of its own address that the live message is an element of. */
  predicate Names(t: Tables, b: Body, h: Hash) {
    b.content.Forget? && (h in b.content.hashes || (h in t.messages && Selects(b, h, t.messages[h])))
  }

  /** A FORGET that succeeds forgets every message it names: all were live, each processed or an amend, and the row of
      each names it. */
  lemma {:induction false} TargetsForgotten(s: State, step: Step, cfg: Config, g: Hash, h: Hash)
    requires Inv(s) && Chooses(cfg.first) && Enabled(s, step) && Applies(s, step, cfg, g)
    requires step.outcome.fetch.Ok? && Names(s.tables, step.outcome.fetch.value, h)
    ensures h in s.tables.messages && ForgottenBy(Next(s, step, cfg).tables, h, g)
    ensures IsProcessed(s.tables, h) || AmendMessage(s.tables.messages[h])
  {
    hide Enabled, Next, RowsSince, ForgottenKept, Consistent, Posts.PostsOk, Aggregates.TablesOk, FilesInv,
         Vms.VolumesPinned, Attempted, Targets, StatusKept, IsProcessed, PostsMatch, RowFor, Justified,
         PinsMatch, VmsMatch, ElementsMatch, Booked, Selects;
    NextInv(s, step, cfg);
    InvParts(s);
    var s', m, b := Next(s, step, cfg), AppliedMessage(s, step, cfg, g), step.outcome.fetch.value;
    assert Effect(s, g, m, step.outcome.now, cfg, s');
    AppliedBody(s, step, cfg, g);
    assert h in Targets(s, m, cfg.first) by {
      if h in b.content.hashes {
        HashesAreTargets(s, m, cfg, h);
      } else {
        TargetsSelected(s, s.tables.pending[step.id], b, cfg, h);
      }
    }
    assert ForgottenFor(s, Targets(s, m, cfg.first), m.sender, g, s', h);
    JustifiedProcessed(s, Targets(s, m, cfg.first), m.sender, h);
  }

  lemma {:induction false} HashesAreTargets(s: State, m: Message, cfg: Config, h: Hash)
    requires Chooses(cfg.first) && m.content.Forget? && h in m.content.hashes
    ensures h in Targets(s, m, cfg.first)
  {
  }

  lemma {:induction false} JustifiedProcessed(s: State, targets: seq<Hash>, sender: Address, h: Hash)
    requires PostsMatch(s.tables.messages, s.posts) && Justified(s, targets, sender, h)
    ensures IsProcessed(s.tables, h) || AmendMessage(s.tables.messages[h])
  {
    if !OwnTarget(s, targets, sender, h) {
      var o :| OwnTarget(s, targets, sender, o) && h in Posts.AmendsOf(s.posts, o);
      AmendsMeans(s, h, o);
    }
  }

  /** A FORGET with a target that is neither processed nor an amend fails. */
  lemma {:induction false} UnprocessedRefused(s: State, id: nat, o: Outcome, cfg: Config, h: Hash)
    requires Inv(s) && Chooses(cfg.first) && id in s.tables.pending && s.tables.pending[id].fetched
    requires s.tables.pending[id].hash !in Ever(s.tables) && o.fetch.Ok? && o.fetch.value.content.Forget?
    requires Names(s.tables, o.fetch.value, h) && !IsProcessed(s.tables, h)
    requires h in s.tables.messages ==> !AmendMessage(s.tables.messages[h])
    ensures Attempted(s, id, o, cfg).Err?
  {
    hide Inv, Next, ProcessedNew, IsProcessed, AmendMessage, Names;
    if Attempted(s, id, o, cfg).Ok? {
      TargetsForgotten(s, Process(id, o), cfg, s.tables.pending[id].hash, h);
    }
  }

  lemma {:induction false} UnprocessedStep(s: State, step: Step, cfg: Config, h: Hash)
    requires Inv(s) && Chooses(cfg.first) && Enabled(s, step) && h in s.tables.messages
    requires !IsProcessed(s.tables, h) && !AmendMessage(s.tables.messages[h])
    ensures h in Next(s, step, cfg).tables.messages && !IsProcessed(Next(s, step, cfg).tables, h)
    ensures Next(s, step, cfg).tables.messages[h] == s.tables.messages[h]
  {
    hide Enabled, Next, Inv, Applies, ForgottenKept, RowFor, Selects;
    InvParts(s);
    StepKept(s, step, cfg);
    StepStatus(s, step, cfg);
    if h in Next(s, step, cfg).tables.forgotten {
      StepForgets(s, step, cfg, h);
      assert false;
    }
    SameMessageStays(s, step, cfg, h);
  }

  lemma {:induction false} SameMessageStays(s: State, step: Step, cfg: Config, h: Hash)
    requires Inv(s) && Chooses(cfg.first) && Enabled(s, step) && h in s.tables.messages
             && h in Next(s, step, cfg).tables.messages
    ensures Next(s, step, cfg).tables.messages[h] == s.tables.messages[h]
  {
    hide Inv, Enabled, Next, Aggregates.ArrivalFor, Aggregates.AggsLeft, Files.TagsHeld, Files.HoldsKept,
         Files.PinsLeft, OwnTarget, Targets, BalancesAfter;
    NextInv(s, step, cfg);
    if k :| Applies(s, step, cfg, k) {
      assert Effect(s, k, AppliedMessage(s, step, cfg, k), step.outcome.now, cfg, Next(s, step, cfg));
      assert h in Ever(s.tables);
    }
  }

  /** A live message that is neither processed nor an amend stays so: it is never forgotten. */
  lemma {:induction false} UnprocessedStays(run: seq<Step>, cfg: Config, i: nat, h: Hash)
    requires Chooses(cfg.first) && Legal(run, cfg) && i <= |run| && h in At(run[..i], cfg).tables.messages
    requires !IsProcessed(At(run[..i], cfg).tables, h) && !AmendMessage(At(run[..i], cfg).tables.messages[h])
    ensures h in At(run, cfg).tables.messages && !IsProcessed(At(run, cfg).tables, h)
    decreases |run| - i
  {
    hide Inv, Enabled, Next, Reached, IsProcessed, AmendMessage;
    if i == |run| {
      assert run[..i] == run;
    } else {
      OneStep(run, cfg, i);
      RunInv(run[..i], cfg);
      UnprocessedStep(At(run[..i], cfg), run[i], cfg, h);
      UnprocessedStays(run, cfg, i + 1, h);
    }
  }
}
