/** Where the rows come from: the fields of every live and every forgotten message against the submission and the
    attempt that brought it, what copies of a known message do, and exactly what a FORGET takes away. */
module NodeOrigins {
  import opened Wrappers
  import opened Records
  import opened Lifecycle
  import opened Node
  import opened NodeInvariant
  import opened NodeForget
  import opened NodeSteps
  import opened NodeRuns
  import Posts
  import Aggregates
  import Files
  import Vms

  // ----- one attempt

  /** The message row that an attempt with this pending row and this fetched body leads to. */
  predicate ComesFrom(m: Message, p: PendingRow, b: Body) {
    && m.sender == p.sender && m.signature == p.signature
    && m.inline == b.inline && m.address == b.address && m.time == b.time && m.content == b.content
  }

  /** The step processes the message for the first time, with the fetched body and no objection from outside; the row
      is made of the pending row and the body. */
  ghost predicate StoredBy(s: State, step: Step, cfg: Config, h: Hash, m: Message)
    requires Chooses(cfg.first)
  {
    && Applies(s, step, cfg, h) && step.outcome.fetch.Ok? && step.outcome.verdict.None?
    && ComesFrom(m, s.tables.pending[step.id], step.outcome.fetch.value)
  }

  lemma {:induction false} AppliedOutcome(s: State, step: Step, cfg: Config, h: Hash)
    requires Chooses(cfg.first) && Applies(s, step, cfg, h)
    ensures StoredBy(s, step, cfg, h, AppliedMessage(s, step, cfg, h))
  {
    hide CheckDependencies, CheckPermissions, Inserted, Handled, Fetched;
  }

  /** What a first processing stores: the message as submitted and fetched, a confirmation if it came with a
      transaction, a pin for a content that is a file of its own; the pending row goes, and the others stay. */
  lemma {:induction false} AppliedRows(s: State, step: Step, cfg: Config, h: Hash)
    requires Inv(s) && Chooses(cfg.first) && Enabled(s, step) && Applies(s, step, cfg, h)
    ensures var t, t', o := s.tables, Next(s, step, cfg).tables, step.outcome;
            && o.fetch.Ok? && o.verdict.None? && h in t'.messages
            && ComesFrom(t'.messages[h], t.pending[step.id], o.fetch.value)
            && t'.pending == t.pending - {step.id} && t'.rejected == t.rejected
            && (forall tx :: Confirmation(h, tx) in t'.confirmations <==> t.pending[step.id].tx == Some(tx))
            && (forall c: Confirmation :: c.hash != h ==>
                  (c in t'.confirmations <==> c in t.confirmations && c.hash in t'.messages))
    ensures var f, f', p, b := s.files, Next(s, step, cfg).files, s.tables.pending[step.id], step.outcome.fetch.value;
            && f'.contentPins == (if b.inline then f.contentPins
                                  else f.contentPins[h := Files.ContentPin(h, p.sender, b.time)])
            && f'.txPins == f.txPins
  {
    hide Enabled, Next, Attempted, ForgetEffect, Added, StatusKept, Matches, Posts.PostsOk, Aggregates.TablesOk,
         FilesInv, Vms.VolumesPinned;
    NextInv(s, step, cfg);
    AppliedOutcome(s, step, cfg, h);
    var s', m := Next(s, step, cfg), AppliedMessage(s, step, cfg, h);
    assert Effect(s, h, m, step.outcome.now, cfg, s') && Booked(s, step.id, h, m, s');
  }

  /** An attempt at a message that was never processed fails with the error of the fetch, if there was one. */
  lemma {:induction false} FetchErrorStops(s: State, id: nat, o: Outcome, cfg: Config)
    requires Chooses(cfg.first) && id in s.tables.pending && s.tables.pending[id].hash !in Ever(s.tables)
             && o.fetch.Err?
    ensures Attempted(s, id, o, cfg) == Err(o.fetch.error)
  {
  }

  // ----- copies

  /** A copy of a live message with the same signature confirms it, if it came with a transaction; nothing else changes
      but that its pending row goes. */
  lemma {:induction false} CopyConfirms(s: State, id: nat, o: Outcome, cfg: Config)
    requires Inv(s) && Chooses(cfg.first) && id in s.tables.pending && s.tables.pending[id].fetched
    requires var t, p := s.tables, s.tables.pending[id];
             p.hash in t.messages && p.signature == t.messages[p.hash].signature
    ensures var t, p := s.tables, s.tables.pending[id];
            Attempted(s, id, o, cfg).Ok? && Next(s, Process(id, o), cfg) ==
              s.(tables := t.(pending := t.pending - {id},
                              confirmations := if p.tx.None? then t.confirmations
                                               else t.confirmations + {Confirmation(p.hash, p.tx.value)}))
  {
    hide Inv, ProcessedNew, ErrorHandled;
  }

  /** With another signature it fails, and only its pending row goes; that the message is live does not change. */
  lemma {:induction false} CopyRefused(s: State, id: nat, o: Outcome, cfg: Config)
    requires Inv(s) && Chooses(cfg.first) && id in s.tables.pending && s.tables.pending[id].fetched
    requires var t, p := s.tables, s.tables.pending[id];
             p.hash in t.messages && p.signature != t.messages[p.hash].signature
    ensures Attempted(s, id, o, cfg) == Err(InvalidSignature)
    ensures var t, s' := s.tables, Next(s, Process(id, o), cfg);
            && s'.tables.pending == t.pending - {id} && s'.tables.messages == t.messages
            && s'.tables.forgotten == t.forgotten && s'.tables.confirmations == t.confirmations
            && s' == s.(tables := s'.tables)
  {
    hide Inv, Consistent;
    InvParts(s);
    LiveHasStatus(s.tables, s.tables.pending[id].hash);
    ErrorMeans(s.tables, id, InvalidSignature, o.giveUp);
    hide ErrorHandled, ProcessedNew;
  }

  lemma {:induction false} LiveHasStatus(t: Tables, h: Hash)
    requires Consistent(t) && h in Ever(t)
    ensures h in t.status && (h in t.forgotten <==> t.status[h] == Forgotten)
  {
    assert StatusOk(t, h);
  }

  /** A copy of a forgotten message only loses its pending row; it does not bring the message back. */
  lemma {:induction false} CopyOfForgotten(s: State, id: nat, o: Outcome, cfg: Config)
    requires Inv(s) && Chooses(cfg.first) && id in s.tables.pending && s.tables.pending[id].fetched
             && s.tables.pending[id].hash in s.tables.forgotten
    ensures var t, p := s.tables, s.tables.pending[id];
            && (Attempted(s, id, o, cfg).Ok? <==> p.signature == t.forgotten[p.hash].signature)
            && Next(s, Process(id, o), cfg) == s.(tables := t.(pending := t.pending - {id}))
  {
    hide Inv, Consistent;
    InvParts(s);
    LiveHasStatus(s.tables, s.tables.pending[id].hash);
    ErrorMeans(s.tables, id, InvalidSignature, o.giveUp);
    hide ErrorHandled, ProcessedNew;
  }

  // ----- what comes in from outside

  /** A message that is refused on arrival is recorded with its error exactly when its hash is unknown or rejected. */
  lemma {:induction false} RefuseStep(s: State, h: Option<Hash>, e: ProcessingError, cfg: Config)
    requires Chooses(cfg.first)
    ensures var t := s.tables;
            Next(s, Refuse(h, e), cfg) ==
            if h.Some? && (h.value !in t.status || t.status[h.value] == Rejected) then
              s.(tables := t.(status := t.status[h.value := Rejected], rejected := t.rejected[h.value := e]))
            else s
  {
    RefusedMeans(s.tables, h, e);
  }

  /** A fetch that succeeds marks the row as fetched and makes the file known; nothing else changes. */
  lemma {:induction false} FetchStep(s: State, id: nat, file: Option<Hash>, cfg: Config)
    requires Chooses(cfg.first) && id in s.tables.pending && !s.tables.pending[id].fetched
    ensures var s', p := Next(s, FetchDone(id, file), cfg), s.tables.pending[id];
            && s'.tables.pending.Keys == s.tables.pending.Keys
            && s'.tables.pending[id] == PendingRow(p.hash, p.sender, p.signature, p.tx, true)
            && (forall k :: k in s.tables.pending && k != id ==> s'.tables.pending[k] == s.tables.pending[k])
            && (forall f :: f in s'.files.files <==> f in s.files.files || file == Some(f))
            && s' == s.(tables := s.tables.(pending := s'.tables.pending), files := s.files.(files := s'.files.files))
  {
  }

  /** A fetch that fails drops the row if and only if the error is final or the retries are used up, and then records
      the error unless a copy was processed or forgotten; otherwise the row waits as it was. */
  lemma {:induction false} FetchFailedStep(s: State, id: nat, e: ProcessingError, giveUp: bool, cfg: Config)
    requires Inv(s) && Chooses(cfg.first) && id in s.tables.pending && !s.tables.pending[id].fetched
    ensures s.tables.pending[id].hash in s.tables.status
    ensures var t, h := s.tables, s.tables.pending[id].hash;
            Next(s, FetchFailed(id, e, giveUp), cfg) ==
            if !IsInvalid(e) && !giveUp then s
            else if t.status[h] in {Pending, Rejected} then
              s.(tables := t.(pending := t.pending - {id}, status := t.status[h := Rejected],
                              rejected := t.rejected[h := e]))
            else s.(tables := t.(pending := t.pending - {id}))
  {
    hide Matches, Posts.PostsOk, Aggregates.TablesOk, FilesInv, Vms.VolumesPinned, IsInvalid;
    ErrorMeans(s.tables, id, e, giveUp);
    hide ErrorHandled;
    var t := s.tables;
    assert t.pending[id := t.pending[id]] == t.pending;
  }

  // ----- origins over runs

  /** The rows are of the same submission; only whether the content was fetched may differ. */
  predicate SameSubmission(a: PendingRow, b: PendingRow) {
    a.hash == b.hash && a.sender == b.sender && a.signature == b.signature && a.tx == b.tx
  }

  lemma {:induction false} SubmittedPending(t: Tables, k: nat, row: PendingRow, id: nat)
    requires k !in t.pending && id in Submitted(t, k, row).pending
    ensures var p := Submitted(t, k, row).pending[id];
            if id in t.pending then p == t.pending[id] else id == k && p == row
  {
  }

  lemma {:induction false} ErrorPending(t: Tables, k: nat, e: ProcessingError, giveUp: bool, id: nat)
    requires k in t.pending && id in ErrorHandled(t, k, e, giveUp).pending
    ensures id in t.pending && SameSubmission(ErrorHandled(t, k, e, giveUp).pending[id], t.pending[id])
  {
  }

  lemma {:induction false} StepPending(s: State, step: Step, cfg: Config, id: nat)
    requires Inv(s) && Chooses(cfg.first) && Enabled(s, step) && id in Next(s, step, cfg).tables.pending
    ensures var p := Next(s, step, cfg).tables.pending[id];
            if id in s.tables.pending then SameSubmission(p, s.tables.pending[id])
            else step == Submit(id, p) && IsItemHash(p.hash)
  {
    hide Inv, Attempted, IsItemHash, ErrorHandled, Submitted, CollectionOk, Files.Expired;
    match step {
      case Process(k, o) => ProcessPending(s, k, o, cfg, id);
      case Submit(k, row) => SubmittedPending(s.tables, k, row, id);
      case FetchFailed(k, e, giveUp) => ErrorPending(s.tables, k, e, giveUp, id);
      case _ =>
    }
  }

  lemma {:induction false} ProcessPending(s: State, k: nat, o: Outcome, cfg: Config, id: nat)
    requires Inv(s) && Chooses(cfg.first) && k in s.tables.pending && s.tables.pending[k].fetched
    requires id in Next(s, Process(k, o), cfg).tables.pending
    ensures id in s.tables.pending
            && SameSubmission(Next(s, Process(k, o), cfg).tables.pending[id], s.tables.pending[id])
  {
    hide Inv, ProcessedNew, Effect, Quiet, ErrorHandled;
    NextInv(s, Process(k, o), cfg);
    var h := s.tables.pending[k].hash;
    if Applies(s, Process(k, o), cfg, h) {
      var m := AppliedMessage(s, Process(k, o), cfg, h);
      assert Booked(s, k, h, m, Next(s, Process(k, o), cfg));
    } else if Attempted(s, k, o, cfg).Err? {
      ErrorPending(s.tables, k, Attempted(s, k, o, cfg).error, o.giveUp, id);
    }
  }

  /** A submission with that number, before the point `i` of the run, that the row comes from. */
  ghost predicate SubmittedAs(run: seq<Step>, j: int, i: int, id: nat, p: PendingRow) {
    0 <= j < i <= |run| && run[j].Submit? && run[j].id == id && SameSubmission(run[j].row, p)
  }

  /** Every pending row is the row of an earlier submission. */
  lemma {:induction false} PendingOrigin(run: seq<Step>, cfg: Config, i: nat, id: nat)
    requires Chooses(cfg.first) && Legal(run, cfg) && i <= |run| && id in At(run[..i], cfg).tables.pending
    ensures exists j :: SubmittedAs(run, j, i, id, At(run[..i], cfg).tables.pending[id])
  {
    assert i > 0;
    hide Inv, Enabled, Next, Reached;
    OneStep(run, cfg, i - 1);
    RunInv(run[..i - 1], cfg);
    StepPending(At(run[..i - 1], cfg), run[i - 1], cfg, id);
    var p := At(run[..i], cfg).tables.pending[id];
    if id in At(run[..i - 1], cfg).tables.pending {
      PendingOrigin(run, cfg, i - 1, id);
      var j :| SubmittedAs(run, j, i - 1, id, At(run[..i - 1], cfg).tables.pending[id]);
      assert SubmittedAs(run, j, i, id, p);
    } else {
      assert SubmittedAs(run, i - 1, i, id, p);
    }
  }

  ghost predicate StoredAt(run: seq<Step>, cfg: Config, i: int, h: Hash, m: Message)
    requires Chooses(cfg.first)
  {
    0 <= i < |run| && StoredBy(At(run[..i], cfg), run[i], cfg, h, m)
  }

  lemma {:induction false} StoredEarlier(run: seq<Step>, cfg: Config, n: nat, i: int, h: Hash, m: Message)
    requires Chooses(cfg.first) && n <= |run| && StoredAt(run[..n], cfg, i, h, m)
    ensures StoredAt(run, cfg, i, h, m)
  {
    hide At, StoredBy;
    assert run[..i] == run[..n][..i];
  }

  lemma {:induction false} StepMessages(s: State, step: Step, cfg: Config, h: Hash)
    requires Inv(s) && Chooses(cfg.first) && Enabled(s, step) && h in Next(s, step, cfg).tables.messages
    ensures var m := Next(s, step, cfg).tables.messages[h];
            if h in s.tables.messages then m == s.tables.messages[h] else StoredBy(s, step, cfg, h, m)
  {
    hide Inv, Enabled, Next, StoredBy, Attempted, Aggregates.ArrivalFor, Aggregates.AggsLeft, Files.TagsHeld,
         Files.HoldsKept, Files.PinsLeft, Targets, BalancesAfter, ForgottenKept, ForgottenFor, StatusKept, Booked;
    NextInv(s, step, cfg);
    if h in s.tables.messages {
      SameMessageStays(s, step, cfg, h);
    } else {
      assert exists k :: Applies(s, step, cfg, k);
      var k :| Applies(s, step, cfg, k);
      assert Effect(s, k, AppliedMessage(s, step, cfg, k), step.outcome.now, cfg, Next(s, step, cfg));
      AppliedOutcome(s, step, cfg, k);
    }
  }

  /** Every live message was processed at some step of the run, from whose pending row and fetched body its fields
      come; and it never changed since. */
  lemma {:induction false} MessageOrigin(run: seq<Step>, cfg: Config, h: Hash)
    requires Chooses(cfg.first) && Legal(run, cfg) && h in At(run, cfg).tables.messages
    ensures exists i :: StoredAt(run, cfg, i, h, At(run, cfg).tables.messages[h])
    decreases |run|
  {
    assert run != [];
    hide Inv, Enabled, Next, Reached, Legal, At, StoredBy;
    var n := |run| - 1;
    var m := At(run, cfg).tables.messages[h];
    assert run[..n + 1] == run;
    OneStep(run, cfg, n);
    RunInv(run[..n], cfg);
    StepMessages(At(run[..n], cfg), run[n], cfg, h);
    if h in At(run[..n], cfg).tables.messages {
      MessageOrigin(run[..n], cfg, h);
      var i :| StoredAt(run[..n], cfg, i, h, m);
      StoredEarlier(run, cfg, n, i, h, m);
    } else {
      assert StoredAt(run, cfg, n, h, m);
    }
  }

  /** The submission `j`, the attempt `i` and the fetched body that a live message comes from. */
  ghost predicate Authored(run: seq<Step>, cfg: Config, j: int, i: int, h: Hash, m: Message)
    requires Chooses(cfg.first)
  {
    && 0 <= j < i < |run| && run[j].Submit? && run[i].Process? && run[j].id == run[i].id && run[i].outcome.fetch.Ok?
    && run[j].row.hash == h && m.sender == run[j].row.sender && m.signature == run[j].row.signature
    && var b := run[i].outcome.fetch.value;
       m.inline == b.inline && m.address == b.address && m.time == b.time && m.content == b.content
  }

  /** Every live message has the hash, sender and signature of a message that was submitted, and the content that was
      fetched for it afterwards. */
  lemma {:induction false} LiveAuthored(run: seq<Step>, cfg: Config, h: Hash)
    requires Chooses(cfg.first) && Legal(run, cfg) && h in At(run, cfg).tables.messages
    ensures exists j, i :: Authored(run, cfg, j, i, h, At(run, cfg).tables.messages[h])
  {
    hide Inv, Enabled, Next, Reached, Legal, At, Attempted;
    MessageOrigin(run, cfg, h);
    var m := At(run, cfg).tables.messages[h];
    var i :| StoredAt(run, cfg, i, h, m);
    PendingOrigin(run, cfg, i, run[i].id);
    var j :| SubmittedAs(run, j, i, run[i].id, At(run[..i], cfg).tables.pending[run[i].id]);
    assert Authored(run, cfg, j, i, h, m);
  }

  ghost predicate LeftBy(run: seq<Step>, cfg: Config, i: int, f: Hash, m: Message, row: ForgottenRow)
    requires Chooses(cfg.first)
  {
    StoredAt(run, cfg, i, f, m) && RowFor(row, m)
  }

  /** Every forgotten row keeps kind, sender and signature of a message that was processed at some step of the run. */
  lemma {:induction false} ForgottenOrigin(run: seq<Step>, cfg: Config, f: Hash)
    requires Chooses(cfg.first) && Legal(run, cfg) && f in At(run, cfg).tables.forgotten
    ensures exists i, m :: LeftBy(run, cfg, i, f, m, At(run, cfg).tables.forgotten[f])
    decreases |run|
  {
    assert run != [];
    hide Inv, Enabled, Next, Reached, Legal, At, StoredAt, RowFor;
    var n := |run| - 1;
    var row := At(run, cfg).tables.forgotten[f];
    assert run[..n + 1] == run;
    OneStep(run, cfg, n);
    RunInv(run[..n], cfg);
    StepForgotten(At(run[..n], cfg), run[n], cfg, f);
    if f in At(run[..n], cfg).tables.forgotten {
      ForgottenOrigin(run[..n], cfg, f);
      var i, m :| LeftBy(run[..n], cfg, i, f, m, At(run[..n], cfg).tables.forgotten[f]);
      StoredEarlier(run, cfg, n, i, f, m);
      assert LeftBy(run, cfg, i, f, m, row);
    } else {
      MessageOrigin(run[..n], cfg, f);
      var m := At(run[..n], cfg).tables.messages[f];
      var i :| StoredAt(run[..n], cfg, i, f, m);
      StoredEarlier(run, cfg, n, i, f, m);
      assert LeftBy(run, cfg, i, f, m, row);
    }
  }

  lemma {:induction false} StepForgotten(s: State, step: Step, cfg: Config, f: Hash)
    requires Inv(s) && Chooses(cfg.first) && Enabled(s, step) && f in Next(s, step, cfg).tables.forgotten
    ensures var row := Next(s, step, cfg).tables.forgotten[f];
            if f in s.tables.forgotten then forall m :: RowFor(s.tables.forgotten[f], m) ==> RowFor(row, m)
            else f in s.tables.messages && RowFor(row, s.tables.messages[f])
  {
    hide Inv, Enabled, Next, Applies, OwnSelected, Amends;
    StepKept(s, step, cfg);
    if f !in s.tables.forgotten {
      StepForgets(s, step, cfg, f);
    }
  }

  // ----- exactly what a FORGET takes

  /** The FORGET names the live message, or one that it amends. */
  ghost predicate Takes(t: Tables, b: Body, f: Hash)
    requires f in t.messages
  {
    Selects(b, f, t.messages[f]) || exists o :: o in t.messages && Selects(b, o, t.messages[o])
                                                && Amends(t.messages[f], o)
  }

  lemma {:induction false} AmendGoes(s: State, s': State, a: Hash, o: Hash)
    requires Inv(s') && a in s.tables.messages && Amends(s.tables.messages[a], o) && o in s'.tables.forgotten
    requires a in Ever(s'.tables) && (a in s'.tables.messages ==> s'.tables.messages[a] == s.tables.messages[a])
    ensures a in s'.tables.forgotten
  {
    hide Consistent, ElementsMatch, PinsMatch, VmsMatch, Aggregates.TablesOk, FilesInv, Vms.VolumesPinned;
    InvParts(s');
    if a in s'.tables.messages {
      AmendsMeans(s', a, o);
      AmendedIsPost(s'.posts, a, o);
      assert false;
    }
  }

  /** A FORGET that succeeds forgets exactly the live messages it names and their amends.  All named ones that are not
      amends were processed messages of its own sender. */
  lemma {:induction false} ForgetExact(s: State, step: Step, cfg: Config, g: Hash, f: Hash)
    requires Inv(s) && Chooses(cfg.first) && Enabled(s, step) && Applies(s, step, cfg, g)
    requires step.Process? && step.outcome.fetch.Ok? && step.outcome.fetch.value.content.Forget?
             && f in s.tables.messages
    ensures f in Next(s, step, cfg).tables.forgotten <==> Takes(s.tables, step.outcome.fetch.value, f)
  {
    hide Inv, Enabled, Next, Applies, Amends, Selects, RowFor;
    var b, s' := step.outcome.fetch.value, Next(s, step, cfg);
    InvParts(s);
    NextInv(s, step, cfg);
    if f in s'.tables.forgotten {
      StepForgets(s, step, cfg, f);
    }
    if Selects(b, f, s.tables.messages[f]) {
      TargetsForgotten(s, step, cfg, g, f);
    }
    if o :| o in s.tables.messages && Selects(b, o, s.tables.messages[o]) && Amends(s.tables.messages[f], o) {
      TargetsForgotten(s, step, cfg, g, o);
      StepKept(s, step, cfg);
      if f in s'.tables.messages {
        SameMessageStays(s, step, cfg, f);
      }
      AmendGoes(s, s', f, o);
    }
  }

  /** Steps that process anything but a FORGET forget nothing. */
  lemma {:induction false} OnlyForgetsForget(s: State, step: Step, cfg: Config, f: Hash)
    requires Inv(s) && Chooses(cfg.first) && Enabled(s, step)
    requires f in Next(s, step, cfg).tables.forgotten && f !in s.tables.forgotten
    ensures step.Process? && step.outcome.fetch.Ok? && step.outcome.fetch.value.content.Forget?
    ensures step.id in s.tables.pending
            && var forgets := Next(s, step, cfg).tables.forgotten[f].forgottenBy;
               forgets != [] && forgets[0] == s.tables.pending[step.id].hash
  {
    hide Inv, Enabled, Next, Attempted, Amends, OwnSelected;
    StepForgets(s, step, cfg, f);
  }
}
