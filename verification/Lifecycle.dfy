/** The tables that carry a message through its life: pending, status, messages, forgotten, rejected and
    confirmations (`src/aleph/db/accessors/messages.py`, `src/aleph/handlers/message_handler.py`,
    `src/aleph/jobs/job_utils.py`). */
module Lifecycle {
  import opened Wrappers
  import opened Records

  datatype Status = Pending | Processed | Rejected | Forgotten

  datatype PendingRow = PendingRow(hash: Hash, sender: Address, signature: Option<string>, tx: Option<string>,
                                   fetched: bool)

  datatype Kind = PostKind | AggregateKind | StoreKind | VmKind | ForgetKind

  datatype ForgottenRow = ForgottenRow(kind: Kind, sender: Address, signature: Option<string>, forgottenBy: seq<Hash>)

  datatype Confirmation = Confirmation(hash: Hash, tx: string)

  datatype Tables = Tables(pending: map<nat, PendingRow>, status: map<Hash, Status>, messages: map<Hash, Message>,
                           forgotten: map<Hash, ForgottenRow>, rejected: map<Hash, ProcessingError>,
                           confirmations: set<Confirmation>)

  function KindOf(c: Content): Kind {
    match c
    case Post(_, _, _, _) => PostKind
    case Aggregate(_, _) => AggregateKind
    case Store(_, _, _) => StoreKind
    case Vm(_, _) => VmKind
    case Forget(_, _) => ForgetKind
  }

  // ----- the operations

  /** `make_message_status_upsert_query`: an existing status changes only from `only`. */
  function StatusUpserted(status: map<Hash, Status>, h: Hash, to: Status, only: Status): map<Hash, Status> {
    if h !in status || status[h] == only then status[h := to] else status
  }

  predicate SameMessage(a: PendingRow, b: PendingRow) {
    a.sender == b.sender && a.hash == b.hash && a.signature == b.signature
  }

  /** `add_pending_message`: nothing for a copy that is already pending. */
  function Submitted(t: Tables, id: nat, row: PendingRow): Tables {
    if exists k :: k in t.pending && SameMessage(t.pending[k], row) then t
    else t.(status := StatusUpserted(t.status, row.hash, Pending, Rejected), pending := t.pending[id := row])
  }

  /** `mark_pending_message_as_rejected`. */
  function MarkedRejected(t: Tables, h: Hash, e: ProcessingError): Tables {
    t.(status := StatusUpserted(t.status, h, Rejected, Pending), rejected := t.rejected[h := e])
  }

  /** `reject_new_pending_message`: a message without an item hash, or whose hash is known and not rejected, is
      dropped. */
  function RejectedNew(t: Tables, h: Option<Hash>, e: ProcessingError): Tables {
    if h.None? || (h.value in t.status && t.status[h.value] != Rejected) then t else MarkedRejected(t, h.value, e)
  }

  function WithoutPending(t: Tables, id: nat): Tables {
    t.(pending := t.pending - {id})
  }

  /** `reject_existing_pending_message`: an invalid copy of a processed or forgotten message only loses its row. */
  function RejectedExisting(t: Tables, id: nat, e: ProcessingError): Tables
    requires id in t.pending
  {
    var h := t.pending[id].hash;
    if h in t.status && t.status[h] != Pending && t.status[h] != Rejected then WithoutPending(t, id)
    else WithoutPending(MarkedRejected(t, h, e), id)
  }

  /** `handle_processing_error`: reject, or schedule another attempt; missing content goes back to the fetch queue. */
  function ErrorHandled(t: Tables, id: nat, e: ProcessingError, giveUp: bool): Tables
    requires id in t.pending
  {
    if IsInvalid(e) || giveUp then RejectedExisting(t, id, e)
    else if e == ContentUnavailable then t.(pending := t.pending[id := t.pending[id].(fetched := false)])
    else t
  }

  function Confirmed(t: Tables, h: Hash, tx: Option<string>): Tables {
    if tx.Some? then t.(confirmations := t.confirmations + {Confirmation(h, tx.value)}) else t
  }

  /** The table part of `insert_message`. */
  function MessageInserted(t: Tables, id: nat, h: Hash, m: Message): Tables
    requires id in t.pending
  {
    Confirmed(WithoutPending(t.(messages := t.messages[h := m],
                                status := StatusUpserted(t.status, h, Processed, Pending)), id), h, t.pending[id].tx)
  }

  /** `forget_message` for a set of hashes: rows move from messages to forgotten; a second forgotten row for one
      hash would violate the primary key. */
  function MovedToForgotten(t: Tables, hs: set<Hash>, forgetHash: Hash): Result<Tables, ProcessingError> {
    if exists h :: h in hs && h in t.messages && h in t.forgotten then
      Err(Database)
    else
      Ok(t.(forgotten := t.forgotten + Copied(t.messages, hs, forgetHash), status := t.status + Marked(t.status, hs),
            confirmations := Unconfirmed(t.confirmations, hs), messages := t.messages - hs))
  }

  function Copied(messages: map<Hash, Message>, hs: set<Hash>, forgetHash: Hash): map<Hash, ForgottenRow> {
    map h | h in hs && h in messages :: ForgottenRowOf(messages[h], forgetHash)
  }

  function Marked(status: map<Hash, Status>, hs: set<Hash>): map<Hash, Status> {
    map h | h in hs && h in status :: Forgotten
  }

  function Unconfirmed(confirmations: set<Confirmation>, hs: set<Hash>): set<Confirmation> {
    set c | c in confirmations && c.hash !in hs
  }

  function ForgottenRowOf(m: Message, forgetHash: Hash): ForgottenRow {
    ForgottenRow(KindOf(m.content), m.sender, m.signature, [forgetHash])
  }

  /** `append_to_forgotten_by`. */
  function ForgottenAgain(t: Tables, h: Hash, forgetHash: Hash): Tables {
    if h in t.forgotten then
      t.(forgotten := t.forgotten[h := t.forgotten[h].(forgottenBy := t.forgotten[h].forgottenBy + [forgetHash])])
    else t
  }

  // ----- what the operations mean

  /** A message is rejected at once for what is wrong with itself; what may yet arrive, and failures of the node or the
      database, are tried again. */
  lemma {:induction false} InvalidIff(e: ProcessingError)
    ensures IsInvalid(e) <==>
            e in {InvalidFormat, InvalidSignature, PermissionDenied, InsufficientBalance, NoAmendTarget,
                  CannotAmendAmend, StoreUpdatesRevision, NoForgetTarget, ForgetNotAllowed, CannotForgetForget,
                  VmUpdateRefused}
    ensures !IsInvalid(e) <==>
            e in {ContentUnavailable, AmendTargetNotFound, StoreRefNotFound, VmVolumeNotFound, ForgetTargetNotFound,
                  Internal, Database}
  {
  }

  /** A submission adds a row unless a copy with the same sender, hash and signature waits already.  It makes an unknown
      or rejected hash pending, and touches no other status, row or table. */
  lemma {:induction false} SubmittedMeans(t: Tables, id: nat, row: PendingRow)
    requires id !in t.pending
    ensures var t' := Submitted(t, id, row);
            var known := exists k :: k in t.pending && t.pending[k].sender == row.sender
                                     && t.pending[k].hash == row.hash && t.pending[k].signature == row.signature;
            && (known ==> t' == t)
            && (!known ==>
                  && t'.pending == t.pending[id := row] && t'.status.Keys == t.status.Keys + {row.hash}
                  && t'.status[row.hash] ==
                     (if row.hash in t.status && t.status[row.hash] != Rejected then t.status[row.hash] else Pending))
            && (forall h :: h in t.status && h != row.hash ==> h in t'.status && t'.status[h] == t.status[h])
            && t'.messages == t.messages && t'.forgotten == t.forgotten && t'.rejected == t.rejected
            && t'.confirmations == t.confirmations
  {
    if k :| k in t.pending && t.pending[k].sender == row.sender && t.pending[k].hash == row.hash
            && t.pending[k].signature == row.signature {
      assert SameMessage(t.pending[k], row);
    }
  }

  /** A refused message is recorded as rejected if its hash is unknown or rejected already, and dropped otherwise. */
  lemma {:induction false} RefusedMeans(t: Tables, h: Option<Hash>, e: ProcessingError)
    ensures var t' := RejectedNew(t, h, e);
            if h.Some? && (h.value !in t.status || t.status[h.value] == Rejected) then
              t' == t.(status := t.status[h.value := Rejected], rejected := t.rejected[h.value := e])
            else t' == t
  {
    if h.Some? && h.value in t.status && t.status[h.value] == Rejected {
      assert t.status[h.value := Rejected] == t.status;
    }
  }

  /** The row of a failed attempt goes if and only if the error is final or the retries are used up.  The hash is then
      rejected with that error, unless a copy of it was processed or forgotten.  A row that stays changes only on
      missing content, which has to be fetched again.  Nothing else changes. */
  lemma {:induction false} ErrorMeans(t: Tables, id: nat, e: ProcessingError, giveUp: bool)
    requires id in t.pending && t.pending[id].hash in t.status
    ensures var t', row := ErrorHandled(t, id, e, giveUp), t.pending[id];
            && (id !in t'.pending <==> IsInvalid(e) || giveUp)
            && t' == if id in t'.pending then
                       t.(pending := t.pending[id := row.(fetched := e != ContentUnavailable && row.fetched)])
                     else if t.status[row.hash] in {Pending, Rejected} then
                       t.(pending := t.pending - {id}, status := t.status[row.hash := Rejected],
                          rejected := t.rejected[row.hash := e])
                     else t.(pending := t.pending - {id})
  {
    RejectedMeans(t, id, e);
    hide IsInvalid, RejectedExisting;
    var row := t.pending[id];
    assert t.pending[id := row] == t.pending;
  }

  lemma {:induction false} RejectedMeans(t: Tables, id: nat, e: ProcessingError)
    requires id in t.pending && t.pending[id].hash in t.status
    ensures var h := t.pending[id].hash;
            RejectedExisting(t, id, e) ==
            if t.status[h] in {Pending, Rejected} then
              t.(pending := t.pending - {id}, status := t.status[h := Rejected], rejected := t.rejected[h := e])
            else t.(pending := t.pending - {id})
  {
    var h := t.pending[id].hash;
    if t.status[h] == Rejected {
      assert t.status[h := Rejected] == t.status;
    }
  }

  /** The rows of a message: its kind, signer and signature outlive it, and the list starts with the FORGET. */
  lemma {:induction false} ForgottenRowMeans(m: Message, g: Hash)
    ensures var row := ForgottenRowOf(m, g);
            && row.sender == m.sender && row.signature == m.signature && row.forgottenBy == [g]
            && (row.kind == PostKind <==> m.content.Post?) && (row.kind == AggregateKind <==> m.content.Aggregate?)
            && (row.kind == StoreKind <==> m.content.Store?) && (row.kind == VmKind <==> m.content.Vm?)
            && (row.kind == ForgetKind <==> m.content.Forget?)
  {
  }

  // ----- the invariant

  /** What the status of a hash says about the other tables. */
  ghost predicate StatusOk(t: Tables, h: Hash) {
    && (h in t.messages ==> h in t.status && h !in t.forgotten)
    && (h in t.status && t.status[h] == Processed ==> h in t.messages)
    && ((h in t.status && t.status[h] == Forgotten) <==> h in t.forgotten)
    && (h in t.status && t.status[h] == Rejected ==> h in t.rejected)
  }

  ghost predicate Consistent(t: Tables) {
    && (forall h :: StatusOk(t, h))
    && (forall c :: c in t.confirmations ==> c.hash in t.messages)
    && (forall h :: h in t.forgotten ==> t.forgotten[h].kind != ForgetKind && t.forgotten[h].forgottenBy != [])
    && (forall k :: k in t.pending ==> t.pending[k].hash in t.status && IsItemHash(t.pending[k].hash))
  }

  /** The hashes of all messages that were ever processed. */
  function Ever(t: Tables): set<Hash> {
    t.messages.Keys + t.forgotten.Keys
  }

  predicate IsProcessed(t: Tables, h: Hash) {
    h in t.status && t.status[h] == Processed
  }

  /** The live messages that stay are processed exactly if they were. */
  ghost predicate StatusKept(t: Tables, t': Tables) {
    forall h :: h in t.messages && h in t'.messages ==> (IsProcessed(t', h) <==> IsProcessed(t, h))
  }

  /** A forgotten row only ever gains further FORGETs at its end. */
  predicate Extends(a: ForgottenRow, b: ForgottenRow) {
    b.(forgottenBy := a.forgottenBy) == a && a.forgottenBy <= b.forgottenBy
  }

  ghost predicate ForgottenKept(a: map<Hash, ForgottenRow>, b: map<Hash, ForgottenRow>) {
    forall h :: h in a ==> h in b && Extends(a[h], b[h])
  }

  lemma {:induction false} SubmittedConsistent(t: Tables, id: nat, row: PendingRow)
    requires Consistent(t) && IsItemHash(row.hash)
    ensures Consistent(Submitted(t, id, row)) && Submitted(t, id, row).messages == t.messages
    ensures Submitted(t, id, row).forgotten == t.forgotten && StatusKept(t, Submitted(t, id, row))
  {
    var t' := Submitted(t, id, row);
    forall h ensures StatusOk(t', h) {
      assert StatusOk(t, h);
    }
  }

  lemma {:induction false} RejectedConsistent(t: Tables, h: Hash, e: ProcessingError)
    requires Consistent(t)
    ensures Consistent(MarkedRejected(t, h, e))
  {
    var t' := MarkedRejected(t, h, e);
    forall k ensures StatusOk(t', k) {
      assert StatusOk(t, k);
    }
  }

  lemma {:induction false} WithoutPendingConsistent(t: Tables, id: nat)
    requires Consistent(t)
    ensures Consistent(WithoutPending(t, id))
  {
    forall k ensures StatusOk(WithoutPending(t, id), k) {
      assert StatusOk(t, k);
    }
  }

  lemma {:induction false} RejectedExistingConsistent(t: Tables, id: nat, e: ProcessingError)
    requires Consistent(t) && id in t.pending
    ensures Consistent(RejectedExisting(t, id, e))
  {
    RejectedConsistent(t, t.pending[id].hash, e);
    WithoutPendingConsistent(t, id);
    WithoutPendingConsistent(MarkedRejected(t, t.pending[id].hash, e), id);
  }

  lemma {:induction false} RefetchConsistent(t: Tables, id: nat, fetched: bool)
    requires Consistent(t) && id in t.pending
    ensures Consistent(t.(pending := t.pending[id := t.pending[id].(fetched := fetched)]))
  {
    var t' := t.(pending := t.pending[id := t.pending[id].(fetched := fetched)]);
    forall k ensures StatusOk(t', k) {
      assert StatusOk(t, k);
    }
  }

  lemma {:induction false} ErrorHandledStatus(t: Tables, id: nat, e: ProcessingError, giveUp: bool)
    requires id in t.pending
    ensures StatusKept(t, ErrorHandled(t, id, e, giveUp))
  {
    RejectedStatus(t, id, e);
    hide IsInvalid, RejectedExisting;
  }

  lemma {:induction false} RejectedStatus(t: Tables, id: nat, e: ProcessingError)
    requires id in t.pending
    ensures StatusKept(t, RejectedExisting(t, id, e))
  {
  }

  lemma {:induction false} ErrorHandledConsistent(t: Tables, id: nat, e: ProcessingError, giveUp: bool)
    requires Consistent(t) && id in t.pending
    ensures Consistent(ErrorHandled(t, id, e, giveUp))
    ensures ErrorHandled(t, id, e, giveUp).messages == t.messages
            && ErrorHandled(t, id, e, giveUp).forgotten == t.forgotten
    ensures StatusKept(t, ErrorHandled(t, id, e, giveUp))
  {
    hide Consistent, IsInvalid, StatusKept, StatusUpserted;
    ErrorHandledStatus(t, id, e, giveUp);
    RejectedExistingConsistent(t, id, e);
    RefetchConsistent(t, id, false);
  }

  lemma {:induction false} ConfirmedConsistent(t: Tables, h: Hash, tx: Option<string>)
    requires Consistent(t) && h in t.messages
    ensures Consistent(Confirmed(t, h, tx))
  {
    forall k ensures StatusOk(Confirmed(t, h, tx), k) {
      assert StatusOk(t, k);
    }
  }

  lemma {:induction false} MessageInsertedConsistent(t: Tables, id: nat, h: Hash, m: Message)
    requires Consistent(t) && id in t.pending && t.pending[id].hash == h && h !in Ever(t)
    ensures Consistent(MessageInserted(t, id, h, m))
    ensures MessageInserted(t, id, h, m).messages == t.messages[h := m]
            && MessageInserted(t, id, h, m).forgotten == t.forgotten
    ensures MessageInserted(t, id, h, m).status.Keys == t.status.Keys && h in t.status
    ensures forall k :: k in t.status && k != h ==> MessageInserted(t, id, h, m).status[k] == t.status[k]
    ensures IsProcessed(MessageInserted(t, id, h, m), h) <==> t.status[h] == Pending
  {
    var t1 := t.(messages := t.messages[h := m], status := StatusUpserted(t.status, h, Processed, Pending));
    assert StatusOk(t, h);
    forall k ensures StatusOk(t1, k) {
      assert StatusOk(t, k);
    }
    WithoutPendingConsistent(t1, id);
    ConfirmedConsistent(WithoutPending(t1, id), h, t.pending[id].tx);
  }

  /** The tables before and after some live messages move to the forgotten ones. */
  ghost predicate Moved(t: Tables, hs: set<Hash>, forgetHash: Hash, t': Tables) {
    && hs <= t.messages.Keys
    && t'.messages == t.messages - hs && t'.forgotten.Keys == t.forgotten.Keys + hs
    && (forall h :: h in t.forgotten && h !in hs ==> t'.forgotten[h] == t.forgotten[h])
    && (forall h :: h in hs ==> t'.forgotten[h] == ForgottenRowOf(t.messages[h], forgetHash))
    && t'.status.Keys == t.status.Keys
    && (forall h :: h in t.status ==> t'.status[h] == if h in hs then Forgotten else t.status[h])
    && (forall c :: c in t'.confirmations <==> c in t.confirmations && c.hash !in hs)
    && t'.pending == t.pending && t'.rejected == t.rejected
  }

  lemma {:induction false} MovedShape(t: Tables, hs: set<Hash>, forgetHash: Hash)
    requires Consistent(t) && hs <= t.messages.Keys
    ensures MovedToForgotten(t, hs, forgetHash).Ok?
            && Moved(t, hs, forgetHash, MovedToForgotten(t, hs, forgetHash).value)
  {
    forall h | h in t.messages ensures h !in t.forgotten {
      assert StatusOk(t, h);
    }
  }

  /** Moving two disjoint sets one after the other is moving their union. */
  lemma {:induction false} MovedTwice(t: Tables, a: set<Hash>, t1: Tables, b: set<Hash>, t2: Tables, forgetHash: Hash)
    requires Moved(t, a, forgetHash, t1) && Moved(t1, b, forgetHash, t2)
    ensures Moved(t, a + b, forgetHash, t2)
  {
    assert t.messages - a - b == t.messages - (a + b);
  }

  /** Moving live messages that are no FORGETs keeps the tables consistent and the processed hashes the same. */
  lemma {:induction false} MovedConsistent(t: Tables, hs: set<Hash>, forgetHash: Hash, t': Tables)
    requires Consistent(t) && Moved(t, hs, forgetHash, t') && forall h :: h in hs ==> !t.messages[h].content.Forget?
    ensures Consistent(t') && Ever(t') == Ever(t)
  {
    forall k ensures StatusOk(t', k) {
      assert StatusOk(t, k);
    }
  }

  lemma {:induction false} ForgottenAgainConsistent(t: Tables, h: Hash, forgetHash: Hash)
    requires Consistent(t)
    ensures Consistent(ForgottenAgain(t, h, forgetHash)) && ForgottenAgain(t, h, forgetHash).messages == t.messages
    ensures ForgottenAgain(t, h, forgetHash).forgotten.Keys == t.forgotten.Keys
    ensures h in t.forgotten ==>
              && ForgottenAgain(t, h, forgetHash).forgotten[h].forgottenBy == t.forgotten[h].forgottenBy + [forgetHash]
              && ForgottenKept(t.forgotten, ForgottenAgain(t, h, forgetHash).forgotten)
  {
    forall k ensures StatusOk(ForgottenAgain(t, h, forgetHash), k) {
      assert StatusOk(t, k);
    }
  }

  /** A live message need not have the status `Processed`: one copy is rejected, another is processed. */
  lemma {:induction false} RejectedThenProcessed(h: Hash, a: PendingRow, b: PendingRow, m: Message)
    requires a.hash == h && b.hash == h && !SameMessage(a, b) && a.tx.None? && b.tx.None?
    ensures var t0 := Tables(map[], map[], map[], map[], map[], {});
            var t1 := Submitted(Submitted(t0, 0, a), 1, b);
            var t2 := ErrorHandled(t1, 0, InvalidSignature, false);
            1 in t2.pending && h in MessageInserted(t2, 1, h, m).messages
              && MessageInserted(t2, 1, h, m).status[h] == Rejected
  {
    var t0 := Tables(map[], map[], map[], map[], map[], {});
    var t1 := Submitted(t0, 0, a);
    assert t1.pending[0] == a;
    var t2 := Submitted(t1, 1, b);
    assert 0 in t2.pending && 1 in t2.pending;
  }
}
