/** The message tables as an object, with the accessors of `src/aleph/db/accessors/messages.py` and the table writes of
    `src/aleph/handlers/message_handler.py` and `src/aleph/jobs/job_utils.py`. */
module MessageStores {
  import opened Wrappers
  import opened Records
  import opened Lifecycle

  lemma {:induction false} CopiedOneMore(messages: map<Hash, Message>, forgotten: map<Hash, ForgottenRow>, a: set<Hash>,
                                         x: Hash, g: Hash)
    requires x !in a
    ensures forgotten + Copied(messages, a + {x}, g) == forgotten + Copied(messages, a, g) +
            Copied(messages - a, {x}, g)
  {
  }

  lemma {:induction false} MarkedOneMore(status: map<Hash, Status>, a: set<Hash>, x: Hash)
    ensures status + Marked(status, a + {x}) == status + Marked(status, a) + Marked(status + Marked(status, a), {x})
  {
  }

  lemma {:induction false} UnconfirmedOneMore(cs: set<Confirmation>, a: set<Hash>, x: Hash)
    ensures Unconfirmed(cs, a + {x}) == Unconfirmed(Unconfirmed(cs, a), {x})
  {
  }

  lemma {:induction false} MovedOkOneMore(t: Tables, a: set<Hash>, x: Hash, g: Hash)
    requires x !in a && MovedToForgotten(t, a, g).Ok?
    ensures var t1 := MovedToForgotten(t, a, g).value;
            && (MovedToForgotten(t1, {x}, g).Err? <==> x in t.messages && x in t.forgotten)
            && (MovedToForgotten(t, a + {x}, g).Err? <==> x in t.messages && x in t.forgotten)
  {
    var t1 := MovedToForgotten(t, a, g).value;
    if x in t.messages && x in t.forgotten {
      assert x in t1.messages && x in t1.forgotten && x in {x} && x in a + {x};
    }
  }

  /** Moving messages one by one moves the set. */
  lemma {:induction false} MovedOneMore(t: Tables, a: set<Hash>, x: Hash, g: Hash)
    requires x !in a && MovedToForgotten(t, a, g).Ok?
    ensures MovedToForgotten(t, a + {x}, g) == MovedToForgotten(MovedToForgotten(t, a, g).value, {x}, g)
  {
    hide Copied, Marked, Unconfirmed;
    MovedOkOneMore(t, a, x, g);
    CopiedOneMore(t.messages, t.forgotten, a, x, g);
    MarkedOneMore(t.status, a, x);
    UnconfirmedOneMore(t.confirmations, a, x);
    assert t.messages - (a + {x}) == t.messages - a - {x};
  }

  /** An error for some of the messages is an error for all. */
  lemma {:induction false} MovedErr(t: Tables, a: set<Hash>, b: set<Hash>, g: Hash)
    requires a <= b && MovedToForgotten(t, a, g).Err?
    ensures MovedToForgotten(t, b, g) == Err(Database)
  {
  }

  class MessageStore {
    var pending: map<nat, PendingRow>
    var status: map<Hash, Status>
    var messages: map<Hash, Message>
    var forgotten: map<Hash, ForgottenRow>
    var rejected: map<Hash, ProcessingError>
    var confirmations: set<Confirmation>

    function Contents(): Tables
      reads this
    {
      Tables(pending, status, messages, forgotten, rejected, confirmations)
    }

    constructor ()
      ensures Contents() == Tables(map[], map[], map[], map[], map[], {})
    {
      pending, status, messages, forgotten, rejected, confirmations := map[], map[], map[], map[], map[], {};
    }

    /** What a rollback does. */
    method Restore(t: Tables)
      modifies this
      ensures Contents() == t
    {
      pending, status, messages := t.pending, t.status, t.messages;
      forgotten, rejected, confirmations := t.forgotten, t.rejected, t.confirmations;
    }

    method UpsertStatus(h: Hash, to: Status, only: Status)
      modifies `status
      ensures status == StatusUpserted(old(status), h, to, only)
    {
      if h !in status {
        status := status[h := to];
      } else if status[h] == only {
        status := status[h := to];
      }
    }

    method AddPendingMessage(id: nat, row: PendingRow)
      modifies this
      ensures Contents() == Submitted(old(Contents()), id, row)
    {
      if exists k :: k in pending && SameMessage(pending[k], row) {
        return;
      }
      UpsertStatus(row.hash, Pending, Rejected);
      pending := pending[id := row];
    }

    method DeletePendingMessage(id: nat)
      modifies `pending
      ensures Contents() == WithoutPending(old(Contents()), id)
    {
      pending := pending - {id};
    }

    method MarkAsRejected(h: Hash, e: ProcessingError)
      modifies `status, `rejected
      ensures Contents() == MarkedRejected(old(Contents()), h, e)
    {
      UpsertStatus(h, Rejected, Pending);
      rejected := rejected[h := e];
    }

    method RejectNew(h: Option<Hash>, e: ProcessingError)
      modifies this
      ensures Contents() == RejectedNew(old(Contents()), h, e)
    {
      if h.None? {
        return;
      }
      if h.value in status {
        if status[h.value] != Rejected {
          return;
        }
      }
      MarkAsRejected(h.value, e);
    }

    method RejectExisting(id: nat, e: ProcessingError)
      requires id in pending
      modifies this
      ensures Contents() == RejectedExisting(old(Contents()), id, e)
    {
      var h := pending[id].hash;
      if h in status {
        if status[h] != Pending && status[h] != Rejected {
          DeletePendingMessage(id);
          return;
        }
      }
      MarkAsRejected(h, e);
      DeletePendingMessage(id);
    }

    /** Missing content goes back to the fetch queue before the retries are counted. */
    method HandleRetry(id: nat, e: ProcessingError, giveUp: bool)
      requires id in pending && !IsInvalid(e)
      modifies this
      ensures Contents() == ErrorHandled(old(Contents()), id, e, giveUp)
    {
      var row := pending[id];
      if e == ContentUnavailable {
        pending := pending[id := row.(fetched := false)];
      }
      if giveUp {
        RejectExisting(id, e);
        assert old(pending)[id := row.(fetched := false)] - {id} == old(pending) - {id};
      }
    }

    method HandleProcessingError(id: nat, e: ProcessingError, giveUp: bool)
      requires id in pending
      modifies this
      ensures Contents() == ErrorHandled(old(Contents()), id, e, giveUp)
    {
      if IsInvalid(e) {
        RejectExisting(id, e);
      } else {
        HandleRetry(id, e, giveUp);
      }
    }

    method UpsertConfirmation(h: Hash, tx: Option<string>)
      modifies `confirmations
      ensures Contents() == Confirmed(old(Contents()), h, tx)
    {
      if tx.Some? {
        confirmations := confirmations + {Confirmation(h, tx.value)};
      }
    }

    method InsertMessage(id: nat, h: Hash, m: Message)
      requires id in pending
      modifies this
      ensures Contents() == MessageInserted(old(Contents()), id, h, m)
    {
      var tx := pending[id].tx;
      messages := messages[h := m];
      DeletePendingMessage(id);
      UpsertStatus(h, Processed, Pending);
      UpsertConfirmation(h, tx);
    }

    /** Copies the row, marks the status, and deletes confirmations and message.  The copy fails on a row that is
        already there, and the caller rolls back. */
    method ForgetMessage(h: Hash, g: Hash) returns (r: Result<(), ProcessingError>)
      modifies this
      ensures match MovedToForgotten(old(Contents()), {h}, g)
              case Ok(t) => r == Ok(()) && Contents() == t
              case Err(e) => r == Err(e)
    {
      MovedSingle(Contents(), h, g);
      if h in messages {
        if h in forgotten {
          return Err(Database);
        }
        forgotten := forgotten[h := ForgottenRowOf(messages[h], g)];
      }
      if h in status {
        status := status[h := Forgotten];
      }
      confirmations := Unconfirmed(confirmations, {h});
      messages := messages - {h};
      r := Ok(());
    }

    /** The loop over the further messages that go with a forgotten one. */
    method ForgetMessages(hs: set<Hash>, g: Hash) returns (r: Result<(), ProcessingError>)
      modifies this
      ensures match MovedToForgotten(old(Contents()), hs, g)
              case Ok(t) => r == Ok(()) && Contents() == t
              case Err(e) => r == Err(e)
    {
      ghost var t0 := Contents();
      var left := hs;
      assert hs - left == {};
      MovedNone(t0, g);
      while left != {}
        invariant left <= hs
        invariant MovedToForgotten(t0, hs - left, g) == Ok(Contents())
        decreases |left|
      {
        var h :| h in left;
        MovedOneMore(t0, hs - left, h, g);
        assert (hs - left) + {h} == hs - (left - {h});
        var r1 := ForgetMessage(h, g);
        if r1.Err? {
          MovedErr(t0, (hs - left) + {h}, hs, g);
          return r1;
        }
        left := left - {h};
      }
      assert hs - left == hs;
      r := Ok(());
    }

    method AppendToForgottenBy(h: Hash, g: Hash)
      modifies `forgotten
      ensures Contents() == ForgottenAgain(old(Contents()), h, g)
    {
      if h in forgotten {
        forgotten := forgotten[h := forgotten[h].(forgottenBy := forgotten[h].forgottenBy + [g])];
      }
    }

    /** A further copy of a live message: the pending row goes and the transaction, if any, confirms the message. */
    method ConfirmExisting(id: nat) returns (r: Result<(), ProcessingError>)
      requires id in pending && pending[id].hash in messages
      modifies this
      ensures var row := old(pending[id]);
              if row.signature != old(messages[row.hash].signature) then r == Err(InvalidSignature)
              else r == Ok(()) && Contents() == Confirmed(WithoutPending(old(Contents()), id), row.hash, row.tx)
    {
      var row := pending[id];
      if row.signature != messages[row.hash].signature {
        return Err(InvalidSignature);
      }
      DeletePendingMessage(id);
      UpsertConfirmation(row.hash, row.tx);
      r := Ok(());
    }

    /** A further copy of a forgotten message: only the pending row goes. */
    method ConfirmExistingForgotten(id: nat) returns (r: Result<(), ProcessingError>)
      requires id in pending && pending[id].hash in forgotten
      modifies this
      ensures var row := old(pending[id]);
              if row.signature != old(forgotten[row.hash].signature) then r == Err(InvalidSignature)
              else r == Ok(()) && Contents() == WithoutPending(old(Contents()), id)
    {
      var row := pending[id];
      if row.signature != forgotten[row.hash].signature {
        return Err(InvalidSignature);
      }
      DeletePendingMessage(id);
      r := Ok(());
    }
  }

  /** One message, field by field. */
  lemma {:induction false} MovedSingle(t: Tables, h: Hash, g: Hash)
    ensures MovedToForgotten(t, {h}, g) ==
            if h in t.messages && h in t.forgotten then Err(Database)
            else Ok(t.(forgotten := if h in t.messages then t.forgotten[h := ForgottenRowOf(t.messages[h], g)]
                       else t.forgotten,
                       status := if h in t.status then t.status[h := Forgotten] else t.status,
                       confirmations := Unconfirmed(t.confirmations, {h}), messages := t.messages - {h}))
  {
    assert h in {h};
    assert t.forgotten + Copied(t.messages, {h}, g) ==
           if h in t.messages then t.forgotten[h := ForgottenRowOf(t.messages[h], g)] else t.forgotten;
    assert t.status + Marked(t.status, {h}) == if h in t.status then t.status[h := Forgotten] else t.status;
  }

  lemma {:induction false} MovedNone(t: Tables, g: Hash)
    ensures MovedToForgotten(t, {}, g) == Ok(t)
  {
    var t' := MovedToForgotten(t, {}, g).value;
    assert t'.forgotten == t.forgotten && t'.status == t.status && t'.confirmations == t.confirmations
           && t'.messages == t.messages;
  }
}
