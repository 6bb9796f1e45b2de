/** Stored files, the pins that keep them, file tags and the garbage collector
    (`src/aleph/handlers/content/store.py`, `src/aleph/db/accessors/files.py`,
    `src/aleph/services/storage/garbage_collector.py`). */
module Files {
  import opened Wrappers
  import opened Records

  datatype MessagePin = MessagePin(file: Hash, owner: Address, ref: Option<string>, created: Time)

  datatype ContentPin = ContentPin(file: Hash, owner: Address, created: Time)

  /** Rows without a key of their own: only whether one exists is ever asked, so they form a set. */
  datatype GracePin = GracePin(file: Hash, created: Time, deleteBy: Time)

  datatype TxPin = TxPin(file: Hash, tx: string)

  datatype TagRow = TagRow(owner: Address, file: Hash, lastUpdated: Time)

  datatype FileTables = FileTables(files: set<Hash>, messagePins: map<Hash, MessagePin>,
                                   contentPins: map<Hash, ContentPin>,
                                   txPins: set<TxPin>, gracePins: set<GracePin>, tags: map<string, TagRow>)

  // ----- tags

  function MakeFileTag(owner: Address, ref: Option<string>, itemHash: Hash): string {
    match ref
    case None => itemHash
    case Some(r) => if IsItemHash(r) then r else owner + "/" + r
  }

  function TagOf(h: Hash, pin: MessagePin): string {
    MakeFileTag(pin.owner, pin.ref, h)
  }

  /** What a refresh compares with a tag: the raw reference, or the item hash. */
  function CoalescedRef(h: Hash, pin: MessagePin): string {
    pin.ref.GetOr(h)
  }

  /** A tag that is an item hash, as opposed to `<owner>/<name>`. */
  predicate IsHashTag(tag: string) {
    IsItemHash(tag) && '/' !in tag
  }

  /** Where the tag of a STORE is a hash tag, it is the coalesced reference; and the other way round. */
  lemma {:induction false} HashTags(h: Hash, pin: MessagePin, tag: string)
    requires IsHashTag(tag)
    ensures TagOf(h, pin) == tag <==> CoalescedRef(h, pin) == tag
  {
    if pin.ref.Some? && !IsItemHash(pin.ref.value) {
      var composed := pin.owner + "/" + pin.ref.value;
      assert composed[|pin.owner|] == '/';
      assert '/' in composed;
    }
  }

  // ----- the STORE handler

  function PinOf(m: Message): MessagePin
    requires m.content.Store?
  {
    MessagePin(m.content.file, m.address, m.content.ref, m.time)
  }

  function CheckDependencies(t: FileTables, c: Content): Option<ProcessingError>
    requires c.Store?
  {
    match c.ref
    case None => None
    case Some(r) =>
      if !IsItemHash(r) then None
      else if r !in t.messagePins then Some(StoreRefNotFound)
      else if t.messagePins[r].ref.Some? then Some(StoreUpdatesRevision)
      else None
  }

  function CheckPermissions(t: FileTables, h: Hash, m: Message): Option<ProcessingError>
    requires m.content.Store?
  {
    var tag := MakeFileTag(m.address, m.content.ref, h);
    if m.content.ref.Some? && tag in t.tags && t.tags[tag].owner != m.address then Some(PermissionDenied) else None
  }

  /** `upsert_file_tag`: the owner of an existing tag stays, the file changes only for a later time. */
  function TagUpserted(tags: map<string, TagRow>, tag: string, row: TagRow): map<string, TagRow> {
    if tag !in tags then tags[tag := row]
    else if tags[tag].lastUpdated < row.lastUpdated then
        tags[tag := tags[tag].(file := row.file, lastUpdated := row.lastUpdated)]
    else tags
  }

  /** A tag keeps its first owner.  It names the later of the two files, the earlier one at equal times, and no other
      tag changes. */
  lemma {:induction false} TagUpsertMeans(tags: map<string, TagRow>, tag: string, row: TagRow)
    ensures var tags' := TagUpserted(tags, tag, row);
            && tag in tags' && tags'.Keys == tags.Keys + {tag}
            && (forall k :: k in tags && k != tag ==> tags'[k] == tags[k])
            && (tag !in tags ==> tags'[tag] == row)
            && (tag in tags ==>
                  && tags'[tag].owner == tags[tag].owner && tags'[tag].lastUpdated >= row.lastUpdated
                  && tags'[tag] in {tags[tag], TagRow(tags[tag].owner, row.file, row.lastUpdated)}
                  && (tags'[tag] == tags[tag] || tags[tag].lastUpdated < row.lastUpdated))
  {
  }

  /** Pins the file and moves the tag; the foreign key and the unique item hash are the database's conditions. */
  function Pinned(t: FileTables, h: Hash, m: Message): Result<FileTables, ProcessingError>
    requires m.content.Store?
  {
    var pin := PinOf(m);
    if pin.file !in t.files || h in t.messagePins then
      Err(Database)
    else
      Ok(t.(messagePins := t.messagePins[h := pin],
            tags := TagUpserted(t.tags, TagOf(h, pin), TagRow(pin.owner, pin.file, pin.created))))
  }

  function PinsOf(pins: map<Hash, MessagePin>, tag: string): set<Hash> {
    set h | h in pins && CoalescedRef(h, pins[h]) == tag
  }

  function NewestPins(pins: map<Hash, MessagePin>, tag: string): set<Hash> {
    set h | h in PinsOf(pins, tag) && forall k :: k in PinsOf(pins, tag) ==> pins[k].created <= pins[h].created
  }

  /** `refresh_file_tag`: recomputes a tag from the pins whose raw reference it equals.  Two newest pins would
      upsert one row twice in one statement, which the database refuses. */
  function TagRefreshed(t: FileTables, tag: string): Result<FileTables, ProcessingError> {
    var newest := NewestPins(t.messagePins, tag);
    if newest == {} then
      Ok(t.(tags := t.tags - {tag}))
    else if |newest| > 1 then
      Err(Database)
    else
      SingletonMember(newest);
      var h :| h in newest;
      var pin := t.messagePins[h];
      Ok(t.(tags := t.tags[tag := TagRow(pin.owner, pin.file, pin.created)]))
  }

  lemma {:induction false} SingletonMember<T>(s: set<T>)
    requires |s| <= 1
    ensures forall x, y :: x in s && y in s ==> x == y
  {
    forall x, y | x in s && y in s ensures x == y {
      var rest := s - {x};
      assert |rest| == |s| - 1 && y in rest <==> y != x;
    }
  }

  predicate IsPinned(t: FileTables, file: Hash) {
    || (exists h :: h in t.messagePins && t.messagePins[h].file == file)
    || (exists h :: h in t.contentPins && t.contentPins[h].file == file)
    || (exists p :: p in t.txPins && p.file == file)
    || (exists p :: p in t.gracePins && p.file == file)
  }

  /** Drops the pin, refreshes the tag, and gives a file left without any pin a grace period. */
  function Forgotten(t: FileTables, h: Hash, m: Message, now: Time, grace: nat): Result<FileTables, ProcessingError>
    requires m.content.Store?
  {
    match TagRefreshed(t.(messagePins := t.messagePins - {h}), MakeFileTag(m.address, m.content.ref, h))
    case Err(e) => Err(e)
    case Ok(t1) =>
      var file := m.content.file;
      if IsPinned(t1, file) then Ok(t1)
      else if !m.content.typeMatches then Err(Internal)
      else Ok(t1.(gracePins := t1.gracePins + {GracePin(file, now, now + grace)}))
  }

  // ----- the tag index

  /** The row of one tag: there is one exactly when some live pin has that coalesced reference; it names a newest
      such pin's file, and every such pin has the tag's owner. */
  ghost predicate TagOk(t: FileTables, tag: string) {
    && (tag in t.tags <==> PinsOf(t.messagePins, tag) != {})
    && (tag in t.tags ==>
          && (exists h :: h in NewestPins(t.messagePins, tag) && Names(t.tags[tag], t.messagePins[h]))
          && forall h :: h in PinsOf(t.messagePins, tag) ==> t.messagePins[h].owner == t.tags[tag].owner)
  }

  ghost predicate Names(row: TagRow, pin: MessagePin) {
    row.file == pin.file && row.lastUpdated == pin.created
  }

  ghost predicate HashTagsOk(t: FileTables) {
    forall tag :: IsHashTag(tag) ==> TagOk(t, tag)
  }

  /** Every pin, and every item hash a pin refers to, belongs to a message that was processed at some time. */
  ghost predicate RefsKnown(t: FileTables, known: set<Hash>) {
    forall h :: h in t.messagePins ==>
      h in known && (t.messagePins[h].ref.Some? && IsItemHash(t.messagePins[h].ref.value) ==>
                       t.messagePins[h].ref.value in known)
  }

  lemma {:induction false} PinsOfInserted(pins: map<Hash, MessagePin>, h: Hash, pin: MessagePin, tag: string)
    requires h !in pins
    ensures PinsOf(pins[h := pin], tag) == PinsOf(pins, tag) + if CoalescedRef(h, pin) == tag then {h} else {}
  {
  }

  lemma {:induction false} NewestPinsInserted(pins: map<Hash, MessagePin>, h: Hash, pin: MessagePin, tag: string)
    requires h !in pins && CoalescedRef(h, pin) == tag
    ensures (forall k :: k in PinsOf(pins, tag) ==> pins[k].created <= pin.created) ==>
              h in NewestPins(pins[h := pin], tag)
    ensures forall k :: k in NewestPins(pins, tag) && pin.created <= pins[k].created ==>
              k in NewestPins(pins[h := pin], tag)
  {
    PinsOfInserted(pins, h, pin, tag);
  }

  lemma {:induction false} PinnedOtherTag(t: FileTables, h: Hash, m: Message, tag: string)
    requires m.content.Store? && Pinned(t, h, m).Ok? && TagOk(t, tag)
    requires TagOf(h, PinOf(m)) != tag && CoalescedRef(h, PinOf(m)) != tag
    ensures TagOk(Pinned(t, h, m).value, tag)
  {
    var pin, t' := PinOf(m), Pinned(t, h, m).value;
    PinsOfInserted(t.messagePins, h, pin, tag);
    assert NewestPins(t'.messagePins, tag) == NewestPins(t.messagePins, tag);
    if tag in t.tags {
      var k :| k in NewestPins(t.messagePins, tag) && Names(t.tags[tag], t.messagePins[k]);
      assert k != h && Names(t'.tags[tag], t'.messagePins[k]);
    }
  }

  lemma {:induction false} PinnedOwnTag(t: FileTables, h: Hash, m: Message, tag: string)
    requires m.content.Store? && Pinned(t, h, m).Ok? && TagOk(t, tag)
    requires TagOf(h, PinOf(m)) == tag && CoalescedRef(h, PinOf(m)) == tag
    requires tag in t.tags ==> t.tags[tag].owner == m.address
    ensures TagOk(Pinned(t, h, m).value, tag)
  {
    hide TagOf, CoalescedRef;
    var pin, t' := PinOf(m), Pinned(t, h, m).value;
    PinsOfInserted(t.messagePins, h, pin, tag);
    NewestPinsInserted(t.messagePins, h, pin, tag);
    if tag in t.tags {
      var k :| k in NewestPins(t.messagePins, tag) && Names(t.tags[tag], t.messagePins[k]);
      assert k != h;
      if t.tags[tag].lastUpdated < pin.created {
        assert Names(t'.tags[tag], t'.messagePins[h]);
      } else {
        assert Names(t'.tags[tag], t'.messagePins[k]);
      }
    } else {
      assert h in NewestPins(t'.messagePins, tag) && Names(t'.tags[tag], t'.messagePins[h]);
    }
  }

  /** A new STORE message keeps every hash tag right. */
  lemma {:induction false} PinnedTagOk(t: FileTables, h: Hash, m: Message, known: set<Hash>, tag: string)
    requires HashTagsOk(t) && RefsKnown(t, known) && h !in known && m.content.Store?
    requires CheckDependencies(t, m.content).None? && CheckPermissions(t, h, m).None? && Pinned(t, h, m).Ok?
    requires IsHashTag(tag)
    ensures TagOk(Pinned(t, h, m).value, tag)
  {
    HashTags(h, PinOf(m), tag);
    assert TagOk(t, tag);
    if CoalescedRef(h, PinOf(m)) == tag {
      if tag in t.tags && m.content.ref.None? {
        OwnHashUntagged(t, h, known);
      }
      PinnedOwnTag(t, h, m, tag);
    } else {
      PinnedOtherTag(t, h, m, tag);
    }
  }

  /** No pin refers to a hash that no message has had. */
  lemma {:induction false} OwnHashUntagged(t: FileTables, h: Hash, known: set<Hash>)
    requires IsHashTag(h) && TagOk(t, h) && RefsKnown(t, known) && h !in known
    ensures h !in t.tags
  {
    assert PinsOf(t.messagePins, h) == {};
  }

  lemma {:induction false} NewestPinExists(pins: map<Hash, MessagePin>, hs: set<Hash>)
    requires hs != {} && hs <= pins.Keys
    ensures exists a :: a in hs && forall k :: k in hs ==> pins[k].created <= pins[a].created
  {
    var x :| x in hs;
    var rest := hs - {x};
    if rest == {} {
      assert hs == {x};
    } else {
      NewestPinExists(pins, rest);
      var a :| a in rest && forall k :: k in rest ==> pins[k].created <= pins[a].created;
      var best := if pins[a].created >= pins[x].created then a else x;
      assert best in hs && forall k :: k in hs ==> pins[k].created <= pins[best].created;
    }
  }

  /** A refreshed tag is right, provided the pins it is computed from share an owner. */
  lemma {:induction false} RefreshedTagOk(t: FileTables, tag: string)
    requires TagRefreshed(t, tag).Ok?
    requires forall h, k :: h in PinsOf(t.messagePins, tag) && k in PinsOf(t.messagePins, tag) ==>
                            t.messagePins[h].owner == t.messagePins[k].owner
    ensures TagOk(TagRefreshed(t, tag).value, tag)
  {
    var t', newest := TagRefreshed(t, tag).value, NewestPins(t.messagePins, tag);
    if PinsOf(t.messagePins, tag) != {} {
      NewestPinExists(t.messagePins, PinsOf(t.messagePins, tag));
      var a :| a in PinsOf(t.messagePins, tag) && forall k :: k in PinsOf(t.messagePins, tag) ==>
          t.messagePins[k].created <= t.messagePins[a].created;
      assert a in newest;
      SingletonMember(newest);
      assert Names(t'.tags[tag], t'.messagePins[a]);
    }
  }

  lemma {:induction false} PinsOfRemoved(pins: map<Hash, MessagePin>, h: Hash, tag: string)
    ensures PinsOf(pins - {h}, tag) == PinsOf(pins, tag) - {h}
    ensures h !in PinsOf(pins, tag) ==> NewestPins(pins - {h}, tag) == NewestPins(pins, tag)
  {
    assert PinsOf(pins - {h}, tag) == PinsOf(pins, tag) - {h};
    if h !in PinsOf(pins, tag) {
      assert PinsOf(pins - {h}, tag) == PinsOf(pins, tag);
      assert forall k :: k in NewestPins(pins - {h}, tag) <==> k in NewestPins(pins, tag);
    }
  }

  /** Forgetting a STORE message keeps every hash tag right. */
  lemma {:induction false} ForgottenTagOk(t: FileTables, h: Hash, m: Message, now: Time, grace: nat, tag: string)
    requires HashTagsOk(t) && m.content.Store? && h in t.messagePins && t.messagePins[h] == PinOf(m)
    requires Forgotten(t, h, m, now, grace).Ok? && IsHashTag(tag)
    ensures TagOk(Forgotten(t, h, m, now, grace).value, tag)
  {
    var bare, own := t.(messagePins := t.messagePins - {h}), TagOf(h, PinOf(m));
    HashTags(h, PinOf(m), tag);
    PinsOfRemoved(t.messagePins, h, tag);
    assert TagOk(t, tag);
    if tag == own {
      RefreshedTagOk(bare, tag);
    } else if tag in t.tags {
      var k :| k in NewestPins(t.messagePins, tag) && Names(t.tags[tag], t.messagePins[k]);
      assert k in NewestPins(bare.messagePins, tag) && Names(bare.tags[tag], bare.messagePins[k]);
    }
  }

  /** Forgetting a STORE fails exactly when two of the pins left are both newest for its tag, or when the file is left
      without a pin and the recorded type does not match. */
  lemma {:induction false} ForgottenOkIff(t: FileTables, h: Hash, m: Message, now: Time, grace: nat)
    requires m.content.Store?
    ensures var bare := t.(messagePins := t.messagePins - {h});
            var newest := NewestPins(bare.messagePins, MakeFileTag(m.address, m.content.ref, h));
            Forgotten(t, h, m, now, grace).Ok? <==>
              && (forall a, b :: a in newest && b in newest ==> a == b)
              && (m.content.typeMatches || IsPinned(bare, m.content.file))
  {
    var bare := t.(messagePins := t.messagePins - {h});
    var tag := MakeFileTag(m.address, m.content.ref, h);
    var newest := NewestPins(bare.messagePins, tag);
    if |newest| <= 1 {
      SingletonMember(newest);
    } else {
      var a :| a in newest;
      assert |newest - {a}| > 0;
      var b :| b in newest - {a};
      assert a in newest && b in newest && a != b;
    }
    if TagRefreshed(bare, tag).Ok? {
      assert IsPinned(TagRefreshed(bare, tag).value, m.content.file) <==> IsPinned(bare, m.content.file);
    }
  }

  /** What forgetting a STORE changes: its pin, its tag, and perhaps a new grace pin. */
  lemma {:induction false} ForgottenShape(t: FileTables, h: Hash, m: Message, now: Time, grace: nat)
    requires m.content.Store? && Forgotten(t, h, m, now, grace).Ok?
    ensures var t', own := Forgotten(t, h, m, now, grace).value, TagOf(h, PinOf(m));
            && t'.messagePins == t.messagePins - {h} && t'.files == t.files
            && t'.contentPins == t.contentPins && t'.txPins == t.txPins && t.gracePins <= t'.gracePins
            && (forall tag :: tag in t'.tags && tag != own ==> tag in t.tags && t'.tags[tag] == t.tags[tag])
            && (own in t'.tags ==> exists k :: k in t'.messagePins && t'.messagePins[k].file == t'.tags[own].file)
  {
    var bare, own := t.(messagePins := t.messagePins - {h}), TagOf(h, PinOf(m));
    var newest := NewestPins(bare.messagePins, own);
    if newest != {} {
      SingletonMember(newest);
      var k :| k in newest;
      assert k in bare.messagePins;
    }
  }

  // ----- foreign keys

  ghost predicate PinKeysOk(t: FileTables) {
    && (forall h :: h in t.messagePins ==> t.messagePins[h].file in t.files)
    && (forall h :: h in t.contentPins ==> t.contentPins[h].file in t.files)
    && (forall p :: p in t.txPins ==> p.file in t.files)
    && (forall p :: p in t.gracePins ==> p.file in t.files)
  }

  /** Every tag names the file of a live pin that carries the tag. */
  ghost predicate TagFilesPinned(t: FileTables) {
    forall tag :: tag in t.tags ==> exists h :: Carries(t, h, tag)
  }

  ghost predicate Carries(t: FileTables, h: Hash, tag: string)
    requires tag in t.tags
  {
    h in t.messagePins && TagOf(h, t.messagePins[h]) == tag && t.messagePins[h].file == t.tags[tag].file
  }

  /** A reference that is no item hash and holds no slash cannot be mistaken for a composed tag. */
  predicate PlainRef(ref: Option<string>) {
    ref.Some? && !IsItemHash(ref.value) ==> '/' !in ref.value
  }

  ghost predicate PlainPins(t: FileTables) {
    forall h :: h in t.messagePins ==> IsItemHash(h) && PlainRef(t.messagePins[h].ref)
  }

  /** A pin whose raw reference is the tag of a pin carries that tag itself. */
  ghost predicate ClashFree(pins: map<Hash, MessagePin>) {
    forall h, k :: h in pins && k in pins && CoalescedRef(k, pins[k]) == TagOf(h, pins[h]) ==>
                   TagOf(k, pins[k]) == TagOf(h, pins[h])
  }

  /** No reference clashes with a tag, and every tag names the file of a live pin that carries it. */
  ghost predicate TagsHeld(t: FileTables) {
    ClashFree(t.messagePins) && TagFilesPinned(t)
  }

  lemma {:induction false} PinnedKeys(t: FileTables, h: Hash, m: Message)
    requires m.content.Store? && PinKeysOk(t) && Pinned(t, h, m).Ok?
    ensures PinKeysOk(Pinned(t, h, m).value)
    ensures TagFilesPinned(t) ==> TagFilesPinned(Pinned(t, h, m).value)
  {
    var pin, t' := PinOf(m), Pinned(t, h, m).value;
    if TagFilesPinned(t) {
      forall tag | tag in t'.tags ensures exists k :: Carries(t', k, tag) {
        if tag in t.tags && t'.tags[tag].file == t.tags[tag].file {
          var k :| Carries(t, k, tag);
          assert Carries(t', k, tag);
        } else {
          assert Carries(t', h, tag);
        }
      }
    }
  }

  lemma {:induction false} ForgottenKeys(t: FileTables, h: Hash, m: Message, now: Time, grace: nat)
    requires m.content.Store? && PinKeysOk(t) && h in t.messagePins && t.messagePins[h] == PinOf(m)
    requires Forgotten(t, h, m, now, grace).Ok?
    ensures PinKeysOk(Forgotten(t, h, m, now, grace).value)
  {
  }

  lemma {:induction false} ForgottenTagsHeld(t: FileTables, h: Hash, m: Message, now: Time, grace: nat)
    requires m.content.Store? && h in t.messagePins && t.messagePins[h] == PinOf(m)
    requires Forgotten(t, h, m, now, grace).Ok? && TagsHeld(t)
    ensures TagsHeld(Forgotten(t, h, m, now, grace).value)
  {
    hide IsPinned, IsItemHash;
    var bare, own := t.(messagePins := t.messagePins - {h}), TagOf(h, PinOf(m));
    var t' := Forgotten(t, h, m, now, grace).value;
    assert ClashFree(t'.messagePins);
    forall tag | tag in t'.tags ensures exists k :: Carries(t', k, tag) {
      if tag == own {
        var k :| k in NewestPins(bare.messagePins, own);
        assert k in t.messagePins && CoalescedRef(k, t.messagePins[k]) == own;
        assert TagOf(k, t.messagePins[k]) == own;
        SingletonMember(NewestPins(bare.messagePins, own));
        assert Carries(t', k, tag);
      } else {
        var k :| Carries(t, k, tag);
        assert Carries(t', k, tag);
      }
    }
  }

  /** Plain references do not clash. */
  lemma {:induction false} PlainIsClashFree(t: FileTables)
    requires PlainPins(t)
    ensures ClashFree(t.messagePins)
  {
    forall h, k | h in t.messagePins && k in t.messagePins
      && CoalescedRef(k, t.messagePins[k]) == TagOf(h, t.messagePins[h])
      ensures TagOf(k, t.messagePins[k]) == TagOf(h, t.messagePins[h])
    {
      var pin := t.messagePins[h];
      if pin.ref.Some? && !IsItemHash(pin.ref.value) {
        var composed := pin.owner + "/" + pin.ref.value;
        assert composed[|pin.owner|] == '/';
      }
    }
  }

  // ----- the garbage collector

  function Expired(t: FileTables, d: Time): FileTables {
    t.(gracePins := set p | p in t.gracePins && !(p.deleteBy < d))
  }

  function Unpinned(t: FileTables): set<Hash> {
    set f | f in t.files && !IsPinned(t, f)
  }

  /** A whole collection: the outdated grace pins go, then every file without a pin. */
  function Collected(t: FileTables, d: Time): FileTables {
    var t1 := Expired(t, d);
    t1.(files := t1.files - Unpinned(t1))
  }

  /** A collection removes exactly the files all of whose pins are grace pins with a deadline before `d`. */
  lemma {:induction false} CollectedExactly(t: FileTables, d: Time, file: Hash)
    requires file in t.files
    ensures file !in Collected(t, d).files <==>
            && (forall h :: h in t.messagePins ==> t.messagePins[h].file != file)
            && (forall h :: h in t.contentPins ==> t.contentPins[h].file != file)
            && (forall p :: p in t.txPins ==> p.file != file)
            && (forall p :: p in t.gracePins && p.file == file ==> p.deleteBy < d)
  {
    var t1 := Expired(t, d);
    assert file !in Collected(t, d).files <==> !IsPinned(t1, file);
  }

  /** It breaks no foreign key: every pin left and every tag still has its file. */
  lemma {:induction false} CollectedKeys(t: FileTables, d: Time)
    requires PinKeysOk(t) && TagFilesPinned(t)
    ensures PinKeysOk(Collected(t, d)) && TagFilesPinned(Collected(t, d))
    ensures forall tag :: tag in t.tags ==> t.tags[tag].file in Collected(t, d).files
  {
    var t1, t' := Expired(t, d), Collected(t, d);
    forall h | h in t'.messagePins ensures t'.messagePins[h].file in t'.files {
      assert IsPinned(t1, t'.messagePins[h].file);
    }
    forall h | h in t'.contentPins ensures t'.contentPins[h].file in t'.files {
      assert IsPinned(t1, t'.contentPins[h].file);
    }
    forall p | p in t'.txPins ensures p.file in t'.files {
      assert IsPinned(t1, p.file);
    }
    forall p | p in t'.gracePins ensures p.file in t'.files {
      assert IsPinned(t1, p.file);
    }
    forall tag | tag in t.tags
      ensures t.tags[tag].file in t'.files
      ensures exists h :: Carries(t', h, tag)
    {
      var h :| Carries(t, h, tag);
      assert IsPinned(t1, t.messagePins[h].file);
      assert Carries(t', h, tag);
    }
  }

  /** A file that a forgotten STORE leaves without a pin gets a grace pin, and every collection up to that
      deadline keeps it. */
  lemma {:induction false} GraceSurvives(t: FileTables, h: Hash, m: Message, now: Time, grace: nat, d: Time)
    requires m.content.Store? && PinKeysOk(t) && h in t.messagePins && t.messagePins[h] == PinOf(m)
    requires Forgotten(t, h, m, now, grace).Ok?
    ensures var t' := Forgotten(t, h, m, now, grace).value;
            && IsPinned(t', m.content.file)
            && (!IsPinned(t.(messagePins := t.messagePins - {h}), m.content.file) ==>
                  var g := GracePin(m.content.file, now, now + grace);
                  g in t'.gracePins
                    && (d <= now + grace ==>
                          m.content.file in Collected(t', d).files && g in Collected(t', d).gracePins))
  {
    var bare, file := t.(messagePins := t.messagePins - {h}), m.content.file;
    var t', g := Forgotten(t, h, m, now, grace).value, GracePin(file, now, now + grace);
    if !IsPinned(bare, file) {
      assert g in t'.gracePins;
      CollectedExactly(t', d, file);
    }
  }

  ghost predicate GraceNames(t: FileTables, file: Hash) {
    exists p :: p in t.gracePins && p.file == file
  }

  /** Files, and pins other than message pins, only get more. */
  ghost predicate HoldsKept(t: FileTables, t': FileTables) {
    && t.files <= t'.files && t.txPins <= t'.txPins && t.gracePins <= t'.gracePins
    && forall h :: h in t.contentPins ==> h in t'.contentPins && t'.contentPins[h] == t.contentPins[h]
  }

  /** Besides, no file loses its last pin, and every new grace pin has the given deadline and is for a file that had
      none. */
  ghost predicate PinsLeft(t: FileTables, t': FileTables, deadline: Time) {
    && HoldsKept(t, t')
    && (forall f :: IsPinned(t, f) ==> IsPinned(t', f))
    && (forall p :: p in t'.gracePins && p !in t.gracePins ==> p.deleteBy == deadline && !GraceNames(t, p.file))
  }

  lemma {:induction false} ForgottenPinsLeft(t: FileTables, h: Hash, m: Message, now: Time, grace: nat)
    requires m.content.Store? && h in t.messagePins && t.messagePins[h] == PinOf(m)
             && Forgotten(t, h, m, now, grace).Ok?
    ensures PinsLeft(t, Forgotten(t, h, m, now, grace).value, now + grace)
  {
    var t' := Forgotten(t, h, m, now, grace).value;
    ForgottenShape(t, h, m, now, grace);
    forall p | p in t'.gracePins && p !in t.gracePins ensures p.deleteBy == now + grace && !GraceNames(t, p.file) {
      assert !IsPinned(t'.(gracePins := t.gracePins), p.file);
    }
    forall f | IsPinned(t, f) ensures IsPinned(t', f) {
      if f != m.content.file && exists k :: k in t.messagePins && t.messagePins[k].file == f {
        var k :| k in t.messagePins && t.messagePins[k].file == f;
        assert k in t'.messagePins;
      }
    }
  }

  /** A pin other than a message pin holds the file at least until the deadline. */
  ghost predicate HeldUntil(t: FileTables, file: Hash, deadline: Time) {
    || (exists h :: h in t.contentPins && t.contentPins[h].file == file)
    || (exists p :: p in t.txPins && p.file == file)
    || (exists p :: p in t.gracePins && p.file == file && deadline <= p.deleteBy)
  }

  lemma {:induction false} HeldKept(t: FileTables, t': FileTables, file: Hash, deadline: Time)
    requires HoldsKept(t, t') && HeldUntil(t, file, deadline)
    ensures HeldUntil(t', file, deadline)
  {
    if exists h :: h in t.contentPins && t.contentPins[h].file == file {
      var h :| h in t.contentPins && t.contentPins[h].file == file;
      assert h in t'.contentPins;
    }
  }

  /** A content or transaction pin, which no collection removes. */
  ghost predicate LastingPin(t: FileTables, file: Hash) {
    (exists h :: h in t.contentPins && t.contentPins[h].file == file) || (exists p :: p in t.txPins && p.file == file)
  }

  ghost predicate GraceFrom(t: FileTables, file: Hash, deadline: Time) {
    exists p :: p in t.gracePins && p.file == file && deadline <= p.deleteBy
  }

  /** A file that loses its last message pin is held until the deadline of the new grace pins if and only if no grace
      pin named it before, or one with as late a deadline did, or a lasting pin holds it. */
  lemma {:induction false} HeldUntilIff(t: FileTables, t': FileTables, file: Hash, deadline: Time)
    requires PinsLeft(t, t', deadline) && IsPinned(t, file)
    requires forall h :: h in t'.messagePins ==> t'.messagePins[h].file != file
    ensures HeldUntil(t', file, deadline) <==>
            !GraceNames(t, file) || GraceFrom(t, file, deadline) || LastingPin(t', file)
  {
    assert IsPinned(t', file);
  }

  /** Held until the deadline is what a collection at the deadline asks. */
  lemma {:induction false} HeldIffKept(t: FileTables, file: Hash, deadline: Time)
    requires file in t.files && forall h :: h in t.messagePins ==> t.messagePins[h].file != file
    ensures HeldUntil(t, file, deadline) <==> file !in Unpinned(Expired(t, deadline))
  {
  }

  /** An input where an older grace pin cuts the grace period short: a file stored again, and forgotten again, while
      the grace pin of the first time is still there gets no new one, and is collected at the old deadline. */
  lemma {:induction false} OlderGraceCutsShort(t: FileTables, h: Hash, m: Message, prior: GracePin, now: Time,
                                               grace: nat)
    requires m.content.Store? && t.messagePins == map[h := PinOf(m)] && m.content.file in t.files
    requires t.contentPins == map[] && t.txPins == {} && t.gracePins == {prior}
    requires prior.file == m.content.file && now <= prior.deleteBy < now + grace
    ensures Forgotten(t, h, m, now, grace).Ok?
    ensures var t' := Forgotten(t, h, m, now, grace).value;
            t'.gracePins == {prior} && m.content.file !in Collected(t', prior.deleteBy + 1).files
  {
    var bare, own := t.(messagePins := t.messagePins - {h}), TagOf(h, PinOf(m));
    assert bare.messagePins == map[];
    NoPin(bare.messagePins, own);
    assert prior in t.gracePins;
    var t' := Forgotten(t, h, m, now, grace).value;
    CollectedExactly(t', prior.deleteBy + 1, m.content.file);
  }

  // ----- where the tag index fails

  lemma {:induction false} SinglePin(pins: map<Hash, MessagePin>, tag: string, h: Hash)
    requires PinsOf(pins, tag) == {h}
    ensures NewestPins(pins, tag) == {h}
  {
    assert h in PinsOf(pins, tag);
  }

  lemma {:induction false} NoPin(pins: map<Hash, MessagePin>, tag: string)
    requires PinsOf(pins, tag) == {}
    ensures NewestPins(pins, tag) == {}
  {
  }

  /** The file tables when only message pins and grace pins with one deadline are left. */
  ghost predicate OnlyGrace(t: FileTables, deadline: Time) {
    t.contentPins == map[] && t.txPins == {} && forall p :: p in t.gracePins ==> p.deleteBy == deadline
  }

  lemma {:induction false} TagHandedOver(t: FileTables, tag: string, a: Hash, ma: Message, b: Hash, mb: Message,
                                         now: Time, grace: nat)
    requires ma.content.Store? && TagOf(a, PinOf(ma)) == tag && ma.content.typeMatches
    requires mb.content.Store? && mb.content.ref == Some(tag)
    requires a != b && t.messagePins == map[a := PinOf(ma), b := PinOf(mb)] && OnlyGrace(t, now + grace)
    ensures Forgotten(t, a, ma, now, grace).Ok?
    ensures var t1 := Forgotten(t, a, ma, now, grace).value;
            && t1.messagePins == map[b := PinOf(mb)] && OnlyGrace(t1, now + grace) && t1.files == t.files
            && tag in t1.tags && t1.tags[tag].file == mb.content.file
  {
    var bare := t.(messagePins := t.messagePins - {a});
    assert bare.messagePins == map[b := PinOf(mb)];
    assert PinsOf(bare.messagePins, tag) == {b};
    SinglePin(bare.messagePins, tag, b);
  }

  lemma {:induction false} TagLeftBehind(t: FileTables, tag: string, b: Hash, mb: Message, now: Time, grace: nat)
    requires mb.content.Store? && TagOf(b, PinOf(mb)) != tag && mb.content.typeMatches
    requires t.messagePins == map[b := PinOf(mb)] && OnlyGrace(t, now + grace)
    requires tag in t.tags && t.tags[tag].file == mb.content.file
    ensures Forgotten(t, b, mb, now, grace).Ok?
    ensures var t1 := Forgotten(t, b, mb, now, grace).value;
            && tag in t1.tags && t1.tags[tag].file == mb.content.file && t1.files == t.files
            && forall d :: now + grace < d ==> !IsPinned(Expired(t1, d), mb.content.file)
  {
    var bare := t.(messagePins := t.messagePins - {b});
    assert bare.messagePins == map[];
    assert PinsOf(bare.messagePins, TagOf(b, PinOf(mb))) == {};
    NoPin(bare.messagePins, TagOf(b, PinOf(mb)));
    var t1 := Forgotten(t, b, mb, now, grace).value;
    assert t1.messagePins == map[];
  }

  /** A clash makes collections fail.  Whatever the owners and names: one STORE is named `name` by `owner`, another is
      named `<owner>/<name>` by somebody else.  Forgetting the first hands its tag to the second's file, and
      forgetting the second refreshes a different tag.  After the grace period the first tag names a file without a
      pin, which the database refuses to delete. */
  lemma {:induction false} SlashedRefClashes(t: FileTables, owner: Address, name: string, a: Hash, ma: Message, b: Hash,
                                             mb: Message, now: Time, grace: nat)
    requires ma.content.Store? && ma.address == owner && ma.content.ref == Some(name) && !IsItemHash(name)
    requires mb.content.Store? && mb.content.ref == Some(owner + "/" + name) && !IsItemHash(owner + "/" + name)
    requires ma.content.typeMatches && mb.content.typeMatches && mb.content.file in t.files
    requires a != b && t.messagePins == map[a := PinOf(ma), b := PinOf(mb)]
    requires t.contentPins == map[] && t.txPins == {} && t.gracePins == {}
    ensures Forgotten(t, a, ma, now, grace).Ok?
            && Forgotten(Forgotten(t, a, ma, now, grace).value, b, mb, now, grace).Ok?
    ensures var t2 := Forgotten(Forgotten(t, a, ma, now, grace).value, b, mb, now, grace).value;
            && owner + "/" + name in t2.tags
            && forall d :: now + grace < d ==> t2.tags[owner + "/" + name].file in Unpinned(Expired(t2, d))
  {
    TagHandedOver(t, owner + "/" + name, a, ma, b, mb, now, grace);
    var t1 := Forgotten(t, a, ma, now, grace).value;
    assert |mb.address + "/" + (owner + "/" + name)| > |owner + "/" + name|;
    TagLeftBehind(t1, owner + "/" + name, b, mb, now, grace);
  }
}
