/** What every step of the node keeps: consistent message tables, derived tables keyed exactly by the live messages of
    their kind, exact indexes, and pinned volumes. */
module NodeInvariant {
  import opened Wrappers
  import opened Records
  import opened Lifecycle
  import opened Node
  import Posts
  import Aggregates
  import Files
  import Vms

  type Messages = map<Hash, Message>

  // ----- derived rows and the live messages they come from

  ghost predicate PostsMatch(messages: Messages, posts: Posts.PostTable) {
    && (forall h :: h in posts <==> h in messages && messages[h].content.Post?)
    && (forall h :: h in posts ==> posts[h].(latestAmend := None) == Posts.RowOf(messages[h]))
  }

  ghost predicate ElementsMatch(messages: Messages, elements: Aggregates.Elements) {
    && (forall h :: h in elements <==> h in messages && messages[h].content.Aggregate?)
    && (forall h :: h in elements ==> elements[h] == Aggregates.ElementOf(messages[h]))
  }

  ghost predicate PinsMatch(messages: Messages, pins: map<Hash, Files.MessagePin>) {
    && (forall h :: h in pins <==> h in messages && messages[h].content.Store?)
    && (forall h :: h in pins ==> pins[h] == Files.PinOf(messages[h]))
  }

  ghost predicate VmsMatch(messages: Messages, vms: Vms.VmTable) {
    && (forall h :: h in vms <==> h in messages && messages[h].content.Vm?)
    && (forall h :: h in vms ==> vms[h] == Vms.RowOf(messages[h]))
  }

  ghost predicate Matches(s: State) {
    && PostsMatch(s.tables.messages, s.posts)
    && ElementsMatch(s.tables.messages, s.aggs.elements)
    && PinsMatch(s.tables.messages, s.files.messagePins)
    && VmsMatch(s.tables.messages, s.vms)
  }

  ghost predicate PinsInv(f: Files.FileTables, ever: set<Hash>) {
    && Files.HashTagsOk(f) && Files.RefsKnown(f, ever) && Files.PinKeysOk(f)
    && forall tag :: tag in f.tags ==> f.tags[tag].file in f.files
  }

  ghost predicate FilesInv(f: Files.FileTables, ever: set<Hash>) {
    PinsInv(f, ever) && f.contentPins.Keys <= ever
  }

  ghost predicate Inv(s: State) {
    && Consistent(s.tables)
    && Matches(s)
    && Posts.PostsOk(s.posts)
    && Aggregates.TablesOk(s.aggs)
    && FilesInv(s.files, Ever(s.tables))
    && Vms.VolumesPinned(s.vms, s.files.messagePins.Keys)
  }

  lemma {:induction false} EmptyInv()
    ensures Inv(EMPTY)
  {
    forall h ensures StatusOk(EMPTY.tables, h) { }
    forall tag | Files.IsHashTag(tag) ensures Files.TagOk(EMPTY.files, tag) {
      assert Files.PinsOf(EMPTY.files.messagePins, tag) == {};
    }
  }

  // ----- a new message of each kind

  /** The state after `insert_message`. */
  ghost predicate Arrived(s: State, h: Hash, m: Message, s': State) {
    && Consistent(s'.tables) && s'.tables.messages == s.tables.messages[h := m]
       && s'.tables.forgotten == s.tables.forgotten
    && Ever(s'.tables) == Ever(s.tables) + {h}
    && s'.tables.status.Keys == s.tables.status.Keys && h in s.tables.status
    && (forall k :: k in s.tables.status && k != h ==> s'.tables.status[k] == s.tables.status[k])
    && (IsProcessed(s'.tables, h) <==> s.tables.status[h] == Pending)
    && s'.posts == s.posts && s'.aggs == s.aggs && s'.vms == s.vms && s'.balances == s.balances
    && ContentAdded(s.files, s'.files)
    && PinsInv(s'.files, Ever(s.tables)) && s'.files.contentPins.Keys <= Ever(s'.tables)
  }

  /** Only files and content pins may have been added. */
  ghost predicate ContentAdded(f: Files.FileTables, f': Files.FileTables) {
    && f'.messagePins == f.messagePins && f'.tags == f.tags && f'.gracePins == f.gracePins && f'.txPins == f.txPins
    && Files.HoldsKept(f, f')
  }

  lemma {:induction false} ContentPinned(f: Files.FileTables, f': Files.FileTables, ever: set<Hash>)
    requires PinsInv(f, ever) && ContentAdded(f, f') && forall h :: h in f'.contentPins ==>
               f'.contentPins[h].file in f'.files
    ensures PinsInv(f', ever)
  {
    forall tag | Files.IsHashTag(tag) ensures Files.TagOk(f', tag) {
      assert Files.TagOk(f, tag);
    }
  }

  lemma {:induction false} TagsStayHeld(f: Files.FileTables, f': Files.FileTables)
    requires f'.messagePins == f.messagePins && f'.tags == f.tags && Files.TagFilesPinned(f)
    ensures Files.TagFilesPinned(f')
  {
    forall tag | tag in f'.tags ensures exists h :: Files.Carries(f', h, tag) {
      var h :| Files.Carries(f, h, tag);
      assert Files.Carries(f', h, tag);
    }
  }

  lemma {:induction false} InsertedShape(s: State, id: nat, h: Hash, m: Message)
    requires Inv(s) && id in s.tables.pending && s.tables.pending[id].hash == h && h !in Ever(s.tables)
    ensures Inserted(s, id, h, m).Ok? && Arrived(s, h, m, Inserted(s, id, h, m).value)
  {
    hide Consistent, MessageInserted, Matches, Posts.PostsOk, Aggregates.TablesOk, Files.HashTagsOk, Files.RefsKnown,
         Vms.VolumesPinned;
    MessageInsertedConsistent(s.tables, id, h, m);
    ContentPinned(s.files, Inserted(s, id, h, m).value.files, Ever(s.tables));
  }

  lemma {:induction false} PostArrives(messages: Messages, posts: Posts.PostTable, h: Hash, m: Message)
    requires PostsMatch(messages, posts) && Posts.PostsOk(posts) && h !in messages && m.content.Post?
    requires Posts.CheckDependencies(posts, m.content).None?
    ensures PostsMatch(messages[h := m], Posts.Inserted(posts, h, m))
  {
    Posts.InsertedRows(posts, h, m);
    var messages', posts' := messages[h := m], Posts.Inserted(posts, h, m);
    forall k | k in posts' ensures posts'[k].(latestAmend := None) == Posts.RowOf(messages'[k]) {
      if k in posts {
        assert posts[k].(latestAmend := None) == Posts.RowOf(messages[k]);
      }
    }
  }

  lemma {:induction false} ElementArrives(messages: Messages, aggs: Aggregates.AggTables, h: Hash, m: Message)
    requires ElementsMatch(messages, aggs.elements) && Aggregates.TablesOk(aggs) && h !in messages
             && m.content.Aggregate?
    ensures Aggregates.Inserted(aggs, h, m).Ok?
    ensures ElementsMatch(messages[h := m], Aggregates.Inserted(aggs, h, m).value.elements)
    ensures Aggregates.TablesOk(Aggregates.Inserted(aggs, h, m).value)
  {
    Aggregates.InsertedOk(aggs, h, m);
  }

  lemma {:induction false} TagsAfterPin(f: Files.FileTables, ever: set<Hash>, h: Hash, m: Message)
    requires PinsInv(f, ever) && h !in ever && m.content.Store?
    requires Files.CheckDependencies(f, m.content).None? && Files.CheckPermissions(f, h, m).None?
             && Files.Pinned(f, h, m).Ok?
    ensures Files.HashTagsOk(Files.Pinned(f, h, m).value)
  {
    hide Files.TagOk, Files.Pinned;
    var f' := Files.Pinned(f, h, m).value;
    forall tag | Files.IsHashTag(tag) ensures Files.TagOk(f', tag) {
      Files.PinnedTagOk(f, h, m, ever, tag);
    }
  }

  lemma {:induction false} PinArrives(messages: Messages, f: Files.FileTables, ever: set<Hash>, h: Hash, m: Message)
    requires PinsMatch(messages, f.messagePins) && PinsInv(f, ever) && h !in messages && h !in ever && m.content.Store?
    requires Files.CheckDependencies(f, m.content).None? && Files.CheckPermissions(f, h, m).None?
             && Files.Pinned(f, h, m).Ok?
    ensures PinsMatch(messages[h := m], Files.Pinned(f, h, m).value.messagePins)
    ensures PinsInv(Files.Pinned(f, h, m).value, ever + {h})
  {
    hide Files.HashTagsOk, Files.TagFilesPinned, IsItemHash;
    Files.PinnedKeys(f, h, m);
    TagsAfterPin(f, ever, h, m);
  }

  /** A message of one kind leaves the tables of the others matching. */
  lemma {:induction false} OthersMatch(messages: Messages, s: State, h: Hash, m: Message)
    requires Matches(s) && messages == s.tables.messages && h !in messages
    ensures !m.content.Post? ==> PostsMatch(messages[h := m], s.posts)
    ensures !m.content.Aggregate? ==> ElementsMatch(messages[h := m], s.aggs.elements)
    ensures !m.content.Store? ==> PinsMatch(messages[h := m], s.files.messagePins)
    ensures !m.content.Vm? ==> VmsMatch(messages[h := m], s.vms)
  {
  }

  // ----- messages of each kind that leave

  lemma {:induction false} PostLeaves(messages: Messages, posts: Posts.PostTable, h: Hash, first: RowChoice)
    requires PostsMatch(messages, posts) && Posts.PostsOk(posts) && h in posts && Chooses(first)
    requires Posts.Forgotten(posts, h, messages[h].content, first).Ok?
    ensures var posts', gone := Posts.Forgotten(posts, h, messages[h].content, first).value,
            Posts.AmendsOf(posts, h) + {h};
            PostsMatch(messages - gone, posts') && Posts.PostsOk(posts') && gone <= posts.Keys
  {
    var posts', gone := Posts.Forgotten(posts, h, messages[h].content, first).value, Posts.AmendsOf(posts, h) + {h};
    assert posts[h].(latestAmend := None) == Posts.RowOf(messages[h]);
    Posts.ForgottenOk(posts, h, messages[h].content, first);
    assert posts'.Keys == posts.Keys - gone;
    forall k | k in posts' ensures posts'[k].(latestAmend := None) == Posts.RowOf(messages[k]) {
      assert posts[k].(latestAmend := None) == Posts.RowOf(messages[k]);
    }
  }

  lemma {:induction false} ElementLeaves(messages: Messages, aggs: Aggregates.AggTables, h: Hash, first: RowChoice)
    requires ElementsMatch(messages, aggs.elements) && Aggregates.TablesOk(aggs) && h in aggs.elements && Chooses(first)
    requires Aggregates.Forgotten(aggs, h, messages[h].content, messages[h].address, first).Ok?
    ensures var aggs' := Aggregates.Forgotten(aggs, h, messages[h].content, messages[h].address, first).value;
            ElementsMatch(messages - {h}, aggs'.elements) && Aggregates.TablesOk(aggs')
  {
    Aggregates.ForgottenOk(aggs, h, messages[h].content, messages[h].address, first);
  }

  lemma {:induction false} PinLeaves(messages: Messages, f: Files.FileTables, ever: set<Hash>, h: Hash, now: Time,
                                     grace: nat)
    requires PinsMatch(messages, f.messagePins) && FilesInv(f, ever) && h in f.messagePins
    requires Files.Forgotten(f, h, messages[h], now, grace).Ok?
    ensures var f' := Files.Forgotten(f, h, messages[h], now, grace).value;
            && PinsMatch(messages - {h}, f'.messagePins) && FilesInv(f', ever)
            && f'.messagePins == f.messagePins - {h} && f'.files == f.files
            && f'.contentPins == f.contentPins && f'.txPins == f.txPins && f.gracePins <= f'.gracePins
  {
    var f' := Files.Forgotten(f, h, messages[h], now, grace).value;
    Files.ForgottenShape(f, h, messages[h], now, grace);
    Files.ForgottenKeys(f, h, messages[h], now, grace);
    forall tag | Files.IsHashTag(tag) ensures Files.TagOk(f', tag) {
      Files.ForgottenTagOk(f, h, messages[h], now, grace, tag);
    }
    assert Files.HashTagsOk(f') && Files.RefsKnown(f', ever);
  }

  lemma {:induction false} OthersStay(s: State, hs: set<Hash>)
    requires Matches(s)
    ensures var messages := s.tables.messages - hs;
            && (hs !! s.posts.Keys ==> PostsMatch(messages, s.posts))
            && (hs !! s.aggs.elements.Keys ==> ElementsMatch(messages, s.aggs.elements))
            && (hs !! s.files.messagePins.Keys ==> PinsMatch(messages, s.files.messagePins))
            && (hs !! s.vms.Keys ==> VmsMatch(messages, s.vms))
            && VmsMatch(messages, s.vms - hs)
  {
  }

  /** No machine uses the volume in a fixed version. */
  ghost predicate Unused(vms: Vms.VmTable, volume: Hash) {
    forall v :: v in vms ==> volume !in Vms.FixedRefs(vms[v])
  }

  /** The hashes that go when a live message is forgotten. */
  function GoneWith(s: State, h: Hash): set<Hash> {
    if h in s.posts then Posts.AmendsOf(s.posts, h) + {h} else {h}
  }

  lemma {:induction false} CleanedShape(s: State, h: Hash, m: Message, now: Time, cfg: Config)
    requires Chooses(cfg.first) && CleanedUp(s, h, m, now, cfg).Ok?
    ensures var (s', more) := CleanedUp(s, h, m, now, cfg).value;
            && s'.tables == s.tables && s'.balances == s.balances
            && more == (if m.content.Post? then Posts.AmendsOf(s.posts, h) else {})
            && (if m.content.Post? then Posts.Forgotten(s.posts, h, m.content, cfg.first) == Ok(s'.posts)
                else s'.posts == s.posts)
            && (if m.content.Aggregate? then
                  Aggregates.Forgotten(s.aggs, h, m.content, m.address, cfg.first) == Ok(s'.aggs)
                else s'.aggs == s.aggs)
            && (if m.content.Store? then Files.Forgotten(s.files, h, m, now, cfg.grace) == Ok(s'.files)
                else s'.files == s.files)
            && s'.vms == (if m.content.Vm? then s.vms - {h} else s.vms)
  {
  }

  /** The message tables after forgetting one live message, whatever its kind. */
  lemma {:induction false} MessageForgottenTables(s: State, h: Hash, m: Message, g: Hash, now: Time, cfg: Config,
                                                  s': State)
    requires Consistent(s.tables) && Chooses(cfg.first) && h in s.tables.messages && !m.content.Forget?
             && s.tables.messages[h] == m
    requires m.content.Post? ==>
               h !in Posts.AmendsOf(s.posts, h) && Posts.AmendsOf(s.posts, h) <= s.tables.messages.Keys
    requires MessageForgotten(s, h, m, g, now, cfg) == Ok(s')
    ensures Moved(s.tables, {h} + (if m.content.Post? then Posts.AmendsOf(s.posts, h) else {}), g, s'.tables)
    ensures var s1 := s.(tables := MovedToForgotten(s.tables, {h}, g).value);
            CleanedUp(s1, h, m, now, cfg).Ok? && s' == CleanedUp(s1, h, m, now, cfg).value.0.(tables := s'.tables)
  {
    var t := s.tables;
    MovedShape(t, {h}, g);
    var s1 := s.(tables := MovedToForgotten(t, {h}, g).value);
    CleanedShape(s1, h, m, now, cfg);
    var (s2, more) := CleanedUp(s1, h, m, now, cfg).value;
    MovedConsistent(t, {h}, g, s1.tables);
    MovedShape(s1.tables, more, g);
    MovedTwice(t, {h}, s1.tables, more, s'.tables, g);
  }

  /** The state after forgetting one live message, table by table. */
  ghost predicate GoneShape(s: State, h: Hash, m: Message, g: Hash, now: Time, cfg: Config, s': State)
    requires Chooses(cfg.first)
  {
    && Moved(s.tables, GoneWith(s, h), g, s'.tables)
    && s'.balances == s.balances
    && (if m.content.Post? then Posts.Forgotten(s.posts, h, m.content, cfg.first) == Ok(s'.posts)
        else s'.posts == s.posts)
    && (if m.content.Aggregate? then Aggregates.Forgotten(s.aggs, h, m.content, m.address, cfg.first) == Ok(s'.aggs)
        else s'.aggs == s.aggs)
    && (if m.content.Store? then Files.Forgotten(s.files, h, m, now, cfg.grace) == Ok(s'.files)
        else s'.files == s.files)
    && s'.vms == (if m.content.Vm? then s.vms - {h} else s.vms)
  }

  lemma {:induction false} MessageForgottenShape(s: State, h: Hash, m: Message, g: Hash, now: Time, cfg: Config,
                                                 s': State)
    requires Consistent(s.tables) && PostsMatch(s.tables.messages, s.posts) && Posts.PostsOk(s.posts)
    requires Chooses(cfg.first) && h in s.tables.messages && s.tables.messages[h] == m && !m.content.Forget?
    requires MessageForgotten(s, h, m, g, now, cfg) == Ok(s')
    ensures GoneShape(s, h, m, g, now, cfg, s')
  {
    hide Consistent, Moved, Posts.PostsOk, Posts.Forgotten, Aggregates.Forgotten, Files.Forgotten;
    if m.content.Post? {
      Posts.DeletedSelf(s.posts, h);
    }
    MessageForgottenTables(s, h, m, g, now, cfg, s');
    CleanedShape(s.(tables := MovedToForgotten(s.tables, {h}, g).value), h, m, now, cfg);
    assert {h} + (if m.content.Post? then Posts.AmendsOf(s.posts, h) else {}) == GoneWith(s, h);
  }

  lemma {:induction false} GoneKinds(s: State, h: Hash)
    requires Matches(s) && h in s.tables.messages && !s.tables.messages[h].content.Forget?
    ensures GoneWith(s, h) <= s.tables.messages.Keys
    ensures forall k :: k in GoneWith(s, h) ==>
              KindOf(s.tables.messages[k].content) == KindOf(s.tables.messages[h].content)
  {
  }

  ghost predicate GoneArgs(s: State, h: Hash, m: Message, cfg: Config) {
    Matches(s) && Chooses(cfg.first) && h in s.tables.messages && s.tables.messages[h] == m && !m.content.Forget?
  }

  lemma {:induction false} GonePosts(s: State, h: Hash, m: Message, g: Hash, now: Time, cfg: Config, s': State)
    requires GoneArgs(s, h, m, cfg) && Posts.PostsOk(s.posts) && GoneShape(s, h, m, g, now, cfg, s')
    ensures PostsMatch(s'.tables.messages, s'.posts) && Posts.PostsOk(s'.posts)
  {
    hide Posts.PostsOk, Posts.Forgotten, Aggregates.Forgotten, Files.Forgotten, ElementsMatch, PinsMatch, VmsMatch;
    if m.content.Post? {
      PostLeaves(s.tables.messages, s.posts, h, cfg.first);
    } else {
      OthersStay(s, {h});
    }
  }

  lemma {:induction false} GoneElements(s: State, h: Hash, m: Message, g: Hash, now: Time, cfg: Config, s': State)
    requires GoneArgs(s, h, m, cfg) && Aggregates.TablesOk(s.aggs) && GoneShape(s, h, m, g, now, cfg, s')
    ensures ElementsMatch(s'.tables.messages, s'.aggs.elements) && Aggregates.TablesOk(s'.aggs)
  {
    if m.content.Aggregate? {
      ElementLeaves(s.tables.messages, s.aggs, h, cfg.first);
    } else {
      GoneKinds(s, h);
      OthersStay(s, GoneWith(s, h));
    }
  }

  lemma {:induction false} GonePins(s: State, h: Hash, m: Message, g: Hash, now: Time, cfg: Config, s': State)
    requires GoneArgs(s, h, m, cfg) && FilesInv(s.files, Ever(s.tables)) && GoneShape(s, h, m, g, now, cfg, s')
    ensures PinsMatch(s'.tables.messages, s'.files.messagePins) && FilesInv(s'.files, Ever(s.tables))
    ensures s'.files.messagePins.Keys == s.files.messagePins.Keys - (if m.content.Store? then {h} else {})
  {
    if m.content.Store? {
      PinLeaves(s.tables.messages, s.files, Ever(s.tables), h, now, cfg.grace);
    } else {
      GoneKinds(s, h);
      OthersStay(s, GoneWith(s, h));
    }
  }

  lemma {:induction false} GoneVms(s: State, h: Hash, m: Message, g: Hash, now: Time, cfg: Config, s': State)
    requires GoneArgs(s, h, m, cfg) && GoneShape(s, h, m, g, now, cfg, s')
    ensures VmsMatch(s'.tables.messages, s'.vms)
    ensures forall v :: v in s'.vms ==> v in s.vms && s'.vms[v] == s.vms[v]
  {
    GoneKinds(s, h);
    OthersStay(s, GoneWith(s, h));
  }

  lemma {:induction false} VolumesStayPinned(vms: Vms.VmTable, vms': Vms.VmTable, pins: set<Hash>, pins': set<Hash>,
                                             h: Hash, store: bool)
    requires Vms.VolumesPinned(vms, pins) && pins' == pins - (if store then {h} else {}) && (store ==> Unused(vms, h))
    requires forall v :: v in vms' ==> v in vms && vms'[v] == vms[v]
    ensures Vms.VolumesPinned(vms', pins')
  {
  }

  /** What one forgotten item changes. */
  ghost predicate Leaves(s: State, h: Hash, g: Hash, deadline: Time, s': State) {
    && Moved(s.tables, GoneWith(s, h), g, s'.tables)
    && (forall k :: k in GoneWith(s, h) ==> k in s.tables.messages && !s.tables.messages[k].content.Forget?)
    && s'.balances == s.balances
    && (forall v :: v in s'.vms ==> v in s.vms && s'.vms[v] == s.vms[v])
    && s'.posts.Keys <= s.posts.Keys && (forall k :: k in s'.posts ==> s'.posts[k].amends == s.posts[k].amends)
    && Files.PinsLeft(s.files, s'.files, deadline) && SamePins(s.files, s'.files)
    && Aggregates.AggsLeft(s.aggs, s'.aggs)
    && (Files.TagsHeld(s.files) ==> Files.TagsHeld(s'.files))
  }

  /** The pins of message contents and of transactions are the same. */
  predicate SamePins(f: Files.FileTables, f': Files.FileTables) {
    f'.contentPins == f.contentPins && f'.txPins == f.txPins
  }

  lemma {:induction false} IndexesLeft(s: State, h: Hash, m: Message, g: Hash, now: Time, cfg: Config, s': State)
    requires GoneArgs(s, h, m, cfg) && GoneShape(s, h, m, g, now, cfg, s')
    ensures Aggregates.AggsLeft(s.aggs, s'.aggs)
    ensures Files.TagsHeld(s.files) ==> Files.TagsHeld(s'.files)
  {
    hide Posts.Forgotten, Aggregates.Forgotten, Files.Forgotten, PostsMatch, VmsMatch, Aggregates.AggsLeft,
         Files.TagsHeld, Moved;
    if m.content.Aggregate? {
      Aggregates.ForgottenAggsLeft(s.aggs, h, m.content, m.address, cfg.first);
    } else {
      Aggregates.AggsLeftSelf(s.aggs);
    }
    if m.content.Store? && Files.TagsHeld(s.files) {
      Files.ForgottenTagsHeld(s.files, h, m, now, cfg.grace);
    }
  }

  lemma {:induction false} AmendsKept(posts: Posts.PostTable, h: Hash, c: Content, first: RowChoice)
    requires c.Post? && Posts.Forgotten(posts, h, c, first).Ok?
    ensures var posts' := Posts.Forgotten(posts, h, c, first).value;
            posts'.Keys <= posts.Keys && forall k :: k in posts' ==> posts'[k].amends == posts[k].amends
  {
  }

  lemma {:induction false} StoredPin(s: State, h: Hash, m: Message)
    requires Matches(s) && h in s.tables.messages && s.tables.messages[h] == m && m.content.Store?
    ensures h in s.files.messagePins && s.files.messagePins[h] == Files.PinOf(m)
  {
  }

  lemma {:induction false} GoneLeaves(s: State, h: Hash, m: Message, g: Hash, now: Time, cfg: Config, s': State)
    requires GoneArgs(s, h, m, cfg) && GoneShape(s, h, m, g, now, cfg, s')
    ensures Leaves(s, h, g, now + cfg.grace, s')
  {
    hide Posts.Forgotten, Aggregates.Forgotten, Files.Forgotten, PostsMatch, ElementsMatch, PinsMatch, VmsMatch,
         Aggregates.AggsLeft, Files.TagsHeld, Moved;
    IndexesLeft(s, h, m, g, now, cfg, s');
    GoneKinds(s, h);
    if m.content.Post? {
      AmendsKept(s.posts, h, m.content, cfg.first);
    }
    if m.content.Store? {
      StoredPin(s, h, m);
      Files.ForgottenPinsLeft(s.files, h, m, now, cfg.grace);
      Files.ForgottenShape(s.files, h, m, now, cfg.grace);
    }
  }

  lemma {:induction false} MessageGoes(s: State, h: Hash, m: Message, g: Hash, now: Time, cfg: Config, s': State)
    requires Inv(s) && Chooses(cfg.first) && h in s.tables.messages && s.tables.messages[h] == m && !m.content.Forget?
    requires m.content.Store? ==> Unused(s.vms, h)
    requires MessageForgotten(s, h, m, g, now, cfg) == Ok(s')
    ensures Inv(s') && Leaves(s, h, g, now + cfg.grace, s') && Ever(s'.tables) == Ever(s.tables)
  {
    MessageForgottenShape(s, h, m, g, now, cfg, s');
    GonePosts(s, h, m, g, now, cfg, s');
    GoneElements(s, h, m, g, now, cfg, s');
    GonePins(s, h, m, g, now, cfg, s');
    GoneVms(s, h, m, g, now, cfg, s');
    VolumesStayPinned(s.vms, s'.vms, s.files.messagePins.Keys, s'.files.messagePins.Keys, h, m.content.Store?);
    GoneLeaves(s, h, m, g, now, cfg, s');
    MovedConsistent(s.tables, GoneWith(s, h), g, s'.tables);
  }

  /** Live messages only go to the forgotten ones, with their confirmations; those that stay keep their row, and keep
      being processed or not.  Pending and rejected messages are the same. */
  ghost predicate Fewer(t: Tables, t': Tables) {
    && t'.messages.Keys <= t.messages.Keys && (forall h :: h in t'.messages ==> t'.messages[h] == t.messages[h])
    && t.forgotten.Keys <= t'.forgotten.Keys && ForgottenKept(t.forgotten, t'.forgotten) && StatusKept(t, t')
    && t'.pending == t.pending && t'.rejected == t.rejected
    && (forall c :: c in t'.confirmations <==> c in t.confirmations && c.hash in t'.messages)
  }

  /** The FORGET `g` is named on the row of the forgotten message. */
  predicate ForgottenBy(t: Tables, h: Hash, g: Hash) {
    h in t.forgotten && g in t.forgotten[h].forgottenBy
  }

  lemma {:induction false} FewerSelf(t: Tables)
    requires Consistent(t)
    ensures Fewer(t, t)
  {
  }

  lemma {:induction false} MovedFewer(t: Tables, hs: set<Hash>, g: Hash, t': Tables)
    requires Consistent(t) && Moved(t, hs, g, t')
    ensures Fewer(t, t') && forall h :: h in hs ==> ForgottenBy(t', h, g)
  {
    forall h | h in hs ensures h !in t.forgotten && ForgottenBy(t', h, g) {
      assert StatusOk(t, h);
      assert t'.forgotten[h].forgottenBy == [g];
    }
  }

  /** One item of a FORGET: the invariant survives, and either nothing moves or one live message goes. */
  lemma {:induction false} ItemForgottenInv(s: State, h: Hash, g: Hash, now: Time, cfg: Config, s': State)
    requires Inv(s) && Chooses(cfg.first) && Unused(s.vms, h)
    requires ItemForgotten(s, h, g, now, cfg) == Ok(s')
    ensures Inv(s') && Ever(s'.tables) == Ever(s.tables)
    ensures Fewer(s.tables, s'.tables) && ForgottenBy(s'.tables, h, g) && SamePins(s.files, s'.files)
    ensures || (s' == s.(tables := ForgottenAgain(s.tables, h, g)) && h in s.tables.forgotten)
            || (h in s.tables.messages && h in s.tables.status && s.tables.status[h] == Processed
                && Leaves(s, h, g, now + cfg.grace, s'))
  {
    hide PostsMatch, ElementsMatch, PinsMatch, VmsMatch, Posts.PostsOk, Aggregates.TablesOk, FilesInv,
         Vms.VolumesPinned, Files.PinsLeft, Aggregates.AggsLeft, Files.TagsHeld, MessageForgotten;
    assert StatusOk(s.tables, h);
    if s.tables.status[h] == Forgotten {
      ForgottenAgainConsistent(s.tables, h, g);
      FewerSelf(s.tables);
    } else {
      MessageGoes(s, h, s.tables.messages[h], g, now, cfg, s');
      MovedFewer(s.tables, GoneWith(s, h), g, s'.tables);
      assert h in GoneWith(s, h);
    }
  }
}
