/** The incrementally maintained indexes against a plain recomputation from the live messages, in every reachable
    state: message tables, latest amends, file tags, machine volumes, aggregates, balances, and the garbage
    collector. */
module RunIndexes {
  import opened Wrappers
  import opened Records
  import opened Lifecycle
  import opened Node
  import opened NodeInvariant
  import opened NodeForget
  import opened NodeSteps
  import opened NodeRuns
  import Posts
  import Aggregates
  import Files
  import Vms
  import Balances

  // ----- the message tables

  /** What the tables say about one item hash. */
  lemma {:induction false} TablesAgree(run: seq<Step>, cfg: Config, h: Hash)
    requires Chooses(cfg.first) && Legal(run, cfg)
    ensures var s := At(run, cfg);
            && !(h in s.tables.messages && h in s.tables.forgotten)
            && (h in s.tables.status && s.tables.status[h] == Processed ==> h in s.tables.messages)
            && (h in s.tables.status && s.tables.status[h] == Forgotten <==> h in s.tables.forgotten)
            && (h in s.tables.status && s.tables.status[h] == Rejected ==> h in s.tables.rejected)
            && (forall c :: c in s.tables.confirmations ==> c.hash in s.tables.messages)
            && (h in s.posts <==> h in s.tables.messages && s.tables.messages[h].content.Post?)
            && (h in s.aggs.elements <==> h in s.tables.messages && s.tables.messages[h].content.Aggregate?)
            && (h in s.files.messagePins <==> h in s.tables.messages && s.tables.messages[h].content.Store?)
            && (h in s.vms <==> h in s.tables.messages && s.tables.messages[h].content.Vm?)
  {
    hide Reached, Posts.PostsOk, Aggregates.TablesOk, FilesInv, Vms.VolumesPinned;
    RunInv(run, cfg);
    assert StatusOk(At(run, cfg).tables, h);
  }

  /** The derived rows hold the fields of the live messages they come from. */
  lemma {:induction false} RowsMirrorMessages(run: seq<Step>, cfg: Config, h: Hash)
    requires Chooses(cfg.first) && Legal(run, cfg) && h in At(run, cfg).tables.messages
    ensures var s, m := At(run, cfg), At(run, cfg).tables.messages[h];
            match m.content
            case Post(postType, ref, body, _) =>
              && h in s.posts
              && var row := s.posts[h];
                 && row.owner == m.address && row.postType == postType && row.content == body && row.created == m.time
                 && row.ref == (if ref.NoRef? then None else Some(ref.hash))
                 && row.amends == (if postType == "amend" then row.ref else None)
            case Aggregate(key, fields) =>
              && h in s.aggs.elements
              && s.aggs.elements[h] == Aggregates.Element(Aggregates.AggKey(key, m.address), fields, m.time)
            case Store(file, _, ref) =>
              h in s.files.messagePins && s.files.messagePins[h] == Files.MessagePin(file, m.address, ref, m.time)
            case Vm(machine, volumes) => h in s.vms && s.vms[h] == Vms.VmRow(m.address, machine, volumes)
            case Forget(_, _) => true
  {
    hide Reached, Consistent, Posts.PostsOk, Aggregates.TablesOk, FilesInv, Vms.VolumesPinned;
    RunInv(run, cfg);
    var s := At(run, cfg);
    if h in s.posts {
      assert s.posts[h].(latestAmend := None) == Posts.RowOf(s.tables.messages[h]);
    }
  }

  // ----- amends

  /** A post and its live amends. */
  function Versions(messages: Messages, o: Hash): set<Hash> {
    set a | a in messages && (a == o || Amends(messages[a], o))
  }

  lemma {:induction false} VersionsAreAmends(s: State, o: Hash)
    requires PostsMatch(s.tables.messages, s.posts) && o in s.posts
    ensures Versions(s.tables.messages, o) == Posts.AmendsOf(s.posts, o) + {o}
    ensures forall a :: a in Versions(s.tables.messages, o) ==>
              && a in s.tables.messages && s.tables.messages[a].content.Post?
              && a in s.posts && s.posts[a].created == s.tables.messages[a].time
                 && s.posts[a].content == s.tables.messages[a].content.body
  {
    forall a | a in s.posts ensures Posts.RowOf(s.tables.messages[a]) == s.posts[a].(latestAmend := None) { }
  }

  /** Readers of the post see one of its live versions, and no live version is newer. */
  ghost predicate NewestShown(s: State, o: Hash) {
    && o in s.posts
    && var v := Posts.MergedView(s.posts, o);
       && v.itemHash in Versions(s.tables.messages, o) && s.tables.messages[v.itemHash].content.Post?
       && v.content == s.tables.messages[v.itemHash].content.body
       && v.lastUpdated == s.tables.messages[v.itemHash].time
       && forall a :: a in Versions(s.tables.messages, o) ==> s.tables.messages[a].time <= v.lastUpdated
  }

  /** In every run, readers of a live post see a newest live version if and only if no amend is indexed or some live
      amend is as new as the post.  When all amends are newer, none is indexed exactly when there is none. */
  lemma {:induction false} NewestVersionShown(run: seq<Step>, cfg: Config, o: Hash)
    requires Chooses(cfg.first) && Legal(run, cfg)
    requires o in At(run, cfg).tables.messages && At(run, cfg).tables.messages[o].content.Post?
    ensures var s := At(run, cfg);
            var messages, versions := s.tables.messages, Versions(s.tables.messages, o);
            && o in s.posts
            && (NewestShown(s, o) <==>
                s.posts[o].latestAmend.None?
                || exists a :: a in versions && a != o && messages[a].time >= messages[o].time)
            && ((forall a :: a in versions && a != o ==> messages[a].time > messages[o].time) ==>
                (s.posts[o].latestAmend.None? <==> versions == {o}))
  {
    hide Reached, Consistent, ElementsMatch, PinsMatch, VmsMatch, Aggregates.TablesOk, FilesInv, Vms.VolumesPinned;
    RunInv(run, cfg);
    ShownInState(At(run, cfg), o);
  }

  lemma {:induction false} ShownInState(s: State, o: Hash)
    requires PostsMatch(s.tables.messages, s.posts) && Posts.PostsOk(s.posts) && o in s.posts
    ensures var messages, versions := s.tables.messages, Versions(s.tables.messages, o);
            && (NewestShown(s, o) <==>
                s.posts[o].latestAmend.None?
                || exists a :: a in versions && a != o && messages[a].time >= messages[o].time)
            && ((forall a :: a in versions && a != o ==> messages[a].time > messages[o].time) ==>
                (s.posts[o].latestAmend.None? <==> versions == {o}))
  {
    VersionsAreAmends(s, o);
    hide Posts.PostsOk, PostsMatch, Versions, Posts.AmendsOf, Posts.MergedView;
    Posts.DeletedSelf(s.posts, o);
    Posts.MergedViewMeans(s.posts, o);
    Posts.ShowsNewestIff(s.posts, o);
    var messages, versions := s.tables.messages, Versions(s.tables.messages, o);
    assert NewestShown(s, o) <==> Posts.ShowsNewest(s.posts, o);
    if forall a :: a in versions && a != o ==> messages[a].time > messages[o].time {
      Posts.IndexedIffAmended(s.posts, o);
      assert versions == {o} <==> Posts.AmendsOf(s.posts, o) == {};
    }
  }

  /** Every live amend has a live post that is no amend. */
  lemma {:induction false} AmendedPostLives(run: seq<Step>, cfg: Config, a: Hash, o: Hash)
    requires Chooses(cfg.first) && Legal(run, cfg)
    requires a in At(run, cfg).tables.messages && Amends(At(run, cfg).tables.messages[a], o)
    ensures var messages := At(run, cfg).tables.messages;
            o in messages && messages[o].content.Post? && messages[o].content.postType != "amend"
  {
    hide Reached, Consistent, ElementsMatch, PinsMatch, VmsMatch, Aggregates.TablesOk, FilesInv, Vms.VolumesPinned,
         Posts.LatestOk;
    RunInv(run, cfg);
    var s := At(run, cfg);
    assert a in s.posts;
    assert Posts.RowOf(s.tables.messages[a]) == s.posts[a].(latestAmend := None);
    assert Posts.AmendOk(s.posts, a);
    assert Posts.RowOf(s.tables.messages[o]) == s.posts[o].(latestAmend := None);
    assert Posts.AmendOk(s.posts, o);
  }

  // ----- file tags

  /** The live STORE messages a tag speaks of. */
  function StoresOf(messages: Messages, tag: string): set<Hash> {
    set h | h in messages && messages[h].content.Store? && messages[h].content.ref.GetOr(h) == tag
  }

  lemma {:induction false} StoresArePins(messages: Messages, pins: map<Hash, Files.MessagePin>, tag: string)
    requires PinsMatch(messages, pins)
    ensures StoresOf(messages, tag) == Files.PinsOf(pins, tag)
  {
  }

  /** A hash tag exists exactly while a live STORE has that reference; it names the file of a newest one, and all of
      them share its owner. */
  lemma {:induction false} TagNamesNewestStore(run: seq<Step>, cfg: Config, tag: string)
    requires Chooses(cfg.first) && Legal(run, cfg) && Files.IsHashTag(tag)
    ensures var s := At(run, cfg);
            var messages, stores := s.tables.messages, StoresOf(s.tables.messages, tag);
            && (tag in s.files.tags <==> stores != {})
            && (tag in s.files.tags ==>
                  && (forall h :: h in stores ==> messages[h].address == s.files.tags[tag].owner)
                  && (forall h :: h in stores ==> messages[h].time <= s.files.tags[tag].lastUpdated)
                  && (exists h :: h in stores && messages[h].content.file == s.files.tags[tag].file
                                  && messages[h].time == s.files.tags[tag].lastUpdated))
  {
    hide Reached, Consistent, PostsMatch, ElementsMatch, VmsMatch, Posts.PostsOk, Aggregates.TablesOk, Files.RefsKnown,
         Files.PinKeysOk, Vms.VolumesPinned, IsItemHash;
    RunInv(run, cfg);
    var s := At(run, cfg);
    StoresArePins(s.tables.messages, s.files.messagePins, tag);
    assert Files.TagOk(s.files, tag);
    if tag in s.files.tags {
      var h :| h in Files.NewestPins(s.files.messagePins, tag)
        && Files.Names(s.files.tags[tag], s.files.messagePins[h]);
      assert h in StoresOf(s.tables.messages, tag) && s.tables.messages[h].content.file == s.files.tags[tag].file;
    }
  }

  // ----- volumes

  /** Whatever a live machine uses in a fixed version (as code, runtime, data, root file system or immutable volume) is
      a live STORE whose file is still there. */
  lemma {:induction false} VolumesProtected(run: seq<Step>, cfg: Config, v: Hash, r: Hash)
    requires Chooses(cfg.first) && Legal(run, cfg)
    requires v in At(run, cfg).tables.messages && At(run, cfg).tables.messages[v].content.Vm?
    requires var c := At(run, cfg).tables.messages[v].content; Vms.UsesFixed(c.machine, c.volumes, r)
    ensures var s := At(run, cfg);
            && r in s.tables.messages && s.tables.messages[r].content.Store?
            && r in s.files.messagePins && s.tables.messages[r].content.file in s.files.files
  {
    hide Reached, Consistent, PostsMatch, ElementsMatch, Posts.PostsOk, Aggregates.TablesOk, Files.HashTagsOk,
         Vms.FixedRefs, Vms.UsesFixed;
    RunInv(run, cfg);
    Vms.FixedIff(At(run, cfg).vms[v], r);
  }

  // ----- aggregates

  /** If the step processes an element of the aggregate, it is in time order. */
  ghost predicate TimelyFor(s: State, step: Step, cfg: Config, id: Aggregates.AggKey)
    requires Chooses(cfg.first)
  {
    forall h :: Applies(s, step, cfg, h) && ArrivesFor(AppliedMessage(s, step, cfg, h), id) ==>
                Aggregates.InTimeOrder(s.aggs, AppliedMessage(s, step, cfg, h))
  }

  /** If it does, the element does not conflict with newer ones. */
  ghost predicate ConflictFreeFor(s: State, step: Step, cfg: Config, id: Aggregates.AggKey)
    requires Chooses(cfg.first)
  {
    forall h :: Applies(s, step, cfg, h) && ArrivesFor(AppliedMessage(s, step, cfg, h), id) ==>
                !Aggregates.Conflicts(s.aggs, AppliedMessage(s, step, cfg, h))
  }

  predicate ArrivesFor(m: Message, id: Aggregates.AggKey) {
    m.content.Aggregate? && Aggregates.ElementOf(m).id == id
  }

  /** The start of the run, or a step that took an element of the aggregate away. */
  ghost predicate FreshAt(run: seq<Step>, cfg: Config, i: nat, id: Aggregates.AggKey)
    requires Chooses(cfg.first) && i <= |run|
  {
    i == 0 || Aggregates.Shrunk(At(run[..i - 1], cfg).aggs, At(run[..i], cfg).aggs, id)
  }

  lemma {:induction false} AggregateStep(s: State, step: Step, cfg: Config, id: Aggregates.AggKey)
    requires Inv(s) && Chooses(cfg.first) && Enabled(s, step) && id.owner != Aggregates.SKIPPED_OWNER
    ensures var a, a' := s.aggs, Next(s, step, cfg).aggs;
            && (Aggregates.ExactAt(a, id) && TimelyFor(s, step, cfg, id) ==> Aggregates.ExactAt(a', id))
            && (Aggregates.ContentAt(a, id) && ConflictFreeFor(s, step, cfg, id) ==> Aggregates.ContentAt(a', id))
  {
    hide Inv, Enabled, Next, Aggregates.ExactAt, Aggregates.ContentAt, Aggregates.InTimeOrder, Aggregates.Conflicts,
         ForgottenFor, ForgottenKept, Files.TagsHeld, Files.HoldsKept, Files.PinsLeft, Attempted, StatusKept, Targets;
    NextInv(s, step, cfg);
    if h :| Applies(s, step, cfg, h) {
      var m := AppliedMessage(s, step, cfg, h);
      assert Effect(s, h, m, step.outcome.now, cfg, Next(s, step, cfg));
      if !m.content.Forget? {
        assert Aggregates.ArrivalFor(s.aggs, m, Next(s, step, cfg).aggs, id);
      }
    }
  }

  /** A step that takes an element away leaves the aggregate exact, whatever it was before. */
  lemma {:induction false} ShrunkExact(s: State, step: Step, cfg: Config, id: Aggregates.AggKey)
    requires Inv(s) && Chooses(cfg.first) && Enabled(s, step) && Aggregates.Shrunk(s.aggs, Next(s, step, cfg).aggs, id)
    ensures Aggregates.ExactAt(Next(s, step, cfg).aggs, id) && Aggregates.ContentAt(Next(s, step, cfg).aggs, id)
  {
    hide Inv, Enabled, Next, Aggregates.ExactAt, Aggregates.ContentAt, Aggregates.ArrivalFor, ForgottenFor,
         ForgottenKept, Files.TagsHeld, Files.HoldsKept, Files.PinsLeft, Attempted, StatusKept, Targets;
    NextInv(s, step, cfg);
    assert exists h :: Applies(s, step, cfg, h);
    var h :| Applies(s, step, cfg, h);
    assert Effect(s, h, AppliedMessage(s, step, cfg, h), step.outcome.now, cfg, Next(s, step, cfg));
  }

  lemma {:induction false} FreshExact(run: seq<Step>, cfg: Config, i: nat, id: Aggregates.AggKey)
    requires Chooses(cfg.first) && Legal(run, cfg) && i <= |run| && FreshAt(run, cfg, i, id)
    ensures Aggregates.ExactAt(At(run[..i], cfg).aggs, id) && Aggregates.ContentAt(At(run[..i], cfg).aggs, id)
  {
    if i > 0 {
      hide Inv, Enabled, Next, Reached, Aggregates.ExactAt, Aggregates.ContentAt;
      OneStep(run, cfg, i - 1);
      RunInv(run[..i - 1], cfg);
      ShrunkExact(At(run[..i - 1], cfg), run[i - 1], cfg, id);
    }
  }

  lemma {:induction false} ExactOverRun(run: seq<Step>, cfg: Config, i: nat, id: Aggregates.AggKey)
    requires Chooses(cfg.first) && Legal(run, cfg) && i <= |run| && id.owner != Aggregates.SKIPPED_OWNER
    requires Aggregates.ExactAt(At(run[..i], cfg).aggs, id)
    requires forall j :: i <= j < |run| ==> TimelyFor(At(run[..j], cfg), run[j], cfg, id)
    ensures Aggregates.ExactAt(At(run, cfg).aggs, id)
    decreases |run| - i
  {
    hide Inv, Enabled, Next, Reached, Aggregates.ExactAt, TimelyFor;
    if i == |run| {
      assert run[..i] == run;
    } else {
      OneStep(run, cfg, i);
      RunInv(run[..i], cfg);
      AggregateStep(At(run[..i], cfg), run[i], cfg, id);
      ExactOverRun(run, cfg, i + 1, id);
    }
  }

  lemma {:induction false} ContentOverRun(run: seq<Step>, cfg: Config, i: nat, id: Aggregates.AggKey)
    requires Chooses(cfg.first) && Legal(run, cfg) && i <= |run| && id.owner != Aggregates.SKIPPED_OWNER
    requires Aggregates.ContentAt(At(run[..i], cfg).aggs, id)
    requires forall j :: i <= j < |run| ==> ConflictFreeFor(At(run[..j], cfg), run[j], cfg, id)
    ensures Aggregates.ContentAt(At(run, cfg).aggs, id)
    decreases |run| - i
  {
    hide Inv, Enabled, Next, Reached, Aggregates.ContentAt, ConflictFreeFor;
    if i == |run| {
      assert run[..i] == run;
    } else {
      OneStep(run, cfg, i);
      RunInv(run[..i], cfg);
      AggregateStep(At(run[..i], cfg), run[i], cfg, id);
      ContentOverRun(run, cfg, i + 1, id);
    }
  }

  /** The live elements of an aggregate. */
  function ElementsFor(messages: Messages, id: Aggregates.AggKey): set<Hash> {
    set h | h in messages && messages[h].content.Aggregate? && messages[h].content.key == id.key
      && messages[h].address == id.owner
  }

  /** `v` is the value of the field in a newest live element that sets it. */
  ghost predicate NewestValue(messages: Messages, id: Aggregates.AggKey, h: Hash, field: string, v: Value) {
    && h in ElementsFor(messages, id) && field in messages[h].content.fields && messages[h].content.fields[field] == v
    && forall k :: k in ElementsFor(messages, id) && field in messages[k].content.fields ==>
         messages[k].time <= messages[h].time
  }

  /** The content holds every field of the live elements, each with a newest value, and no other field. */
  ghost predicate IsMerge(messages: Messages, id: Aggregates.AggKey, content: map<string, Value>) {
    && (forall h, field :: h in ElementsFor(messages, id) && field in messages[h].content.fields ==> field in content)
    && (forall field :: field in content ==> exists h :: NewestValue(messages, id, h, field, content[field]))
  }

  /** The time is that of a first live element. */
  ghost predicate IsFirstTime(messages: Messages, id: Aggregates.AggKey, time: Time) {
    && (exists h :: h in ElementsFor(messages, id) && messages[h].time == time)
    && (forall h :: h in ElementsFor(messages, id) ==> time <= messages[h].time)
  }

  ghost predicate IsNewest(messages: Messages, id: Aggregates.AggKey, h: Hash) {
    h in ElementsFor(messages, id) && forall k :: k in ElementsFor(messages, id) ==>
        messages[k].time <= messages[h].time
  }

  lemma {:induction false} ElementsAreMessages(messages: Messages, elements: Aggregates.Elements, id: Aggregates.AggKey)
    requires ElementsMatch(messages, elements)
    ensures Aggregates.Of(elements, id) == ElementsFor(messages, id)
    ensures forall h :: h in ElementsFor(messages, id) ==>
              h in elements && elements[h].fields == messages[h].content.fields
                && elements[h].created == messages[h].time
  {
  }

  lemma {:induction false} ContentMeans(messages: Messages, t: Aggregates.AggTables, id: Aggregates.AggKey)
    requires ElementsMatch(messages, t.elements) && id in t.rows && Aggregates.ContentOk(t, id)
    ensures IsMerge(messages, id, t.rows[id].content)
  {
    ElementsAreMessages(messages, t.elements, id);
    var hs, row := ElementsFor(messages, id), t.rows[id];
    forall field | field in row.content ensures exists h :: NewestValue(messages, id, h, field, row.content[field]) {
      var h :| Aggregates.SetsLast(t.elements, hs, h, field, row.content[field]);
      assert NewestValue(messages, id, h, field, row.content[field]);
    }
  }

  lemma {:induction false} FirstMeans(messages: Messages, t: Aggregates.AggTables, id: Aggregates.AggKey)
    requires ElementsMatch(messages, t.elements) && id in t.rows && Aggregates.FirstOk(t, id)
    ensures IsFirstTime(messages, id, t.rows[id].created)
  {
    ElementsAreMessages(messages, t.elements, id);
  }

  lemma {:induction false} NewestMeans(messages: Messages, t: Aggregates.AggTables, id: Aggregates.AggKey)
    requires ElementsMatch(messages, t.elements) && id in t.rows
    requires t.rows[id].lastRevision in Aggregates.Newest(t.elements, Aggregates.Of(t.elements, id))
    ensures IsNewest(messages, id, t.rows[id].lastRevision)
  {
    ElementsAreMessages(messages, t.elements, id);
  }

  /** In every run, whatever arrives: a maintained aggregate exists exactly while it has a live element, and its
      creation time is the first. */
  lemma {:induction false} AggregateExists(run: seq<Step>, cfg: Config, id: Aggregates.AggKey)
    requires Chooses(cfg.first) && Legal(run, cfg) && id.owner != Aggregates.SKIPPED_OWNER
    ensures var s := At(run, cfg);
            && (id in s.aggs.rows <==> ElementsFor(s.tables.messages, id) != {})
            && (id in s.aggs.rows ==> IsFirstTime(s.tables.messages, id, s.aggs.rows[id].created))
  {
    hide Reached, Consistent, PostsMatch, PinsMatch, VmsMatch, Posts.PostsOk, FilesInv, Vms.VolumesPinned,
         Aggregates.FirstOk;
    RunInv(run, cfg);
    var s := At(run, cfg);
    ElementsAreMessages(s.tables.messages, s.aggs.elements, id);
    if id in s.aggs.rows {
      assert Aggregates.RowOk(s.aggs, id);
      FirstMeans(s.tables.messages, s.aggs, id);
    }
  }

  /** The content of one aggregate is the merge of its live elements, in every run in which no element of it
      conflicted since the start or since an element of it was last forgotten.  Arrivals in between, and everything
      that happens to other aggregates, do not matter. */
  lemma {:induction false} AggregateContentIsMerge(run: seq<Step>, cfg: Config, i: nat, id: Aggregates.AggKey)
    requires Chooses(cfg.first) && Legal(run, cfg) && id.owner != Aggregates.SKIPPED_OWNER
    requires i <= |run| && FreshAt(run, cfg, i, id)
    requires forall j :: i <= j < |run| ==> ConflictFreeFor(At(run[..j], cfg), run[j], cfg, id)
    ensures var s := At(run, cfg); id in s.aggs.rows ==> IsMerge(s.tables.messages, id, s.aggs.rows[id].content)
  {
    hide Reached, Consistent, PostsMatch, PinsMatch, VmsMatch, Posts.PostsOk, FilesInv, Vms.VolumesPinned, IsMerge,
         Aggregates.ContentOk, Aggregates.TablesOk, ElementsMatch, ConflictFreeFor, FreshAt;
    RunInv(run, cfg);
    FreshExact(run, cfg, i, id);
    ContentOverRun(run, cfg, i, id);
    var s := At(run, cfg);
    if id in s.aggs.rows {
      ContentMeans(s.tables.messages, s.aggs, id);
    }
  }

  /** If its elements arrived in time order since then, the last revision is the newest as well. */
  lemma {:induction false} AggregateIsMerge(run: seq<Step>, cfg: Config, i: nat, id: Aggregates.AggKey)
    requires Chooses(cfg.first) && Legal(run, cfg) && id.owner != Aggregates.SKIPPED_OWNER
    requires i <= |run| && FreshAt(run, cfg, i, id)
    requires forall j :: i <= j < |run| ==> TimelyFor(At(run[..j], cfg), run[j], cfg, id)
    ensures var s := At(run, cfg);
            && (id in s.aggs.rows <==> ElementsFor(s.tables.messages, id) != {})
            && (id in s.aggs.rows ==>
                  var messages, row := s.tables.messages, s.aggs.rows[id];
                  IsMerge(messages, id, row.content) && IsFirstTime(messages, id, row.created)
                    && IsNewest(messages, id, row.lastRevision))
  {
    hide Reached, Consistent, PostsMatch, PinsMatch, VmsMatch, Posts.PostsOk, FilesInv, Vms.VolumesPinned, IsMerge,
         IsNewest, Aggregates.ContentOk, Aggregates.TablesOk, ElementsMatch, TimelyFor, FreshAt, Aggregates.FirstOk,
         IsFirstTime, ElementsFor;
    RunInv(run, cfg);
    FreshExact(run, cfg, i, id);
    ExactOverRun(run, cfg, i, id);
    AggregateExists(run, cfg, id);
    var s := At(run, cfg);
    if id in s.aggs.rows {
      ContentMeans(s.tables.messages, s.aggs, id);
      NewestMeans(s.tables.messages, s.aggs, id);
    }
  }

  // ----- balances

  /** The balance updates of a run, in the order they were processed. */
  function UpdatesOf(run: seq<Step>, cfg: Config): seq<Balances.Update>
    requires Chooses(cfg.first)
  {
    if run == [] then []
    else UpdatesOf(run[..|run| - 1], cfg) + StepUpdates(At(run[..|run| - 1], cfg), run[|run| - 1], cfg)
  }

  function StepUpdates(s: State, step: Step, cfg: Config): seq<Balances.Update>
    requires Chooses(cfg.first)
  {
    if step.Process? && step.id in s.tables.pending && Applies(s, step, cfg, s.tables.pending[step.id].hash) then
      match UpdateIn(AppliedMessage(s, step, cfg, s.tables.pending[step.id].hash))
      case None => []
      case Some(u) => [u]
    else []
  }

  lemma {:induction false} AppliedMore(t: Balances.BalanceTable, us: seq<Balances.Update>, vs: seq<Balances.Update>)
    requires |vs| <= 1
    ensures Balances.AppliedAll(t, us + vs) ==
            if vs == [] then Balances.AppliedAll(t, us) else Balances.Applied(Balances.AppliedAll(t, us), vs[0])
  {
    if vs == [] {
      assert us + vs == us;
    } else {
      assert (us + vs)[..|us + vs| - 1] == us;
    }
  }

  lemma {:induction false} StepBalances(s: State, step: Step, cfg: Config)
    requires Inv(s) && Chooses(cfg.first) && Enabled(s, step)
    ensures var us := StepUpdates(s, step, cfg);
            |us| <= 1 && Next(s, step, cfg).balances == if us == [] then s.balances
              else Balances.Applied(s.balances, us[0])
  {
    hide Inv, Enabled, Next, Aggregates.ArrivalFor, Aggregates.AggsLeft, ForgottenFor, ForgottenKept, Files.TagsHeld,
         Files.HoldsKept, Files.PinsLeft, StatusKept;
    NextInv(s, step, cfg);
    if h :| Applies(s, step, cfg, h) {
      assert Effect(s, h, AppliedMessage(s, step, cfg, h), step.outcome.now, cfg, Next(s, step, cfg));
    }
  }

  /** The balances are those of the processed updates, each applied once. */
  lemma {:induction false} BalancesOfRun(run: seq<Step>, cfg: Config)
    requires Chooses(cfg.first) && Legal(run, cfg)
    ensures At(run, cfg).balances == Balances.AppliedAll(map[], UpdatesOf(run, cfg))
    decreases |run|
  {
    if run != [] {
      hide Inv, Enabled, Next, Reached, StepUpdates, Balances.AppliedAll;
      var n := |run| - 1;
      assert run[..n + 1] == run;
      OneStep(run, cfg, n);
      BalancesOfRun(run[..n], cfg);
      RunInv(run[..n], cfg);
      StepBalances(At(run[..n], cfg), run[n], cfg);
      AppliedMore(map[], UpdatesOf(run[..n], cfg), StepUpdates(At(run[..n], cfg), run[n], cfg));
    }
  }

  /** Two nodes that processed the same balance updates, in whatever order, agree on every balance, when the highest
      updates of each entry agree. */
  lemma {:induction false} BalancesConverge(run: seq<Step>, cfg: Config, run': seq<Step>, cfg': Config)
    requires Chooses(cfg.first) && Legal(run, cfg) && Chooses(cfg'.first) && Legal(run', cfg')
    requires multiset(UpdatesOf(run, cfg)) == multiset(UpdatesOf(run', cfg'))
             && Balances.HighestAgree(UpdatesOf(run, cfg))
    ensures At(run, cfg).balances == At(run', cfg').balances
  {
    hide At, Legal, UpdatesOf, Balances.AppliedAll, Balances.HighestAgree;
    BalancesOfRun(run, cfg);
    BalancesOfRun(run', cfg');
    Balances.Converges(UpdatesOf(run, cfg), UpdatesOf(run', cfg'));
  }

  // ----- garbage collection

  /** A collection at `d` deletes all files without a pin, whatever order it goes in. */
  ghost predicate CollectsAll(s: State, d: Time, cfg: Config)
    requires Chooses(cfg.first)
  {
    forall deleted :: Enabled(s, Collect(d, deleted)) ==>
        Next(s, Collect(d, deleted), cfg).files == Files.Collected(s.files, d)
  }

  /** A collection is sure to delete every file without a pin if and only if no tag names such a file.  The database
      refuses to delete a file that a tag names. */
  lemma {:induction false} CollectsAllIff(s: State, d: Time, cfg: Config)
    requires Chooses(cfg.first)
    ensures CollectsAll(s, d, cfg) <==>
            forall tag :: tag in s.files.tags ==> s.files.tags[tag].file !in Files.Unpinned(Files.Expired(s.files, d))
  {
    hide Files.IsPinned;
    var unpinned := Files.Unpinned(Files.Expired(s.files, d));
    if tag :| tag in s.files.tags && s.files.tags[tag].file in unpinned {
      assert Enabled(s, Collect(d, {}));
      assert s.files.tags[tag].file in Next(s, Collect(d, {}), cfg).files.files;
      assert s.files.tags[tag].file !in Files.Collected(s.files, d).files;
    }
  }

  /** No reference of a live STORE clashes with the tag of another, anywhere in the run. */
  ghost predicate ClashFreeRun(run: seq<Step>, cfg: Config)
    requires Chooses(cfg.first)
  {
    forall i :: 0 <= i < |run| ==> Files.ClashFree(At(run[..i], cfg).files.messagePins)
  }

  lemma {:induction false} TagStep(s: State, step: Step, cfg: Config)
    requires Inv(s) && Chooses(cfg.first) && Enabled(s, step) && Files.TagsHeld(s.files)
    ensures Files.TagFilesPinned(Next(s, step, cfg).files)
  {
    hide Inv, Enabled, Next, Aggregates.ArrivalFor, Aggregates.AggsLeft, ForgottenFor, ForgottenKept,
         Files.TagFilesPinned, Files.ClashFree, Files.HoldsKept, Files.PinsLeft, Attempted, StatusKept, Targets;
    NextInv(s, step, cfg);
    if h :| Applies(s, step, cfg, h) {
      assert Effect(s, h, AppliedMessage(s, step, cfg, h), step.outcome.now, cfg, Next(s, step, cfg));
    } else {
      TagsStayHeld(s.files, Next(s, step, cfg).files);
    }
  }

  lemma {:induction false} TagsOverRun(run: seq<Step>, cfg: Config)
    requires Chooses(cfg.first) && Legal(run, cfg) && ClashFreeRun(run, cfg)
    ensures Files.TagFilesPinned(At(run, cfg).files)
    decreases |run|
  {
    if run != [] {
      hide Inv, Enabled, Next, Reached, Files.TagFilesPinned, Files.ClashFree;
      var n := |run| - 1;
      assert run[..n + 1] == run;
      OneStep(run, cfg, n);
      forall i | 0 <= i < n ensures Files.ClashFree(At(run[..n][..i], cfg).files.messagePins) {
        assert run[..n][..i] == run[..i] && run[i] == run[..n][i];
        assert Files.ClashFree(At(run[..i], cfg).files.messagePins);
      }
      TagsOverRun(run[..n], cfg);
      RunInv(run[..n], cfg);
      TagStep(At(run[..n], cfg), run[n], cfg);
    }
  }

  /** As long as no references clash, every collection deletes exactly the files without a pin, and leaves every tag
      the file of a live STORE. */
  lemma {:induction false} CollectionExact(run: seq<Step>, cfg: Config, d: Time)
    requires Chooses(cfg.first) && Legal(run, cfg) && ClashFreeRun(run, cfg)
    ensures CollectsAll(At(run, cfg), d, cfg)
    ensures var f := At(run, cfg).files; forall tag :: tag in f.tags ==> f.tags[tag].file in Files.Collected(f, d).files
  {
    hide Reached, Consistent, Matches, Posts.PostsOk, Aggregates.TablesOk, Files.HashTagsOk, Files.RefsKnown,
         Vms.VolumesPinned, ClashFreeRun, Next, Enabled, CollectsAll;
    RunInv(run, cfg);
    TagsOverRun(run, cfg);
    Files.CollectedKeys(At(run, cfg).files, d);
    CollectsAllIff(At(run, cfg), d, cfg);
  }

  lemma {:induction false} RunHeld(run: seq<Step>, cfg: Config, i: nat, file: Hash, deadline: Time)
    requires Chooses(cfg.first) && Legal(run, cfg) && i <= |run|
             && Files.HeldUntil(At(run[..i], cfg).files, file, deadline)
    requires forall j :: i <= j < |run| && run[j].Collect? ==> run[j].time <= deadline
    ensures Files.HeldUntil(At(run, cfg).files, file, deadline)
    decreases |run| - i
  {
    hide Inv, Enabled, Next, Reached, Files.HeldUntil;
    if i == |run| {
      assert run[..i] == run;
    } else {
      OneStep(run, cfg, i);
      RunInv(run[..i], cfg);
      StepHeld(At(run[..i], cfg), run[i], cfg, file, deadline);
      RunHeld(run, cfg, i + 1, file, deadline);
    }
  }

  /** The step processes a FORGET, and takes the last message pin of the file. */
  ghost predicate TakesLastPin(run: seq<Step>, cfg: Config, i: nat, g: Hash, file: Hash)
    requires Chooses(cfg.first) && i < |run|
  {
    && Applies(At(run[..i], cfg), run[i], cfg, g) && AppliedMessage(At(run[..i], cfg), run[i], cfg, g).content.Forget?
    && Files.IsPinned(At(run[..i], cfg).files, file)
    && var pins := At(run[..i + 1], cfg).files.messagePins; forall h :: h in pins ==> pins[h].file != file
  }

  /** The file is entitled to the whole grace period: no older grace pin named it, or one with as late a deadline does,
      or a content or transaction pin holds it. */
  ghost predicate Entitled(run: seq<Step>, cfg: Config, i: nat, file: Hash, deadline: Time)
    requires Chooses(cfg.first) && i < |run|
  {
    || !Files.GraceNames(At(run[..i], cfg).files, file)
    || Files.GraceFrom(At(run[..i], cfg).files, file, deadline)
    || Files.LastingPin(At(run[..i + 1], cfg).files, file)
  }

  lemma {:induction false} GraceIff(run: seq<Step>, cfg: Config, i: nat, g: Hash, file: Hash)
    requires Chooses(cfg.first) && Legal(run, cfg) && i < |run| && TakesLastPin(run, cfg, i, g, file)
    ensures var deadline := run[i].outcome.now + cfg.grace;
            && (Entitled(run, cfg, i, file, deadline) <==> Files.HeldUntil(At(run[..i + 1], cfg).files, file, deadline))
            && (Entitled(run, cfg, i, file, deadline) <==>
                file !in Files.Unpinned(Files.Expired(At(run[..i + 1], cfg).files, deadline)))
  {
    hide Enabled, Next, Reached, Consistent, Matches, Posts.PostsOk, Aggregates.TablesOk, Files.HashTagsOk,
         Files.RefsKnown, Vms.VolumesPinned, Files.PinsLeft, Files.IsPinned, ForgottenFor, ForgottenKept,
         Aggregates.AggsLeft, Files.TagsHeld, Attempted, StatusKept, Targets, Files.HeldUntil;
    var s, s', deadline := At(run[..i], cfg), At(run[..i + 1], cfg), run[i].outcome.now + cfg.grace;
    OneStep(run, cfg, i);
    RunInv(run[..i], cfg);
    NextInv(s, run[i], cfg);
    assert Effect(s, g, AppliedMessage(s, run[i], cfg, g), run[i].outcome.now, cfg, s');
    Files.HeldUntilIff(s.files, s'.files, file, deadline);
    assert file in s'.files.files by { PinnedIsStored(s, file); HoldsFiles(s.files, s'.files, deadline); }
    Files.HeldIffKept(s'.files, file, deadline);
  }

  lemma {:induction false} PinnedIsStored(s: State, file: Hash)
    requires Inv(s) && Files.IsPinned(s.files, file)
    ensures file in s.files.files
  {
  }

  lemma {:induction false} HoldsFiles(f: Files.FileTables, f': Files.FileTables, deadline: Time)
    requires Files.PinsLeft(f, f', deadline)
    ensures f.files <= f'.files
  {
  }

  /** A file whose last message pin a FORGET takes survives every collection up to the end of the grace period,
      whatever else happens, if it is entitled to it; otherwise a collection at that time finds it without a pin. */
  lemma {:induction false} GracePeriod(run: seq<Step>, cfg: Config, i: nat, g: Hash, file: Hash)
    requires Chooses(cfg.first) && Legal(run, cfg) && i < |run| && TakesLastPin(run, cfg, i, g, file)
    ensures var deadline := run[i].outcome.now + cfg.grace;
            if Entitled(run, cfg, i, file, deadline) then
              (forall j :: i < j < |run| && run[j].Collect? ==> run[j].time <= deadline) ==>
                  file in At(run, cfg).files.files
            else
              file in Files.Unpinned(Files.Expired(At(run[..i + 1], cfg).files, deadline))
  {
    hide Enabled, Next, Reached, Inv, Entitled;
    var deadline := run[i].outcome.now + cfg.grace;
    GraceIff(run, cfg, i, g, file);
    if Entitled(run, cfg, i, file, deadline) && forall j :: i < j < |run| && run[j].Collect? ==>
        run[j].time <= deadline {
      RunHeld(run, cfg, i + 1, file, deadline);
      RunInv(run, cfg);
      HeldIsStored(At(run, cfg), file, deadline);
    }
  }

  lemma {:induction false} HeldIsStored(s: State, file: Hash, deadline: Time)
    requires Inv(s) && Files.HeldUntil(s.files, file, deadline)
    ensures file in s.files.files
  {
  }
}
