/** A whole FORGET: the invariant survives the loop over its targets, and everything it forgets is accounted for. */
module NodeForget {
  import opened Wrappers
  import opened Records
  import opened Lifecycle
  import opened Node
  import opened NodeInvariant
  import Posts
  import Aggregates
  import Files
  import Vms

  // ----- what the checks establish

  lemma {:induction false} CheckHashesAll(s: State, hashes: seq<Hash>)
    requires CheckHashes(s, hashes).None?
    ensures forall h :: h in hashes ==> h in s.tables.messages && Vms.CheckVolume(s.vms, h).None?
  {
    if hashes != [] {
      CheckHashesAll(s, hashes[1..]);
    }
  }

  lemma {:induction false} CheckTargetsAll(t: Tables, sender: Address, targets: seq<Hash>)
    requires CheckTargets(t, sender, targets).None?
    ensures forall h :: h in targets ==> CheckTarget(t, sender, h).None?
  {
    if targets != [] {
      CheckTargetsAll(t, sender, targets[1..]);
    }
  }

  lemma {:induction false} ElementsOfMembers(s: State, owner: Address, keys: seq<string>, first: RowChoice)
    requires Chooses(first)
    ensures forall h :: h in ElementsOf(s, owner, keys, first) <==>
                        h in s.aggs.elements && s.aggs.elements[h].id.owner == owner
                          && s.aggs.elements[h].id.key in keys
  {
    if keys != [] {
      ElementsOfMembers(s, owner, keys[1..], first);
    }
  }

  /** Every target is a live message, and no machine uses one in a fixed version. */
  lemma {:induction false} TargetsUnused(s: State, m: Message, first: RowChoice)
    requires Inv(s) && m.content.Forget? && Chooses(first) && CheckForget(s, m).None?
    ensures forall h :: h in Targets(s, m, first) ==> h in s.tables.messages && Unused(s.vms, h)
  {
    CheckHashesAll(s, m.content.hashes);
    ElementsOfMembers(s, m.address, m.content.aggregates, first);
    forall h | h in Targets(s, m, first) ensures h in s.tables.messages && Unused(s.vms, h) {
      forall v | v in s.vms ensures h !in Vms.FixedRefs(s.vms[v]) {
        if h in m.content.hashes {
          NotUsed(s.vms, v, h);
        } else {
          assert h in s.aggs.elements && h !in s.files.messagePins;
        }
      }
    }
  }

  lemma {:induction false} NotUsed(vms: Vms.VmTable, v: Hash, volume: Hash)
    requires v in vms
    ensures Vms.CheckVolume(vms, volume).None? ==> volume !in Vms.FixedRefs(vms[v])
  {
    if volume in Vms.FixedRefs(vms[v]) {
      Vms.UsedVolumeRefused(vms, v, volume);
    }
  }

  // ----- provenance

  /** A processed message of the FORGET's own sender. */
  ghost predicate OwnTarget(s: State, targets: seq<Hash>, sender: Address, h: Hash) {
    && h in targets && h in s.tables.status && s.tables.status[h] == Processed
    && h in s.tables.messages && s.tables.messages[h].sender == sender && !s.tables.messages[h].content.Forget?
  }

  /** Why a message may be forgotten: it is such a target, or an amend of one. */
  ghost predicate Justified(s: State, targets: seq<Hash>, sender: Address, h: Hash) {
    && h in s.tables.messages && !s.tables.messages[h].content.Forget?
    && (OwnTarget(s, targets, sender, h)
        || exists o :: OwnTarget(s, targets, sender, o) && h in Posts.AmendsOf(s.posts, o))
  }

  /** The row that a forgotten message leaves behind. */
  predicate RowFor(row: ForgottenRow, m: Message) {
    && row.sender == m.sender && row.signature == m.signature && row.forgottenBy != []
    && row.kind == (match m.content
                    case Post(_, _, _, _) => PostKind
                    case Aggregate(_, _) => AggregateKind
                    case Store(_, _, _) => StoreKind
                    case Vm(_, _) => VmKind
                    case Forget(_, _) => ForgetKind)
  }

  ghost predicate ForgottenFor(s0: State, targets: seq<Hash>, sender: Address, g: Hash, s: State, h: Hash)
    requires h in s.tables.forgotten
  {
    && Justified(s0, targets, sender, h)
    && RowFor(s.tables.forgotten[h], s0.tables.messages[h]) && s.tables.forgotten[h].forgottenBy[0] == g
  }

  /** Rows other than that of the FORGET `g` only disappear. */
  ghost predicate RowsSince(s0: State, g: Hash, deadline: Time, s: State) {
    && (forall h :: h in s.tables.status && h != g ==>
          h in s0.tables.status && (s.tables.status[h] == s0.tables.status[h] || s.tables.status[h] == Forgotten))
    && (forall h :: h in s.tables.messages && h != g ==>
          h in s0.tables.messages && s.tables.messages[h] == s0.tables.messages[h])
    && s.posts.Keys <= s0.posts.Keys && (forall h :: h in s.posts ==> s.posts[h].amends == s0.posts[h].amends)
    && (forall v :: v in s.vms ==> v in s0.vms && s.vms[v] == s0.vms[v])
    && s.balances == s0.balances && Files.PinsLeft(s0.files, s.files, deadline)
    && Aggregates.AggsLeft(s0.aggs, s.aggs)
    && (Files.TagsHeld(s0.files) ==> Files.TagsHeld(s.files))
  }

  /** How a state inside the FORGET `g` relates to the state `s0` before it. */
  ghost predicate Since(s0: State, targets: seq<Hash>, sender: Address, g: Hash, deadline: Time, s: State) {
    && RowsSince(s0, g, deadline, s)
    && ForgottenKept(s0.tables.forgotten, s.tables.forgotten)
    && (forall h :: h in s.tables.forgotten && h !in s0.tables.forgotten ==> ForgottenFor(s0, targets, sender, g, s, h))
  }

  lemma {:induction false} SinceAgain(s0: State, targets: seq<Hash>, sender: Address, g: Hash, deadline: Time, s: State,
                                      h: Hash)
    requires Since(s0, targets, sender, g, deadline, s) && h in s.tables.forgotten
    ensures Since(s0, targets, sender, g, deadline, s.(tables := ForgottenAgain(s.tables, h, g)))
  {
    hide Justified, Aggregates.AggsLeft, Files.TagsHeld, Files.PinsLeft, KindOf;
    var s' := s.(tables := ForgottenAgain(s.tables, h, g));
    assert RowsSince(s0, g, deadline, s');
    hide RowsSince;
    forall k | k in s'.tables.forgotten && k !in s0.tables.forgotten
      ensures ForgottenFor(s0, targets, sender, g, s', k) {
      assert ForgottenFor(s0, targets, sender, g, s, k);
    }
  }

  lemma {:induction false} RowsLeave(s0: State, g: Hash, deadline: Time, s: State, h: Hash, s': State)
    requires RowsSince(s0, g, deadline, s) && Leaves(s, h, g, deadline, s')
    ensures RowsSince(s0, g, deadline, s')
  {
    hide Aggregates.AggsLeft, Files.TagsHeld, GoneWith, Files.IsPinned;
    Aggregates.AggsLeftTwice(s0.aggs, s.aggs, s'.aggs);
  }

  /** A message that goes is the target itself or one of its amends. */
  lemma {:induction false} GoneJustified(s0: State, targets: seq<Hash>, sender: Address, g: Hash, deadline: Time,
                                         s: State, h: Hash, k: Hash)
    requires RowsSince(s0, g, deadline, s) && OwnTarget(s0, targets, sender, h) && k in GoneWith(s, h) && k != g
    requires k in s.tables.messages && !s.tables.messages[k].content.Forget?
    ensures Justified(s0, targets, sender, k)
  {
    hide Aggregates.AggsLeft, Files.TagsHeld, Files.PinsLeft;
    assert k == h || k in Posts.AmendsOf(s0.posts, h);
  }

  lemma {:induction false} SinceLeaves(s0: State, targets: seq<Hash>, sender: Address, g: Hash, deadline: Time,
                                       s: State, h: Hash, s': State)
    requires Since(s0, targets, sender, g, deadline, s) && Leaves(s, h, g, deadline, s')
    requires OwnTarget(s0, targets, sender, h) && g !in GoneWith(s, h)
    requires s.tables.messages.Keys !! s.tables.forgotten.Keys
    ensures Since(s0, targets, sender, g, deadline, s')
  {
    hide Aggregates.AggsLeft, Files.TagsHeld, Files.PinsLeft, GoneWith, Justified, OwnTarget;
    RowsLeave(s0, g, deadline, s, h, s');
    forall k | k in s'.tables.forgotten && k !in s0.tables.forgotten
      ensures ForgottenFor(s0, targets, sender, g, s', k) {
      if k in s.tables.forgotten {
        assert ForgottenFor(s0, targets, sender, g, s, k);
        assert k !in GoneWith(s, h);
      } else {
        GoneJustified(s0, targets, sender, g, deadline, s, h, k);
      }
    }
  }

  lemma {:induction false} ConsistentDisjoint(t: Tables)
    requires Consistent(t)
    ensures t.messages.Keys !! t.forgotten.Keys
  {
    forall h | h in t.messages ensures h !in t.forgotten {
      assert StatusOk(t, h);
    }
  }

  /** What the loop needs of one more target. */
  ghost predicate Due(s0: State, vms: Vms.VmTable, targets: seq<Hash>, sender: Address, g: Hash, h: Hash) {
    h in targets && h != g && Unused(vms, h) && CheckTarget(s0.tables, sender, h).None?
  }

  ghost predicate LiveForget(s: State, g: Hash) {
    g in s.tables.messages && s.tables.messages[g].content.Forget?
  }

  lemma {:induction false} DueTargetGoes(s0: State, s: State, targets: seq<Hash>, sender: Address, g: Hash,
                                         deadline: Time, h: Hash, s': State)
    requires Consistent(s.tables) && Since(s0, targets, sender, g, deadline, s) && Due(s0, s.vms, targets, sender, g, h)
             && LiveForget(s, g)
    requires h in s.tables.messages && h in s.tables.status && s.tables.status[h] == Processed
             && Leaves(s, h, g, deadline, s')
    ensures Since(s0, targets, sender, g, deadline, s') && LiveForget(s', g)
  {
    ConsistentDisjoint(s.tables);
    assert g !in GoneWith(s, h);
    assert OwnTarget(s0, targets, sender, h);
    SinceLeaves(s0, targets, sender, g, deadline, s, h, s');
  }

  lemma {:induction false} OneTarget(s0: State, s: State, targets: seq<Hash>, sender: Address, g: Hash, h: Hash,
                                     now: Time, cfg: Config, s': State)
    requires Inv(s) && Chooses(cfg.first) && Since(s0, targets, sender, g, now + cfg.grace, s) && LiveForget(s, g)
    requires Due(s0, s.vms, targets, sender, g, h) && ItemForgotten(s, h, g, now, cfg) == Ok(s')
    ensures Inv(s') && Ever(s'.tables) == Ever(s.tables) && Since(s0, targets, sender, g, now + cfg.grace, s')
            && LiveForget(s', g)
    ensures Fewer(s.tables, s'.tables) && ForgottenBy(s'.tables, h, g) && SamePins(s.files, s'.files)
    ensures forall v :: v in s'.vms ==> v in s.vms && s'.vms[v] == s.vms[v]
  {
    hide Since, Consistent, Matches, Posts.PostsOk, Aggregates.TablesOk, FilesInv, Vms.VolumesPinned, Moved,
         ItemForgotten, Files.PinsLeft, Aggregates.AggsLeft, Files.TagsHeld;
    ItemForgottenInv(s, h, g, now, cfg, s');
    ConsistentDisjoint(s.tables);
    if h in s.tables.forgotten {
      SinceAgain(s0, targets, sender, g, now + cfg.grace, s, h);
    } else {
      DueTargetGoes(s0, s, targets, sender, g, now + cfg.grace, h, s');
    }
  }

  lemma {:induction false} FewerTwice(t: Tables, t1: Tables, t2: Tables, h: Hash, g: Hash)
    requires Fewer(t, t1) && Fewer(t1, t2) && ForgottenBy(t1, h, g)
    ensures Fewer(t, t2) && ForgottenBy(t2, h, g)
  {
  }

  /** The loop over the targets. */
  lemma {:induction false} AllForgottenInv(s0: State, s: State, targets: seq<Hash>, rest: seq<Hash>, sender: Address,
                                           g: Hash, now: Time, cfg: Config, s': State)
    requires Inv(s) && Chooses(cfg.first) && Since(s0, targets, sender, g, now + cfg.grace, s) && LiveForget(s, g)
    requires forall h :: h in rest ==> Due(s0, s.vms, targets, sender, g, h)
    requires AllForgotten(s, rest, g, now, cfg) == Ok(s')
    ensures Inv(s') && Ever(s'.tables) == Ever(s.tables) && Since(s0, targets, sender, g, now + cfg.grace, s')
            && LiveForget(s', g)
    ensures Fewer(s.tables, s'.tables) && SamePins(s.files, s'.files)
    ensures forall h :: h in rest ==> ForgottenBy(s'.tables, h, g)
    decreases |rest|
  {
    if rest == [] {
      FewerSelf(s.tables);
    } else {
      assert rest[0] in rest;
      var s1 := ItemForgotten(s, rest[0], g, now, cfg).value;
      OneTarget(s0, s, targets, sender, g, rest[0], now, cfg, s1);
      forall h | h in rest[1..] ensures Due(s0, s1.vms, targets, sender, g, h) {
        assert Due(s0, s.vms, targets, sender, g, h);
      }
      AllForgottenInv(s0, s1, targets, rest[1..], sender, g, now, cfg, s');
      FewerTwice(s.tables, s1.tables, s'.tables, rest[0], g);
    }
  }

  // ----- posts

  /** Forgetting a processed post by name succeeds if and only if it is no amend, or one that names its post by hash. */
  lemma {:induction false} PostForgottenIff(s: State, h: Hash, g: Hash, now: Time, cfg: Config)
    requires Inv(s) && Chooses(cfg.first) && IsProcessed(s.tables, h) && h in s.tables.messages
    requires s.tables.messages[h].content.Post?
    ensures var c := s.tables.messages[h].content;
            ItemForgotten(s, h, g, now, cfg).Ok? <==> !Posts.IsAmend(c) || c.postRef.HashRef?
  {
    hide Consistent, ElementsMatch, PinsMatch, VmsMatch, Aggregates.TablesOk, FilesInv, Vms.VolumesPinned,
         Posts.Forgotten, MovedToForgotten, Posts.PostsOk;
    var m := s.tables.messages[h];
    assert s.posts[h].(latestAmend := None) == Posts.RowOf(m);
    Posts.ForgottenOkIff(s.posts, h, m.content, cfg.first);
    Posts.DeletedSelf(s.posts, h);
    MovesOk(s, h, g);
  }

  lemma {:induction false} MovesOk(s: State, h: Hash, g: Hash)
    requires Consistent(s.tables) && PostsMatch(s.tables.messages, s.posts) && h in s.posts
    requires h !in Posts.AmendsOf(s.posts, h)
    ensures MovedToForgotten(s.tables, {h}, g).Ok?
    ensures MovedToForgotten(MovedToForgotten(s.tables, {h}, g).value, Posts.AmendsOf(s.posts, h), g).Ok?
  {
    ConsistentDisjoint(s.tables);
  }

  /** Whatever the status of its amends, and however they name it, they go with a forgotten post. */
  lemma {:induction false} AmendsGoAlong(s: State, o: Hash, g: Hash, now: Time, cfg: Config, s': State, a: Hash)
    requires Inv(s) && Chooses(cfg.first) && IsProcessed(s.tables, o) && Unused(s.vms, o)
    requires ItemForgotten(s, o, g, now, cfg) == Ok(s') && a in Posts.AmendsOf(s.posts, o)
    ensures a in s.tables.messages && a in s'.tables.forgotten
  {
    hide Consistent, ElementsMatch, PinsMatch, VmsMatch, Aggregates.TablesOk, FilesInv, Vms.VolumesPinned,
         Posts.PostsOk, Aggregates.AggsLeft, Files.TagsHeld, Files.PinsLeft, ItemForgotten;
    ItemForgottenInv(s, o, g, now, cfg, s');
    assert StatusOk(s.tables, o) by { StatusesOk(s.tables, o); }
    AmendedIsPost(s.posts, a, o);
    assert a in GoneWith(s, o);
  }

  lemma {:induction false} StatusesOk(t: Tables, h: Hash)
    requires Consistent(t)
    ensures StatusOk(t, h)
  {
  }

  lemma {:induction false} AmendedIsPost(posts: Posts.PostTable, a: Hash, o: Hash)
    requires Posts.PostsOk(posts) && a in Posts.AmendsOf(posts, o)
    ensures o in posts
  {
    assert Posts.AmendOk(posts, a);
  }
}
