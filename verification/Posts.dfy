/** The posts table and its index of latest amends (`src/aleph/handlers/content/post.py` and
    `src/aleph/db/accessors/posts.py`). */
module Posts {
  import opened Wrappers
  import opened Records

  datatype PostRow = PostRow(owner: Address, postType: string, ref: Option<Hash>, amends: Option<Hash>, content: Value,
                             created: Time, latestAmend: Option<Hash>)

  type PostTable = map<Hash, PostRow>

  function RefHash(ref: PostRef): Option<Hash> {
    match ref
    case NoRef => None
    case HashRef(h) => Some(h)
    case ChainRef(h) => Some(h)
  }

  predicate IsAmend(c: Content)
    requires c.Post?
  {
    c.postType == "amend"
  }

  // ----- the operations

  function CheckDependencies(posts: PostTable, c: Content): Option<ProcessingError>
    requires c.Post?
  {
    if !IsAmend(c) then None
    else match RefHash(c.postRef)
      case None => Some(NoAmendTarget)
      case Some(o) =>
        if o !in posts then Some(AmendTargetNotFound)
        else if posts[o].postType == "amend" then Some(CannotAmendAmend)
        else None
  }

  /** When the merged view of a post was last changed: the creation time of its latest amend, or its own. */
  function LastUpdated(posts: PostTable, o: Hash): Time
    requires o in posts
  {
    match posts[o].latestAmend
    case Some(a) => if a in posts then posts[a].created else posts[o].created
    case None => posts[o].created
  }

  function RowOf(m: Message): PostRow
    requires m.content.Post?
  {
    PostRow(m.address, m.content.postType, RefHash(m.content.postRef),
            if IsAmend(m.content) then RefHash(m.content.postRef) else None, m.content.body, m.time, None)
  }

  /** Adds the row and, for an amend newer than the merged view, points the original at it. */
  function Inserted(posts: PostTable, h: Hash, m: Message): PostTable
    requires m.content.Post? && CheckDependencies(posts, m.content).None?
  {
    var posts1 := posts[h := RowOf(m)];
    if IsAmend(m.content) then
      var o := RefHash(m.content.postRef).value;
      if LastUpdated(posts1, o) < m.time then posts1[o := posts1[o].(latestAmend := Some(h))] else posts1
    else
      posts1
  }

  function AmendsOf(posts: PostTable, o: Hash): set<Hash> {
    set h | h in posts && posts[h].amends == Some(o)
  }

  function NewestAmends(posts: PostTable, o: Hash): set<Hash> {
    set h | h in AmendsOf(posts, o) && forall k :: k in AmendsOf(posts, o) ==> posts[k].created <= posts[h].created
  }

  /** Recomputes the latest amend as the newest one left, whichever the database returns among equals. */
  function Refreshed(posts: PostTable, o: Hash, first: RowChoice): PostTable
    requires o in posts
  {
    var newest := NewestAmends(posts, o);
    posts[o := posts[o].(latestAmend := if newest == {} then None else Some(first(newest)))]
  }

  /** Deletes a post with its amends, and refreshes the original when its latest amend goes.  The original of an amend
      with an on-chain reference is looked up under the wrong key, and not found. */
  function Forgotten(posts: PostTable, h: Hash, c: Content, first: RowChoice): Result<PostTable, ProcessingError>
    requires c.Post?
  {
    var left := posts - AmendsOf(posts, h) - {h};
    if !IsAmend(c) then
      Ok(left)
    else match c.postRef
      case HashRef(o) =>
        if o !in left then Err(Internal)
        else if left[o].latestAmend == Some(h) then Ok(Refreshed(left, o, first))
        else Ok(left)
      case _ => Err(Internal)
  }

  // ----- the index

  /** An amend points at an existing post that is not itself an amend. */
  ghost predicate AmendOk(posts: PostTable, h: Hash)
    requires h in posts
  {
    && (posts[h].amends.Some? <==> posts[h].postType == "amend")
    && (posts[h].amends.Some? ==>
          posts[h].amends.value in posts && posts[posts[h].amends.value].amends.None? && posts[h].latestAmend.None?)
  }

  /** The index of one post: its latest amend is one of its newest amends, and when there is none no amend is
      newer than the post itself. */
  ghost predicate LatestOk(posts: PostTable, o: Hash)
    requires o in posts
  {
    match posts[o].latestAmend
    case Some(a) => a in AmendsOf(posts, o) && forall k :: k in AmendsOf(posts, o) ==>
        posts[k].created <= posts[a].created
    case None => forall k :: k in AmendsOf(posts, o) ==> posts[k].created <= posts[o].created
  }

  ghost predicate PostsOk(posts: PostTable) {
    forall h :: h in posts ==> AmendOk(posts, h) && LatestOk(posts, h)
  }

  /** The rows after an insertion. */
  lemma {:induction false} InsertedRows(posts: PostTable, h: Hash, m: Message)
    requires h !in posts && m.content.Post? && CheckDependencies(posts, m.content).None?
    ensures var posts', o := Inserted(posts, h, m), RowOf(m).amends;
            && posts'.Keys == posts.Keys + {h} && posts'[h] == RowOf(m)
            && (o.Some? ==> o.value in posts && posts[o.value].postType != "amend")
            && (forall k :: k in posts ==>
                  posts'[k] == if o == Some(k) && LastUpdated(posts[h := RowOf(m)], k) < m.time
                               then posts[k].(latestAmend := Some(h)) else posts[k])
  {
  }

  lemma {:induction false} InsertedAmends(posts: PostTable, h: Hash, m: Message, o: Hash)
    requires PostsOk(posts) && h !in posts && m.content.Post? && CheckDependencies(posts, m.content).None?
    ensures AmendsOf(Inserted(posts, h, m), o) == AmendsOf(posts, o) + if RowOf(m).amends == Some(o) then {h} else {}
    ensures AmendsOf(posts, h) == {}
  {
    hide LatestOk, Inserted, CheckDependencies;
    InsertedRows(posts, h, m);
    forall k | k in posts ensures posts[k].amends != Some(h) {
      assert AmendOk(posts, k);
    }
  }

  lemma {:induction false} InsertedAmendOk(posts: PostTable, h: Hash, m: Message, o: Hash)
    requires PostsOk(posts) && h !in posts && m.content.Post? && CheckDependencies(posts, m.content).None?
    requires o in Inserted(posts, h, m)
    ensures AmendOk(Inserted(posts, h, m), o)
  {
    InsertedRows(posts, h, m);
    if o != h {
      assert AmendOk(posts, o);
    }
    if RowOf(m).amends.Some? {
      assert AmendOk(posts, RowOf(m).amends.value);
    }
  }

  lemma {:induction false} AmendsInTable(posts: PostTable, o: Hash)
    ensures AmendsOf(posts, o) <= posts.Keys
  {
  }

  lemma {:induction false} InsertedLatest(posts: PostTable, h: Hash, m: Message, o: Hash)
    requires PostsOk(posts) && h !in posts && m.content.Post? && CheckDependencies(posts, m.content).None?
    requires o in Inserted(posts, h, m)
    ensures LatestOk(Inserted(posts, h, m), o)
  {
    hide AmendOk, Inserted, CheckDependencies, AmendsOf;
    InsertedRows(posts, h, m);
    InsertedAmends(posts, h, m, o);
    var posts' := Inserted(posts, h, m);
    AmendsInTable(posts, o);
    assert forall k :: k in posts ==> posts'[k].created == posts[k].created;
    if o != h {
      assert LatestOk(posts, o);
      if RowOf(m).amends != Some(o) {
        assert posts'[o] == posts[o];
      }
    }
  }

  /** Inserting a post keeps the index, whatever its time: ties and amends older than their original included. */
  lemma {:induction false} InsertedOk(posts: PostTable, h: Hash, m: Message)
    requires PostsOk(posts) && h !in posts && m.content.Post? && CheckDependencies(posts, m.content).None?
    ensures PostsOk(Inserted(posts, h, m))
  {
    var posts' := Inserted(posts, h, m);
    forall o | o in posts' ensures AmendOk(posts', o) && LatestOk(posts', o) {
      InsertedAmendOk(posts, h, m, o);
      InsertedLatest(posts, h, m, o);
    }
  }

  // ----- forgetting

  lemma {:induction false} NewestExists(posts: PostTable, hs: set<Hash>)
    requires hs != {} && forall k :: k in hs ==> k in posts
    ensures exists a :: a in hs && forall k :: k in hs ==> posts[k].created <= posts[a].created
  {
    var x :| x in hs;
    var rest := hs - {x};
    if rest == {} {
      assert hs == {x};
    } else {
      NewestExists(posts, rest);
      var a :| a in rest && forall k :: k in rest ==> posts[k].created <= posts[a].created;
      var best := if posts[a].created >= posts[x].created then a else x;
      assert best in hs && forall k :: k in hs ==> posts[k].created <= posts[best].created;
    }
  }

  lemma {:induction false} RefreshedLatest(posts: PostTable, o: Hash, first: RowChoice)
    requires o in posts && Chooses(first)
    ensures LatestOk(Refreshed(posts, o, first), o)
  {
    var posts' := Refreshed(posts, o, first);
    assert AmendsOf(posts', o) == AmendsOf(posts, o);
    if AmendsOf(posts, o) != {} {
      NewestExists(posts, AmendsOf(posts, o));
      var a :| a in AmendsOf(posts, o) && forall k :: k in AmendsOf(posts, o) ==> posts[k].created <= posts[a].created;
      assert a in NewestAmends(posts, o);
    }
  }

  /** No post amends itself. */
  lemma {:induction false} DeletedSelf(posts: PostTable, h: Hash)
    requires PostsOk(posts) && h in posts
    ensures h !in AmendsOf(posts, h)
  {
    assert AmendOk(posts, h);
  }

  /** The rows left after deleting a post and its amends. */
  lemma {:induction false} DeletedRows(posts: PostTable, h: Hash, o: Hash)
    requires PostsOk(posts) && h in posts && o in posts - AmendsOf(posts, h) - {h}
    ensures var left := posts - AmendsOf(posts, h) - {h};
            && AmendsOf(left, o) == AmendsOf(posts, o) - {h}
            && (posts[h].amends != Some(o) || left[o].latestAmend != Some(h) ==> LatestOk(left, o))
  {
    var left := posts - AmendsOf(posts, h) - {h};
    assert LatestOk(posts, o);
    forall k ensures k in AmendsOf(left, o) <==> k in AmendsOf(posts, o) && k != h {
    }
  }

  /** Forgetting a post keeps the index. */
  lemma {:induction false} ForgottenOk(posts: PostTable, h: Hash, c: Content, first: RowChoice)
    requires PostsOk(posts) && h in posts && c.Post? && Chooses(first)
    requires posts[h].amends == if IsAmend(c) then RefHash(c.postRef) else None
    requires Forgotten(posts, h, c, first).Ok?
    ensures PostsOk(Forgotten(posts, h, c, first).value)
  {
    var left := posts - AmendsOf(posts, h) - {h};
    var posts' := Forgotten(posts, h, c, first).value;
    forall o | o in posts' ensures AmendOk(posts', o) && LatestOk(posts', o) {
      DeletedRows(posts, h, o);
      DeletedAmendOk(posts, h, o);
      if posts' != left {
        RefreshedLatest(left, c.postRef.hash, first);
        RefreshedRows(left, c.postRef.hash, first, o);
      }
    }
  }

  lemma {:induction false} DeletedAmendOk(posts: PostTable, h: Hash, o: Hash)
    requires PostsOk(posts) && o in posts - AmendsOf(posts, h) - {h}
    ensures AmendOk(posts - AmendsOf(posts, h) - {h}, o)
  {
    assert AmendOk(posts, o);
    if posts[o].amends.Some? {
      assert AmendOk(posts, posts[o].amends.value);
    }
  }

  lemma {:induction false} RefreshedRows(posts: PostTable, o: Hash, first: RowChoice, k: Hash)
    requires o in posts && k in posts && posts[o].amends.None? && AmendOk(posts, k)
    ensures AmendOk(Refreshed(posts, o, first), k)
    ensures AmendsOf(Refreshed(posts, o, first), k) == AmendsOf(posts, k)
    ensures k != o && LatestOk(posts, k) ==> LatestOk(Refreshed(posts, o, first), k)
  {
    assert AmendsOf(Refreshed(posts, o, first), k) == AmendsOf(posts, k);
  }

  /** Forgetting a post by name fails if and only if it is an amend with an on-chain reference. */
  lemma {:induction false} ForgottenOkIff(posts: PostTable, h: Hash, c: Content, first: RowChoice)
    requires PostsOk(posts) && h in posts && c.Post?
    requires posts[h].amends == if IsAmend(c) then RefHash(c.postRef) else None
    ensures Forgotten(posts, h, c, first).Ok? <==> !IsAmend(c) || c.postRef.HashRef?
  {
    assert AmendOk(posts, h);
    if IsAmend(c) && c.postRef.HashRef? {
      assert AmendOk(posts, c.postRef.hash);
    }
  }

  /** An input where it fails: an amend with an on-chain reference, though its post is there.  Forgetting the post
      takes the amend along. */
  lemma {:induction false} ChainAmendGoesWithPost(o: Hash, a: Hash, post: Message, amend: Message, first: RowChoice)
    requires o != a && post.content.Post? && !IsAmend(post.content)
    requires amend.content.Post? && IsAmend(amend.content) && amend.content.postRef == ChainRef(o)
    ensures var posts := map[o := RowOf(post)];
            && CheckDependencies(posts, amend.content).None?
            && var both := Inserted(posts, a, amend);
               && Forgotten(both, a, amend.content, first) == Err(Internal)
               && a in AmendsOf(both, o) && Forgotten(both, o, post.content, first) == Ok(map[])
  {
    var both := Inserted(map[o := RowOf(post)], a, amend);
    assert both - AmendsOf(both, o) - {o} == map[];
  }

  // ----- what readers see

  datatype MergedPost = MergedPost(itemHash: Hash, content: Value, lastUpdated: Time)

  /** A post joined with its latest amend, as the posts endpoint returns it. */
  function MergedView(posts: PostTable, o: Hash): MergedPost
    requires o in posts
  {
    match posts[o].latestAmend
    case Some(a) =>
      if a in posts then MergedPost(a, posts[a].content, posts[a].created)
        else MergedPost(o, posts[o].content, posts[o].created)
    case None => MergedPost(o, posts[o].content, posts[o].created)
  }

  /** The post with its amends. */
  function VersionsOf(posts: PostTable, o: Hash): set<Hash> {
    AmendsOf(posts, o) + {o}
  }

  /** The merged view is a version of the post, and no version is newer. */
  ghost predicate ShowsNewest(posts: PostTable, o: Hash)
    requires o in posts
  {
    var v := MergedView(posts, o);
    && v.itemHash in VersionsOf(posts, o) && v.content == posts[v.itemHash].content
    && v.lastUpdated == posts[v.itemHash].created
    && forall a :: a in VersionsOf(posts, o) ==> posts[a].created <= v.lastUpdated
  }

  /** What the merged view shows: the latest amend, which is a newest one, or the post itself. */
  lemma {:induction false} MergedViewMeans(posts: PostTable, o: Hash)
    requires PostsOk(posts) && o in posts
    ensures var v := MergedView(posts, o);
            && (if posts[o].latestAmend.None? then v.itemHash == o
                else v.itemHash in AmendsOf(posts, o) && Some(v.itemHash) == posts[o].latestAmend)
            && v.content == posts[v.itemHash].content && v.lastUpdated == posts[v.itemHash].created
            && forall a :: a in AmendsOf(posts, o) ==> posts[a].created <= v.lastUpdated
  {
    assert LatestOk(posts, o);
  }

  /** The merged view shows a newest version if and only if no amend is indexed or some amend is as new as the post. */
  lemma {:induction false} ShowsNewestIff(posts: PostTable, o: Hash)
    requires PostsOk(posts) && o in posts
    ensures ShowsNewest(posts, o) <==>
            posts[o].latestAmend.None? || exists a :: a in AmendsOf(posts, o) && posts[a].created >= posts[o].created
  {
    MergedViewMeans(posts, o);
    assert LatestOk(posts, o);
    var v := MergedView(posts, o);
    assert o in VersionsOf(posts, o);
    if posts[o].latestAmend.Some? && ShowsNewest(posts, o) {
      assert v.itemHash in AmendsOf(posts, o) && posts[v.itemHash].created >= posts[o].created;
    }
  }

  /** With every amend dated after the post, no amend is indexed exactly when there is none. */
  lemma {:induction false} IndexedIffAmended(posts: PostTable, o: Hash)
    requires PostsOk(posts) && o in posts
    requires forall a :: a in AmendsOf(posts, o) ==> posts[a].created > posts[o].created
    ensures posts[o].latestAmend.None? <==> AmendsOf(posts, o) == {}
  {
    assert LatestOk(posts, o);
    if AmendsOf(posts, o) != {} {
      var a :| a in AmendsOf(posts, o);
    }
  }

  /** An amend dated before its post is not shown when it arrives. */
  lemma {:induction false} OlderAmendIsHidden(o: Hash, a: Hash, post: Message, amend: Message)
    requires o != a && post.content.Post? && !IsAmend(post.content)
    requires amend.content.Post? && IsAmend(amend.content) && amend.content.postRef == HashRef(o)
             && amend.time <= post.time
    ensures var posts := map[o := RowOf(post)];
            CheckDependencies(posts, amend.content).None? && MergedView(Inserted(posts, a, amend), o).itemHash == o
  {
  }

  /** It is shown, over the newer post, once a later amend is forgotten: the refresh takes the newest amend left. */
  lemma {:induction false} OlderAmendSurfaces(o: Hash, a: Hash, b: Hash, post: Message, older: Message, newer: Message,
                                              first: RowChoice)
    requires o != a && o != b && a != b && Chooses(first)
    requires post.content.Post? && !IsAmend(post.content) && older.time < post.time < newer.time
    requires older.content.Post? && IsAmend(older.content) && older.content.postRef == HashRef(o)
    requires newer.content.Post? && IsAmend(newer.content) && newer.content.postRef == HashRef(o)
    ensures var posts := map[o := RowOf(post)];
            && CheckDependencies(posts, older.content).None?
            && CheckDependencies(Inserted(posts, a, older), newer.content).None?
            && var all := Inserted(Inserted(posts, a, older), b, newer);
               && MergedView(all, o).itemHash == b
               && Forgotten(all, b, newer.content, first).Ok?
               && var left := Forgotten(all, b, newer.content, first).value;
                  o in left && MergedView(left, o).itemHash == a && !ShowsNewest(left, o)
  {
    var posts := map[o := RowOf(post)];
    var two := Inserted(posts, a, older);
    assert two == posts[a := RowOf(older)];
    var all := Inserted(two, b, newer);
    assert all == two[b := RowOf(newer)][o := RowOf(post).(latestAmend := Some(b))];
    assert AmendsOf(all, b) == {};
    var left := all - {} - {b};
    assert left == map[o := RowOf(post).(latestAmend := Some(b)), a := RowOf(older)];
    assert AmendsOf(left, o) == {a};
    assert NewestAmends(left, o) == {a};
    assert first({a}) in {a};
    var refreshed := Refreshed(left, o, first);
    assert refreshed[o].latestAmend == Some(a);
    assert o in VersionsOf(refreshed, o);
  }

  // ----- the table as an object

  class PostStore {
    var rows: PostTable
    const first: RowChoice

    constructor (first: RowChoice)
      ensures rows == map[] && this.first == first && PostsOk(rows)
    {
      rows := map[];
      this.first := first;
    }

    method ProcessPost(h: Hash, m: Message)
      requires m.content.Post? && CheckDependencies(rows, m.content).None?
      modifies this
      ensures rows == Inserted(old(rows), h, m)
    {
      rows := rows[h := RowOf(m)];
      if IsAmend(m.content) {
        var o := RefHash(m.content.postRef).value;
        if MergedView(rows, o).lastUpdated < m.time {
          rows := rows[o := rows[o].(latestAmend := Some(h))];
        }
      }
    }

    method RefreshLatestAmend(o: Hash)
      requires o in rows
      modifies this
      ensures rows == Refreshed(old(rows), o, first)
    {
      var newest := NewestAmends(rows, o);
      var latest := if newest == {} then None else Some(first(newest));
      rows := rows[o := rows[o].(latestAmend := latest)];
    }

    /** Returns the amends that went with the post.  After an error the caller rolls back. */
    method ForgetMessage(h: Hash, c: Content) returns (r: Result<set<Hash>, ProcessingError>)
      requires c.Post?
      modifies this
      ensures match Forgotten(old(rows), h, c, first)
              case Ok(p) => r == Ok(AmendsOf(old(rows), h)) && rows == p
              case Err(e) => r == Err(e)
    {
      var amends := AmendsOf(rows, h);
      rows := rows - amends;
      rows := rows - {h};
      if IsAmend(c) {
        if !c.postRef.HashRef? || c.postRef.hash !in rows {
          return Err(Internal);
        }
        if rows[c.postRef.hash].latestAmend == Some(h) {
          RefreshLatestAmend(c.postRef.hash);
        }
      }
      r := Ok(amends);
    }
  }
}
