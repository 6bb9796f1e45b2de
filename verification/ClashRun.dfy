/** A run in which the name of one STORE clashes with the tag of another, and after which no collection can delete
    everything that has no pin: for any two owners, any name and any files. */
module ClashRun {
  import opened Wrappers
  import opened Records
  import opened Lifecycle
  import opened Node
  import opened NodeRuns
  import opened ForgetRun
  import RunIndexes
  import MessageStores
  import Files
  import Vms

  /** A message is submitted and processed. */
  function Turn(h: Hash, sender: Address, c: Content): seq<Step> {
    [Submit(0, RowFor(h, sender)), Process(0, OutcomeFor(sender, c))]
  }

  /** Between two turns: nothing is pending, the live messages are processed, and there are no machines. */
  ghost predicate Between(s: State, live: map<Hash, Message>, gone: set<Hash>, f: Files.FileTables) {
    && s.tables.pending == map[] && s.tables.messages == live && s.tables.forgotten.Keys == gone && s.files == f
    && s.tables.status.Keys == live.Keys + gone && (forall h :: h in live ==> s.tables.status[h] == Processed)
    && live.Keys !! gone && s.vms == map[]
  }

  /** In the middle of a turn. */
  ghost predicate Waiting(s: State, live: map<Hash, Message>, gone: set<Hash>, f: Files.FileTables, h: Hash,
                          sender: Address) {
    && s.tables.pending == map[0 := RowFor(h, sender)] && s.tables.messages == live && s.tables.forgotten.Keys == gone
    && s.files == f && s.tables.status.Keys == live.Keys + gone + {h} && s.tables.status[h] == Pending
    && (forall k :: k in live ==> s.tables.status[k] == Processed) && live.Keys !! gone && h !in live && h !in gone
    && s.vms == map[]
  }

  lemma {:induction false} SubmitTurn(s: State, live: map<Hash, Message>, gone: set<Hash>, f: Files.FileTables, h: Hash,
                                      sender: Address)
    requires Between(s, live, gone, f) && h !in live && h !in gone
    ensures Waiting(s.(tables := Submitted(s.tables, 0, RowFor(h, sender))), live, gone, f, h, sender)
  {
  }

  lemma {:induction false} Inserting(s: State, live: map<Hash, Message>, gone: set<Hash>, f: Files.FileTables, h: Hash,
                                     sender: Address, c: Content)
    requires Waiting(s, live, gone, f, h, sender)
    ensures var m := MessageBy(sender, c);
            Inserted(s, 0, h, m).Ok? && Between(Inserted(s, 0, h, m).value, live[h := m], gone, f)
  {
  }

  function WithFile(f: Files.FileTables, file: Hash): Files.FileTables {
    f.(files := f.files + {file})
  }

  lemma {:induction false} StoreTurn(s: State, live: map<Hash, Message>, gone: set<Hash>, f: Files.FileTables, h: Hash,
                                     sender: Address, c: Content, cfg: Config)
    requires Waiting(s, live, gone, f, h, sender) && c.Store? && Chooses(cfg.first) && cfg.storesFiles
    requires var f1, m := WithFile(f, c.file), MessageBy(sender, c);
             && Files.CheckDependencies(f1, c).None? && Files.CheckPermissions(f1, h, m).None? && h !in f1.messagePins
    ensures Attempted(s, 0, OutcomeFor(sender, c), cfg).Ok?
    ensures var f1, m := WithFile(f, c.file), MessageBy(sender, c);
            && Files.Pinned(f1, h, m).Ok?
            && Between(Attempted(s, 0, OutcomeFor(sender, c), cfg).value, live[h := m], gone,
                       Files.Pinned(f1, h, m).value)
  {
    hide Files.CheckDependencies, Files.CheckPermissions, Inserted;
    var m := MessageBy(sender, c);
    var s1 := Fetched(s, m, cfg);
    assert MessageOf(RowFor(h, sender), Body(true, sender, 0, c)) == m;
    assert Waiting(s1, live, gone, WithFile(f, c.file), h, sender);
    Inserting(s1, live, gone, WithFile(f, c.file), h, sender, c);
  }

  lemma {:induction false} ForgetChecks(s: State, h: Hash, sender: Address, first: RowChoice)
    requires h in s.tables.messages && h in s.tables.status && s.tables.status[h] == Processed && s.vms == map[]
    requires s.tables.messages[h].sender == sender && !s.tables.messages[h].content.Forget? && Chooses(first)
    ensures var m := MessageBy(sender, Forget([h], []));
            CheckForget(s, m).None? && Targets(s, m, first) == [h] && CheckTargets(s.tables, sender, [h]).None?
  {
    assert [h][1..] == [];
    assert Vms.Dependents(map[], h) == {};
    assert CheckHashes(s, []).None? && CheckTargets(s.tables, sender, []).None?;
  }

  lemma {:induction false} StoreForgotten(s: State, live: map<Hash, Message>, gone: set<Hash>, f: Files.FileTables,
                                          h: Hash, g: Hash, cfg: Config)
    requires Between(s, live, gone, f) && h in live && live[h].content.Store? && Chooses(cfg.first)
    requires Files.Forgotten(f, h, live[h], 0, cfg.grace).Ok?
    ensures AllForgotten(s, [h], g, 0, cfg).Ok?
    ensures Between(AllForgotten(s, [h], g, 0, cfg).value, live - {h}, gone + {h},
                    Files.Forgotten(f, h, live[h], 0, cfg.grace).value)
  {
    hide Files.Forgotten, MovedToForgotten;
    assert [h][1..] == [];
    var t1 := MovedToForgotten(s.tables, {h}, g);
    MessageStores.MovedSingle(s.tables, h, g);
    assert t1.Ok?;
    MessageStores.MovedNone(t1.value, g);
    var r := ItemForgotten(s, h, g, 0, cfg);
    assert r == MessageForgotten(s, h, live[h], g, 0, cfg);
    assert r.Ok?;
    assert AllForgotten(r.value, [], g, 0, cfg) == r;
  }

  lemma {:induction false} BetweenHas(s: State, live: map<Hash, Message>, gone: set<Hash>, f: Files.FileTables, h: Hash)
    requires Between(s, live, gone, f) && h in live
    ensures h in s.tables.messages && s.tables.messages[h] == live[h] && IsProcessed(s.tables, h) && s.vms == map[]
  {
  }

  lemma {:induction false} ForgetTurn(s: State, live: map<Hash, Message>, gone: set<Hash>, f: Files.FileTables, g: Hash,
                                      sender: Address, h: Hash, cfg: Config)
    requires Waiting(s, live, gone, f, g, sender) && Chooses(cfg.first) && h in live && live[h].content.Store?
    requires live[h].sender == sender && Files.Forgotten(f, h, live[h], 0, cfg.grace).Ok?
    ensures var c := Forget([h], []);
            && Attempted(s, 0, OutcomeFor(sender, c), cfg).Ok?
            && Between(Attempted(s, 0, OutcomeFor(sender, c), cfg).value, live[g := MessageBy(sender, c)] - {h},
                       gone + {h},
                       Files.Forgotten(f, h, live[h], 0, cfg.grace).value)
  {
    hide Inserted, AllForgotten, CheckForget, CheckTargets, Targets, Files.Forgotten, Between;
    var c := Forget([h], []);
    var m := MessageBy(sender, c);
    assert MessageOf(RowFor(g, sender), Body(true, sender, 0, c)) == m;
    ForgetChecks(s, h, sender, cfg.first);
    Inserting(s, live, gone, f, g, sender, c);
    var s2 := Inserted(s, 0, g, m).value;
    BetweenHas(s2, live[g := m], gone, f, h);
    ForgetChecks(s2, h, sender, cfg.first);
    StoreForgotten(s2, live[g := m], gone, f, h, g, cfg);
  }

  /** A turn whose attempt succeeds extends a run. */
  lemma {:induction false} TurnExtends(run: seq<Step>, cfg: Config, live: map<Hash, Message>, gone: set<Hash>,
                                       f: Files.FileTables, h: Hash, sender: Address, c: Content, s1: State)
    requires Chooses(cfg.first) && Legal(run, cfg) && Between(At(run, cfg), live, gone, f)
    requires h !in live && h !in gone && IsItemHash(h)
    requires s1 == At(run, cfg).(tables := Submitted(At(run, cfg).tables, 0, RowFor(h, sender)))
    requires Attempted(s1, 0, OutcomeFor(sender, c), cfg).Ok? && Waiting(s1, live, gone, f, h, sender)
    ensures Legal(run + Turn(h, sender, c), cfg)
    ensures At(run + Turn(h, sender, c), cfg) == Attempted(s1, 0, OutcomeFor(sender, c), cfg).value
  {
    hide Attempted, Submitted, IsItemHash, At, Legal;
    var turn := Turn(h, sender, c);
    Extended(run, turn[0], cfg);
    assert At(run + [turn[0]], cfg) == s1;
    Extended(run + [turn[0]], turn[1], cfg);
    assert run + turn == run + [turn[0]] + [turn[1]];
  }

  /** The STOREs and FORGETs of the run: `a` named `name` by `owner`, `b` named `<owner>/<name>` by another. */
  datatype Clash = Clash(owner: Address, other: Address, name: string, fileA: Hash, fileB: Hash, a: Hash, b: Hash,
                         ga: Hash, gb: Hash)
  {
    function StoreA(): Content { Store(fileA, true, Some(name)) }

    function StoreB(): Content { Store(fileB, true, Some(Tag())) }

    function Tag(): string { owner + "/" + name }

    predicate Good() {
      && IsItemHash(a) && IsItemHash(b) && IsItemHash(ga) && IsItemHash(gb)
      && a != b && a != ga && a != gb && b != ga && b != gb && ga != gb
      && !IsItemHash(name) && !IsItemHash(Tag())
    }

    function Run(): seq<Step> {
      Turn(a, owner, StoreA()) + Turn(b, other, StoreB()) + Turn(ga, owner, Forget([a], [])) +
        Turn(gb, other, Forget([b], []))
    }
  }

  const NO_FILES: Files.FileTables := Files.FileTables({}, map[], map[], {}, {}, map[])

  function FilesA(x: Clash): Files.FileTables {
    Files.FileTables({x.fileA}, map[x.a := Files.PinOf(MessageBy(x.owner, x.StoreA()))], map[], {}, {},
                     map[x.Tag() := Files.TagRow(x.owner, x.fileA, 0)])
  }

  function FilesB(x: Clash): Files.FileTables {
    FilesA(x).(files := {x.fileA, x.fileB},
               messagePins := map[x.a := Files.PinOf(MessageBy(x.owner, x.StoreA())),
                                  x.b := Files.PinOf(MessageBy(x.other, x.StoreB()))],
               tags := map[x.Tag() := Files.TagRow(x.owner, x.fileA, 0),
                           x.other + "/" + x.Tag() := Files.TagRow(x.other, x.fileB, 0)])
  }

  lemma {:induction false} PinA(x: Clash)
    requires x.Good()
    ensures var f1, m := WithFile(NO_FILES, x.fileA), MessageBy(x.owner, x.StoreA());
            && Files.CheckDependencies(f1, x.StoreA()).None? && Files.CheckPermissions(f1, x.a, m).None?
            && Files.Pinned(f1, x.a, m) == Ok(FilesA(x))
  {
    hide IsItemHash;
    assert {} + {x.fileA} == {x.fileA};
    assert Files.TagOf(x.a, Files.PinOf(MessageBy(x.owner, x.StoreA()))) == x.Tag();
  }

  lemma {:induction false} PinB(x: Clash)
    requires x.Good()
    ensures var f1, m := WithFile(FilesA(x), x.fileB), MessageBy(x.other, x.StoreB());
            && Files.CheckDependencies(f1, x.StoreB()).None? && Files.CheckPermissions(f1, x.b, m).None?
            && Files.Pinned(f1, x.b, m) == Ok(FilesB(x))
  {
    hide IsItemHash;
    var own := x.other + "/" + x.Tag();
    assert |own| > |x.Tag()|;
    assert {x.fileA} + {x.fileB} == {x.fileA, x.fileB};
    assert Files.TagOf(x.b, Files.PinOf(MessageBy(x.other, x.StoreB()))) == own;
  }

  lemma {:induction false} StoresProcessed(x: Clash, cfg: Config)
    requires x.Good() && Chooses(cfg.first) && cfg.storesFiles
    ensures var run := Turn(x.a, x.owner, x.StoreA()) + Turn(x.b, x.other, x.StoreB());
            && Legal(run, cfg)
            && Between(At(run, cfg), map[x.a := MessageBy(x.owner, x.StoreA()), x.b := MessageBy(x.other, x.StoreB())],
                       {}, FilesB(x))
  {
    assert Legal([], cfg) && At([], cfg) == EMPTY;
    hide At, Legal, Attempted, Submitted, IsItemHash, Turn, FilesB, Files.CheckDependencies, Files.CheckPermissions,
         Files.Pinned;
    var ma, mb := MessageBy(x.owner, x.StoreA()), MessageBy(x.other, x.StoreB());
    assert Between(EMPTY, map[], {}, NO_FILES);
    SubmitTurn(EMPTY, map[], {}, NO_FILES, x.a, x.owner);
    PinA(x);
    var s1 := EMPTY.(tables := Submitted(EMPTY.tables, 0, RowFor(x.a, x.owner)));
    StoreTurn(s1, map[], {}, NO_FILES, x.a, x.owner, x.StoreA(), cfg);
    TurnExtends([], cfg, map[], {}, NO_FILES, x.a, x.owner, x.StoreA(), s1);
    var run1 := Turn(x.a, x.owner, x.StoreA());
    assert [] + run1 == run1;
    var s2 := At(run1, cfg);
    var live := map[x.a := ma];
    assert Between(s2, live, {}, FilesA(x));
    SubmitTurn(s2, live, {}, FilesA(x), x.b, x.other);
    PinB(x);
    var s3 := s2.(tables := Submitted(s2.tables, 0, RowFor(x.b, x.other)));
    StoreTurn(s3, live, {}, FilesA(x), x.b, x.other, x.StoreB(), cfg);
    TurnExtends(run1, cfg, live, {}, FilesA(x), x.b, x.other, x.StoreB(), s3);
    assert live[x.b := mb] == map[x.a := ma, x.b := mb];
  }

  /** One FORGET turn after a run. */
  lemma {:induction false} ForgetExtends(run: seq<Step>, cfg: Config, live: map<Hash, Message>, gone: set<Hash>,
                                         f: Files.FileTables, g: Hash, sender: Address, h: Hash)
    requires Chooses(cfg.first) && Legal(run, cfg) && Between(At(run, cfg), live, gone, f)
    requires g !in live && g !in gone && IsItemHash(g) && h in live && live[h].content.Store?
             && live[h].sender == sender
    requires Files.Forgotten(f, h, live[h], 0, cfg.grace).Ok?
    ensures var run' := run + Turn(g, sender, Forget([h], []));
            && Legal(run', cfg)
            && Between(At(run', cfg), live[g := MessageBy(sender, Forget([h], []))] - {h}, gone + {h},
                       Files.Forgotten(f, h, live[h], 0, cfg.grace).value)
  {
    hide At, Legal, Attempted, Submitted, IsItemHash, Turn, Files.Forgotten, Between, Waiting;
    var s := At(run, cfg);
    SubmitTurn(s, live, gone, f, g, sender);
    var s1 := s.(tables := Submitted(s.tables, 0, RowFor(g, sender)));
    ForgetTurn(s1, live, gone, f, g, sender, h, cfg);
    TurnExtends(run, cfg, live, gone, f, g, sender, Forget([h], []), s1);
  }

  /** The run is legal.  After the grace period the tag of `a` names a file without a pin; whatever a collection
      deletes then, it is not every file without a pin. */
  lemma {:induction false} CollectionFails(x: Clash, cfg: Config, d: Time)
    requires x.Good() && Chooses(cfg.first) && cfg.storesFiles && cfg.grace < d
    ensures Legal(x.Run(), cfg)
    ensures var f := At(x.Run(), cfg).files;
            && x.Tag() in f.tags && f.tags[x.Tag()].file in Files.Unpinned(Files.Expired(f, d))
            && forall deleted :: CollectionOk(f, d, deleted) ==> deleted != Files.Unpinned(Files.Expired(f, d))
    ensures !RunIndexes.CollectsAll(At(x.Run(), cfg), d, cfg)
  {
    hide At, Legal, IsItemHash, Turn, Files.Forgotten, Files.Unpinned, Between, RunIndexes.CollectsAll;
    var ma, mb := MessageBy(x.owner, x.StoreA()), MessageBy(x.other, x.StoreB());
    var live := map[x.a := ma, x.b := mb];
    StoresProcessed(x, cfg);
    var run2 := Turn(x.a, x.owner, x.StoreA()) + Turn(x.b, x.other, x.StoreB());
    Files.SlashedRefClashes(FilesB(x), x.owner, x.name, x.a, ma, x.b, mb, 0, cfg.grace);
    ForgetExtends(run2, cfg, live, {}, FilesB(x), x.ga, x.owner, x.a);
    var run3 := run2 + Turn(x.ga, x.owner, Forget([x.a], []));
    var f3 := Files.Forgotten(FilesB(x), x.a, ma, 0, cfg.grace).value;
    var live3 := live[x.ga := MessageBy(x.owner, Forget([x.a], []))] - {x.a};
    assert {} + {x.a} == {x.a};
    ForgetExtends(run3, cfg, live3, {x.a}, f3, x.gb, x.other, x.b);
    assert run3 + Turn(x.gb, x.other, Forget([x.b], [])) == x.Run();
    BetweenFiles(At(x.Run(), cfg), live3[x.gb := MessageBy(x.other, Forget([x.b], []))] - {x.b}, {x.a} + {x.b},
                 Files.Forgotten(f3, x.b, mb, 0, cfg.grace).value);
    RunIndexes.CollectsAllIff(At(x.Run(), cfg), d, cfg);
  }

  lemma {:induction false} BetweenFiles(s: State, live: map<Hash, Message>, gone: set<Hash>, f: Files.FileTables)
    requires Between(s, live, gone, f)
    ensures s.files == f
  {
  }
}
