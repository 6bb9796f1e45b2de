/** A shortest run in which a message is processed and then forgotten: what the theorems about FORGETs speak of does
    happen, for any two item hashes and any sender. */
module ForgetRun {
  import opened Wrappers
  import opened Records
  import opened Lifecycle
  import opened Node
  import opened NodeSteps
  import opened NodeRuns
  import Posts
  import Aggregates
  import Files
  import Vms

  function RowFor(h: Hash, sender: Address): PendingRow {
    PendingRow(h, sender, None, None, true)
  }

  /** An inline message dated 0, processed at time 0. */
  function OutcomeFor(sender: Address, c: Content): Outcome {
    Outcome(Ok(Body(true, sender, 0, c)), None, 0, false)
  }

  const NOTE: Content := Post("note", NoRef, "", NoBalances)

  function MessageBy(sender: Address, c: Content): Message {
    Message(sender, None, true, sender, 0, c)
  }

  function ShortRun(h: Hash, g: Hash, sender: Address): seq<Step> {
    [Submit(0, RowFor(h, sender)), Process(0, OutcomeFor(sender, NOTE)),
     Submit(1, RowFor(g, sender)), Process(1, OutcomeFor(sender, Forget([h], [])))]
  }

  /** The state with the given message tables and posts, and nothing else. */
  function WithTables(t: Tables, posts: Posts.PostTable): State {
    EMPTY.(tables := t, posts := posts)
  }

  function Submitted1(h: Hash, sender: Address): State {
    WithTables(Tables(map[0 := RowFor(h, sender)], map[h := Pending], map[], map[], map[], {}), map[])
  }

  function Processed1(h: Hash, sender: Address): State {
    WithTables(Tables(map[], map[h := Processed], map[h := MessageBy(sender, NOTE)], map[], map[], {}),
               map[h := Posts.RowOf(MessageBy(sender, NOTE))])
  }

  function Submitted2(h: Hash, g: Hash, sender: Address): State {
    var s := Processed1(h, sender);
    s.(tables := s.tables.(pending := map[1 := RowFor(g, sender)], status := map[h := Processed, g := Pending]))
  }

  function Inserted2(h: Hash, g: Hash, sender: Address): State {
    var s := Processed1(h, sender);
    s.(tables := s.tables.(status := map[h := Processed, g := Processed],
                           messages := map[h := MessageBy(sender, NOTE), g := MessageBy(sender, Forget([h], []))]))
  }

  lemma {:induction false} FirstSubmitted(h: Hash, sender: Address)
    ensures Submitted(EMPTY.tables, 0, RowFor(h, sender)) == Submitted1(h, sender).tables
  {
  }

  lemma {:induction false} FirstProcessed(h: Hash, sender: Address, cfg: Config)
    requires Chooses(cfg.first)
    ensures Attempted(Submitted1(h, sender), 0, OutcomeFor(sender, NOTE), cfg) == Ok(Processed1(h, sender))
  {
    var s, m := Submitted1(h, sender), MessageBy(sender, NOTE);
    assert MessageOf(RowFor(h, sender), Body(true, sender, 0, NOTE)) == m;
    assert MessageInserted(s.tables, 0, h, m) == Processed1(h, sender).tables;
  }

  lemma {:induction false} SecondSubmitted(h: Hash, g: Hash, sender: Address)
    requires h != g
    ensures Submitted(Processed1(h, sender).tables, 1, RowFor(g, sender)) == Submitted2(h, g, sender).tables
  {
  }

  lemma {:induction false} SecondInserted(h: Hash, g: Hash, sender: Address)
    requires h != g
    ensures Inserted(Submitted2(h, g, sender), 1, g, MessageBy(sender, Forget([h], []))) == Ok(Inserted2(h, g, sender))
  {
    assert MessageInserted(Submitted2(h, g, sender).tables, 1, g, MessageBy(sender, Forget([h], []))) ==
           Inserted2(h, g, sender).tables;
  }

  lemma {:induction false} ChecksPass(h: Hash, g: Hash, sender: Address, first: RowChoice)
    requires h != g && Chooses(first)
    ensures var s, m := Submitted2(h, g, sender), MessageBy(sender, Forget([h], []));
            CheckForget(s, m).None? && Targets(s, m, first) == [h] && CheckTargets(s.tables, sender, [h]).None?
    ensures Targets(Inserted2(h, g, sender), MessageBy(sender, Forget([h], [])), first) == [h]
  {
    var s := Submitted2(h, g, sender);
    assert [h][1..] == [];
    assert Vms.Dependents(map[], h) == {};
    assert CheckHashes(s, []).None? && CheckTargets(s.tables, sender, []).None?;
  }

  lemma {:induction false} NoteForgotten(h: Hash, g: Hash, sender: Address, cfg: Config)
    requires h != g && Chooses(cfg.first)
    ensures var r := AllForgotten(Inserted2(h, g, sender), [h], g, 0, cfg);
            r.Ok? && h in r.value.tables.forgotten && h !in r.value.tables.messages
  {
    var s, m := Inserted2(h, g, sender), MessageBy(sender, NOTE);
    assert [h][1..] == [];
    var t1 := MovedToForgotten(s.tables, {h}, g);
    assert t1.Ok? && h in {h} && h in t1.value.forgotten && h !in t1.value.messages;
    assert Posts.AmendsOf(s.posts, h) == {};
    var s2 := CleanedUp(s.(tables := t1.value), h, m, 0, cfg);
    assert s2.Ok? && s2.value.1 == {};
    var r := ItemForgotten(s, h, g, 0, cfg);
    assert r == MessageForgotten(s, h, m, g, 0, cfg);
    assert r.Ok? && h in r.value.tables.forgotten && h !in r.value.tables.messages;
    assert AllForgotten(r.value, [], g, 0, cfg) == r;
  }

  lemma {:induction false} Extended(run: seq<Step>, step: Step, cfg: Config)
    requires Chooses(cfg.first) && Legal(run, cfg) && Enabled(At(run, cfg), step)
    ensures Legal(run + [step], cfg) && At(run + [step], cfg) == Next(At(run, cfg), step, cfg)
  {
    hide Enabled, Next;
    assert (run + [step])[..|run|] == run;
  }

  lemma {:induction false} SecondProcessed(h: Hash, g: Hash, sender: Address, cfg: Config)
    requires h != g && Chooses(cfg.first)
    ensures var r := Attempted(Submitted2(h, g, sender), 1, OutcomeFor(sender, Forget([h], [])), cfg);
            r.Ok? && h in r.value.tables.forgotten && h !in r.value.tables.messages
  {
    hide Inserted, AllForgotten, CheckForget, CheckTargets, Targets;
    ChecksPass(h, g, sender, cfg.first);
    SecondInserted(h, g, sender);
    NoteForgotten(h, g, sender, cfg);
    assert MessageOf(RowFor(g, sender), Body(true, sender, 0, Forget([h], []))) == MessageBy(sender, Forget([h], []));
  }

  /** The run is legal; its second step processes the post, and its last step a FORGET that forgets it. */
  lemma {:induction false} AMessageIsForgotten(h: Hash, g: Hash, sender: Address, cfg: Config)
    requires IsItemHash(h) && IsItemHash(g) && h != g && Chooses(cfg.first)
    ensures var run := ShortRun(h, g, sender);
            && Legal(run, cfg) && h in At(run[..2], cfg).tables.messages
            && Applies(At(run[..3], cfg), run[3], cfg, g)
            && h in At(run, cfg).tables.forgotten && h !in At(run, cfg).tables.messages
  {
    hide Attempted, Submitted, IsItemHash, At, Legal;
    var run := ShortRun(h, g, sender);
    EmptyRun(cfg);
    assert run[..0] == [] && run[..1] == [] + [run[0]] && run[..2] == run[..1] + [run[1]];
    assert run[..3] == run[..2] + [run[2]] && run == run[..3] + [run[3]];
    FirstSubmitted(h, sender);
    Extended([], run[0], cfg);
    assert At(run[..1], cfg) == Submitted1(h, sender);
    FirstProcessed(h, sender, cfg);
    Extended(run[..1], run[1], cfg);
    assert At(run[..2], cfg) == Processed1(h, sender);
    SecondSubmitted(h, g, sender);
    Extended(run[..2], run[2], cfg);
    assert At(run[..3], cfg) == Submitted2(h, g, sender);
    SecondProcessed(h, g, sender, cfg);
    Extended(run[..3], run[3], cfg);
  }

  lemma {:induction false} EmptyRun(cfg: Config)
    requires Chooses(cfg.first)
    ensures Legal([], cfg) && At([], cfg) == EMPTY
  {
  }
}
