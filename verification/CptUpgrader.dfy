/** Migrating a checkpoint: every upgrader whose tag is missing and every
    downgrader whose tag is present is applied, in rounds that respect the
    dependences between tags. */
module CptUpgrader {
  import opened Finite
  import opened Text

  type Tag = string

  datatype Kind = Up | Down

  /** One script under cpt_upgraders/. */
  datatype Upgrader = Upgrader(kind: Kind, depends: seq<Tag>, fwdDepends: seq<Tag>)

  type Registry = map<Tag, Upgrader>

  function TagSet(reg: Registry): set<Tag> {
    set t | t in reg && reg[t].kind == Up
  }

  function UntagSet(reg: Registry): set<Tag> {
    set t | t in reg && reg[t].kind == Down
  }

  predicate Ready(reg: Registry, t: Tag, tags: set<Tag>)
    requires t in reg
  {
    forall d :: d in reg[t].depends ==> d in tags
  }

  /** Every dependence names a registered tag. */
  predicate Audited(reg: Registry) {
    forall t, d :: t in reg && d in reg[t].depends ==> d in reg
  }

  /** The migrations that a checkpoint with these tags needs. */
  function Work(reg: Registry, tags: set<Tag>): (w: set<Tag>)
    ensures w <= reg.Keys
  {
    (TagSet(reg) - tags) + (UntagSet(reg) * tags)
  }

  function Applied(reg: Registry, done: set<Tag>, tags: set<Tag>): set<Tag>
    requires done <= reg.Keys
  {
    (tags + (set t | t in done && reg[t].kind == Up)) - (set t | t in done && reg[t].kind == Down)
  }

  // ---- The result of a run, round by round -------------------------------

  datatype Outcome = Stuck(left: set<Tag>) | Migrated(tags: set<Tag>)

  function ReadyIn(reg: Registry, todo: set<Tag>, tags: set<Tag>): (r: set<Tag>)
    requires todo <= reg.Keys
    ensures r <= todo
  {
    set t | t in todo && Ready(reg, t, tags)
  }

  function Run(reg: Registry, todo: set<Tag>, tags: set<Tag>): Outcome
    requires todo <= reg.Keys
    decreases |todo|
  {
    var ready := ReadyIn(reg, todo, tags);
    if todo == {} then Migrated(tags)
    else if ready == {} then Stuck(todo)
    else
      Shrinks(todo, ready);
      Run(reg, todo - ready, Applied(reg, ready, tags))
  }

  /** The tags applied in each round of a run. */
  function Rounds(reg: Registry, todo: set<Tag>, tags: set<Tag>): seq<set<Tag>>
    requires todo <= reg.Keys
    decreases |todo|
  {
    var ready := ReadyIn(reg, todo, tags);
    if ready == {} then []
    else
      Shrinks(todo, ready);
      [ready] + Rounds(reg, todo - ready, Applied(reg, ready, tags))
  }

  lemma Shrinks(a: set<Tag>, b: set<Tag>)
    requires b != {} && b <= a
    ensures |a - b| < |a|
  {
    assert a == (a - b) + b;
    assert |a| == |a - b| + |b|;
  }

  // ---- The work loop -------------------------------------------------------

  /** `log[i]` had all its dependences when it was applied: they were tags at
      the start or came from an upgrader earlier in the log. */
  predicate InOrder(reg: Registry, log: seq<Tag>, start: set<Tag>) {
    forall i, d :: 0 <= i < |log| && log[i] in reg && d in reg[log[i]].depends ==> d in start || d in log[..i]
  }

  /** `log` lists the tags round by round, each round in some order. */
  ghost predicate Orders(log: seq<Tag>, rounds: seq<set<Tag>>) {
    if rounds == [] then log == []
    else exists k :: 0 <= k <= |log| && IsRound(log[..k], rounds[0]) && Orders(log[k..], rounds[1..])
  }

  predicate IsRound(log: seq<Tag>, round: set<Tag>) {
    NoRepeats(log) && Elems(log) == round
  }

  lemma OrdersCons(first: seq<Tag>, rest: seq<Tag>, rounds: seq<set<Tag>>)
    requires rounds != [] && IsRound(first, rounds[0]) && Orders(rest, rounds[1..])
    ensures Orders(first + rest, rounds)
  {
    var log := first + rest;
    assert log[..|first|] == first && log[|first|..] == rest;
  }

  /** Whatever order the remaining rounds take, the log so far and that order
      list the rounds of the whole run. */
  ghost predicate Continues(reg: Registry, tags0: set<Tag>, toApply: set<Tag>, tags: set<Tag>, log: seq<Tag>)
    requires toApply <= reg.Keys
  {
    forall rest :: Orders(rest, Rounds(reg, toApply, tags)) ==>
      Orders(log + rest, Rounds(reg, Work(reg, tags0), tags0))
  }

  lemma ContinuesRound(reg: Registry, tags0: set<Tag>, toApply: set<Tag>, tags: set<Tag>,
                       log: seq<Tag>, round: seq<Tag>)
    requires toApply <= reg.Keys && Continues(reg, tags0, toApply, tags, log)
    requires var ready := ReadyIn(reg, toApply, tags); ready != {} && IsRound(round, ready)
    ensures var ready := ReadyIn(reg, toApply, tags);
            Continues(reg, tags0, toApply - ready, Applied(reg, ready, tags), log + round)
  {
    var ready := ReadyIn(reg, toApply, tags);
    var rounds := Rounds(reg, toApply, tags);
    var later := Rounds(reg, toApply - ready, Applied(reg, ready, tags));
    assert rounds[0] == ready && rounds[1..] == later;
    hide Rounds, Orders, IsRound, ReadyIn, Applied, Work;
    forall rest | Orders(rest, later)
      ensures Orders(log + round + rest, Rounds(reg, Work(reg, tags0), tags0))
    {
      OrdersCons(round, rest, rounds);
      assert log + (round + rest) == log + round + rest;
    }
  }

  lemma NothingLogged(reg: Registry, tags0: set<Tag>)
    ensures Continues(reg, tags0, Work(reg, tags0), tags0, [])
  {
    hide Orders, Rounds, Work;
    forall rest: seq<Tag> ensures [] + rest == rest {
    }
  }

  lemma AllLogged(reg: Registry, tags0: set<Tag>, toApply: set<Tag>, tags: set<Tag>, log: seq<Tag>)
    requires toApply <= reg.Keys && Continues(reg, tags0, toApply, tags, log)
    requires ReadyIn(reg, toApply, tags) == {}
    ensures Orders(log, Rounds(reg, Work(reg, tags0), tags0))
  {
    assert Orders([], Rounds(reg, toApply, tags));
    hide Orders, Rounds;
    assert log + [] == log;
  }

  /** One round: the ready tags are applied in whatever order the set yields
      them. */
  method ApplyRound(reg: Registry, ready: set<Tag>, tags0: set<Tag>) returns (tags: set<Tag>, log: seq<Tag>)
    requires ready <= reg.Keys
    requires forall t :: t in ready ==> (reg[t].kind == Up <==> t !in tags0)
    ensures tags == Applied(reg, ready, tags0)
    ensures NoRepeats(log) && Elems(log) == ready
  {
    tags, log := tags0, [];
    var pending := ready;
    while pending != {}
      invariant pending <= ready
      invariant tags == Applied(reg, ready - pending, tags0)
      invariant NoRepeats(log) && Elems(log) == ready - pending
      decreases pending
    {
      var t :| t in pending;
      if reg[t].kind == Up {
        tags := tags + {t};
      } else {
        assert t in tags;
        tags := tags - {t};
      }
      assert ready - (pending - {t}) == (ready - pending) + {t};
      log := log + [t];
      pending := pending - {t};
    }
  }

  /** What the work loop keeps, with `toApply` left to do. */
  ghost predicate Progress(reg: Registry, tags0: set<Tag>, toApply: set<Tag>, tags: set<Tag>, log: seq<Tag>) {
    && toApply <= Work(reg, tags0)
    && Run(reg, toApply, tags) == Run(reg, Work(reg, tags0), tags0)
    && NoRepeats(log) && Elems(log) == Work(reg, tags0) - toApply
    && tags <= tags0 + Elems(log)
    && (forall t :: t in toApply ==> (reg[t].kind == Up <==> t !in tags))
    && InOrder(reg, log, tags0)
  }

  /** The work loop of a whole migration. */
  method Migrate(reg: Registry, tags0: set<Tag>) returns (outcome: Outcome, log: seq<Tag>)
    ensures outcome == Run(reg, Work(reg, tags0), tags0)
    ensures NoRepeats(log)
    ensures outcome.Stuck? ==> Elems(log) + outcome.left == Work(reg, tags0) && Elems(log) !! outcome.left
    ensures outcome.Migrated? ==> Elems(log) == Work(reg, tags0)
    ensures InOrder(reg, log, tags0)
    ensures Orders(log, Rounds(reg, Work(reg, tags0), tags0))
  {
    hide Run, Applied, InOrder, Work, NoRepeats, Elems, Continues, Rounds, Orders;
    var tags := tags0;
    var toApply := Work(reg, tags);
    log := [];
    EmptyLog(reg, tags0);
    NothingLogged(reg, tags0);
    while toApply != {}
      invariant Progress(reg, tags0, toApply, tags, log) && Continues(reg, tags0, toApply, tags, log)
      decreases |toApply|
    {
      RunUnfolds(reg, toApply, tags);
      var ready := set t | t in toApply && Ready(reg, t, tags);
      if ready == {} {
        AllLogged(reg, tags0, toApply, tags, log);
        return Stuck(toApply), log;
      }
      var round;
      ghost var before := tags;
      tags, round := ApplyRound(reg, ready, tags);
      RoundProgress(reg, tags0, toApply, before, log, round);
      ContinuesRound(reg, tags0, toApply, before, log, round);
      log := log + round;
      toApply := toApply - ready;
    }
    RunUnfolds(reg, toApply, tags);
    AllLogged(reg, tags0, toApply, tags, log);
    outcome := Migrated(tags);
  }

  lemma RoundProgress(reg: Registry, tags0: set<Tag>, toApply: set<Tag>, tags: set<Tag>, log: seq<Tag>, round: seq<Tag>)
    requires Progress(reg, tags0, toApply, tags, log)
    requires var ready := ReadyIn(reg, toApply, tags);
             ready != {} && NoRepeats(round) && Elems(round) == ready
    ensures var ready := ReadyIn(reg, toApply, tags);
            && Progress(reg, tags0, toApply - ready, Applied(reg, ready, tags), log + round)
            && |toApply - ready| < |toApply|
  {
    hide Run, Applied, InOrder, Work, NoRepeats, Elems;
    var ready := ReadyIn(reg, toApply, tags);
    RunUnfolds(reg, toApply, tags);
    Shrinks(toApply, ready);
    RoundKeeps(reg, toApply, ready, tags);
    ExtendLog(reg, log, round, tags0, tags);
  }

  lemma RunUnfolds(reg: Registry, todo: set<Tag>, tags: set<Tag>)
    requires todo <= reg.Keys
    ensures var ready := ReadyIn(reg, todo, tags);
            Run(reg, todo, tags) ==
            if todo == {} then Migrated(tags)
            else if ready == {} then Stuck(todo)
            else Run(reg, todo - ready, Applied(reg, ready, tags))
  {
  }

  lemma EmptyLog(reg: Registry, tags: set<Tag>)
    ensures InOrder(reg, [], tags) && NoRepeats<Tag>([]) && Elems<Tag>([]) == {}
    ensures forall t :: t in Work(reg, tags) ==> (reg[t].kind == Up <==> t !in tags)
  {
  }

  lemma RoundKeeps(reg: Registry, todo: set<Tag>, ready: set<Tag>, tags: set<Tag>)
    requires ready <= todo <= reg.Keys
    requires forall t :: t in todo ==> (reg[t].kind == Up <==> t !in tags)
    ensures var after := Applied(reg, ready, tags);
            && after <= tags + ready
            && forall t :: t in todo - ready ==> (reg[t].kind == Up <==> t !in after)
  {
  }

  lemma ExtendLog(reg: Registry, log: seq<Tag>, round: seq<Tag>, start: set<Tag>, tags: set<Tag>)
    requires NoRepeats(log) && NoRepeats(round) && Elems(log) !! Elems(round)
    requires InOrder(reg, log, start) && tags <= start + Elems(log)
    requires forall t :: t in Elems(round) ==> t in reg && Ready(reg, t, tags)
    ensures NoRepeats(log + round) && InOrder(reg, log + round, start)
    ensures Elems(log + round) == Elems(log) + Elems(round)
  {
    var s := log + round;
    forall i, j | 0 <= i < j < |s| ensures s[i] != s[j] {
      if i < |log| <= j {
        assert s[i] in Elems(log) && s[j] in Elems(round);
      }
    }
    forall i, d | 0 <= i < |s| && s[i] in reg && d in reg[s[i]].depends ensures d in start || d in s[..i] {
      if i < |log| {
        assert s[..i] == log[..i];
      } else {
        assert s[i] in Elems(round);
        assert d in start || d in Elems(log);
        assert log <= s[..i];
      }
    }
  }

  // ---- Where a successful run ends ----------------------------------------

  lemma {:induction false} RunEnds(reg: Registry, todo: set<Tag>, tags: set<Tag>)
    requires todo <= reg.Keys
    ensures var o := Run(reg, todo, tags); o.Migrated? ==> o.tags == Applied(reg, todo, tags)
    decreases |todo|
  {
    var ready := ReadyIn(reg, todo, tags);
    if todo != {} && ready != {} {
      Shrinks(todo, ready);
      RunEnds(reg, todo - ready, Applied(reg, ready, tags));
    }
  }

  /** A successful migration adds every upgrader's tag, removes every
      downgrader's and keeps all others, also those it does not know. */
  lemma MigratedTags(reg: Registry, tags: set<Tag>)
    ensures var o := Run(reg, Work(reg, tags), tags);
            o.Migrated? ==> o.tags == (tags + TagSet(reg)) - UntagSet(reg)
  {
    RunEnds(reg, Work(reg, tags), tags);
  }

  /** Migrating the result again finds nothing to do. */
  lemma MigrateTwice(reg: Registry, tags: set<Tag>)
    ensures var o := Run(reg, Work(reg, tags), tags);
            o.Migrated? ==> Work(reg, o.tags) == {} && Run(reg, Work(reg, o.tags), o.tags) == o
  {
    MigratedTags(reg, tags);
  }

  // ---- Stuck exactly on a cycle -------------------------------------------

  /** A tag and a tag that it depends on. */
  function DependsOn(reg: Registry): (Tag, Tag) -> bool {
    (t, d) => t in reg && d in reg[t].depends
  }

  ghost predicate HasCycle(reg: Registry, s: set<Tag>) {
    Cyclic(DependsOn(reg), s)
  }

  /** What the loop keeps: every upgrader's tag is present or still to come. */
  predicate Covered(reg: Registry, todo: set<Tag>, tags: set<Tag>) {
    forall t :: t in reg && reg[t].kind == Up ==> (t in todo <==> t !in tags)
  }

  lemma {:induction false} CycleSticks(reg: Registry, todo: set<Tag>, tags: set<Tag>, c: seq<Tag>)
    requires todo <= reg.Keys && Covered(reg, todo, tags)
    requires IsCycle(DependsOn(reg), c, todo * TagSet(reg))
    ensures Run(reg, todo, tags).Stuck?
    decreases |todo|
  {
    var ready := ReadyIn(reg, todo, tags);
    assert c[0] in todo;
    forall i | 0 <= i < |c| ensures c[i] !in ready {
      var d := Next(c, i);
      assert DependsOn(reg)(c[i], d) && d in todo * TagSet(reg);
    }
    if ready != {} {
      Shrinks(todo, ready);
      CycleSticks(reg, todo - ready, Applied(reg, ready, tags), c);
    }
  }

  // ---- The tag list in the checkpoint file --------------------------------

  /** `set(text.split())` */
  function ReadTags(text: string): set<Tag> {
    Elems(Words(text))
  }

  /** Writing a set of tags in any order and reading it back keeps the set
      exactly when every tag is a word. */
  lemma TagsRoundTrip(tags: seq<Tag>)
    ensures ReadTags(Join(tags, ' ')) == Elems(tags) <==> forall t :: t in tags ==> t != "" && NoSpace(t)
  {
    if forall t :: t in tags ==> t != "" && NoSpace(t) {
      WordsJoin(tags);
    } else {
      var t :| t in tags && !(t != "" && NoSpace(t));
      assert t in Elems(tags);
      assert t !in ReadTags(Join(tags, ' '));
    }
  }

  /** A second run of the script on the file that the first one wrote has
      nothing to do, whatever order the tags were written in. */
  lemma SecondRunIdle(reg: Registry, text: string, written: seq<Tag>)
    requires forall t :: t in reg ==> t != "" && NoSpace(t)
    requires var o := Run(reg, Work(reg, ReadTags(text)), ReadTags(text));
             o.Migrated? && Elems(written) == o.tags
    ensures Work(reg, ReadTags(Join(written, ' '))) == {}
  {
    var tags := ReadTags(text);
    MigratedTags(reg, tags);
    MigrateTwice(reg, tags);
    forall t | t in written ensures t != "" && NoSpace(t) {
      assert t in Elems(written);
      assert t in tags || t in reg;
    }
    TagsRoundTrip(written);
  }
}
