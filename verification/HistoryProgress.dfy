/** What a flush that nothing disturbs achieves: it can always finish, and it leaves nothing behind. */
module HistoryProgress {
  import opened Wrappers
  import opened Conversations
  import opened HistoryWindow
  import opened HistoryFlush

  /** A file operation of the flush in flight. */
  predicate IsFileStep(e: Event) {
    e.WriteNext? || e.PruneFile? || e.DropLegacy?
  }

  predicate OnlyFileSteps(events: seq<Event>) {
    forall e :: e in events ==> IsFileStep(e)
  }

  lemma FileStepKeeps(limits: Limits, w: Watch, e: Event)
    requires Inv(w) && CleanAgree(w.a) && HistoryFlush.Kept(w) && Enabled(w.a, e) && IsFileStep(e)
    requires limits.maxConversations >= 1
    ensures var w' := Observe(limits, w, e);
      && Inv(w') && CleanAgree(w'.a) && HistoryFlush.Kept(w') && w'.gone == w.gone && SameFlush(w.a, w'.a)
      && (DropsLegacy(w.a) ==> DropsLegacy(w'.a))
  {
    StepKeepsInv(limits, w, e);
    QuietStepKeeps(limits, w, e);
  }

  /** A flush is through with its file operations only once the legacy file is gone. */
  predicate DropsLegacy(a: Agent) {
    a.flight.Some? && a.flight.value.finished ==> !a.legacy
  }

  /** Memory, what is dirty and what the flush in flight takes are the same. */
  predicate SameFlush(a: Agent, b: Agent) {
    && b.convs == a.convs && b.dirtyKeys == a.dirtyKeys && (b.flight.Some? <==> a.flight.Some?)
    && (a.flight.Some? ==> b.flight.value.keys == a.flight.value.keys)
  }

  lemma {:induction false} FileStepsKeep(limits: Limits, w: Watch, rest: seq<Event>)
    requires Inv(w) && CleanAgree(w.a) && HistoryFlush.Kept(w) && EnabledRun(limits, w.a, rest)
    requires OnlyFileSteps(rest) && limits.maxConversations >= 1
    ensures var w' := Watch(Play(limits, w.a, rest), w.gone);
      && Inv(w') && CleanAgree(w'.a) && HistoryFlush.Kept(w') && SameFlush(w.a, w'.a)
      && (DropsLegacy(w.a) ==> DropsLegacy(w'.a))
    decreases |rest|
  {
    if rest != [] {
      assert rest[0] in rest;
      FileStepKeeps(limits, w, rest[0]);
      FileStepsKeep(limits, Observe(limits, w, rest[0]), rest[1..]);
    }
  }

  /** A flush that starts with something dirty, meets no mutation and does not fail leaves nothing dirty,
      but after a migration the dirty conversations that memory does not hold; and disk and memory agree
      on everything else. */
  lemma UndisturbedFlushCleans(limits: Limits, a: Agent, listing: seq<Key>, rest: seq<Event>)
    requires Inv(Watch(a, {})) && CleanAgree(a) && a.dirty && Enabled(a, Wake(listing)) && limits.maxConversations >= 1
    requires var b := Next(limits, a, Wake(listing));
      EnabledRun(limits, b, rest) && OnlyFileSteps(rest) && Enabled(Play(limits, b, rest), CommitSaved)
    ensures var c := Next(limits, Play(limits, Next(limits, a, Wake(listing)), rest), CommitSaved);
      && c.convs == a.convs && !c.legacy && c.flight.None?
      && c.dirtyKeys == (if a.legacy then a.dirtyKeys - a.convs.at.Keys else {})
      && (c.dirty <==> c.dirtyKeys != {}) && AgreesWhenClean(c)
  {
    var w := Watch(Next(limits, a, Wake(listing)), {});
    SnapshotKeepsInv(Watch(a, {}), listing);
    FileStepsKeep(limits, w, rest);
    var w' := Watch(Play(limits, w.a, rest), {});
    SnapshotTakes(a, listing);
    CommitAgreesIff(w');
    CommitLeaves(w'.a);
  }

  lemma SnapshotTakes(a: Agent, listing: seq<Key>)
    requires a.convs.Valid() && a.dirty && Enabled(a, Wake(listing)) && SnapshotStep(a, listing).flight.Some?
    ensures forall k :: k in SnapshotStep(a, listing).flight.value.keys <==>
              if a.legacy then k in a.convs.at else k in a.dirtyKeys
  {
  }

  lemma CommitLeaves(a: Agent)
    requires Enabled(a, CommitSaved)
    ensures var b := CommitStep(a, true);
      && b.convs == a.convs && b.legacy == a.legacy && b.flight.None?
      && (forall k :: k in b.dirtyKeys <==> k in a.dirtyKeys && k !in a.flight.value.keys)
      && (b.dirty <==> b.dirtyKeys != {})
  {
  }

  /** Whatever state a flush in flight is in, its remaining file operations can be carried out up to a
      saved commit. */
  lemma {:induction false} FlushCanFinish(limits: Limits, w: Watch) returns (rest: seq<Event>)
    requires Inv(w) && w.a.flight.Some? && limits.maxConversations >= 1
    ensures EnabledRun(limits, w.a, rest) && OnlyFileSteps(rest)
    ensures Enabled(Play(limits, w.a, rest), CommitSaved)
    decreases !w.a.flight.value.finished, |w.a.flight.value.keys| - w.a.flight.value.done, |w.a.files|
  {
    var f := w.a.flight.value;
    if f.finished {
      rest := [];
    } else {
      var e := NextFileStep(w);
      StepKeepsInv(limits, w, e);
      var later := FlushCanFinish(limits, Observe(limits, w, e));
      rest := [e] + later;
      assert rest[1..] == later;
    }
  }

  lemma NextFileStep(w: Watch) returns (e: Event)
    requires Inv(w) && w.a.flight.Some? && !w.a.flight.value.finished
    ensures Enabled(w.a, e) && IsFileStep(e)
    ensures e.WriteNext? ==> w.a.flight.value.done < |w.a.flight.value.keys|
    ensures e.PruneFile? ==> e.key in w.a.files
  {
    var f := w.a.flight.value;
    if f.done < |f.keys| {
      e := WriteNext;
    } else if f.migrating && exists k :: k in w.a.files && !IsSpared(f, k) {
      var k :| k in w.a.files && !IsSpared(f, k);
      e := PruneFile(k);
    } else {
      e := DropLegacy;
    }
  }
}
