// Message drafts shared by browser tabs: each tab's composer, the stored draft
// they all write, the revision announcements between them, and the
// acknowledgement that clears a sent draft.
module DraftTabs {
  import opened Options

  // Client ids are drawn at random; the model asks only that a new one is fresh.
  type Revision = nat
  type TabId = nat

  datatype Draft = Draft(revision: Revision, text: string)

  // One composer. `loaded` once the draft storage is open and read; `unsaved`
  // while its last save is the one that failed.
  datatype Composer = Composer(
    text: string, revision: Revision, touched: bool, submitted: Option<Draft>,
    conflict: Option<Draft>, loaded: bool, unsaved: bool)
  {
    function Current(): Draft {
      Draft(revision, text)
    }

    function Type(typed: string, fresh': Revision): Composer {
      this.(text := typed, revision := fresh', touched := true)
    }

    function Restore(d: Draft): Composer {
      this.(text := d.text, revision := d.revision, touched := false, unsaved := false)
    }

    function Load(stored: Option<Draft>): Composer {
      (if stored.Some? then Restore(stored.value) else this).(loaded := true)
    }

    // An announced revision: ignored if it is this one, a conflict if the
    // draft here is touched, and otherwise taken from the store.
    function Receive(announced: Revision, stored: Option<Draft>): Composer {
      if !loaded || announced == revision || stored.None? then this
      else if touched then this.(conflict := stored)
      else Restore(stored.value)
    }

    function Recover(): Composer {
      if conflict.None? then this else Restore(conflict.value).(conflict := None)
    }

    function Submit(): Composer {
      this.(submitted := Some(Current()))
    }

    // What an accepted submission does to the composer before it is saved.
    function Acknowledge(fresh': Revision): Composer {
      if submitted.Some? && revision == submitted.value.revision then
        this.(text := "", revision := fresh', touched := false, submitted := None)
      else
        this.(submitted := None)
    }

    function Saved(stored: bool): Composer {
      this.(unsaved := !stored)
    }
  }

  // A tab: its composer, the revisions it has stored but not yet announced,
  // and the announcements waiting for it.
  datatype Tab = Tab(composer: Composer, outbox: seq<Revision>, inbox: seq<Revision>)

  // `born` records the text each revision was given when it was drawn.
  datatype System = System(tabs: map<TabId, Tab>, store: Option<Draft>, born: map<Revision, string>)

  datatype Event =
    | OpenTab(tab: TabId, text: string, fresh': Revision)
    | LoadTab(tab: TabId)
    | CloseTab(tab: TabId)
    | Edit(tab: TabId, text: string, fresh': Revision)
    | Save(tab: TabId, stored: bool)
    | Announce(tab: TabId)
    | Deliver(tab: TabId)
    | Submit(tab: TabId)
    | Acknowledge(tab: TabId, fresh': Revision, stored: bool)
    | Recover(tab: TabId)

  const NO_TABS := System(map[], None, map[])

  function Put(s: System, t: TabId, c: Composer): System
    requires t in s.tabs
  {
    s.(tabs := s.tabs[t := s.tabs[t].(composer := c)])
  }

  // A save of the current draft; it fails while the storage is not open.
  function SaveTab(s: System, t: TabId, stored: bool): System
    requires t in s.tabs
  {
    var c := s.tabs[t].composer;
    if stored && c.loaded then
      s.(tabs := s.tabs[t := Tab(c.Saved(true), s.tabs[t].outbox + [c.revision], s.tabs[t].inbox)],
         store := Some(c.Current()))
    else
      Put(s, t, c.Saved(false))
  }

  function Broadcast(tabs: map<TabId, Tab>, from: TabId): map<TabId, Tab>
    requires from in tabs && tabs[from].outbox != []
  {
    var r := tabs[from].outbox[0];
    map t | t in tabs ::
      if t == from then tabs[t].(outbox := tabs[t].outbox[1..]) else tabs[t].(inbox := tabs[t].inbox + [r])
  }

  function Step(s: System, e: Event): System {
    if e.OpenTab? then
      if e.tab in s.tabs || e.fresh' in s.born then s
      else
        s.(tabs := s.tabs[e.tab := Tab(Composer(e.text, e.fresh', false, None, None, false, false), [], [])],
           born := s.born[e.fresh' := e.text])
    else if e.tab !in s.tabs then s
    else
      var tab := s.tabs[e.tab];
      match e
      case OpenTab(_, _, _) => s
      case LoadTab(t) => if tab.composer.loaded then s else Put(s, t, tab.composer.Load(s.store))
      case CloseTab(t) => s.(tabs := s.tabs - {t})
      case Edit(t, text, id) =>
        if id in s.born then s else Put(s, t, tab.composer.Type(text, id)).(born := s.born[id := text])
      case Save(t, stored) => SaveTab(s, t, stored)
      case Announce(t) => if tab.outbox == [] then s else s.(tabs := Broadcast(s.tabs, t))
      case Deliver(t) =>
        if tab.inbox == [] then s
        else s.(tabs := s.tabs[t := Tab(tab.composer.Receive(tab.inbox[0], s.store), tab.outbox, tab.inbox[1..])])
      case Submit(t) => Put(s, t, tab.composer.Submit())
      case Acknowledge(t, id, stored) =>
        if tab.composer.submitted.None? || id in s.born then s
        else SaveTab(Put(s, t, tab.composer.Acknowledge(id)).(born := s.born[id := ""]), t, stored)
      case Recover(t) => Put(s, t, tab.composer.Recover())
  }

  function Run(s: System, events: seq<Event>): System {
    if events == [] then s else Step(Run(s, events[..|events| - 1]), events[|events| - 1])
  }

  // --- A revision names one text -------------------------------------------

  ghost predicate Known(born: map<Revision, string>, d: Draft) {
    d.revision in born && born[d.revision] == d.text
  }

  ghost predicate KnownComposer(born: map<Revision, string>, c: Composer) {
    && Known(born, c.Current())
    && (c.submitted.Some? ==> Known(born, c.submitted.value))
    && (c.conflict.Some? ==> Known(born, c.conflict.value))
  }

  ghost predicate Coherent(s: System) {
    && (s.store.Some? ==> Known(s.born, s.store.value))
    && (forall t | t in s.tabs :: KnownComposer(s.born, s.tabs[t].composer))
  }

  lemma SaveKeepsCoherent(s: System, t: TabId, stored: bool)
    requires Coherent(s) && t in s.tabs
    ensures Coherent(SaveTab(s, t, stored)) && SaveTab(s, t, stored).born == s.born
  {
  }

  lemma PutKeepsCoherent(s: System, t: TabId, c: Composer, born: map<Revision, string>)
    requires Coherent(s) && t in s.tabs && KnownComposer(born, c)
    requires forall r | r in s.born :: r in born && born[r] == s.born[r]
    ensures Coherent(Put(s, t, c).(born := born))
  {
  }

  lemma AcknowledgeKeepsCoherent(s: System, t: TabId, id: Revision, stored: bool)
    requires Coherent(s) && t in s.tabs
    ensures Coherent(Step(s, Acknowledge(t, id, stored)))
  {
    var c := s.tabs[t].composer;
    if c.submitted.Some? && id !in s.born {
      var born := s.born[id := ""];
      PutKeepsCoherent(s, t, c.Acknowledge(id), born);
      SaveKeepsCoherent(Put(s, t, c.Acknowledge(id)).(born := born), t, stored);
    }
  }

  lemma StepKeepsCoherent(s: System, e: Event)
    requires Coherent(s)
    ensures Coherent(Step(s, e))
  {
    if e.tab in s.tabs {
      var c := s.tabs[e.tab].composer;
      match e
      case OpenTab(_, _, _) =>
      case LoadTab(t) => PutKeepsCoherent(s, t, c.Load(s.store), s.born);
      case CloseTab(_) =>
      case Edit(t, text, id) =>
        if id !in s.born { PutKeepsCoherent(s, t, c.Type(text, id), s.born[id := text]); }
      case Save(t, stored) => SaveKeepsCoherent(s, t, stored);
      case Announce(_) =>
      case Deliver(_) =>
      case Submit(t) => PutKeepsCoherent(s, t, c.Submit(), s.born);
      case Acknowledge(t, id, stored) => AcknowledgeKeepsCoherent(s, t, id, stored);
      case Recover(t) => PutKeepsCoherent(s, t, c.Recover(), s.born);
    }
  }

  // Every draft copy anywhere carries the text its revision was drawn for.
  lemma {:induction false} RevisionNamesText(events: seq<Event>)
    ensures Coherent(Run(NO_TABS, events))
  {
    if events != [] {
      RevisionNamesText(events[..|events| - 1]);
      StepKeepsCoherent(Run(NO_TABS, events[..|events| - 1]), events[|events| - 1]);
    }
  }

  // --- Acknowledgement loses nothing ---------------------------------------

  // In every reachable state, an acknowledgement clears the composer only if
  // its text is exactly the text submitted; otherwise the text stays and is
  // what the store now holds.
  lemma AcknowledgementLosesNothing(events: seq<Event>, t: TabId, id: Revision, stored: bool)
    requires var s := Run(NO_TABS, events);
      t in s.tabs && s.tabs[t].composer.submitted.Some? && id !in s.born
    ensures var s := Run(NO_TABS, events);
      var before := s.tabs[t].composer;
      var next := Step(s, Acknowledge(t, id, stored));
      var after := next.tabs[t].composer;
      && (after.revision != before.revision ==> before.text == before.submitted.value.text && after.text == "")
      && (after.revision == before.revision ==> after.text == before.text && after.touched == before.touched)
      && (after.revision == before.revision <==> before.revision != before.submitted.value.revision)
      && (stored && before.loaded ==> next.store == Some(after.Current()))
  {
    RevisionNamesText(events);
  }

  predicate Own(e: Event, t: TabId) {
    e.tab == t && (e.Edit? || e.Recover? || e.CloseTab? || e.LoadTab?)
  }

  // The draft at `t` is the one with this revision, and no submission of that
  // revision is on its way.
  ghost predicate Holds(s: System, t: TabId, d: Draft) {
    && t in s.tabs && d.revision in s.born
    && s.tabs[t].composer.touched && s.tabs[t].composer.Current() == d
    && (s.tabs[t].composer.submitted.Some? ==> s.tabs[t].composer.submitted.value.revision != d.revision)
  }

  lemma StepKeepsTyped(s: System, e: Event, t: TabId, d: Draft)
    requires Holds(s, t, d) && !Own(e, t) && e != Submit(t)
    ensures Holds(Step(s, e), t, d)
    ensures e.Acknowledge? && e.tab == t && e.stored && s.tabs[t].composer.loaded
         && s.tabs[t].composer.submitted.Some? && e.fresh' !in s.born
         ==> Step(s, e).store == Some(d)
  {
  }

  // Text typed while a submission is in flight outlives whatever follows:
  // saves, announcements from any tab, and the acknowledgement itself.
  lemma {:induction false} TypedTextSurvives(
    before: seq<Event>, t: TabId, typed: string, id: Revision, after: seq<Event>)
    requires var s := Run(NO_TABS, before); t in s.tabs && id !in s.born
    requires forall k | 0 <= k < |after| :: !Own(after[k], t) && after[k] != Submit(t)
    ensures Holds(Run(Step(Run(NO_TABS, before), Edit(t, typed, id)), after), t, Draft(id, typed))
  {
    var s := Step(Run(NO_TABS, before), Edit(t, typed, id));
    RevisionNamesText(before);
    if after != [] {
      TypedTextSurvives(before, t, typed, id, after[..|after| - 1]);
      StepKeepsTyped(Run(s, after[..|after| - 1]), after[|after| - 1], t, Draft(id, typed));
    }
  }

  // No event of another tab, and no announcement, changes a touched draft.
  lemma {:induction false} AnnouncementsSpareTouchedDrafts(s: System, t: TabId, events: seq<Event>)
    requires t in s.tabs && s.tabs[t].composer.touched
    requires forall k | 0 <= k < |events| ::
      !Own(events[k], t) && !(events[k].Acknowledge? && events[k].tab == t)
    ensures var after := Run(s, events);
      && t in after.tabs && after.tabs[t].composer.touched
      && after.tabs[t].composer.Current() == s.tabs[t].composer.Current()
  {
    if events != [] {
      AnnouncementsSpareTouchedDrafts(s, t, events[..|events| - 1]);
    }
  }

  // Before its storage is read a tab is not so protected: the first load takes
  // the stored draft over whatever was typed meanwhile.
  lemma LoadReplacesTypedText(s: System, t: TabId)
    requires t in s.tabs && !s.tabs[t].composer.loaded && s.tabs[t].composer.touched
    ensures Step(s, LoadTab(t)).tabs[t].composer.text == s.tabs[t].composer.text
       <==> s.store.None? || s.store.value.text == s.tabs[t].composer.text
  {
  }

  lemma RunMore(events: seq<Event>, e: Event)
    ensures Run(NO_TABS, events + [e]) == Step(Run(NO_TABS, events), e)
  {
    assert (events + [e])[..|events|] == events;
  }

  // Such a run, from any state with a draft in the store: a tab opens, text is
  // typed, and the load takes it away.
  lemma LoadOverwritesTypedText(
    before: seq<Event>, t: TabId, shown: string, id: Revision, typed: string, next: Revision)
    requires var s := Run(NO_TABS, before);
      && t !in s.tabs && s.store.Some? && s.store.value.text != typed
      && id !in s.born && next !in s.born && next != id
    ensures var s := Run(NO_TABS, before);
      var after := Run(NO_TABS, before + [OpenTab(t, shown, id)] + [Edit(t, typed, next)] + [LoadTab(t)]);
      && t in after.tabs && after.tabs[t].composer.text == s.store.value.text != typed
      && !after.tabs[t].composer.touched
  {
    RevisionNamesText(before);
    RunMore(before, OpenTab(t, shown, id));
    RunMore(before + [OpenTab(t, shown, id)], Edit(t, typed, next));
    RunMore(before + [OpenTab(t, shown, id)] + [Edit(t, typed, next)], LoadTab(t));
  }

  const ONE_SAVED: seq<Event> := [OpenTab(1, "", 1)] + [LoadTab(1)] + [Edit(1, "one", 2)] + [Save(1, true)]

  // There is such a state.
  lemma OneSavedIsStored()
    ensures Run(NO_TABS, ONE_SAVED).store == Some(Draft(2, "one"))
    ensures Run(NO_TABS, ONE_SAVED).tabs.Keys == {1} && Run(NO_TABS, ONE_SAVED).born.Keys == {1, 2}
  {
    RunMore([], OpenTab(1, "", 1));
    assert [] + [OpenTab(1, "", 1)] == [OpenTab(1, "", 1)];
    RunMore([OpenTab(1, "", 1)], LoadTab(1));
    RunMore([OpenTab(1, "", 1)] + [LoadTab(1)], Edit(1, "one", 2));
    RunMore([OpenTab(1, "", 1)] + [LoadTab(1)] + [Edit(1, "one", 2)], Save(1, true));
  }

  // --- What one step is for ------------------------------------------------

  // After typing, no other copy of a draft anywhere has the tab's revision: a
  // submission under way no longer matches it, nor does any other tab's draft.
  lemma TypedRevisionIsUnique(events: seq<Event>, t: TabId, typed: string, id: Revision)
    requires var s := Run(NO_TABS, events); t in s.tabs && id !in s.born
    ensures var after := Step(Run(NO_TABS, events), Edit(t, typed, id));
      && t in after.tabs && after.tabs[t].composer.Current() == Draft(id, typed)
      && (after.store.Some? ==> after.store.value.revision != id)
      && (after.tabs[t].composer.submitted.Some? ==> after.tabs[t].composer.submitted.value.revision != id)
      && forall other | other in after.tabs && other != t :: after.tabs[other].composer.revision != id
  {
    RevisionNamesText(events);
  }

  // A tab that has taken the stored draft stays as it is under any announcement
  // while the store does.
  lemma TakenDraftIsStable(c: Composer, stored: Draft, announced: Revision)
    ensures c.Restore(stored).Current() == stored
    ensures c.Restore(stored).Receive(announced, Some(stored)) == c.Restore(stored)
  {
  }

  // A submission is acknowledged by clearing exactly what was submitted: at
  // once the composer empties, but not if anything was typed in between.
  lemma SubmittedTextIsCleared(
    events: seq<Event>, t: TabId, typed: string, between: Revision, id: Revision, stored: bool)
    requires var s := Run(NO_TABS, events);
      t in s.tabs && between !in s.born && id !in s.born && between != id
    ensures var sent := Step(Run(NO_TABS, events), Submit(t));
      var cleared := Step(sent, Acknowledge(t, id, stored));
      var kept := Step(Step(sent, Edit(t, typed, between)), Acknowledge(t, id, stored));
      && t in cleared.tabs && cleared.tabs[t].composer.text == "" && !cleared.tabs[t].composer.touched
      && t in kept.tabs && kept.tabs[t].composer.Current() == Draft(between, typed)
  {
    RevisionNamesText(events);
  }

  // An acknowledgement whose save fails leaves the tab untouched and empty, and
  // the store as it was: such a tab does not show what is stored.
  lemma FailedAcknowledgementDiverges(events: seq<Event>, t: TabId, id: Revision)
    requires var s := Run(NO_TABS, events);
      && t in s.tabs && id !in s.born && s.store.Some? && s.tabs[t].composer.submitted.Some?
      && s.tabs[t].composer.revision == s.tabs[t].composer.submitted.value.revision
    ensures var s := Run(NO_TABS, events);
      var after := Step(s, Acknowledge(t, id, false));
      && t in after.tabs && !after.tabs[t].composer.touched && after.tabs[t].composer.text == ""
      && after.store == s.store && after.tabs[t].composer.Current() != after.store.value
  {
    RevisionNamesText(events);
  }

  // --- Tabs converge -------------------------------------------------------

  ghost predicate Pending(s: System, t: TabId, r: Revision)
    requires t in s.tabs
  {
    r in s.tabs[t].inbox || exists p :: p in s.tabs && p != t && r in s.tabs[p].outbox
  }

  predicate Settled(c: Composer) {
    c.loaded && !c.touched && !c.unsaved
  }

  ghost predicate Announced(s: System) {
    s.store.Some? ==>
      forall t | t in s.tabs && Settled(s.tabs[t].composer)
                 && s.tabs[t].composer.revision != s.store.value.revision ::
        Pending(s, t, s.store.value.revision)
  }

  // A tab closes with nothing left to announce, and a conflict is recovered
  // only while the revision it holds is still the stored one.
  predicate Orderly(s: System, e: Event) {
    && (e.CloseTab? && e.tab in s.tabs ==> s.tabs[e.tab].outbox == [])
    && (e.Recover? && e.tab in s.tabs && s.tabs[e.tab].composer.conflict.Some? ==>
          s.store.Some? && s.store.value.revision == s.tabs[e.tab].composer.conflict.value.revision)
  }

  predicate OrderlyRun(events: seq<Event>) {
    events == [] ||
    (OrderlyRun(events[..|events| - 1]) && Orderly(Run(NO_TABS, events[..|events| - 1]), events[|events| - 1]))
  }

  lemma SaveKeepsAnnounced(s: System, t: TabId, stored: bool)
    requires t in s.tabs
    requires s.store.Some? ==>
      forall u | u in s.tabs && u != t && Settled(s.tabs[u].composer)
                 && s.tabs[u].composer.revision != s.store.value.revision ::
        Pending(s, u, s.store.value.revision)
    ensures Announced(SaveTab(s, t, stored))
  {
    var after := SaveTab(s, t, stored);
    var c := s.tabs[t].composer;
    if stored && c.loaded {
      assert c.revision in after.tabs[t].outbox;
    } else if s.store.Some? {
      forall u | u in s.tabs && u != t && Pending(s, u, s.store.value.revision)
        ensures Pending(after, u, s.store.value.revision)
      {
        StillPending(s, after, u, s.store.value.revision);
      }
    }
  }

  lemma StillPending(s: System, after: System, t: TabId, r: Revision)
    requires t in s.tabs && t in after.tabs && Pending(s, t, r)
    requires r in s.tabs[t].inbox ==> r in after.tabs[t].inbox
    requires forall p | p in s.tabs && r in s.tabs[p].outbox :: p in after.tabs && r in after.tabs[p].outbox
    ensures Pending(after, t, r)
  {
    if r !in s.tabs[t].inbox {
      var p :| p in s.tabs && p != t && r in s.tabs[p].outbox;
      assert p in after.tabs && r in after.tabs[p].outbox;
    }
  }

  lemma AnnounceKeepsAnnounced(s: System, from: TabId)
    requires Announced(s) && from in s.tabs && s.tabs[from].outbox != []
    ensures Announced(s.(tabs := Broadcast(s.tabs, from)))
  {
    var after := s.(tabs := Broadcast(s.tabs, from));
    if s.store.Some? {
      var r := s.store.value.revision;
      var outbox := s.tabs[from].outbox;
      assert outbox == [outbox[0]] + outbox[1..];
      forall t | t in s.tabs && Pending(s, t, r)
        ensures Pending(after, t, r)
      {
        if r !in s.tabs[t].inbox {
          var p :| p in s.tabs && p != t && r in s.tabs[p].outbox;
          if p == from && r == outbox[0] {
            assert r in after.tabs[t].inbox;
          } else {
            assert r in after.tabs[p].outbox;
          }
        } else if t == from {
          assert after.tabs[t].inbox == s.tabs[t].inbox;
        } else {
          assert r in after.tabs[t].inbox;
        }
      }
    }
  }

  lemma DeliverKeepsAnnounced(s: System, t: TabId)
    requires Announced(s) && t in s.tabs && s.tabs[t].inbox != []
    ensures Announced(Step(s, Deliver(t)))
  {
    var after := Step(s, Deliver(t));
    if s.store.Some? {
      var r := s.store.value.revision;
      var inbox := s.tabs[t].inbox;
      assert inbox == [inbox[0]] + inbox[1..];
      forall u | u in s.tabs && Pending(s, u, r) && (u != t || inbox[0] != r)
        ensures Pending(after, u, r)
      {
        StillPending(s, after, u, r);
      }
    }
  }

  lemma LocalKeepsAnnounced(s: System, t: TabId, c: Composer)
    requires Announced(s) && t in s.tabs
    requires s.store.Some? && Settled(c) && c.revision != s.store.value.revision
         ==> Settled(s.tabs[t].composer) && c.revision == s.tabs[t].composer.revision
    ensures Announced(Put(s, t, c))
  {
    if s.store.Some? {
      forall u | u in s.tabs && Pending(s, u, s.store.value.revision)
        ensures Pending(Put(s, t, c), u, s.store.value.revision)
      {
        StillPending(s, Put(s, t, c), u, s.store.value.revision);
      }
    }
  }

  lemma OpenCloseKeepsAnnounced(s: System, e: Event)
    requires Announced(s) && Orderly(s, e) && (e.OpenTab? || (e.CloseTab? && e.tab in s.tabs))
    ensures Announced(Step(s, e))
  {
    var after := Step(s, e);
    if s.store.Some? {
      forall u | u in s.tabs && u in after.tabs && Pending(s, u, s.store.value.revision)
        ensures Pending(after, u, s.store.value.revision)
      {
        StillPending(s, after, u, s.store.value.revision);
      }
    }
  }

  lemma StepKeepsAnnounced(s: System, e: Event)
    requires Announced(s) && Orderly(s, e)
    ensures Announced(Step(s, e))
  {
    if e.OpenTab? {
      OpenCloseKeepsAnnounced(s, e);
    } else if e.tab in s.tabs {
      var c := s.tabs[e.tab].composer;
      match e
      case LoadTab(t) => LocalKeepsAnnounced(s, t, if c.loaded then c else c.Load(s.store));
      case CloseTab(t) => OpenCloseKeepsAnnounced(s, e);
      case Edit(t, text, id) => LocalKeepsAnnounced(s, t, c.Type(text, id));
      case Save(t, stored) => SaveKeepsAnnounced(s, t, stored);
      case Announce(t) => if s.tabs[t].outbox != [] { AnnounceKeepsAnnounced(s, t); }
      case Deliver(t) => if s.tabs[t].inbox != [] { DeliverKeepsAnnounced(s, t); }
      case Submit(t) => LocalKeepsAnnounced(s, t, c.Submit());
      case Acknowledge(t, id, stored) => AcknowledgeKeepsAnnounced(s, t, id, stored);
      case Recover(t) => LocalKeepsAnnounced(s, t, c.Recover());
    }
  }

  lemma AcknowledgeKeepsAnnounced(s: System, t: TabId, id: Revision, stored: bool)
    requires Announced(s) && t in s.tabs
    ensures Announced(Step(s, Acknowledge(t, id, stored)))
  {
    var c := s.tabs[t].composer;
    if c.submitted.Some? && id !in s.born {
      var cleared := Put(s, t, c.Acknowledge(id)).(born := s.born[id := ""]);
      if s.store.Some? {
        forall u | u in s.tabs && u != t && Pending(s, u, s.store.value.revision)
          ensures Pending(cleared, u, s.store.value.revision)
        {
          StillPending(s, cleared, u, s.store.value.revision);
        }
      }
      SaveKeepsAnnounced(cleared, t, stored);
    }
  }

  lemma {:induction false} OrderlyRunsAnnounce(events: seq<Event>)
    requires OrderlyRun(events)
    ensures Announced(Run(NO_TABS, events))
  {
    if events != [] {
      OrderlyRunsAnnounce(events[..|events| - 1]);
      StepKeepsAnnounced(Run(NO_TABS, events[..|events| - 1]), events[|events| - 1]);
    }
  }

  predicate Quiet(s: System) {
    forall t | t in s.tabs :: s.tabs[t].inbox == [] && s.tabs[t].outbox == []
  }

  // Convergence: once every announcement is processed, each loaded, untouched
  // tab whose own save did not fail shows exactly the stored draft.
  lemma TabsConverge(events: seq<Event>, t: TabId)
    requires OrderlyRun(events)
    requires var s := Run(NO_TABS, events); Quiet(s) && t in s.tabs && s.store.Some?
    requires Settled(Run(NO_TABS, events).tabs[t].composer)
    ensures var s := Run(NO_TABS, events); s.tabs[t].composer.Current() == s.store.value
  {
    OrderlyRunsAnnounce(events);
    RevisionNamesText(events);
  }

  // Recovering a conflict keeps a quiet set of tabs converged exactly when the
  // recovered revision is still the stored one.
  lemma RecoveryConvergesIffStored(events: seq<Event>, t: TabId)
    requires var s := Run(NO_TABS, events);
      Quiet(s) && t in s.tabs && s.store.Some?
      && s.tabs[t].composer.loaded && s.tabs[t].composer.conflict.Some?
    ensures var s := Run(NO_TABS, events); var after := Step(s, Recover(t));
      && Quiet(after) && Settled(after.tabs[t].composer)
      && (after.tabs[t].composer.Current() == after.store.value
          <==> s.tabs[t].composer.conflict.value.revision == s.store.value.revision)
  {
    RevisionNamesText(events);
  }

  // A run that ends in that way: both tabs edit, the first saves, the second
  // is told, saves over it, and then recovers what it was told.
  const BOTH_OPEN: seq<Event> := [OpenTab(1, "", 1), LoadTab(1), OpenTab(2, "", 2)]
  const BOTH_EDIT: seq<Event> := [LoadTab(2), Edit(1, "one", 3), Edit(2, "two", 4)]
  const FIRST_SAVES: seq<Event> := [Save(1, true), Announce(1), Deliver(2)]
  const SECOND_SAVES: seq<Event> := [Save(2, true), Announce(2), Deliver(1)]

  function Typed(text: string, id: Revision): Composer {
    Composer(text, id, true, None, None, true, false)
  }

  // Where that run stands before the first save.
  ghost predicate BothEdited(s: System) {
    s.tabs == map[1 := Tab(Typed("one", 3), [], []), 2 := Tab(Typed("two", 4), [], [])]
  }

  // And once the second tab has been told of it.
  ghost predicate SecondTold(s: System) {
    && 1 in s.tabs && 2 in s.tabs && s.tabs.Keys == {1, 2}
    && s.tabs[1] == Tab(Typed("one", 3), [], [])
    && s.tabs[2] == Tab(Typed("two", 4).(conflict := Some(Draft(3, "one"))), [], [])
  }

  lemma {:induction false} RunFirst(s: System, events: seq<Event>)
    requires events != []
    ensures Run(s, events) == Run(Step(s, events[0]), events[1..])
  {
    if |events| == 1 {
      assert events[..0] == [];
    } else {
      assert events[..|events| - 1][1..] == events[1..][..|events| - 2];
      RunFirst(s, events[..|events| - 1]);
    }
  }

  function RunAhead(s: System, events: seq<Event>): System
    decreases events
  {
    if events == [] then s else RunAhead(Step(s, events[0]), events[1..])
  }

  lemma {:induction false} RunAheadIsRun(s: System, events: seq<Event>)
    ensures RunAhead(s, events) == Run(s, events)
    decreases events
  {
    if events != [] {
      RunFirst(s, events);
      RunAheadIsRun(Step(s, events[0]), events[1..]);
    }
  }

  lemma {:induction false} RunAheadAppend(s: System, a: seq<Event>, b: seq<Event>)
    ensures RunAhead(s, a + b) == RunAhead(RunAhead(s, a), b)
    decreases a
  {
    if a == [] {
      assert a + b == b;
    } else {
      assert (a + b)[1..] == a[1..] + b;
      RunAheadAppend(Step(s, a[0]), a[1..], b);
    }
  }

  lemma RunThree(s: System, a: Event, b: Event, c: Event)
    ensures RunAhead(s, [a, b, c]) == Step(Step(Step(s, a), b), c)
  {
    assert [a, b, c][1..] == [b, c] && [b, c][1..] == [c] && [c][1..] == [];
    var next := Step(Step(s, a), b);
    assert RunAhead(next, [c]) == RunAhead(Step(next, c), []);
    assert RunAhead(Step(s, a), [b, c]) == RunAhead(next, [c]);
  }

  lemma BothEditReached()
    ensures BothEdited(RunAhead(RunAhead(NO_TABS, BOTH_OPEN), BOTH_EDIT))
  {
    RunThree(NO_TABS, OpenTab(1, "", 1), LoadTab(1), OpenTab(2, "", 2));
    var s := RunAhead(NO_TABS, BOTH_OPEN);
    assert s.tabs == map[1 := Tab(Composer("", 1, false, None, None, true, false), [], []),
                         2 := Tab(Composer("", 2, false, None, None, false, false), [], [])];
    RunThree(s, LoadTab(2), Edit(1, "one", 3), Edit(2, "two", 4));
  }

  lemma FirstSavesReached(s: System)
    requires BothEdited(s)
    ensures SecondTold(RunAhead(s, FIRST_SAVES))
  {
    RunThree(s, Save(1, true), Announce(1), Deliver(2));
  }

  lemma SecondSavesReached(s: System)
    requires SecondTold(s)
    ensures var after := Step(RunAhead(s, SECOND_SAVES), Recover(2));
      && Quiet(after) && 2 in after.tabs && Settled(after.tabs[2].composer)
      && after.store == Some(Draft(4, "two"))
      && after.tabs[2].composer.Current() == Draft(3, "one")
  {
    RunThree(s, Save(2, true), Announce(2), Deliver(1));
    var told := RunAhead(s, SECOND_SAVES);
    assert told.tabs.Keys == {1, 2};
  }

  lemma StaleRecoveryDiverges()
    ensures var s := Run(NO_TABS, BOTH_OPEN + BOTH_EDIT + FIRST_SAVES + SECOND_SAVES + [Recover(2)]);
      && Quiet(s) && 2 in s.tabs && Settled(s.tabs[2].composer)
      && s.store == Some(Draft(4, "two"))
      && s.tabs[2].composer.Current() == Draft(3, "one")
  {
    var saved := BOTH_OPEN + BOTH_EDIT + FIRST_SAVES + SECOND_SAVES;
    assert (saved + [Recover(2)])[..|saved|] == saved;
    RunAheadIsRun(NO_TABS, saved);
    RunAheadAppend(NO_TABS, BOTH_OPEN + BOTH_EDIT + FIRST_SAVES, SECOND_SAVES);
    RunAheadAppend(NO_TABS, BOTH_OPEN + BOTH_EDIT, FIRST_SAVES);
    RunAheadAppend(NO_TABS, BOTH_OPEN, BOTH_EDIT);
    BothEditReached();
    var edited := RunAhead(RunAhead(NO_TABS, BOTH_OPEN), BOTH_EDIT);
    FirstSavesReached(edited);
    SecondSavesReached(RunAhead(edited, FIRST_SAVES));
  }

  // --- The controller's own fields -----------------------------------------

  // The draft fields of one chat controller, updated in place by its handlers.
  class ChatDraft {
    var text: string
    var draftRevisionId: Revision
    var draftTouched: bool
    var submittedDraft: Option<Draft>
    var pendingConflict: Option<Draft>
    var draftDbOpen: bool
    var saveFailed: bool

    function View(): Composer
      reads this
    {
      Composer(text, draftRevisionId, draftTouched, submittedDraft, pendingConflict, draftDbOpen, saveFailed)
    }

    constructor (initial: string, id: Revision)
      ensures View() == Composer(initial, id, false, None, None, false, false)
    {
      text, draftRevisionId, draftTouched := initial, id, false;
      submittedDraft, pendingConflict, draftDbOpen, saveFailed := None, None, false, false;
    }

    method HandleTextareaInput(typed: string, id: Revision)
      modifies this
      ensures View() == old(View()).Type(typed, id)
    {
      text := typed;
      draftTouched := true;
      draftRevisionId := id;
    }

    method ApplyStoredDraft(draft: Draft)
      modifies this
      ensures View() == old(View()).Restore(draft)
    {
      text := draft.text;
      draftRevisionId := draft.revision;
      draftTouched := false;
      saveFailed := false;
    }

    method InitializeDraftStorage(stored: Option<Draft>)
      modifies this
      ensures View() == old(View()).Load(stored)
    {
      draftDbOpen := true;
      if stored.Some? {
        ApplyStoredDraft(stored.value);
      }
    }

    // The draft put into the store, if the put went through.
    method SaveDraftNow(putSucceeds: bool) returns (put: Option<Draft>)
      modifies this`saveFailed
      ensures put == if putSucceeds && draftDbOpen then Some(View().Current()) else None
      ensures View() == old(View()).Saved(put.Some?)
    {
      var draft := Draft(draftRevisionId, text);
      put := if putSucceeds && draftDbOpen then Some(draft) else None;
      saveFailed := put.None?;
    }

    method ReceiveDraftUpdate(announced: Revision, stored: Option<Draft>)
      modifies this
      ensures View() == old(View()).Receive(announced, stored)
    {
      if announced == draftRevisionId || !draftDbOpen || stored.None? {
        return;
      }
      if draftTouched {
        pendingConflict := stored;
      } else {
        ApplyStoredDraft(stored.value);
      }
    }

    method RecoverConflictingDraft()
      modifies this
      ensures View() == old(View()).Recover()
    {
      if pendingConflict.Some? {
        ApplyStoredDraft(pendingConflict.value);
        pendingConflict := None;
      }
    }

    method HandleBeforeRequest()
      modifies this`submittedDraft
      ensures View() == old(View()).Submit()
    {
      submittedDraft := Some(Draft(draftRevisionId, text));
    }

    method AcknowledgeSubmittedDraft(id: Revision, putSucceeds: bool) returns (put: Option<Draft>)
      modifies this
      ensures old(submittedDraft).None? ==> View() == old(View()) && put.None?
      ensures old(submittedDraft).Some? ==>
        && put == (if putSucceeds && draftDbOpen then Some(View().Current()) else None)
        && View() == old(View()).Acknowledge(id).Saved(put.Some?)
    {
      if submittedDraft.None? {
        return None;
      }
      if draftRevisionId == submittedDraft.value.revision {
        text := "";
        draftRevisionId := id;
        draftTouched := false;
      }
      put := SaveDraftNow(putSucceeds);
      submittedDraft := None;
    }
  }
}
