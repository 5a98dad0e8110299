// The next-turn context of a conversation: commits that coalesce behind the
// one in flight, refusals, refreshes that land meanwhile, and the revision
// counter they share.
module ContextCommit {
  import opened Options
  import opened JsText

  datatype Selects = Selects(project: string, provider: string, model: string, effort: string)

  // A context as the server states it, with the picker options it offers.
  datatype Snapshot = Snapshot(
    revision: int, project: string, directory: string, provider: string,
    modelOptions: seq<string>, model: string, effortOptions: seq<string>, effort: string)

  // A picker shows a value only if it offers it.
  function Offered(options: seq<string>, value: string): string {
    if value in options then value else ""
  }

  function ShownBy(s: Snapshot): Selects {
    Selects(s.project, s.provider, Offered(s.modelOptions, s.model), Offered(s.effortOptions, s.effort))
  }

  datatype Patch = Patch(
    revision: int, project: Option<string>, directory: string, provider: string,
    model: Option<string>, effort: Option<string>)

  function Optional(value: string): Option<string> {
    var trimmed := Trim(value);
    if trimmed == "" then None else Some(trimmed)
  }

  // The page's projects and providers, the controls, and the commit loop's state.
  datatype Controller = Controller(
    projects: set<string>, providers: set<string>,
    selects: Selects, directory: string, directoryRejected: bool,
    applying: bool, queued: bool, revision: int, applied: Snapshot)
  {
    predicate Lists(s: Snapshot) {
      s.project in projects && s.provider in providers
    }

    // One commit states the whole context from the controls; a refused
    // directory is replaced by the applied one.
    function Payload(): Patch {
      Patch(
        revision,
        if selects.project == "" then None else Some(selects.project),
        if directoryRejected then applied.directory else directory,
        selects.provider, Optional(selects.model), Optional(selects.effort))
    }

    function Reconcile(s: Snapshot): Controller {
      if !Lists(s) then this
      else
        this.(applied := s, selects := ShownBy(s),
              directory := if directoryRejected then directory else s.directory,
              revision := s.revision)
    }

    // The next commit of the loop leaves; its payload is read from the controls now.
    function Dispatch(): Controller {
      this.(applying := true, queued := false)
    }

    function Halt(): Controller {
      this.(applying := false, queued := false)
    }

    function Accept(s: Snapshot): Controller {
      var latest := if s.revision >= revision then s else applied;
      var cleared := this.(directoryRejected := false);
      if queued then cleared.(applied := latest, revision := latest.revision).Dispatch()
      else cleared.Reconcile(latest).Halt()
    }

    function Reject(): Controller {
      var marked := this.(directoryRejected := directoryRejected || directory != applied.directory);
      var restored := marked.Reconcile(applied);
      restored.(revision := if restored.revision < revision then revision else restored.revision).Halt()
    }

    function Refresh(s: Snapshot): Controller {
      if s.revision < revision then this
      else
        var advanced := this.(revision := s.revision);
        if applying then advanced.(applied := s) else advanced.Reconcile(s)
    }

    function Receipt(reported: int): Controller {
      this.(revision := if reported == 0 then revision else reported)
    }
  }

  datatype Event =
    | Pick(selects: Selects)
    | EnterDirectory(directory: string)
    | Succeed(result: Snapshot)
    | Refuse
    | Refreshed(snapshot: Snapshot)
    | Receipted(revision: int)

  // What happened, in order: a commit asked for with these control values, a
  // PATCH sent, a refusal.
  datatype Note =
    | Requested(selects: Selects, directory: string)
    | Sent(patch: Patch, substituted: bool)
    | Refused

  datatype World = World(page: Controller, flights: seq<Patch>, log: seq<Note>)

  function Ask(w: World, changed: Controller): World {
    var asked := w.log + [Requested(changed.selects, changed.directory)];
    if changed.applying then
      World(changed.(queued := true), w.flights, asked)
    else
      World(changed.Dispatch(), w.flights + [changed.Payload()],
            asked + [Sent(changed.Payload(), changed.directoryRejected)])
  }

  function Step(w: World, e: Event): World {
    match e
    case Pick(selects) => Ask(w, w.page.(selects := selects))
    case EnterDirectory(text) => Ask(w, w.page.(directory := text, directoryRejected := false))
    case Succeed(result) =>
      if w.flights == [] then w
      else
        var next := w.page.Accept(result);
        if w.page.queued then
          World(next, w.flights[1..] + [next.Payload()], w.log + [Sent(next.Payload(), next.directoryRejected)])
        else
          World(next, w.flights[1..], w.log)
    case Refuse =>
      if w.flights == [] then w else World(w.page.Reject(), w.flights[1..], w.log + [Refused])
    case Refreshed(snapshot) => w.(page := w.page.Refresh(snapshot))
    case Receipted(revision) => w.(page := w.page.Receipt(revision))
  }

  // The first paint: the controls show the server-rendered context.
  function Start(projects: set<string>, providers: set<string>, seed: Snapshot): World {
    World(Controller(projects, providers, ShownBy(seed), seed.directory, false, false, false, seed.revision, seed),
          [], [])
  }

  function Run(w: World, events: seq<Event>): World {
    if events == [] then w else Step(Run(w, events[..|events| - 1]), events[|events| - 1])
  }

  // Every snapshot delivered names a project and a provider the page lists.
  predicate Listed(page: Controller, e: Event) {
    match e
    case Succeed(s) => page.Lists(s)
    case Refreshed(s) => page.Lists(s)
    case _ => true
  }

  predicate AllListed(page: Controller, events: seq<Event>) {
    forall k | 0 <= k < |events| :: Listed(page, events[k])
  }

  // --- Commits -------------------------------------------------------------

  function LastRequest(log: seq<Note>): Option<Note> {
    if log == [] then None
    else if log[|log| - 1].Requested? then Some(log[|log| - 1])
    else LastRequest(log[..|log| - 1])
  }

  // Some commit was asked for after the last PATCH and the last refusal.
  predicate Uncovered(log: seq<Note>) {
    log != [] && log[|log| - 1].Requested?
  }

  // The PATCH states what the controls held at the latest request before it,
  // except for a directory that was refused.
  predicate States(n: Note, request: Option<Note>)
    requires n.Sent?
  {
    && request.Some? && request.value.Requested?
    && var asked := request.value;
       && n.patch.project == (if asked.selects.project == "" then None else Some(asked.selects.project))
       && n.patch.provider == asked.selects.provider
       && n.patch.model == Optional(asked.selects.model)
       && n.patch.effort == Optional(asked.selects.effort)
       && (!n.substituted ==> n.patch.directory == asked.directory)
  }

  predicate SentStateRequests(log: seq<Note>) {
    log == [] ||
    (&& SentStateRequests(log[..|log| - 1])
     && (log[|log| - 1].Sent? ==> States(log[|log| - 1], LastRequest(log[..|log| - 1]))))
  }

  predicate ShowsRequest(c: Controller, request: Option<Note>) {
    request.Some? && request.value.Requested?
    && c.selects == request.value.selects && c.directory == request.value.directory
  }

  predicate Orderly(w: World) {
    && |w.flights| == (if w.page.applying then 1 else 0)
    && (w.page.queued ==> w.page.applying)
    && Uncovered(w.log) == w.page.queued
    && SentStateRequests(w.log)
    && (w.page.applying ==> ShowsRequest(w.page, LastRequest(w.log)))
  }

  lemma Noting(log: seq<Note>, n: Note)
    ensures Uncovered(log + [n]) == n.Requested?
    ensures LastRequest(log + [n]) == if n.Requested? then Some(n) else LastRequest(log)
    ensures SentStateRequests(log + [n])
       <==> SentStateRequests(log) && (n.Sent? ==> States(n, LastRequest(log)))
  {
    var grown := log + [n];
    assert grown[..|grown| - 1] == log;
  }

  lemma AskKeepsOrder(w: World, changed: Controller)
    requires Orderly(w) && changed.applying == w.page.applying && changed.queued == w.page.queued
    ensures Orderly(Ask(w, changed))
  {
    var request := Requested(changed.selects, changed.directory);
    Noting(w.log, request);
    Noting(w.log + [request], Sent(changed.Payload(), changed.directoryRejected));
  }

  lemma StepKeepsOrder(w: World, e: Event)
    requires Orderly(w)
    ensures Orderly(Step(w, e))
  {
    match e
    case Pick(selects) => AskKeepsOrder(w, w.page.(selects := selects));
    case EnterDirectory(text) => AskKeepsOrder(w, w.page.(directory := text, directoryRejected := false));
    case Succeed(result) =>
      var next := w.page.Accept(result);
      Noting(w.log, Sent(next.Payload(), next.directoryRejected));
    case Refuse => Noting(w.log, Refused);
    case Refreshed(_) =>
    case Receipted(_) =>
  }

  // Over every run: one commit in flight at most; and each PATCH states the
  // controls as the latest request left them, whatever arrived in between.
  lemma {:induction false} RunsCommitInOrder(
    projects: set<string>, providers: set<string>, seed: Snapshot, events: seq<Event>)
    ensures Orderly(Run(Start(projects, providers, seed), events))
  {
    if events != [] {
      RunsCommitInOrder(projects, providers, seed, events[..|events| - 1]);
      StepKeepsOrder(Run(Start(projects, providers, seed), events[..|events| - 1]), events[|events| - 1]);
    }
  }

  // A PATCH carries the revision held when it leaves, and in place of a refused
  // directory the applied one.
  lemma PatchIsBuiltWhenSent(w: World, e: Event)
    requires Orderly(w) && |w.log| < |Step(w, e).log|
    ensures var after := Step(w, e);
      var last := after.log[|after.log| - 1];
      last.Sent? ==>
        && after.flights == [last.patch]
        && last.patch.revision == after.page.revision
        && last.patch.directory == (if last.substituted then after.page.applied.directory else after.page.directory)
        && (last.substituted <==> after.page.directoryRejected)
  {
  }

  // What an optional field sends for a control's value: nothing for a blank one,
  // and otherwise the value without the white space around it.
  ghost predicate SentFor(sent: Option<string>, value: string) {
    match sent
    case None => Blank(value)
    case Some(text) =>
      && text != "" && !IsJsSpace(text[0]) && !IsJsSpace(text[|text| - 1])
      && exists before, after :: Surrounds(before, text, after, value)
  }

  predicate Surrounds(before: string, text: string, after: string, value: string) {
    value == before + (text + after) && Blank(before) && Blank(after)
  }

  lemma OptionalSends(value: string)
    ensures SentFor(Optional(value), value)
  {
    var before := TrimmedStart(value);
    var after := TrimmedEnd(TrimStart(value));
    var text := Trim(value);
    if text == "" {
      assert text + after == after && Blank(before + after);
    } else {
      assert TrimStart(value)[0] == text[0];
      assert Surrounds(before, text, after, value);
    }
  }

  // A pick puts its values in the selects, an entry its text in Directory, and
  // each is logged as asked for; a commit in flight lets it wait.
  lemma RequestsAreHeard(w: World, e: Event)
    requires e.Pick? || e.EnterDirectory?
    ensures var page := Step(w, e).page;
      && page.selects == (if e.Pick? then e.selects else w.page.selects)
      && page.directory == (if e.EnterDirectory? then e.directory else w.page.directory)
      && page.applying && (w.page.applying ==> page.queued && Step(w, e).flights == w.flights)
      && |w.log| < |Step(w, e).log|
      && Step(w, e).log[|w.log|] == Requested(page.selects, page.directory)
  {
  }

  // A PATCH says what the controls hold when it leaves: the project unless none
  // is chosen, the provider, and model and effort without the space around them.
  lemma PatchSaysControls(w: World, e: Event)
    requires Orderly(w) && |w.log| < |Step(w, e).log|
    ensures var after := Step(w, e);
      var last := after.log[|after.log| - 1];
      last.Sent? ==>
        && last.patch.project == (if after.page.selects.project == "" then None else Some(after.page.selects.project))
        && last.patch.provider == after.page.selects.provider
        && SentFor(last.patch.model, after.page.selects.model)
        && SentFor(last.patch.effort, after.page.selects.effort)
  {
    var after := Step(w, e);
    OptionalSends(after.page.selects.model);
    OptionalSends(after.page.selects.effort);
  }

  lemma {:induction false} RequestIsFollowed(log: seq<Note>, k: nat)
    requires k < |log| && log[k].Requested? && !Uncovered(log)
    ensures exists j :: k < j < |log| && !log[j].Requested?
  {
    assert !log[|log| - 1].Requested?;
  }

  // When nothing is in flight, every commit ever asked for was followed by a
  // PATCH or dropped by a refusal.
  lemma EveryRequestIsCovered(
    projects: set<string>, providers: set<string>, seed: Snapshot, events: seq<Event>, k: nat)
    requires var w := Run(Start(projects, providers, seed), events);
      w.flights == [] && k < |w.log| && w.log[k].Requested?
    ensures var w := Run(Start(projects, providers, seed), events);
      exists j :: k < j < |w.log| && (w.log[j].Sent? || w.log[j].Refused?)
  {
    RunsCommitInOrder(projects, providers, seed, events);
    var w := Run(Start(projects, providers, seed), events);
    RequestIsFollowed(w.log, k);
    var j :| k < j < |w.log| && !w.log[j].Requested?;
    assert w.log[j].Sent? || w.log[j].Refused?;
  }

  // --- What the controls show ----------------------------------------------

  predicate Shows(c: Controller) {
    c.selects == ShownBy(c.applied) && (c.directory == c.applied.directory || c.directoryRejected)
  }

  predicate Faithful(w: World) {
    && w.page.Lists(w.page.applied)
    && (!w.page.applying ==> Shows(w.page))
    && |w.flights| == (if w.page.applying then 1 else 0)
  }

  lemma StepKeepsFaithful(w: World, e: Event)
    requires Faithful(w) && Listed(w.page, e)
    ensures Faithful(Step(w, e))
    ensures Step(w, e).page.projects == w.page.projects && Step(w, e).page.providers == w.page.providers
  {
  }

  // Over every run of listed snapshots: with nothing in flight, after a
  // refusal as after a success, the selects show the applied context, and
  // Directory does too unless it is marked rejected.
  lemma {:induction false} IdleControlsShowApplied(
    projects: set<string>, providers: set<string>, seed: Snapshot, events: seq<Event>)
    requires var w := Start(projects, providers, seed);
      w.page.Lists(seed) && AllListed(w.page, events)
    ensures var w := Run(Start(projects, providers, seed), events);
      Faithful(w) && w.page.projects == projects && w.page.providers == providers
  {
    if events != [] {
      var init := events[..|events| - 1];
      IdleControlsShowApplied(projects, providers, seed, init);
      assert Listed(Start(projects, providers, seed).page, events[|events| - 1]);
      StepKeepsFaithful(Run(Start(projects, providers, seed), init), events[|events| - 1]);
    }
  }

  // The same, control by control: project and provider are the applied ones, and
  // each picker shows its applied value if it offers that, and nothing if not.
  lemma IdleControlsSpelledOut(
    projects: set<string>, providers: set<string>, seed: Snapshot, events: seq<Event>)
    requires var w := Start(projects, providers, seed);
      w.page.Lists(seed) && AllListed(w.page, events)
    requires !Run(Start(projects, providers, seed), events).page.applying
    ensures var page := Run(Start(projects, providers, seed), events).page;
      && page.selects.project == page.applied.project && page.selects.provider == page.applied.provider
      && page.selects.model == (if page.applied.model in page.applied.modelOptions then page.applied.model else "")
      && page.selects.effort == (if page.applied.effort in page.applied.effortOptions then page.applied.effort else "")
      && (page.directory == page.applied.directory || page.directoryRejected)
  {
    IdleControlsShowApplied(projects, providers, seed, events);
  }

  // Directory is marked by a refusal that finds it different from the applied
  // one, and unmarked by a success or by an entry in it; nothing else touches
  // the mark.
  lemma DirectoryMarkedIff(w: World, e: Event)
    ensures Step(w, e).page.directoryRejected <==>
      if e.EnterDirectory? || (e.Succeed? && w.flights != []) then false
      else if e.Refuse? && w.flights != [] then
        w.page.directoryRejected || w.page.directory != w.page.applied.directory
      else w.page.directoryRejected
  {
  }

  // What a success is settled with: the answer, or the applied snapshot if a
  // newer one has landed.
  function Latest(page: Controller, result: Snapshot): Snapshot {
    if result.revision >= page.revision then result else page.applied
  }

  // Whether a step that leaves nothing in flight leaves the controls showing
  // the applied context, whatever the snapshots name.
  predicate LeavesShown(w: World, e: Event) {
    var page := w.page;
    match e
    case Succeed(result) =>
      if w.flights == [] then Shows(page)
      else
        || page.Lists(Latest(page, result))
        || (page.selects == ShownBy(page.applied) && page.directory == page.applied.directory)
    case Refuse =>
      if w.flights == [] then Shows(page)
      else page.Lists(page.applied) || page.selects == ShownBy(page.applied)
    case Refreshed(snapshot) =>
      (page.revision <= snapshot.revision && page.Lists(snapshot)) || Shows(page)
    case _ => Shows(page)
  }

  // Exactly when idle controls show the applied context, listed or not: an
  // unlisted snapshot is shown only by controls that agree with it already.
  lemma IdleShowsIff(w: World, e: Event)
    requires Orderly(w) && !Step(w, e).page.applying
    ensures Shows(Step(w, e).page) <==> LeavesShown(w, e)
  {
  }

  lemma RunTwo(w: World, a: Event, b: Event)
    ensures Run(w, [a, b]) == Step(Step(w, a), b)
  {
    assert [a][..0] == [] && Run(w, []) == w;
    assert Run(w, [a]) == Step(w, a);
    assert [a, b][..1] == [a];
  }

  lemma RunThree(w: World, a: Event, b: Event, c: Event)
    ensures Run(w, [a, b, c]) == Step(Step(Step(w, a), b), c)
  {
    RunTwo(w, a, b);
    assert [a, b, c][..2] == [a, b];
  }

  // An accepted commit whose answer names nothing the page lists: the controls
  // go on showing what was picked, and the snapshot before it stays applied.
  lemma UnlistedAnswerStaysUnshown(
    projects: set<string>, providers: set<string>, seed: Snapshot, picked: Selects, result: Snapshot)
    requires var page := Start(projects, providers, seed).page;
      && page.Lists(seed) && !page.Lists(result)
      && result.revision >= seed.revision && picked != ShownBy(seed)
    ensures var page := Run(Start(projects, providers, seed), [Pick(picked), Succeed(result)]).page;
      !page.applying && page.applied == seed && page.selects == picked && !Shows(page)
  {
    RunTwo(Start(projects, providers, seed), Pick(picked), Succeed(result));
  }

  // The other way in: an unlisted refresh lands while the commit is in flight,
  // and the refusal has nothing it can restore.
  lemma UnlistedRefreshStaysUnshown(
    projects: set<string>, providers: set<string>, seed: Snapshot, picked: Selects, landed: Snapshot)
    requires var page := Start(projects, providers, seed).page;
      && page.Lists(seed) && !page.Lists(landed)
      && landed.revision >= seed.revision && picked != ShownBy(landed)
    ensures var page := Run(Start(projects, providers, seed), [Pick(picked), Refreshed(landed), Refuse]).page;
      !page.applying && page.applied == landed && page.selects == picked && !Shows(page)
  {
    RunThree(Start(projects, providers, seed), Pick(picked), Refreshed(landed), Refuse);
  }

  // --- The revision --------------------------------------------------------

  lemma StepKeepsRevision(w: World, e: Event)
    requires Faithful(w) && Listed(w.page, e) && !e.Receipted?
    requires w.page.revision == w.page.applied.revision
    ensures Step(w, e).page.revision == Step(w, e).page.applied.revision
    ensures w.page.revision <= Step(w, e).page.revision
  {
  }

  lemma {:induction false} RevisionFollowsApplied(
    projects: set<string>, providers: set<string>, seed: Snapshot, events: seq<Event>)
    requires Start(projects, providers, seed).page.Lists(seed)
    requires AllListed(Start(projects, providers, seed).page, events)
    requires forall k | 0 <= k < |events| :: !events[k].Receipted?
    ensures var page := Run(Start(projects, providers, seed), events).page;
      page.revision == page.applied.revision
    ensures events != [] ==>
      Run(Start(projects, providers, seed), events[..|events| - 1]).page.revision
      <= Run(Start(projects, providers, seed), events).page.revision
  {
    if events != [] {
      var init := events[..|events| - 1];
      RevisionFollowsApplied(projects, providers, seed, init);
      IdleControlsShowApplied(projects, providers, seed, init);
      assert Listed(Start(projects, providers, seed).page, events[|events| - 1]);
      StepKeepsRevision(Run(Start(projects, providers, seed), init), events[|events| - 1]);
    }
  }

  // Over every run of refreshes and answers in any order, without read
  // receipts: the revision equals the applied snapshot's and never decreases.
  lemma {:induction false} RevisionNeverDecreases(
    projects: set<string>, providers: set<string>, seed: Snapshot, events: seq<Event>, k: nat)
    requires Start(projects, providers, seed).page.Lists(seed) && k <= |events|
    requires AllListed(Start(projects, providers, seed).page, events)
    requires forall j | 0 <= j < |events| :: !events[j].Receipted?
    ensures Run(Start(projects, providers, seed), events[..k]).page.revision
         <= Run(Start(projects, providers, seed), events).page.revision
    decreases |events| - k
  {
    if k < |events| {
      RevisionFollowsApplied(projects, providers, seed, events[..k + 1]);
      assert events[..k + 1][..k] == events[..k];
      RevisionNeverDecreases(projects, providers, seed, events, k + 1);
    } else {
      assert events[..k] == events;
    }
  }

  // Exactly what can lower the revision, listed or not: a receipt that reports
  // less, or a stale success over an applied snapshot already behind, which the
  // queued commit or the controls then take. A refusal or a refresh never does.
  lemma RevisionLoweredIff(w: World, e: Event)
    ensures Step(w, e).page.revision < w.page.revision
       <==> || (e.Receipted? && e.revision != 0 && e.revision < w.page.revision)
            || (e.Succeed? && w.flights != []
                && e.result.revision < w.page.revision && w.page.applied.revision < w.page.revision
                && (w.page.queued || w.page.Lists(w.page.applied)))
  {
  }

  // A receipt runs ahead of the applied snapshot, and a stale success takes the
  // revision back to it.
  lemma StaleSuccessAfterReceiptLowers(
    projects: set<string>, providers: set<string>, seed: Snapshot, picked: Selects, reported: int, stale: Snapshot)
    requires Start(projects, providers, seed).page.Lists(seed)
    requires seed.revision < stale.revision < reported && reported != 0
    ensures var start := Start(projects, providers, seed);
      && Run(start, [Pick(picked), Receipted(reported)]).page.revision == reported
      && Run(start, [Pick(picked), Receipted(reported), Succeed(stale)]).page.revision == seed.revision
  {
    RunTwo(Start(projects, providers, seed), Pick(picked), Receipted(reported));
    RunThree(Start(projects, providers, seed), Pick(picked), Receipted(reported), Succeed(stale));
  }

  // So does an unlisted refresh, which moves the revision and nothing else.
  lemma StaleSuccessAfterUnlistedRefreshLowers(
    projects: set<string>, providers: set<string>, seed: Snapshot, landed: Snapshot, picked: Selects, stale: Snapshot)
    requires var page := Start(projects, providers, seed).page; page.Lists(seed) && !page.Lists(landed)
    requires seed.revision < stale.revision < landed.revision
    ensures var start := Start(projects, providers, seed);
      && Run(start, [Refreshed(landed), Pick(picked)]).page.revision == landed.revision
      && Run(start, [Refreshed(landed), Pick(picked), Succeed(stale)]).page.revision == seed.revision
  {
    RunTwo(Start(projects, providers, seed), Refreshed(landed), Pick(picked));
    RunThree(Start(projects, providers, seed), Refreshed(landed), Pick(picked), Succeed(stale));
  }

  // --- The controller's own fields -----------------------------------------

  class ContextController {
    const projects: set<string>
    const providers: set<string>
    var selects: Selects
    var directory: string
    var directoryRejected: bool
    var contextApplying: bool
    var contextApplyQueued: bool
    var conversationRevision: int
    var appliedContextSnapshot: Snapshot

    function View(): Controller
      reads this
    {
      Controller(projects, providers, selects, directory, directoryRejected,
                 contextApplying, contextApplyQueued, conversationRevision, appliedContextSnapshot)
    }

    constructor (projects: set<string>, providers: set<string>, seed: Snapshot)
      ensures View() == Start(projects, providers, seed).page
    {
      this.projects, this.providers := projects, providers;
      selects, directory, directoryRejected := ShownBy(seed), seed.directory, false;
      contextApplying, contextApplyQueued := false, false;
      conversationRevision, appliedContextSnapshot := seed.revision, seed;
    }

    // The PATCH to send, unless a commit is in flight and this one waits.
    method ApplyContext(fromDirectory: bool) returns (sent: Option<Patch>)
      modifies this
      ensures var changed := old(View()).(
                directoryRejected := old(directoryRejected) && !fromDirectory);
        if old(contextApplying) then View() == changed.(queued := true) && sent == None
        else View() == changed.Dispatch() && sent == Some(changed.Payload())
    {
      if fromDirectory {
        directoryRejected := false;
      }
      contextApplyQueued := true;
      if contextApplying {
        return None;
      }
      contextApplying := true;
      contextApplyQueued := false;
      sent := Some(View().Payload());
    }

    method ReconcileContext(snapshot: Snapshot)
      modifies this
      ensures View() == old(View()).Reconcile(snapshot)
    {
      if snapshot.project !in projects || snapshot.provider !in providers {
        return;
      }
      appliedContextSnapshot := snapshot;
      if !directoryRejected {
        directory := snapshot.directory;
      }
      selects := ShownBy(snapshot);
      conversationRevision := snapshot.revision;
    }

    // A successful answer, and the queued commit it releases.
    method CommitSucceeded(result: Snapshot) returns (sent: Option<Patch>)
      requires contextApplying
      modifies this
      ensures View() == old(View()).Accept(result)
      ensures sent == if old(contextApplyQueued) then Some(View().Payload()) else None
    {
      directoryRejected := false;
      var latest := if result.revision >= conversationRevision then result else appliedContextSnapshot;
      if contextApplyQueued {
        appliedContextSnapshot := latest;
        conversationRevision := latest.revision;
        contextApplyQueued := false;
        sent := Some(View().Payload());
      } else {
        ReconcileContext(latest);
        contextApplying, contextApplyQueued := false, false;
        sent := None;
      }
    }

    method RejectContext()
      modifies this
      ensures View() == old(View()).Reject()
    {
      if directory != appliedContextSnapshot.directory {
        directoryRejected := true;
      }
      var revision := conversationRevision;
      ReconcileContext(appliedContextSnapshot);
      if conversationRevision < revision {
        conversationRevision := revision;
      }
      contextApplying, contextApplyQueued := false, false;
    }

    method RefreshConversationState(snapshot: Snapshot)
      modifies this
      ensures View() == old(View()).Refresh(snapshot)
    {
      if snapshot.revision < conversationRevision {
        return;
      }
      conversationRevision := snapshot.revision;
      if contextApplying {
        appliedContextSnapshot := snapshot;
      } else {
        ReconcileContext(snapshot);
      }
    }

    method ReadReceipt(reported: int)
      modifies this`conversationRevision
      ensures View() == old(View()).Receipt(reported)
    {
      if reported != 0 {
        conversationRevision := reported;
      }
    }
  }
}
