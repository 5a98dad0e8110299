// The command dialogs: debounced searches whose answers come back in any
// order, guarded by one generation counter that every dialog shares.
module CommandSearch {
  import opened Options
  import opened JsText

  // What a refresh asks for, and so what a result list can be the answer to.
  datatype Ask =
    | Nothing
    | Commands(filter: string)
    | Conversations(query: string, lifecycle: string, project: Option<string>)

  datatype Shown = Empty | Listed(ask: Ask) | Failed(ask: Ask)

  // `project` is None for a dialog without the project select.
  datatype Dialog = Dialog(
    open: bool, query: string, lifecycle: string, project: Option<string>, shown: Shown)

  datatype Timer = Timer(name: string, generation: nat)

  datatype Flight = Flight(name: string, generation: nat, ask: Ask)

  datatype Page = Page(dialogs: map<string, Dialog>, generation: nat, timer: Option<Timer>)

  const GLOBAL := "global"

  // --- What a dialog asks --------------------------------------------------

  function AskOf(name: string, d: Dialog): Ask {
    if name == GLOBAL && d.query != "" && d.query[0] == '/' then Commands(d.query)
    else if Trim(d.query) == "" then if name == GLOBAL then Commands("") else Nothing
    else
      Conversations(d.query, if d.lifecycle == "" then "all" else d.lifecycle,
                    if d.project == Some(":all") then None else d.project)
  }

  // The list that answers a dialog's fields: nothing asked, nothing listed.
  predicate Answers(name: string, d: Dialog) {
    var ask := AskOf(name, d);
    if ask == Nothing then d.shown == Empty else d.shown == Listed(ask) || d.shown == Failed(ask)
  }

  // --- The script's steps --------------------------------------------------

  // A refresh of a closed dialog, or of an older generation, does nothing.
  function Refresh(p: Page, name: string, generation: nat): (Page, Option<Flight>)
    requires name in p.dialogs
  {
    var d := p.dialogs[name];
    if !d.open || generation != p.generation then (p, None)
    else
      var ask := AskOf(name, d);
      if ask == Nothing then (p.(dialogs := p.dialogs[name := d.(shown := Empty)]), None)
      else (p, Some(Flight(name, generation, ask)))
  }

  function Change(p: Page, name: string, d: Dialog): Page {
    p.(dialogs := p.dialogs[name := d], generation := p.generation + 1)
  }

  datatype Outcome = Good | Bad | OtherToken

  // A failed catalogue rejects without a paint; an answer that carries another
  // token is ignored.
  function Painted(ask: Ask, outcome: Outcome, before: Shown): Shown {
    if outcome == Good then Listed(ask)
    else if outcome == Bad && ask.Conversations? then Failed(ask)
    else before
  }

  function Answered(p: Page, f: Flight, outcome: Outcome): Page
    requires f.name in p.dialogs
  {
    if f.generation != p.generation then p
    else
      var d := p.dialogs[f.name];
      p.(dialogs := p.dialogs[f.name := d.(shown := Painted(f.ask, outcome, d.shown))])
  }

  // The shell lists the projects anew: the select keeps its value if that is
  // still offered, and goes back to every chat otherwise. Nothing is refreshed.
  function Relisted(d: Dialog, offered: set<string>): Dialog {
    if d.project.None? || d.project.value in offered then d else d.(project := Some(":all"))
  }

  // --- Runs ----------------------------------------------------------------

  // The page, the requests in flight, the dialog that took the last
  // generation, what its refresh asked for, and whether the answer to that was
  // one that paints nothing.
  datatype System = System(
    page: Page, flights: seq<Flight>, owner: Option<string>, asked: Option<Ask>, lost: bool)

  // Dismiss is a closing outside the script's own way: a command sent to the
  // provider closes the open dialog directly.
  datatype Event =
    | Type(name: string, text: string)
    | Fire
    | PickLifecycle(name: string, lifecycle: string)
    | PickProject(name: string, project: string)
    | Open(name: string)
    | Return(name: string, text: string)
    | Close(name: string)
    | Dismiss(name: string)
    | ReloadProjects(name: string, offered: set<string>)
    | Answer(flight: nat, outcome: Outcome)

  // Timers and requests belong to dialogs of the page, which are never removed.
  predicate Enabled(s: System, e: Event) {
    match e
    case Fire => s.page.timer.Some? && s.page.timer.value.name in s.page.dialogs
    case Answer(k, _) => k < |s.flights| && s.flights[k].name in s.page.dialogs
    case PickProject(name, _) => name in s.page.dialogs && s.page.dialogs[name].project.Some?
    case ReloadProjects(name, offered) => name in s.page.dialogs && ":all" in offered
    case _ => e.name in s.page.dialogs
  }

  function Refreshed(s: System, name: string, generation: nat): System
    requires name in s.page.dialogs
  {
    var d := s.page.dialogs[name];
    var (after, sent) := Refresh(s.page, name, generation);
    s.(page := after,
       flights := s.flights + (match sent case Some(f) => [f] case None => []),
       asked := if d.open && generation == s.page.generation then Some(AskOf(name, d)) else s.asked)
  }

  // A change takes a new generation, for which nothing is asked yet.
  function Changed(s: System, name: string, d: Dialog): System {
    s.(page := Change(s.page, name, d), owner := Some(name), asked := None, lost := false)
  }

  function Renewed(s: System, name: string, d: Dialog): System {
    var t := Changed(s, name, d);
    Refreshed(t, name, t.page.generation)
  }

  function WithDialog(s: System, name: string, d: Dialog): System {
    s.(page := s.page.(dialogs := s.page.dialogs[name := d]))
  }

  function Step(s: System, e: Event): System
    requires Enabled(s, e)
  {
    var p := s.page;
    match e
    case Type(name, text) =>
      var t := Changed(s, name, p.dialogs[name].(query := text));
      t.(page := t.page.(timer := Some(Timer(name, t.page.generation))))
    case Fire => Refreshed(s.(page := p.(timer := None)), p.timer.value.name, p.timer.value.generation)
    case PickLifecycle(name, lifecycle) => Renewed(s, name, p.dialogs[name].(lifecycle := lifecycle))
    case PickProject(name, project) => Renewed(s, name, p.dialogs[name].(project := Some(project)))
    case Open(name) => Renewed(s, name, p.dialogs[name].(open := true))
    case Return(name, text) => Renewed(s, name, p.dialogs[name].(query := text, open := true))
    case Close(name) => if p.dialogs[name].open then Changed(s, name, p.dialogs[name].(open := false)) else s
    case Dismiss(name) => WithDialog(s, name, p.dialogs[name].(open := false))
    case ReloadProjects(name, offered) => WithDialog(s, name, Relisted(p.dialogs[name], offered))
    case Answer(k, outcome) =>
      var f := s.flights[k];
      s.(page := Answered(p, f, outcome), flights := s.flights[..k] + s.flights[k + 1..],
         lost := s.lost || (Current(p, f) && !Paints(f.ask, outcome)))
  }

  predicate Current(p: Page, f: Flight) {
    f.generation == p.generation
  }

  predicate Paints(ask: Ask, outcome: Outcome) {
    outcome == Good || (outcome == Bad && ask.Conversations?)
  }

  predicate Start(s: System) {
    && s.page.timer == None && s.flights == [] && s.owner == None && s.asked == None && !s.lost
    && forall name | name in s.page.dialogs :: s.page.dialogs[name].shown == Empty && !s.page.dialogs[name].open
  }

  predicate Possible(s: System, events: seq<Event>)
    decreases |events|
  {
    events == [] || (Enabled(s, events[0]) && Possible(Step(s, events[0]), events[1..]))
  }

  function Run(s: System, events: seq<Event>): System
    requires Possible(s, events)
    decreases |events|
  {
    if events == [] then s else Run(Step(s, events[0]), events[1..])
  }

  // --- What every run keeps ------------------------------------------------

  // A dialog asks what was asked, but for a project that is no longer listed.
  predicate StillAsks(name: string, d: Dialog, ask: Ask) {
    || ask == AskOf(name, d)
    || (ask.Conversations? && ask.project.Some? && d.project == Some(":all")
        && AskOf(name, d) == ask.(project := None))
  }

  predicate FlightFits(s: System, f: Flight) {
    && f.name in s.page.dialogs && f.generation <= s.page.generation && f.ask != Nothing
    && (Current(s.page, f) ==> s.owner == Some(f.name) && s.asked == Some(f.ask))
  }

  predicate TimerFits(s: System, t: Timer) {
    && t.name in s.page.dialogs && t.generation <= s.page.generation
    && (t.generation == s.page.generation ==> s.owner == Some(t.name) && s.asked == None)
  }

  predicate Fits(s: System) {
    && (forall k | 0 <= k < |s.flights| :: FlightFits(s, s.flights[k]))
    && (s.page.timer.Some? ==> TimerFits(s, s.page.timer.value))
    && (s.owner.Some? ==> s.owner.value in s.page.dialogs)
    && (s.asked.Some? ==> s.owner.Some? && StillAsks(s.owner.value, s.page.dialogs[s.owner.value], s.asked.value))
  }

  predicate Awaited(s: System) {
    || (s.page.timer.Some? && s.page.timer.value.generation == s.page.generation)
    || exists k | 0 <= k < |s.flights| :: Current(s.page, s.flights[k])
  }

  predicate Shows(shown: Shown, ask: Ask) {
    if ask == Nothing then shown == Empty else shown == Listed(ask) || shown == Failed(ask)
  }

  predicate Settles(s: System) {
    s.owner.Some? && s.owner.value in s.page.dialogs && s.page.dialogs[s.owner.value].open ==>
      || Awaited(s) || s.lost
      || (s.asked.Some? && Shows(s.page.dialogs[s.owner.value].shown, s.asked.value))
  }

  predicate Inv(s: System) {
    Fits(s) && Settles(s)
  }

  // A new generation leaves every earlier request behind.
  lemma ChangeFits(s: System, name: string, d: Dialog)
    requires Fits(s) && name in s.page.dialogs
    ensures Fits(Changed(s, name, d))
    ensures forall k | 0 <= k < |s.flights| :: !Current(Changed(s, name, d).page, s.flights[k])
  {
    forall k | 0 <= k < |s.flights|
      ensures FlightFits(Changed(s, name, d), s.flights[k]) && !Current(Changed(s, name, d).page, s.flights[k])
    {
      assert FlightFits(s, s.flights[k]);
    }
  }

  predicate NothingAsked(s: System, name: string) {
    && s.owner == Some(name) && s.asked == None
    && (s.page.timer.Some? ==> s.page.timer.value.generation < s.page.generation)
    && forall k | 0 <= k < |s.flights| :: !Current(s.page, s.flights[k])
  }

  // A refresh with the newest generation is awaited or shown at once.
  lemma RefreshKeeps(s: System, name: string)
    requires Fits(s) && name in s.page.dialogs && NothingAsked(s, name)
    ensures Inv(Refreshed(s, name, s.page.generation))
  {
    var t := Refreshed(s, name, s.page.generation);
    forall k | 0 <= k < |t.flights|
      ensures FlightFits(t, t.flights[k])
    {
      if k < |s.flights| {
        assert FlightFits(s, s.flights[k]) && !Current(s.page, s.flights[k]);
      }
    }
    if |t.flights| > |s.flights| {
      assert Current(t.page, t.flights[|s.flights|]);
    }
  }

  lemma RenewalKeeps(s: System, name: string, d: Dialog)
    requires Fits(s) && name in s.page.dialogs
    ensures Inv(Renewed(s, name, d))
  {
    ChangeFits(s, name, d);
    RefreshKeeps(Changed(s, name, d), name);
  }

  lemma FireKeeps(s: System)
    requires Inv(s) && Enabled(s, Fire)
    ensures Inv(Step(s, Fire))
  {
    var t := s.page.timer.value;
    var spent := s.(page := s.page.(timer := None));
    forall k | 0 <= k < |s.flights|
      ensures FlightFits(spent, s.flights[k])
      ensures t.generation == s.page.generation ==> !Current(s.page, s.flights[k])
    {
      assert FlightFits(s, s.flights[k]);
    }
    assert Fits(spent);
    if t.generation == s.page.generation {
      RefreshKeeps(spent, t.name);
    } else {
      assert s.flights + [] == s.flights;
      assert Refreshed(spent, t.name, t.generation) == spent;
    }
  }

  lemma AnswerLeaves(s: System, k: nat, outcome: Outcome, j: nat)
    requires Enabled(s, Answer(k, outcome)) && j < |Step(s, Answer(k, outcome)).flights|
    ensures Step(s, Answer(k, outcome)).flights[j] == s.flights[if j < k then j else j + 1]
  {
  }

  lemma AnswerFits(s: System, k: nat, outcome: Outcome)
    requires Fits(s) && Enabled(s, Answer(k, outcome))
    ensures Fits(Step(s, Answer(k, outcome)))
  {
    var after := Step(s, Answer(k, outcome));
    forall j | 0 <= j < |after.flights|
      ensures FlightFits(after, after.flights[j])
    {
      AnswerLeaves(s, k, outcome, j);
      assert FlightFits(s, s.flights[if j < k then j else j + 1]);
    }
  }

  lemma AnswerKeeps(s: System, k: nat, outcome: Outcome)
    requires Inv(s) && Enabled(s, Answer(k, outcome))
    ensures Inv(Step(s, Answer(k, outcome)))
  {
    var after := Step(s, Answer(k, outcome));
    AnswerFits(s, k, outcome);
    assert FlightFits(s, s.flights[k]);
    if !Current(s.page, s.flights[k]) {
      if j :| 0 <= j < |s.flights| && Current(s.page, s.flights[j]) {
        assert after.flights[if j < k then j else j - 1] == s.flights[j];
      }
    }
  }

  // A dialog closed or relisted in place is still the one that asked.
  lemma InPlaceKeeps(s: System, name: string, d: Dialog)
    requires Inv(s) && name in s.page.dialogs
    requires var before := s.page.dialogs[name];
      d == before.(open := false) || exists offered | ":all" in offered :: d == Relisted(before, offered)
    ensures Inv(WithDialog(s, name, d))
  {
    var t := WithDialog(s, name, d);
    forall k | 0 <= k < |s.flights|
      ensures FlightFits(t, s.flights[k])
    {
      assert FlightFits(s, s.flights[k]);
    }
  }

  lemma StepKeepsInv(s: System, e: Event)
    requires Inv(s) && Enabled(s, e)
    ensures Inv(Step(s, e))
  {
    var p := s.page;
    match e
    case Type(name, text) => ChangeFits(s, name, p.dialogs[name].(query := text));
    case Fire => FireKeeps(s);
    case PickLifecycle(name, lifecycle) => RenewalKeeps(s, name, p.dialogs[name].(lifecycle := lifecycle));
    case PickProject(name, project) => RenewalKeeps(s, name, p.dialogs[name].(project := Some(project)));
    case Open(name) => RenewalKeeps(s, name, p.dialogs[name].(open := true));
    case Return(name, text) => RenewalKeeps(s, name, p.dialogs[name].(query := text, open := true));
    case Close(name) => ChangeFits(s, name, p.dialogs[name].(open := false));
    case Dismiss(name) => InPlaceKeeps(s, name, p.dialogs[name].(open := false));
    case ReloadProjects(name, offered) => InPlaceKeeps(s, name, Relisted(p.dialogs[name], offered));
    case Answer(k, outcome) => AnswerKeeps(s, k, outcome);
  }

  lemma {:induction false} RunKeepsInv(s: System, events: seq<Event>)
    requires Inv(s) && Possible(s, events)
    ensures Inv(Run(s, events))
    decreases |events|
  {
    if events != [] {
      StepKeepsInv(s, events[0]);
      RunKeepsInv(Step(s, events[0]), events[1..]);
    }
  }

  // The states some run from a fresh page leads to.
  ghost predicate Reached(s: System) {
    exists start: System, events: seq<Event> :: Start(start) && Possible(start, events) && s == Run(start, events)
  }

  lemma ReachedFits(s: System)
    requires Reached(s)
    ensures Inv(s)
  {
    var start: System, events: seq<Event> :| Start(start) && Possible(start, events) && s == Run(start, events);
    RunKeepsInv(start, events);
  }

  // --- What is painted -----------------------------------------------------

  // A dialog's list stays, or answers what its owner asked: the query and
  // lifecycle the dialog has, and its project unless that is no longer listed.
  predicate Paint(before: System, after: System, name: string)
    requires name in before.page.dialogs && name in after.page.dialogs
  {
    || after.page.dialogs[name].shown == before.page.dialogs[name].shown
    || (&& after.owner == Some(name) && after.asked.Some?
        && Shows(after.page.dialogs[name].shown, after.asked.value)
        && StillAsks(name, after.page.dialogs[name], after.asked.value))
  }

  lemma RefreshPaints(s: System, name: string, generation: nat, other: string)
    requires name in s.page.dialogs && other in s.page.dialogs
    requires generation == s.page.generation ==> s.owner == Some(name)
    ensures other in Refreshed(s, name, generation).page.dialogs
    ensures Paint(s, Refreshed(s, name, generation), other)
  {
  }

  lemma RenewalPaints(s: System, name: string, d: Dialog, other: string)
    requires name in s.page.dialogs && other in s.page.dialogs && d.shown == s.page.dialogs[name].shown
    ensures other in Renewed(s, name, d).page.dialogs && Paint(s, Renewed(s, name, d), other)
  {
    var t := Changed(s, name, d);
    RefreshPaints(t, name, t.page.generation, other);
  }

  // Whatever the order of typing, timers, filters, openings, closings, project
  // reloads and answers, each paint answers what was asked under the newest
  // generation, of the dialog that took it.
  lemma PaintsAnswerWhatWasAsked(s: System, e: Event, name: string)
    requires Reached(s) && Enabled(s, e) && name in s.page.dialogs
    ensures name in Step(s, e).page.dialogs && Paint(s, Step(s, e), name)
  {
    ReachedFits(s);
    var p := s.page;
    match e
    case Fire =>
      RefreshPaints(s.(page := p.(timer := None)), p.timer.value.name, p.timer.value.generation, name);
    case Answer(k, _) =>
      StepKeepsInv(s, e);
      assert FlightFits(s, s.flights[k]);
    case PickLifecycle(n, lifecycle) => RenewalPaints(s, n, p.dialogs[n].(lifecycle := lifecycle), name);
    case PickProject(n, project) => RenewalPaints(s, n, p.dialogs[n].(project := Some(project)), name);
    case Open(n) => RenewalPaints(s, n, p.dialogs[n].(open := true), name);
    case Return(n, text) => RenewalPaints(s, n, p.dialogs[n].(query := text, open := true), name);
    case _ =>
  }

  // The step reads the dialog's fields and asks for their answer.
  predicate Refreshes(s: System, e: Event, name: string)
    requires Enabled(s, e)
  {
    && name in s.page.dialogs
    && match e
       case Fire => s.page.timer == Some(Timer(name, s.page.generation)) && s.page.dialogs[name].open
       case PickLifecycle(n, _) => n == name && s.page.dialogs[name].open
       case PickProject(n, _) => n == name && s.page.dialogs[name].open
       case Open(n) => n == name
       case Return(n, _) => n == name
       case _ => false
  }

  lemma RefreshAsks(s: System, e: Event, name: string)
    requires Inv(s) && Enabled(s, e) && Refreshes(s, e, name)
    ensures var t := Step(s, e);
      && t.owner == Some(name) && name in t.page.dialogs && t.page.dialogs[name].open
      && t.asked == Some(AskOf(name, t.page.dialogs[name]))
  {
  }

  // What each event of the page does to the fields of the dialog it names.
  lemma EventsSetFields(s: System, e: Event)
    requires Enabled(s, e) && !e.Fire? && !e.Answer?
    ensures e.name in Step(s, e).page.dialogs
    ensures var before := s.page.dialogs[e.name];
      var after := Step(s, e).page.dialogs[e.name];
      && after.query == (if e.Type? || e.Return? then e.text else before.query)
      && after.lifecycle == (if e.PickLifecycle? then e.lifecycle else before.lifecycle)
      && (e.PickProject? ==> after.project == Some(e.project))
      && (!e.PickProject? && !e.ReloadProjects? ==> after.project == before.project)
      && after.open == ((before.open || e.Open? || e.Return?) && !e.Close? && !e.Dismiss?)
  {
  }

  // What is typed is searched: unless a newer generation is taken first, the
  // timer then fires and refreshes the dialog, with the text in it.
  lemma TypedTextIsSearched(s: System, name: string, text: string)
    requires name in s.page.dialogs && s.page.dialogs[name].open
    ensures var typed := Step(s, Type(name, text));
      && typed.page.generation > s.page.generation && typed.page.dialogs[name].query == text
      && Enabled(typed, Fire) && Refreshes(typed, Fire, name)
  {
  }

  // The request a refresh sends, read off the dialog: a slash in the global
  // dialog asks for the commands it filters, a blank query for all of them there
  // and for nothing elsewhere, and any other query for the conversations of that
  // query, the chosen lifecycle, and the chosen project unless it is every chat.
  lemma RefreshSendsFields(s: System, e: Event, name: string)
    requires Reached(s) && Enabled(s, e) && Refreshes(s, e, name)
    ensures name in Step(s, e).page.dialogs
    ensures var t := Step(s, e);
      var d := t.page.dialogs[name];
      if name == "global" && d.query != "" && d.query[0] == '/' then
        t.flights == s.flights + [Flight(name, t.page.generation, Commands(d.query))]
      else if Blank(d.query) then
        if name == "global" then t.flights == s.flights + [Flight(name, t.page.generation, Commands(""))]
        else t.flights == s.flights && d.shown == Empty
      else
        exists lifecycle, project ::
          && t.flights == s.flights + [Flight(name, t.page.generation, Conversations(d.query, lifecycle, project))]
          && (d.lifecycle == "" ==> lifecycle == "all") && (d.lifecycle != "" ==> lifecycle == d.lifecycle)
          && (project.Some? ==> d.project == project && project.value != ":all")
          && (project.None? ==> d.project.None? || d.project.value == ":all")
  {
    ReachedFits(s);
    RefreshAsks(s, e, name);
    var t := Step(s, e);
    var d := t.page.dialogs[name];
    TrimmedIsEmptyIff(d.query);
    var ask := AskOf(name, d);
    RefreshFlies(s, e, name);
    if ask.Conversations? {
      var sent := Conversations(d.query, ask.lifecycle, ask.project);
      assert t.flights == s.flights + [Flight(name, t.page.generation, sent)];
    }
  }

  // A refresh adds one request for what it asks, or clears the list if that is nothing.
  lemma RefreshFlies(s: System, e: Event, name: string)
    requires Inv(s) && Enabled(s, e) && Refreshes(s, e, name)
    ensures var t := Step(s, e);
      && name in t.page.dialogs
      && var ask := AskOf(name, t.page.dialogs[name]);
         if ask == Nothing then t.flights == s.flights && t.page.dialogs[name].shown == Empty
         else t.flights == s.flights + [Flight(name, t.page.generation, ask)]
  {
    assert s.flights + [] == s.flights;
  }

  // The projects were listed anew without this one.
  predicate Unlists(events: seq<Event>, name: string, project: string) {
    events != [] &&
    ((events[0].ReloadProjects? && events[0].name == name && project !in events[0].offered)
     || Unlists(events[1..], name, project))
  }

  lemma {:induction false} EveryChatStaysListed(s: System, events: seq<Event>, name: string)
    requires Possible(s, events)
    ensures !Unlists(events, name, ":all")
    decreases |events|
  {
    if events != [] {
      EveryChatStaysListed(Step(s, events[0]), events[1..], name);
    }
  }

  lemma {:induction false} GenerationsGrow(s: System, events: seq<Event>)
    requires Possible(s, events)
    ensures s.page.generation <= Run(s, events).page.generation
    decreases |events|
  {
    if events != [] {
      GenerationsGrow(Step(s, events[0]), events[1..]);
    }
  }

  function ProjectAfter(project: Option<string>, events: seq<Event>, name: string): Option<string> {
    if project.Some? && Unlists(events, name, project.value) then Some(":all") else project
  }

  // A dialog's fields after events that take no new generation.
  predicate FieldsAfter(before: Dialog, after: Dialog, events: seq<Event>, name: string) {
    && after.query == before.query && after.lifecycle == before.lifecycle
    && after.open == (before.open && Dismiss(name) !in events)
    && after.project == ProjectAfter(before.project, events, name)
  }

  lemma QuietStep(s: System, e: Event, name: string)
    requires Inv(s) && Enabled(s, e) && s.owner == Some(name) && s.asked.Some?
    requires Step(s, e).page.generation == s.page.generation
    ensures var t := Step(s, e);
      && t.owner == s.owner && t.asked == s.asked && name in t.page.dialogs
      && FieldsAfter(s.page.dialogs[name], t.page.dialogs[name], [e], name)
  {
    assert [e][1..] == [] && !Unlists([], name, "");
    assert forall p :: Unlists([e], name, p) <==> e.ReloadProjects? && e.name == name && p !in e.offered;
  }

  lemma {:induction false} SinceRefresh(s: System, since: seq<Event>, name: string)
    requires Inv(s) && Possible(s, since) && s.owner == Some(name) && s.asked.Some?
    requires Run(s, since).page.generation == s.page.generation
    ensures var t := Run(s, since);
      && t.owner == s.owner && t.asked == s.asked && name in t.page.dialogs
      && FieldsAfter(s.page.dialogs[name], t.page.dialogs[name], since, name)
    decreases |since|
  {
    if since != [] {
      var t := Step(s, since[0]);
      StepKeepsInv(s, since[0]);
      GenerationsGrow(t, since[1..]);
      StepGrows(s, since[0]);
      QuietStep(s, since[0], name);
      SinceRefresh(t, since[1..], name);
      EveryChatStaysListed(t, since[1..], name);
      FieldsInTurn(s.page.dialogs[name], t.page.dialogs[name], Run(t, since[1..]).page.dialogs[name],
                   since[0], since[1..], name);
      assert since == [since[0]] + since[1..];
    }
  }

  lemma StepGrows(s: System, e: Event)
    requires Enabled(s, e)
    ensures s.page.generation <= Step(s, e).page.generation
  {
  }

  lemma FieldsInTurn(a: Dialog, b: Dialog, c: Dialog, first: Event, rest: seq<Event>, name: string)
    requires FieldsAfter(a, b, [first], name) && FieldsAfter(b, c, rest, name) && !Unlists(rest, name, ":all")
    ensures FieldsAfter(a, c, [first] + rest, name)
  {
    assert ([first] + rest)[1..] == rest && [first][1..] == [];
    assert !Unlists([], name, if a.project.Some? then a.project.value else "");
  }

  // The project asked about was unlisted meanwhile.
  predicate Outdated(ask: Ask, since: seq<Event>, name: string) {
    ask.Conversations? && ask.project.Some? && Unlists(since, name, ask.project.value)
  }

  lemma AskAfter(name: string, before: Dialog, after: Dialog, since: seq<Event>)
    requires FieldsAfter(before, after, since, name) && !Unlists(since, name, ":all")
    ensures AskOf(name, after) == AskOf(name, before) <==> !Outdated(AskOf(name, before), since, name)
  {
  }

  // An answer painted under the generation of a refresh is the answer to what
  // the dialog asks at that moment, and the dialog is open, if and only if since
  // the refresh the dialog was not closed in place and the project asked about
  // was not unlisted.
  lemma PaintIsCurrentIff(s: System, e: Event, since: seq<Event>, name: string, k: nat, outcome: Outcome)
    requires Reached(s) && Enabled(s, e) && Refreshes(s, e, name) && Possible(Step(s, e), since)
    requires var t := Run(Step(s, e), since);
      && t.page.generation == Step(s, e).page.generation
      && k < |t.flights| && Current(t.page, t.flights[k]) && Paints(t.flights[k].ask, outcome)
      && Enabled(t, Answer(k, outcome))
    ensures var asked := Step(s, e);
      var painted := Step(Run(asked, since), Answer(k, outcome));
      && name in asked.page.dialogs && name in painted.page.dialogs
      && painted.page.dialogs[name].shown
         == (if outcome == Good then Listed(AskOf(name, asked.page.dialogs[name]))
             else Failed(AskOf(name, asked.page.dialogs[name])))
      && (painted.page.dialogs[name].open && Answers(name, painted.page.dialogs[name])
          <==> Dismiss(name) !in since && !Outdated(AskOf(name, asked.page.dialogs[name]), since, name))
  {
    ReachedFits(s);
    StepKeepsInv(s, e);
    RefreshAsks(s, e, name);
    var asked := Step(s, e);
    var t := Run(asked, since);
    RunKeepsInv(asked, since);
    SinceRefresh(asked, since, name);
    EveryChatStaysListed(asked, since, name);
    assert FlightFits(t, t.flights[k]);
    var d := t.page.dialogs[name];
    AskAfter(name, asked.page.dialogs[name], d, since);
    AskIgnoresList(name, d, Painted(t.flights[k].ask, outcome, d.shown));
  }

  lemma AskIgnoresList(name: string, d: Dialog, shown: Shown)
    ensures AskOf(name, d.(shown := shown)) == AskOf(name, d)
  {
  }

  // Once the answer to a refresh has been painted, its dialog shows the answer
  // to its fields if and only if the project asked about is still listed.
  lemma SettledDialogAnswersIff(s: System, e: Event, since: seq<Event>, name: string)
    requires Reached(s) && Enabled(s, e) && Refreshes(s, e, name) && Possible(Step(s, e), since)
    requires var t := Run(Step(s, e), since);
      && t.page.generation == Step(s, e).page.generation
      && (forall k | 0 <= k < |t.flights| :: !Current(t.page, t.flights[k]))
      && !t.lost && Dismiss(name) !in since
    ensures var asked := Step(s, e);
      var t := Run(asked, since);
      && name in asked.page.dialogs && name in t.page.dialogs && t.page.dialogs[name].open
      && (Answers(name, t.page.dialogs[name])
          <==> !Outdated(AskOf(name, asked.page.dialogs[name]), since, name))
  {
    ReachedFits(s);
    StepKeepsInv(s, e);
    RefreshAsks(s, e, name);
    var asked := Step(s, e);
    RunKeepsInv(asked, since);
    SinceRefresh(asked, since, name);
    EveryChatStaysListed(asked, since, name);
    AskAfter(name, asked.page.dialogs[name], Run(asked, since).page.dialogs[name], since);
  }

  // An answer is lost only if it failed or carried another token.
  lemma {:induction false} LostNeedsABadAnswer(s: System, events: seq<Event>)
    requires Possible(s, events) && !s.lost && Run(s, events).lost
    ensures exists k | 0 <= k < |events| :: events[k].Answer? && events[k].outcome != Good
    decreases |events|
  {
    var t := Step(s, events[0]);
    if t.lost {
      assert events[0].Answer?;
    } else {
      LostNeedsABadAnswer(t, events[1..]);
      var k :| 0 <= k < |events[1..]| && events[1..][k].Answer? && events[1..][k].outcome != Good;
      assert events[k + 1] == events[1..][k];
    }
  }

  // --- Where paints go wrong -----------------------------------------------

  lemma RunThree(s: System, a: Event, b: Event, c: Event)
    requires Enabled(s, a) && Enabled(Step(s, a), b) && Enabled(Step(Step(s, a), b), c)
    ensures Possible(s, [a, b, c]) && Run(s, [a, b, c]) == Step(Step(Step(s, a), b), c)
  {
    var two, three := Step(s, a), Step(Step(s, a), b);
    assert [a, b, c][1..] == [b, c] && [b, c][1..] == [c] && [c][1..] == [];
    assert Possible(three, [c]) && Run(three, [c]) == Step(three, c);
    assert Possible(two, [b, c]) && Run(two, [b, c]) == Step(three, c);
  }

  lemma OpeningSends(s: System, name: string)
    requires Start(s) && name in s.page.dialogs && AskOf(name, s.page.dialogs[name]) != Nothing
    ensures var t := Step(s, Open(name));
      && t.page.dialogs == s.page.dialogs[name := s.page.dialogs[name].(open := true)]
      && t.flights == [Flight(name, t.page.generation, AskOf(name, s.page.dialogs[name]))]
      && t.owner == Some(name)
  {
    var d := s.page.dialogs[name];
    assert AskOf(name, d.(open := true)) == AskOf(name, d);
    assert s.flights + [] == [];
  }

  // A dialog closed in place before its answer is painted all the same.
  lemma ClosedDialogIsPainted(s: System, name: string)
    requires Start(s) && name in s.page.dialogs && AskOf(name, s.page.dialogs[name]) != Nothing
    ensures Possible(s, [Open(name), Dismiss(name), Answer(0, Good)])
    ensures var t := Run(s, [Open(name), Dismiss(name), Answer(0, Good)]);
      && name in t.page.dialogs && !t.page.dialogs[name].open
      && t.page.dialogs[name].shown == Listed(AskOf(name, s.page.dialogs[name]))
  {
    OpeningSends(s, name);
    RunThree(s, Open(name), Dismiss(name), Answer(0, Good));
  }

  // A search is painted under a project select that no longer names its project.
  lemma UnlistedProjectIsPainted(s: System, name: string)
    requires Start(s) && name in s.page.dialogs
    requires var ask := AskOf(name, s.page.dialogs[name]); ask.Conversations? && ask.project.Some?
    ensures Possible(s, [Open(name), ReloadProjects(name, {":all"}), Answer(0, Good)])
    ensures var t := Run(s, [Open(name), ReloadProjects(name, {":all"}), Answer(0, Good)]);
      && name in t.page.dialogs && t.page.dialogs[name].open && !Answers(name, t.page.dialogs[name])
  {
    OpeningSends(s, name);
    RunThree(s, Open(name), ReloadProjects(name, {":all"}), Answer(0, Good));
  }

  // A page both happen on: the global dialog, a query and a project in it.
  const SEARCH_PAGE := System(
    Page(map[GLOBAL := Dialog(false, "c", "", Some("p"), Empty)], 0, None), [], None, None, false)

  lemma SearchPageAsks()
    ensures Start(SEARCH_PAGE) && GLOBAL in SEARCH_PAGE.page.dialogs
    ensures AskOf(GLOBAL, SEARCH_PAGE.page.dialogs[GLOBAL]) == Conversations("c", "all", Some("p"))
  {
    assert Trim("c") == "c" by {
      assert "c"[1..] == "";
    }
  }

  // --- Two dialogs ---------------------------------------------------------

  predicate Touches(e: Event, name: string) {
    !e.Fire? && !e.Answer? && e.name == name
  }

  lemma OvertakenStep(s: System, e: Event, name: string)
    requires Inv(s) && Enabled(s, e) && name in s.page.dialogs && s.owner != Some(name) && !Touches(e, name)
    ensures Step(s, e).owner != Some(name) && name in Step(s, e).page.dialogs
    ensures Step(s, e).page.dialogs[name] == s.page.dialogs[name]
  {
    if e.Answer? {
      assert FlightFits(s, s.flights[e.flight]);
    }
  }

  // Dialogs share the counter: once another has acted, a dialog is not painted
  // again until it acts itself, so it shows the answer to its fields at rest if
  // and only if it already did when it was overtaken.
  lemma {:induction false} OvertakenDialogStays(s: System, events: seq<Event>, name: string)
    requires Inv(s) && Possible(s, events) && name in s.page.dialogs && s.owner != Some(name)
    requires forall k | 0 <= k < |events| :: !Touches(events[k], name)
    ensures name in Run(s, events).page.dialogs
    ensures Run(s, events).page.dialogs[name] == s.page.dialogs[name]
    ensures Answers(name, Run(s, events).page.dialogs[name]) <==> Answers(name, s.page.dialogs[name])
    decreases |events|
  {
    if events != [] {
      StepKeepsInv(s, events[0]);
      assert !Touches(events[0], name);
      assert forall k | 0 <= k < |events[1..]| :: events[1..][k] == events[k + 1];
      OvertakenStep(s, events[0], name);
      OvertakenDialogStays(Step(s, events[0]), events[1..], name);
    }
  }

  // Open, overtaken, and not showing the answer to its fields.
  predicate Dropped(s: System, name: string) {
    && name in s.page.dialogs && s.page.dialogs[name].open && s.owner != Some(name)
    && !Answers(name, s.page.dialogs[name])
  }

  lemma OpeningLeavesOthers(s: System, name: string, other: string)
    requires name in s.page.dialogs && other in s.page.dialogs && other != name
    ensures other in Step(s, Open(name)).page.dialogs
    ensures Step(s, Open(name)).page.dialogs[other] == s.page.dialogs[other]
    ensures Step(s, Open(name)).owner == Some(name)
  {
  }

  // A dialog opened over another drops what that one awaits.
  lemma SecondDialogDropsTheFirstsSearch(s: System, first: string, second: string)
    requires Start(s) && first in s.page.dialogs && second in s.page.dialogs && first != second
    requires AskOf(first, s.page.dialogs[first]) != Nothing
    ensures Enabled(Step(s, Open(first)), Open(second))
    ensures Dropped(Step(Step(s, Open(first)), Open(second)), first)
  {
    OpeningSends(s, first);
    OpeningLeavesOthers(Step(s, Open(first)), second, first);
    assert AskOf(first, s.page.dialogs[first].(open := true)) == AskOf(first, s.page.dialogs[first]);
  }

  // Left alone, it stays so however the run goes on.
  lemma DroppedSearchNeverShows(s: System, events: seq<Event>, name: string)
    requires Inv(s) && Possible(s, events) && Dropped(s, name)
    requires forall k | 0 <= k < |events| :: !Touches(events[k], name)
    ensures var t := Run(s, events);
      name in t.page.dialogs && t.page.dialogs[name].open && !Answers(name, t.page.dialogs[name])
  {
    OvertakenDialogStays(s, events, name);
  }

  // --- The controller's own fields -----------------------------------------

  class CommandController {
    var dialogs: map<string, Dialog>
    var searchGeneration: nat
    var searchTimer: Option<Timer>

    function View(): Page
      reads this
    {
      Page(dialogs, searchGeneration, searchTimer)
    }

    constructor (dialogs: map<string, Dialog>)
      ensures View() == Page(dialogs, 0, None)
    {
      this.dialogs, searchGeneration, searchTimer := dialogs, 0, None;
    }

    method RefreshDialog(name: string, generation: nat) returns (sent: Option<Flight>)
      requires name in dialogs
      modifies this`dialogs
      ensures (View(), sent) == Refresh(old(View()), name, generation)
    {
      var d := dialogs[name];
      if !d.open || generation != searchGeneration {
        return None;
      }
      var ask := AskOf(name, d);
      if ask == Nothing {
        dialogs := dialogs[name := d.(shown := Empty)];
        return None;
      }
      return Some(Flight(name, generation, ask));
    }

    // Typing restarts the debounce timer under a new generation.
    method HandleQueryInput(name: string, text: string)
      requires name in dialogs
      modifies this
      ensures View() == Change(old(View()), name, old(dialogs)[name].(query := text)).(
                          timer := Some(Timer(name, old(searchGeneration) + 1)))
    {
      dialogs := dialogs[name := dialogs[name].(query := text)];
      searchGeneration := searchGeneration + 1;
      searchTimer := Some(Timer(name, searchGeneration));
    }

    method TimerFires() returns (sent: Option<Flight>)
      requires searchTimer.Some? && searchTimer.value.name in dialogs
      modifies this
      ensures (View(), sent) ==
        Refresh(old(View()).(timer := None), old(searchTimer).value.name, old(searchTimer).value.generation)
    {
      var t := searchTimer.value;
      searchTimer := None;
      sent := RefreshDialog(t.name, t.generation);
    }

    method OpenDialog(name: string) returns (sent: Option<Flight>)
      requires name in dialogs
      modifies this
      ensures var changed := Change(old(View()), name, old(dialogs)[name].(open := true));
        (View(), sent) == Refresh(changed, name, changed.generation)
    {
      dialogs := dialogs[name := dialogs[name].(open := true)];
      searchGeneration := searchGeneration + 1;
      sent := RefreshDialog(name, searchGeneration);
    }

    method CloseDialog(name: string)
      requires name in dialogs
      modifies this
      ensures View() == if !old(dialogs)[name].open then old(View())
                        else Change(old(View()), name, old(dialogs)[name].(open := false))
    {
      if dialogs[name].open {
        searchGeneration := searchGeneration + 1;
        dialogs := dialogs[name := dialogs[name].(open := false)];
      }
    }

    method SearchAnswered(f: Flight, outcome: Outcome)
      requires f.name in dialogs
      modifies this`dialogs
      ensures View() == Answered(old(View()), f, outcome)
    {
      if f.generation != searchGeneration {
        return;
      }
      var d := dialogs[f.name];
      if outcome == Good {
        dialogs := dialogs[f.name := d.(shown := Listed(f.ask))];
      } else if outcome == Bad && f.ask.Conversations? {
        dialogs := dialogs[f.name := d.(shown := Failed(f.ask))];
      } else {
        dialogs := dialogs[f.name := d];
      }
    }

    // A command sent to the provider closes the dialog, under no new generation.
    method DismissDialog(name: string)
      requires name in dialogs
      modifies this`dialogs
      ensures View() == old(View()).(dialogs := old(dialogs)[name := old(dialogs)[name].(open := false)])
    {
      dialogs := dialogs[name := dialogs[name].(open := false)];
    }

    // The shell's reload of the project select.
    method ReloadProjects(name: string, offered: set<string>)
      requires name in dialogs && ":all" in offered
      modifies this`dialogs
      ensures View() == old(View()).(dialogs := old(dialogs)[name := Relisted(old(dialogs)[name], offered)])
    {
      var d := dialogs[name];
      if d.project.Some? {
        var previous := d.project.value;
        d := d.(project := Some(if previous in offered then previous else ":all"));
      }
      dialogs := dialogs[name := d];
    }
  }
}
