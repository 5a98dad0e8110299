// The reconnecting consumer (function `s`): when it fetches again, with which
// Last-Event-ID header, after what delay, and when it gives up.
module EventStreamReconnect {
  import opened Options
  import opened EventStreamParser
  import opened EventStreamStandard
  import Resume = EventStreamResume

  // `maxAttempts` is None for the default, an infinite number of attempts.
  datatype Config = Config(
    reconnect: bool, maxAttempts: Option<nat>, maxDelay: real, jitter: real, closeEvent: Option<string>)

  datatype Fetch = Threw(aborted: bool) | Refused | Accepted

  // A yielded message, and whether the page's handlers let it through.
  datatype Handled = Handled(message: Message, accepted: bool)

  // Everything the outside decides during one pass of the loop: whether the
  // element is still in the page at each test, whether the page is hidden, a
  // veto, the random draw, the fetch, and the messages taken from the body.
  datatype Turn = Turn(
    attached: bool, hidden: bool, attachedOnResume: bool, vetoed: bool, random: real,
    attachedAfterDelay: bool, fetch: Fetch, body: seq<Handled>, attachedAfterBody: bool)

  datatype Event =
    | Resumed
    | Fetched(header: Option<string>, attempt: nat, wait: real)
    | Connected
    | Took(message: Message)

  datatype Loop = Loop(
    running: bool, attempt: nat, resumed: bool, lastEventId: string, delay: real, log: seq<Event>)
  {
    function Stop(): Loop {
      this.(running := false)
    }

    function Note(e: Event): Loop {
      this.(log := log + [e])
    }
  }

  function Start(delay: real): Loop {
    Loop(true, 0, false, "", delay, [])
  }

  // --- Delay ---------------------------------------------------------------

  function PowerOfTwo(n: nat): (r: real)
    ensures r >= 1.0
  {
    if n == 0 then 1.0 else 2.0 * PowerOfTwo(n - 1)
  }

  function Backoff(delay: real, maxDelay: real, attempt: nat): real
    requires attempt > 0
  {
    var grown := delay * PowerOfTwo(attempt - 1);
    if grown < maxDelay then grown else maxDelay
  }

  // A random draw in [0, 1) moves the delay by at most its jitter share.
  function Jittered(base: real, jitter: real, random: real): real {
    if jitter > 0.0 then
      var moved := base + (2.0 * random - 1.0) * Share(base, jitter);
      if moved < 0.0 then 0.0 else moved
    else
      base
  }

  function Share(base: real, jitter: real): real {
    base * jitter
  }

  function Wait(config: Config, delay: real, attempt: nat, random: real): real
    requires attempt > 0
  {
    Jittered(Backoff(delay, config.maxDelay, attempt), config.jitter, random)
  }

  // (1 + jitter) * maximum.
  function LongestWait(config: Config): real {
    config.maxDelay + Share(config.maxDelay, config.jitter)
  }

  // --- One pass ------------------------------------------------------------

  function HeaderFor(lastEventId: string): Option<string> {
    if lastEventId == "" then None else Some(lastEventId)
  }

  function Take(config: Config, s: Loop, h: Handled): Loop {
    var r := h.message.record;
    var noted := s.Note(Took(h.message)).(lastEventId := if r.hasId then h.message.id else s.lastEventId);
    if !r.hasData && r.event == "" then
      noted
    else if !h.accepted then
      noted
    else
      var tuned := noted.(delay := if r.retry.Some? then r.retry.value as real else s.delay);
      if r.event != "" && config.closeEvent == Some(r.event) then tuned.Stop() else tuned
  }

  function TakeAll(config: Config, s: Loop, body: seq<Handled>): Loop
    decreases body
  {
    if body == [] || !s.running then s else TakeAll(config, Take(config, s, body[0]), body[1..])
  }

  function Drain(config: Config, s: Loop, t: Turn): Loop {
    var after := TakeAll(config, s.Note(Connected).(resumed := false), t.body);
    if !after.running || !t.attachedAfterBody then after.Stop() else after.(attempt := after.attempt + 1)
  }

  predicate MayRetry(config: Config, s: Loop) {
    s.resumed || (config.reconnect && (config.maxAttempts.None? || s.attempt <= config.maxAttempts.value))
  }

  function Request(config: Config, s: Loop, t: Turn): Event
    requires s.attempt > 0
  {
    Fetched(HeaderFor(s.lastEventId), s.attempt, Wait(config, s.delay, s.attempt, t.random))
  }

  function Retry(config: Config, s: Loop, t: Turn): Loop
    requires s.attempt > 0
  {
    if !MayRetry(config, s) || t.vetoed || !t.attachedAfterDelay then
      s.Stop()
    else
      var sent := s.Note(Request(config, s, t));
      match t.fetch
      case Threw(aborted) => if aborted then sent.Stop() else sent.(resumed := false, attempt := s.attempt + 1)
      case Refused => sent.(resumed := false, attempt := s.attempt + 1)
      case Accepted => Drain(config, sent.(attempt := 0), t)
  }

  function Pass(config: Config, s: Loop, t: Turn): Loop {
    if !s.running then s
    else if !t.attached then s.Stop()
    else if s.attempt == 0 then Drain(config, s, t)
    else if t.hidden then
      if t.attachedOnResume then Retry(config, s.Note(Resumed).(attempt := 1, resumed := true), t) else s.Stop()
    else Retry(config, s, t)
  }

  function Passes(config: Config, s: Loop, turns: seq<Turn>): Loop {
    if turns == [] then s else Pass(config, Passes(config, s, turns[..|turns| - 1]), turns[|turns| - 1])
  }

  // --- What every run keeps ------------------------------------------------

  // Fetches since the last successful connection or return to the foreground.
  function FetchesSince(log: seq<Event>): nat {
    if log == [] then 0
    else
      var before := FetchesSince(log[..|log| - 1]);
      match log[|log| - 1]
      case Fetched(_, _, _) => before + 1
      case Took(_) => before
      case Connected => 0
      case Resumed => 0
  }

  predicate SinceResume(log: seq<Event>) {
    log != [] &&
    match log[|log| - 1]
    case Resumed => true
    case Connected => false
    case _ => SinceResume(log[..|log| - 1])
  }

  // The budget: the configured attempts, none when reconnecting is off, and
  // always one right after a background pause. None is no limit.
  function Budget(config: Config, resumed: bool): Option<nat> {
    var floor: nat := if resumed then 1 else 0;
    if !config.reconnect then Some(floor)
    else if config.maxAttempts.None? then None
    else if config.maxAttempts.value < floor then Some(floor) else config.maxAttempts
  }

  predicate WithinBudget(config: Config, log: seq<Event>) {
    log == [] ||
    (&& WithinBudget(config, log[..|log| - 1])
     && var budget := Budget(config, SinceResume(log));
        budget.Some? ==> FetchesSince(log) <= budget.value)
  }

  function TakenIn(log: seq<Event>): seq<Message> {
    if log == [] then []
    else
      var before := TakenIn(log[..|log| - 1]);
      if log[|log| - 1].Took? then before + [log[|log| - 1].message] else before
  }

  // Every fetch carried the id of the messages taken before it, or no header at all.
  predicate HeadersCurrent(log: seq<Event>) {
    log == [] ||
    var before := log[..|log| - 1];
    && HeadersCurrent(before)
    && (log[|log| - 1].Fetched? ==> Carries(log[|log| - 1].header, Resumable("", TakenIn(before))))
  }

  // A request carries an id in its header, and none if there is none.
  predicate Carries(header: Option<string>, id: string) {
    (header.Some? <==> id != "") && (header.Some? ==> header.value == id)
  }

  predicate WaitsWithin(log: seq<Event>, limit: real) {
    log == [] ||
    (&& WaitsWithin(log[..|log| - 1], limit)
     && (log[|log| - 1].Fetched? ==> 0.0 <= log[|log| - 1].wait <= limit))
  }

  predicate Consistent(config: Config, s: Loop) {
    && WithinBudget(config, s.log)
    && HeadersCurrent(s.log)
    && s.lastEventId == Resumable("", TakenIn(s.log))
  }

  // What holds at the head of the loop.
  predicate Sound(config: Config, s: Loop) {
    && Consistent(config, s)
    && (s.running ==> !s.resumed)
    && (s.running && s.attempt > 0 ==> FetchesSince(s.log) == s.attempt - 1)
  }

  lemma Noting(config: Config, log: seq<Event>, e: Event)
    ensures FetchesSince(log + [e])
         == if e.Fetched? then FetchesSince(log) + 1 else if e.Took? then FetchesSince(log) else 0
    ensures SinceResume(log + [e]) == (e.Resumed? || (!e.Connected? && SinceResume(log)))
    ensures TakenIn(log + [e]) == if e.Took? then TakenIn(log) + [e.message] else TakenIn(log)
    ensures HeadersCurrent(log + [e])
        <==> HeadersCurrent(log) && (e.Fetched? ==> Carries(e.header, Resumable("", TakenIn(log))))
    ensures var budget := Budget(config, SinceResume(log + [e]));
      WithinBudget(config, log + [e])
      <==> WithinBudget(config, log) && (budget.Some? ==> FetchesSince(log + [e]) <= budget.value)
  {
    var grown := log + [e];
    assert grown[..|grown| - 1] == log;
  }

  lemma WithinBudgetNow(config: Config, log: seq<Event>)
    requires WithinBudget(config, log)
    ensures var budget := Budget(config, SinceResume(log)); budget.Some? ==> FetchesSince(log) <= budget.value
  {
  }

  lemma TakeKeeps(config: Config, s: Loop, h: Handled)
    requires Consistent(config, s)
    ensures var after := Take(config, s, h);
      && Consistent(config, after)
      && FetchesSince(after.log) == FetchesSince(s.log)
      && after.attempt == s.attempt && after.resumed == s.resumed
  {
    Noting(config, s.log, Took(h.message));
    WithinBudgetNow(config, s.log);
    ResumableAppend("", TakenIn(s.log), [h.message]);
    assert [h.message][..0] == [];
    assert Resumable(s.lastEventId, []) == s.lastEventId;
  }

  lemma {:induction false} TakeAllKeeps(config: Config, s: Loop, body: seq<Handled>)
    requires Consistent(config, s)
    ensures var after := TakeAll(config, s, body);
      && Consistent(config, after)
      && FetchesSince(after.log) == FetchesSince(s.log)
      && after.attempt == s.attempt && after.resumed == s.resumed
    decreases body
  {
    if body != [] && s.running {
      TakeKeeps(config, s, body[0]);
      TakeAllKeeps(config, Take(config, s, body[0]), body[1..]);
    }
  }

  lemma DrainKeeps(config: Config, s: Loop, t: Turn)
    requires Consistent(config, s) && s.attempt == 0
    ensures Sound(config, Drain(config, s, t))
  {
    Noting(config, s.log, Connected);
    TakeAllKeeps(config, s.Note(Connected).(resumed := false), t.body);
  }

  lemma FetchKeeps(config: Config, s: Loop, e: Event)
    requires Consistent(config, s) && MayRetry(config, s)
    requires FetchesSince(s.log) + 1 == s.attempt
    requires s.resumed ==> s.attempt == 1 && SinceResume(s.log)
    requires e.Fetched? && e.header == HeaderFor(s.lastEventId)
    ensures Consistent(config, s.Note(e)) && FetchesSince(s.Note(e).log) == s.attempt
  {
    Noting(config, s.log, e);
  }

  lemma RetryKeeps(config: Config, s: Loop, t: Turn)
    requires Consistent(config, s) && s.running && s.attempt > 0
    requires FetchesSince(s.log) == s.attempt - 1
    requires s.resumed ==> s.attempt == 1 && SinceResume(s.log)
    ensures Sound(config, Retry(config, s, t))
  {
    if MayRetry(config, s) && !t.vetoed && t.attachedAfterDelay {
      FetchKeeps(config, s, Request(config, s, t));
      if t.fetch.Accepted? {
        DrainKeeps(config, s.Note(Request(config, s, t)).(attempt := 0), t);
      }
    }
  }

  lemma PassKeeps(config: Config, s: Loop, t: Turn)
    requires Sound(config, s)
    ensures Sound(config, Pass(config, s, t))
  {
    if s.running && t.attached {
      if s.attempt == 0 {
        DrainKeeps(config, s, t);
      } else if t.hidden {
        Noting(config, s.log, Resumed);
        if t.attachedOnResume {
          RetryKeeps(config, s.Note(Resumed).(attempt := 1, resumed := true), t);
        }
      } else {
        RetryKeeps(config, s, t);
      }
    }
  }

  // Over every run: between two connections, or after a return to the
  // foreground, the fetches stay within the budget at every moment, and each
  // fetch carries exactly the id to resume from.
  lemma {:induction false} RunsStayWithinBudget(config: Config, delay: real, turns: seq<Turn>)
    ensures Sound(config, Passes(config, Start(delay), turns))
  {
    if turns != [] {
      var init := turns[..|turns| - 1];
      RunsStayWithinBudget(config, delay, init);
      PassKeeps(config, Passes(config, Start(delay), init), turns[|turns| - 1]);
    }
  }

  // With reconnecting off and no background pause, nothing is ever fetched.
  lemma {:induction false} ReconnectOffNeverFetches(config: Config, delay: real, turns: seq<Turn>)
    requires !config.reconnect && forall k | 0 <= k < |turns| :: !turns[k].hidden
    ensures var s := Passes(config, Start(delay), turns);
      && (forall k | 0 <= k < |s.log| :: !s.log[k].Fetched? && !s.log[k].Resumed?)
      && (s.running ==> !s.resumed)
  {
    if turns != [] {
      var init := turns[..|turns| - 1];
      ReconnectOffNeverFetches(config, delay, init);
      var s := Passes(config, Start(delay), init);
      if s.running && s.attempt == 0 {
        TakeAllOnlyTakes(config, s.Note(Connected).(resumed := false), turns[|turns| - 1].body);
      }
    }
  }

  lemma {:induction false} TakeAllOnlyTakes(config: Config, s: Loop, body: seq<Handled>)
    ensures var after := TakeAll(config, s, body);
      && s.log <= after.log && after.resumed == s.resumed
      && forall k | |s.log| <= k < |after.log| :: after.log[k].Took?
    decreases body
  {
    if body != [] && s.running {
      TakeAllOnlyTakes(config, Take(config, s, body[0]), body[1..]);
    }
  }

  // --- Exactly once, through the loop --------------------------------------

  function MessagesIn(body: seq<Handled>): seq<Message> {
    if body == [] then [] else [body[0].message] + MessagesIn(body[1..])
  }

  // The body is what the reader yields from some cut and chunking of the
  // server's answer to the id held when the request was made.
  ghost predicate ServedBody(log: seq<Resume.Entry>, lastEventId: string, body: seq<Handled>) {
    exists chunks ::
      && Concat(chunks) <= Resume.Wire(Resume.After(log, lastEventId))
      && MessagesIn(body) <= FeedAll(Open(lastEventId), chunks).messages
  }

  ghost predicate ServedRun(log: seq<Resume.Entry>, config: Config, delay: real, turns: seq<Turn>) {
    turns == [] ||
    var init := turns[..|turns| - 1];
    && ServedRun(log, config, delay, init)
    && ServedBody(log, Passes(config, Start(delay), init).lastEventId, turns[|turns| - 1].body)
  }

  function Taken(s: Loop): Resume.Session {
    Resume.Session(s.lastEventId, TakenIn(s.log))
  }

  lemma {:induction false} TakeAllTakesPrefix(config: Config, s: Loop, body: seq<Handled>, got: seq<Message>)
    requires got == TakenIn(TakeAll(config, s, body).log)
    ensures TakenIn(s.log) <= got && got[|TakenIn(s.log)|..] <= MessagesIn(body)
    decreases body
  {
    if body != [] && s.running {
      var next := Take(config, s, body[0]);
      Noting(config, s.log, Took(body[0].message));
      assert TakenIn(next.log) == TakenIn(s.log) + [body[0].message];
      TakeAllTakesPrefix(config, next, body[1..], got);
      assert got[|TakenIn(s.log)|..] == [body[0].message] + got[|TakenIn(next.log)|..];
    }
  }

  lemma TakenBodyInStep(log: seq<Resume.Entry>, s: Resume.Session, body: seq<Handled>, more: seq<Message>)
    requires Resume.Published(log) && Resume.InStep(Resume.MessagesOf(log), s)
    requires ServedBody(log, s.lastEventId, body) && more <= MessagesIn(body)
    ensures Resume.InStep(
              Resume.MessagesOf(log), Resume.Session(Resumable(s.lastEventId, more), s.delivered + more))
  {
    var chunks :| Concat(chunks) <= Resume.Wire(Resume.After(log, s.lastEventId))
               && MessagesIn(body) <= FeedAll(Open(s.lastEventId), chunks).messages;
    Resume.BodyContinuesLog(log, s, chunks);
    Resume.EachMessageHasId(log);
    Resume.TakingKeepsStep(Resume.MessagesOf(log), s, more);
  }

  lemma NotingTakesNothing(s: Loop, e: Event)
    requires !e.Took?
    ensures Taken(s.Note(e)) == Taken(s)
  {
    var grown := s.log + [e];
    assert grown[..|grown| - 1] == s.log;
  }

  // What a body adds to what was taken, and the id that leaves.
  lemma BodyAdds(config: Config, s: Loop, body: seq<Handled>) returns (more: seq<Message>)
    requires Consistent(config, s)
    ensures more <= MessagesIn(body)
    ensures Taken(TakeAll(config, s, body))
         == Resume.Session(Resumable(s.lastEventId, more), TakenIn(s.log) + more)
  {
    var got := TakenIn(TakeAll(config, s, body).log);
    TakeAllTakesPrefix(config, s, body, got);
    more := got[|TakenIn(s.log)|..];
    assert got == TakenIn(s.log) + more;
    TakeAllKeeps(config, s, body);
    ResumableAppend("", TakenIn(s.log), more);
  }

  lemma BodyInStep(log: seq<Resume.Entry>, config: Config, s: Loop, body: seq<Handled>)
    requires Resume.Published(log) && Resume.InStep(Resume.MessagesOf(log), Taken(s))
    requires Consistent(config, s) && ServedBody(log, s.lastEventId, body)
    ensures Resume.InStep(Resume.MessagesOf(log), Taken(TakeAll(config, s, body)))
  {
    var more := BodyAdds(config, s, body);
    TakenBodyInStep(log, Taken(s), body, more);
  }

  lemma DrainInStep(log: seq<Resume.Entry>, config: Config, s: Loop, t: Turn)
    requires Resume.Published(log) && Resume.InStep(Resume.MessagesOf(log), Taken(s))
    requires Consistent(config, s) && ServedBody(log, s.lastEventId, t.body)
    ensures Resume.InStep(Resume.MessagesOf(log), Taken(Drain(config, s, t)))
  {
    var begun := s.Note(Connected).(resumed := false);
    Noting(config, s.log, Connected);
    NotingTakesNothing(s, Connected);
    BodyInStep(log, config, begun, t.body);
    assert Taken(Drain(config, s, t)) == Taken(TakeAll(config, begun, t.body));
  }

  lemma RetryTakes(config: Config, s: Loop, t: Turn)
    requires s.attempt > 0
    ensures var sent := s.Note(Request(config, s, t)).(attempt := 0);
      && Taken(sent) == Taken(s)
      && (Taken(Retry(config, s, t)) == Taken(s)
          || (MayRetry(config, s) && Retry(config, s, t) == Drain(config, sent, t)))
  {
    NotingTakesNothing(s, Request(config, s, t));
  }

  lemma RetryInStep(log: seq<Resume.Entry>, config: Config, s: Loop, t: Turn)
    requires Resume.Published(log) && Resume.InStep(Resume.MessagesOf(log), Taken(s))
    requires Consistent(config, s) && s.running && s.attempt > 0
    requires FetchesSince(s.log) == s.attempt - 1
    requires s.resumed ==> s.attempt == 1 && SinceResume(s.log)
    requires ServedBody(log, s.lastEventId, t.body)
    ensures Resume.InStep(Resume.MessagesOf(log), Taken(Retry(config, s, t)))
  {
    var sent := s.Note(Request(config, s, t)).(attempt := 0);
    RetryTakes(config, s, t);
    if Taken(Retry(config, s, t)) != Taken(s) {
      FetchKeeps(config, s, Request(config, s, t));
      DrainInStep(log, config, sent, t);
    }
  }

  // For every run of the loop against a server that honours Last-Event-ID:
  // whatever fails, the messages taken are a prefix of the log, each once and
  // in order, and the id held is that of the last one taken.
  lemma {:induction false} LoopDeliversExactlyOnce(
    log: seq<Resume.Entry>, config: Config, delay: real, turns: seq<Turn>)
    requires Resume.Published(log) && ServedRun(log, config, delay, turns)
    ensures Resume.InStep(Resume.MessagesOf(log), Taken(Passes(config, Start(delay), turns)))
  {
    if turns != [] {
      var init := turns[..|turns| - 1];
      var t := turns[|turns| - 1];
      LoopDeliversExactlyOnce(log, config, delay, init);
      RunsStayWithinBudget(config, delay, init);
      var s := Passes(config, Start(delay), init);
      if s.running && t.attached {
        if s.attempt == 0 {
          DrainInStep(log, config, s, t);
        } else if t.hidden {
          Noting(config, s.log, Resumed);
          if t.attachedOnResume {
            RetryInStep(log, config, s.Note(Resumed).(attempt := 1, resumed := true), t);
          }
        } else {
          RetryInStep(log, config, s, t);
        }
      }
    }
  }

  // --- Delay bounds --------------------------------------------------------

  lemma ScaledMonotone(x: real, a: real, b: real)
    requires 0.0 <= x && a <= b
    ensures x * a <= x * b
  {
  }

  // The delay before jitter grows with the attempt and never passes the maximum.
  lemma BackoffGrowsToMaximum(delay: real, maxDelay: real, attempt: nat)
    requires 0.0 <= delay && 0.0 <= maxDelay && attempt > 0
    ensures 0.0 <= Backoff(delay, maxDelay, attempt) <= Backoff(delay, maxDelay, attempt + 1) <= maxDelay
  {
    var p := PowerOfTwo(attempt - 1);
    assert PowerOfTwo(attempt) == 2.0 * p;
    ScaledMonotone(delay, 0.0, p);
    ScaledMonotone(delay, p, 2.0 * p);
  }

  lemma ShareMonotone(a: real, b: real, jitter: real)
    requires 0.0 <= a <= b && 0.0 <= jitter
    ensures 0.0 <= Share(a, jitter) <= Share(b, jitter)
  {
    ScaledMonotone(jitter, a, b);
    ScaledMonotone(jitter, 0.0, a);
  }

  lemma JitteredBounds(base: real, jitter: real, random: real, share: real)
    requires 0.0 <= base && 0.0 <= jitter && 0.0 <= random < 1.0
    requires share == Share(base, jitter) && 0.0 <= share
    ensures 0.0 <= Jittered(base, jitter, random) <= base + share
    ensures base - share <= Jittered(base, jitter, random)
  {
    var draw := 2.0 * random - 1.0;
    ScaledMonotone(share, draw, 1.0);
    ScaledMonotone(share, -1.0, draw);
    assert draw * share == share * draw;
  }

  // With jitter, the wait stays within that share of the backoff on either side.
  lemma WaitWithinJitter(config: Config, delay: real, attempt: nat, random: real)
    requires 0.0 <= delay && 0.0 <= config.maxDelay && 0.0 <= config.jitter && attempt > 0
    requires 0.0 <= random < 1.0
    ensures var base := Backoff(delay, config.maxDelay, attempt); var share := Share(base, config.jitter);
      base - share <= Wait(config, delay, attempt, random) <= base + share <= LongestWait(config)
    ensures 0.0 <= Wait(config, delay, attempt, random)
  {
    var base := Backoff(delay, config.maxDelay, attempt);
    BackoffGrowsToMaximum(delay, config.maxDelay, attempt);
    ShareMonotone(base, config.maxDelay, config.jitter);
    JitteredBounds(base, config.jitter, random, Share(base, config.jitter));
  }

  predicate NonNegative(config: Config, turns: seq<Turn>) {
    && 0.0 <= config.maxDelay && 0.0 <= config.jitter
    && forall k | 0 <= k < |turns| :: 0.0 <= turns[k].random < 1.0 && RetriesNonNegative(turns[k].body)
  }

  predicate RetriesNonNegative(body: seq<Handled>) {
    forall k | 0 <= k < |body| ::
      body[k].message.record.retry.Some? ==> 0 <= body[k].message.record.retry.value
  }

  lemma NotingWait(log: seq<Event>, e: Event, limit: real)
    ensures WaitsWithin(log + [e], limit)
        <==> WaitsWithin(log, limit) && (e.Fetched? ==> 0.0 <= e.wait <= limit)
  {
    var grown := log + [e];
    assert grown[..|grown| - 1] == log;
  }

  lemma {:induction false} TakeAllKeepsWaits(config: Config, s: Loop, body: seq<Handled>, limit: real)
    requires WaitsWithin(s.log, limit) && 0.0 <= s.delay && RetriesNonNegative(body)
    ensures var after := TakeAll(config, s, body); WaitsWithin(after.log, limit) && 0.0 <= after.delay
    decreases body
  {
    if body != [] && s.running {
      NotingWait(s.log, Took(body[0].message), limit);
      TakeAllKeepsWaits(config, Take(config, s, body[0]), body[1..], limit);
    }
  }

  lemma RetryKeepsWaits(config: Config, s: Loop, t: Turn, limit: real)
    requires NonNegative(config, [t]) && limit == LongestWait(config)
    requires WaitsWithin(s.log, limit) && 0.0 <= s.delay && s.attempt > 0
    ensures var after := Retry(config, s, t); WaitsWithin(after.log, limit) && 0.0 <= after.delay
  {
    assert 0.0 <= [t][0].random < 1.0 && RetriesNonNegative([t][0].body);
    WaitWithinJitter(config, s.delay, s.attempt, t.random);
    var e := Request(config, s, t);
    NotingWait(s.log, e, limit);
    var sent := s.Note(e).(attempt := 0);
    NotingWait(sent.log, Connected, limit);
    TakeAllKeepsWaits(config, sent.Note(Connected).(resumed := false), t.body, limit);
  }

  // Over every run with non-negative delays, retry fields and jitter included:
  // every wait lies in [0, (1 + jitter) * maximum].
  lemma {:induction false} RunsWaitWithinMaximum(config: Config, delay: real, turns: seq<Turn>)
    requires 0.0 <= delay && NonNegative(config, turns)
    ensures var s := Passes(config, Start(delay), turns);
      && WaitsWithin(s.log, LongestWait(config))
      && 0.0 <= s.delay
  {
    if turns != [] {
      var init := turns[..|turns| - 1];
      var t := turns[|turns| - 1];
      var limit := LongestWait(config);
      RunsWaitWithinMaximum(config, delay, init);
      var s := Passes(config, Start(delay), init);
      if s.running && t.attached {
        if s.attempt == 0 {
          NotingWait(s.log, Connected, limit);
          TakeAllKeepsWaits(config, s.Note(Connected).(resumed := false), t.body, limit);
        } else if t.hidden {
          NotingWait(s.log, Resumed, limit);
          RetryKeepsWaits(config, s.Note(Resumed).(attempt := 1, resumed := true), t, limit);
        } else {
          RetryKeepsWaits(config, s, t, limit);
        }
      }
    }
  }

  // --- When the loop fetches again -----------------------------------------

  function FetchesIn(log: seq<Event>): nat {
    if log == [] then 0
    else FetchesIn(log[..|log| - 1]) + if log[|log| - 1].Fetched? then 1 else 0
  }

  lemma FetchesMore(log: seq<Event>, e: Event)
    ensures FetchesIn(log + [e]) == FetchesIn(log) + if e.Fetched? then 1 else 0
  {
    assert (log + [e])[..|log|] == log;
  }

  lemma {:induction false} BodyFetchesNothing(config: Config, s: Loop, body: seq<Handled>)
    ensures var after := TakeAll(config, s, body);
      s.log <= after.log && FetchesIn(after.log) == FetchesIn(s.log) && after.attempt == s.attempt
    decreases body
  {
    if body != [] && s.running {
      FetchesMore(s.log, Took(body[0].message));
      BodyFetchesNothing(config, Take(config, s, body[0]), body[1..]);
    }
  }

  lemma DrainFetchesNothing(config: Config, s: Loop, t: Turn)
    ensures s.log <= Drain(config, s, t).log && FetchesIn(Drain(config, s, t).log) == FetchesIn(s.log)
  {
    FetchesMore(s.log, Connected);
    BodyFetchesNothing(config, s.Note(Connected).(resumed := false), t.body);
  }

  lemma SentFetches(config: Config, s: Loop, e: Event, t: Turn)
    requires e.Fetched?
    ensures FetchesIn(s.log + [e]) == FetchesIn(s.log) + 1
    ensures FetchesIn(Drain(config, s.Note(e).(attempt := 0), t).log) == FetchesIn(s.log) + 1
  {
    FetchesMore(s.log, e);
    DrainFetchesNothing(config, s.Note(e).(attempt := 0), t);
  }

  lemma RetryFetches(config: Config, s: Loop, t: Turn)
    requires s.attempt > 0
    ensures FetchesIn(Retry(config, s, t).log) == FetchesIn(s.log)
      + if !t.vetoed && t.attachedAfterDelay
           && (s.resumed
               || (config.reconnect && (config.maxAttempts == None || config.maxAttempts.value >= s.attempt)))
        then 1 else 0
  {
    SentFetches(config, s, Request(config, s, t), t);
  }

  // A pass fetches, and then once, if and only if a connection was lost before
  // it, the element is in the page at every test, the request is not vetoed, and
  // either the page just came back to the foreground or reconnecting is on with
  // attempts left, of which there is no end by default.
  lemma PassFetchesIff(config: Config, s: Loop, t: Turn)
    requires s.running
    ensures FetchesIn(Pass(config, s, t).log) == FetchesIn(s.log)
      + if s.attempt > 0
           && t.attached && (t.hidden ==> t.attachedOnResume) && !t.vetoed && t.attachedAfterDelay
           && (t.hidden || s.resumed
               || (config.reconnect && (config.maxAttempts == None || config.maxAttempts.value >= s.attempt)))
        then 1 else 0
  {
    if t.attached {
      if s.attempt == 0 {
        DrainFetchesNothing(config, s, t);
      } else if t.hidden {
        FetchesMore(s.log, Resumed);
        if t.attachedOnResume {
          RetryFetches(config, s.Note(Resumed).(attempt := 1, resumed := true), t);
        }
      } else {
        RetryFetches(config, s, t);
      }
    }
  }

  // The message that ends the stream for good: one of the close event, let through.
  predicate EndsStream(config: Config, h: Handled) {
    h.accepted && h.message.record.event != "" && config.closeEvent == Some(h.message.record.event)
  }

  // A body is read to its end unless one of its messages ends the stream.
  lemma {:induction false} BodyStopsIff(config: Config, s: Loop, body: seq<Handled>)
    requires s.running
    ensures TakeAll(config, s, body).running <==> forall k | 0 <= k < |body| :: !EndsStream(config, body[k])
    decreases body
  {
    if body != [] {
      var next := Take(config, s, body[0]);
      assert next.running <==> !EndsStream(config, body[0]);
      assert forall k | 0 <= k < |body[1..]| :: body[1..][k] == body[k + 1];
      if next.running {
        BodyStopsIff(config, next, body[1..]);
        assert forall k | 1 <= k < |body| :: body[k] == body[1..][k - 1];
      }
    }
  }

  // Unless one of them ends the stream, every message of a body is taken, in order.
  lemma {:induction false} BodyIsTakenWhole(config: Config, s: Loop, body: seq<Handled>)
    requires s.running && forall k | 0 <= k < |body| :: !EndsStream(config, body[k])
    ensures TakenIn(TakeAll(config, s, body).log) == TakenIn(s.log) + MessagesIn(body)
    decreases body
  {
    if body == [] {
      assert TakenIn(s.log) + [] == TakenIn(s.log);
    } else {
      var next := Take(config, s, body[0]);
      Noting(config, s.log, Took(body[0].message));
      assert next.running by { assert !EndsStream(config, body[0]); }
      assert forall k | 0 <= k < |body[1..]| :: body[1..][k] == body[k + 1];
      BodyIsTakenWhole(config, next, body[1..]);
      assert TakenIn(s.log) + ([body[0].message] + MessagesIn(body[1..]))
          == (TakenIn(s.log) + [body[0].message]) + MessagesIn(body[1..]);
    }
  }

  // What decides whether the loop goes on after a body.
  predicate BodyLeavesRunning(config: Config, t: Turn) {
    t.attachedAfterBody && forall k | 0 <= k < |t.body| :: !EndsStream(config, t.body[k])
  }

  lemma DrainRunsIff(config: Config, s: Loop, t: Turn)
    requires s.running
    ensures Drain(config, s, t).running <==> BodyLeavesRunning(config, t)
  {
    BodyStopsIff(config, s.Note(Connected).(resumed := false), t.body);
  }

  // Exactly when the loop goes on: the element is in the page at every test, a
  // lost connection may be fetched again and is not aborted, and a body that was
  // read did not end the stream.
  lemma PassRunsIff(config: Config, s: Loop, t: Turn)
    requires s.running
    ensures Pass(config, s, t).running <==>
      && t.attached
      && (s.attempt > 0 ==>
           && (t.hidden ==> t.attachedOnResume) && !t.vetoed && t.attachedAfterDelay
           && (t.hidden || s.resumed
               || (config.reconnect && (config.maxAttempts == None || config.maxAttempts.value >= s.attempt)))
           && !(t.fetch.Threw? && t.fetch.aborted))
      && (s.attempt == 0 || t.fetch.Accepted? ==> BodyLeavesRunning(config, t))
  {
    if s.attempt == 0 {
      DrainRunsIff(config, s, t);
    } else {
      var begun := if t.hidden then s.Note(Resumed).(attempt := 1, resumed := true) else s;
      DrainRunsIff(config, begun.Note(Request(config, begun, t)).(attempt := 0), t);
    }
  }

  // What sets the delay: the retry field of a message with data or an event that
  // was let through, and nothing else.
  lemma DelayFollowsRetry(config: Config, s: Loop, h: Handled)
    ensures var r := h.message.record; var after := Take(config, s, h);
      && (h.accepted && (r.hasData || r.event != "") && r.retry.Some? ==> after.delay == r.retry.value as real)
      && (!h.accepted || (!r.hasData && r.event == "") || r.retry.None? ==> after.delay == s.delay)
  {
  }

  // A turn in which nothing outside ends the loop, whether or not it connects.
  predicate Undisturbed(config: Config, t: Turn) {
    && t.attached && !t.hidden && !t.vetoed && t.attachedAfterDelay && t.attachedAfterBody
    && !(t.fetch.Threw? && t.fetch.aborted)
    && forall k | 0 <= k < |t.body| :: !EndsStream(config, t.body[k])
  }

  predicate Fails(t: Turn) {
    !t.fetch.Accepted?
  }

  lemma UndisturbedPass(config: Config, s: Loop, t: Turn)
    requires s.running && !s.resumed && Undisturbed(config, t)
    requires s.attempt > 0 ==>
      config.reconnect && (config.maxAttempts == None || config.maxAttempts.value >= s.attempt)
    ensures var after := Pass(config, s, t);
      && after.running && !after.resumed && after.attempt > 0
      && FetchesIn(after.log) == FetchesIn(s.log) + (if s.attempt > 0 then 1 else 0)
      && (Fails(t) && s.attempt > 0 ==> after.attempt == s.attempt + 1)
      && (!Fails(t) || s.attempt == 0 ==> after.attempt == 1)
  {
    PassFetchesIff(config, s, t);
    var sent := if s.attempt == 0 then s else s.Note(Request(config, s, t)).(attempt := 0);
    var begun := sent.Note(Connected).(resumed := false);
    BodyStopsIff(config, begun, t.body);
    BodyFetchesNothing(config, begun, t.body);
    TakeAllOnlyTakes(config, begun, t.body);
  }

  // With reconnecting on and no limit, which is the default, the loop never gives
  // up: undisturbed, every pass after the first fetches again.
  lemma {:induction false} UnlimitedLoopKeepsFetching(config: Config, delay: real, turns: seq<Turn>)
    requires config.reconnect && config.maxAttempts == None
    requires forall k | 0 <= k < |turns| :: Undisturbed(config, turns[k])
    ensures var s := Passes(config, Start(delay), turns);
      && s.running && !s.resumed && (turns != [] ==> s.attempt > 0)
      && FetchesIn(s.log) == (if turns == [] then 0 else |turns| - 1)
  {
    if turns != [] {
      var init := turns[..|turns| - 1];
      UnlimitedLoopKeepsFetching(config, delay, init);
      UndisturbedPass(config, Passes(config, Start(delay), init), turns[|turns| - 1]);
    }
  }

  // With a limit, a connection that does not come back is tried exactly that
  // often, and then no more.
  lemma {:induction false} LimitIsSpentExactly(config: Config, delay: real, turns: seq<Turn>, limit: nat)
    requires config.reconnect && config.maxAttempts == Some(limit)
    requires forall k | 0 <= k < |turns| :: Undisturbed(config, turns[k]) && Fails(turns[k])
    ensures var s := Passes(config, Start(delay), turns);
      && FetchesIn(s.log) == (if turns == [] then 0 else if |turns| - 1 <= limit then |turns| - 1 else limit)
      && (s.running <==> |turns| <= limit + 1)
      && (s.running ==> !s.resumed && s.attempt == |turns|)
  {
    if turns != [] {
      var init := turns[..|turns| - 1];
      var t := turns[|turns| - 1];
      LimitIsSpentExactly(config, delay, init, limit);
      var s := Passes(config, Start(delay), init);
      assert Undisturbed(config, t) && Fails(t);
      if s.running && s.attempt <= limit {
        UndisturbedPass(config, s, t);
      } else if s.running {
        PassFetchesIff(config, s, t);
      }
    }
  }

  // --- Exact delays --------------------------------------------------------

  function Lesser(a: real, b: real): real {
    if a < b then a else b
  }

  // The delay starts at the configured one and doubles, up to the maximum.
  lemma BackoffDoubles(delay: real, maxDelay: real, attempt: nat)
    requires 0.0 <= delay && 0.0 <= maxDelay && attempt > 0
    ensures Backoff(delay, maxDelay, 1) == Lesser(delay, maxDelay)
    ensures Backoff(delay, maxDelay, attempt + 1) == Lesser(2.0 * Backoff(delay, maxDelay, attempt), maxDelay)
  {
    var p := PowerOfTwo(attempt - 1);
    assert PowerOfTwo(attempt) == 2.0 * p;
    assert PowerOfTwo(0) == 1.0;
    assert delay * (2.0 * p) == 2.0 * (delay * p);
    ScaledMonotone(delay, 0.0, p);
  }

  // The wait moves evenly with the draw, from one jitter share below the backoff
  // to one above; it stays at the backoff without jitter or at the middle draw.
  lemma WaitMovesWithDraw(config: Config, delay: real, attempt: nat, random: real)
    requires 0.0 <= delay && 0.0 <= config.maxDelay && attempt > 0 && 0.0 <= random < 1.0
    requires 0.0 <= config.jitter <= 1.0
    ensures var base := Backoff(delay, config.maxDelay, attempt);
      && Wait(config, delay, attempt, 0.0) == base - base * config.jitter
      && Wait(config, delay, attempt, random)
         == Wait(config, delay, attempt, 0.0) + random * (2.0 * (base * config.jitter))
  {
    var base := Backoff(delay, config.maxDelay, attempt);
    BackoffGrowsToMaximum(delay, config.maxDelay, attempt);
    ScaledMonotone(base, 0.0, config.jitter);
    ScaledMonotone(base, config.jitter, 1.0);
    assert base * 0.0 == 0.0 && base * 1.0 == base;
    assert 0.0 <= base * config.jitter <= base;
    JitterAt(base, config.jitter, base * config.jitter, 0.0);
    JitterAt(base, config.jitter, base * config.jitter, random);
  }

  lemma JitterAt(base: real, jitter: real, share: real, random: real)
    requires 0.0 <= jitter && 0.0 <= random && share == base * jitter && 0.0 <= share <= base
    ensures Jittered(base, jitter, random) == base - share + random * (2.0 * share)
  {
    ScaledMonotone(2.0 * share, 0.0, random);
    assert (2.0 * share) * random == random * (2.0 * share);
    assert (2.0 * random - 1.0) * share == random * (2.0 * share) - share by {
      assert (2.0 * random - 1.0) * share == (2.0 * random) * share - share;
      assert (2.0 * random) * share == random * (2.0 * share);
    }
    if jitter == 0.0 {
      assert share == 0.0;
    }
  }

  // --- The loop itself -----------------------------------------------------

  // The consumer's connection record and its loop, as it updates them.
  class Connection {
    var attempt: nat
    var resumed: bool
    var lastEventId: string
    var delay: real
    var running: bool
    var log: seq<Event>

    function View(): Loop
      reads this
    {
      Loop(running, attempt, resumed, lastEventId, delay, log)
    }

    constructor (initialDelay: real)
      ensures View() == Start(initialDelay)
    {
      attempt, resumed, lastEventId, delay, running, log := 0, false, "", initialDelay, true, [];
    }

    method ReadBody(config: Config, body: seq<Handled>)
      requires running
      modifies this
      ensures View() == TakeAll(config, old(View().Note(Connected).(resumed := false)), body)
    {
      log := log + [Connected];
      resumed := false;
      var n := 0;
      while n < |body| && running
        invariant n <= |body|
        invariant TakeAll(config, View(), body[n..])
               == TakeAll(config, old(View().Note(Connected).(resumed := false)), body)
      {
        var m := body[n].message;
        assert body[n..][1..] == body[n + 1..];
        log := log + [Took(m)];
        if m.record.hasId {
          lastEventId := m.id;
        }
        if (m.record.hasData || m.record.event != "") && body[n].accepted {
          if m.record.retry.Some? {
            delay := m.record.retry.value as real;
          }
          if m.record.event != "" && config.closeEvent == Some(m.record.event) {
            running := false;
          }
        }
        n := n + 1;
      }
    }

    // One pass: the retry gate, the fetch, then the body; false leaves the loop.
    method Step(config: Config, t: Turn)
      requires running
      modifies this
      ensures View() == Pass(config, old(View()), t)
    {
      if !t.attached {
        running := false;
        return;
      }
      if attempt > 0 {
        if t.hidden {
          if !t.attachedOnResume {
            running := false;
            return;
          }
          log := log + [Resumed];
          attempt, resumed := 1, true;
        }
        if !resumed && (!config.reconnect || (config.maxAttempts.Some? && config.maxAttempts.value < attempt)) {
          running := false;
          return;
        }
        var wait := Wait(config, delay, attempt, t.random);
        if t.vetoed || !t.attachedAfterDelay {
          running := false;
          return;
        }
        log := log + [Fetched(if lastEventId != "" then Some(lastEventId) else None, attempt, wait)];
        if t.fetch.Threw? && t.fetch.aborted {
          running := false;
          return;
        }
        if !t.fetch.Accepted? {
          resumed, attempt := false, attempt + 1;
          return;
        }
        attempt := 0;
      }
      ReadBody(config, t.body);
      if !running || !t.attachedAfterBody {
        running := false;
      } else {
        attempt := attempt + 1;
      }
    }

    method Run(config: Config, turns: seq<Turn>)
      requires View() == Start(delay)
      modifies this
      ensures View() == Passes(config, Start(old(delay)), turns)
      ensures Sound(config, View())
    {
      for n := 0 to |turns|
        invariant View() == Passes(config, Start(old(delay)), turns[..n])
      {
        assert turns[..n + 1][..n] == turns[..n];
        if running {
          Step(config, turns[n]);
        }
      }
      assert turns[..|turns|] == turns;
      RunsStayWithinBudget(config, old(delay), turns);
    }
  }
}
