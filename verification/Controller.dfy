/** One controller: the manager's updates and stop on one side, its runner on the other, as
    interleaved steps. */
module Controller {
  import opened Bytes
  import opened Net
  import opened Backoff

  /** The job is known by a number. */
  datatype Spec = Spec(job: nat, interval: Option<Duration>, backoff: Policy, hasStop: bool)

  datatype Outcome = Continue | Done | Failed

  datatype Wait = For(delay: Duration) | UntilUpdate

  datatype Status = Status(interval: Option<Duration>, backoff: Policy, success: nat, failure: nat, consecutive: nat)

  /** What the runner has done; a version is the number of updates before that spec. */
  datatype Act = Started(version: nat) | Ended(version: nat, outcome: Outcome) | Hook(version: nat, failed: bool)

  /** What the biased select looks at next: the stop token, the spec, the delay. */
  datatype Poll = Token | Watch | Timer

  datatype Phase = Unstarted | Running | Waiting(wait: Wait, next: Poll) | Stopping | Stopped

  /** `dropped`: the manager no longer holds the sending half of the spec channel. */
  datatype State = State(updates: seq<Spec>, seen: nat, cancelled: bool, dropped: bool, phase: Phase, errors: u32,
                         status: Status, history: seq<Act>)
  {
    predicate Pending() { seen < |updates| - 1 }

    predicate Polls(p: Poll) { phase.Waiting? && phase.next == p }
  }

  /** `retry` is the delay of the policy after jitter. */
  datatype Event =
    | Update(spec: Spec) | Cancel | DropSender
    | Start | Finish(outcome: Outcome, retry: Duration)
    | WakeStop | PassToken | WakeUpdate | WakeDropped | PassWatch | WakeTimer | PassTimer
    | StopHook(failed: bool)
  {
    predicate OfManager() { Update? || Cancel? || DropSender? }
  }

  function Initial(spec: Spec): State
  {
    State([spec], 0, false, false, Unstarted, 0, Status(spec.interval, spec.backoff, 0, 0, 0), [])
  }

  function Configured(s: Status, spec: Spec): Status { s.(interval := spec.interval, backoff := spec.backoff) }

  /** `record_run`. */
  function RecordRun(s: Status, outcome: Outcome): Status
  {
    if outcome.Failed? then s.(failure := s.failure + 1, consecutive := s.consecutive + 1)
    else s.(success := s.success + 1, consecutive := 0)
  }

  /** `record_stop_error`. */
  function RecordStop(s: Status, failed: bool): Status { if failed then s.(failure := s.failure + 1) else s }

  /** `record`: the runner's own count saturates. */
  function NextErrors(errors: u32, outcome: Outcome): u32
  {
    if outcome.Failed? then Min(errors + 1, U32_MAX) else 0
  }

  function FromDelay(d: Option<Duration>): Wait { if d.Some? then For(d.value) else UntilUpdate }

  /** `next_wait`. */
  function NextWait(spec: Spec, outcome: Outcome, retry: Duration): Wait
  {
    match outcome
    case Continue => FromDelay(spec.interval)
    case Done => UntilUpdate
    case Failed => FromDelay(if spec.backoff.NoBackoff? then spec.interval else Some(retry))
  }

  /** Jitter only shortens, and only exponential delays. */
  predicate Jittered(p: Policy, errors: nat, retry: Duration)
  {
    match p
    case NoBackoff => true
    case Linear(_, _) => retry == ClosedForm(p, errors).value
    case Exponential(_, _) => retry <= ClosedForm(p, errors).value
  }

  /** The manager's side: updates reach an entry only while it holds it, and it lets go of
      the entry after cancelling. */
  function ManagerStep(s: State, e: Event): Option<State>
  {
    match e
    case Update(spec) =>
      if s.cancelled then None else Some(s.(updates := s.updates + [spec], status := Configured(s.status, spec)))
    case Cancel => Some(s.(cancelled := true))
    case DropSender => if s.cancelled then Some(s.(dropped := true)) else None
    case _ => None
  }

  /** A run of the spec with this number begins. */
  function Begun(s: State, version: nat): State
  {
    s.(phase := Running, seen := version, history := s.history + [Started(version)])
  }

  function Ran(s: State, outcome: Outcome, retry: Duration): State
    requires s.seen < |s.updates|
  {
    s.(phase := Waiting(NextWait(s.updates[s.seen], outcome, retry), Token), errors := NextErrors(s.errors, outcome),
       status := RecordRun(s.status, outcome), history := s.history + [Ended(s.seen, outcome)])
  }

  function HookDone(s: State, failed: bool): State
    requires s.seen < |s.updates|
  {
    if !s.updates[s.seen].hasStop then s.(phase := Stopped)
    else s.(phase := Stopped, status := RecordStop(s.status, failed), history := s.history + [Hook(s.seen, failed)])
  }

  /** The runner: runs, records, waits; while it waits it polls the token, the spec and the
      delay in this order, one at a time; the hook comes last. A dropped sender stops it
      too, but an update not yet seen goes first. */
  function RunnerStep(s: State, e: Event): Option<State>
    requires s.seen < |s.updates|
  {
    match e
    case Start => if s.phase.Unstarted? then Some(Begun(s, |s.updates| - 1)) else None
    case Finish(outcome, retry) =>
      if s.phase.Running? && Jittered(s.updates[s.seen].backoff, NextErrors(s.errors, outcome), retry)
      then Some(Ran(s, outcome, retry)) else None
    case WakeStop => if s.Polls(Token) && s.cancelled then Some(s.(phase := Stopping)) else None
    case PassToken => if s.Polls(Token) && !s.cancelled then Some(s.(phase := Waiting(s.phase.wait, Watch))) else None
    case WakeUpdate => if s.Polls(Watch) && s.Pending() then Some(Begun(s, |s.updates| - 1)) else None
    case WakeDropped => if s.Polls(Watch) && !s.Pending() && s.dropped then Some(s.(phase := Stopping)) else None
    case PassWatch =>
      if s.Polls(Watch) && !s.Pending() && !s.dropped then Some(s.(phase := Waiting(s.phase.wait, Timer))) else None
    case WakeTimer => if s.Polls(Timer) && s.phase.wait.For? then Some(Begun(s, s.seen)) else None
    case PassTimer => if s.Polls(Timer) then Some(s.(phase := Waiting(s.phase.wait, Token))) else None
    case StopHook(failed) => if s.phase.Stopping? then Some(HookDone(s, failed)) else None
    case _ => None
  }

  function Next(s: State, e: Event): Option<State>
    requires s.seen < |s.updates|
  {
    if e.OfManager() then ManagerStep(s, e) else RunnerStep(s, e)
  }

  function Run(s: State, events: seq<Event>): Option<State>
    requires s.seen < |s.updates|
    decreases |events|
  {
    if events == [] then Some(s)
    else if Next(s, events[0]).None? then None
    else Run(Next(s, events[0]).value, events[1..])
  }

  // ------------------------------------------------------------------ invariant

  /** Runs never overlap, and the hook comes at most once, after everything else, with the
      spec of the last run. */
  ghost predicate Alternates(h: seq<Act>)
  {
    forall i :: 0 <= i < |h| ==> ActFits(h, i)
  }

  predicate ActFits(h: seq<Act>, i: nat)
    requires i < |h|
  {
    match h[i]
    case Started(_) => i == 0 || h[i - 1].Ended?
    case Ended(v, _) => i > 0 && h[i - 1] == Started(v)
    case Hook(v, _) => i == |h| - 1 && i > 0 && h[i - 1].Ended? && h[i - 1].version == v
  }

  /** Specs are run in the order of the updates. */
  ghost predicate InOrder(h: seq<Act>, seen: nat)
  {
    && (forall i, j :: 0 <= i < j < |h| ==> h[i].version <= h[j].version)
    && (forall i :: 0 <= i < |h| ==> h[i].version <= seen)
  }

  /** The failures since the last success. */
  function Trailing(h: seq<Act>): nat
  {
    if h == [] then 0
    else
      var last, before := h[|h| - 1], h[..|h| - 1];
      if !last.Ended? then Trailing(before)
      else if last.outcome.Failed? then 1 + Trailing(before)
      else 0
  }

  function Successes(h: seq<Act>): nat
  {
    if h == [] then 0
    else Successes(h[..|h| - 1]) + if h[|h| - 1].Ended? && !h[|h| - 1].outcome.Failed? then 1 else 0
  }

  /** Failed runs, and a failed stop hook. */
  function Failures(h: seq<Act>): nat
  {
    if h == [] then 0
    else
      var last := h[|h| - 1];
      Failures(h[..|h| - 1]) + if (last.Ended? && last.outcome.Failed?) || (last.Hook? && last.failed) then 1 else 0
  }

  ghost predicate Counted(s: State)
  {
    && s.status.success == Successes(s.history)
    && s.status.failure == Failures(s.history)
    && s.status.consecutive == Trailing(s.history)
    && s.errors == Min(Trailing(s.history), U32_MAX)
  }

  /** How long the runner waits after a run, in terms of the failures in a row. */
  ghost predicate WaitFits(spec: Spec, outcome: Outcome, failures: nat, wait: Wait)
  {
    match outcome
    case Continue => wait == FromDelay(spec.interval)
    case Done => wait == UntilUpdate
    case Failed =>
      match spec.backoff
      case NoBackoff => wait == FromDelay(spec.interval)
      case Linear(_, _) => wait.For? && wait.delay == ClosedForm(spec.backoff, Min(failures, U32_MAX)).value
      case Exponential(_, _) => wait.For? && wait.delay <= ClosedForm(spec.backoff, failures).value
  }

  ghost predicate PhaseFits(s: State)
    requires s.seen < |s.updates|
  {
    var h := s.history;
    match s.phase
    case Unstarted => h == []
    case Running => h != [] && h[|h| - 1] == Started(s.seen)
    case Waiting(wait, _) =>
      h != [] && h[|h| - 1].Ended? && h[|h| - 1].version == s.seen
      && WaitFits(s.updates[s.seen], h[|h| - 1].outcome, Trailing(h), wait)
    case Stopping => h != [] && h[|h| - 1].Ended? && h[|h| - 1].version == s.seen && s.cancelled
    case Stopped =>
      && h != [] && s.cancelled && h[|h| - 1].version == s.seen
      && (if s.updates[s.seen].hasStop then h[|h| - 1].Hook? else h[|h| - 1].Ended?)
  }

  ghost predicate Inv(s: State)
  {
    && s.seen < |s.updates|
    && s.status.interval == s.updates[|s.updates| - 1].interval
    && s.status.backoff == s.updates[|s.updates| - 1].backoff
    && Alternates(s.history) && InOrder(s.history, s.seen) && Counted(s) && PhaseFits(s)
    && (s.phase.Unstarted? ==> s.seen == 0) && (s.dropped ==> s.cancelled)
  }

  lemma ManagerKeeps(s: State, e: Event)
    requires Inv(s) && ManagerStep(s, e).Some?
    ensures Inv(ManagerStep(s, e).value)
  {
    hide Alternates, InOrder, Trailing, Successes, Failures, WaitFits;
  }

  lemma Counts(h: seq<Act>, a: Act)
    ensures Trailing(h + [a]) == if !a.Ended? then Trailing(h) else if a.outcome.Failed? then 1 + Trailing(h) else 0
    ensures Successes(h + [a]) == Successes(h) + if a.Ended? && !a.outcome.Failed? then 1 else 0
    ensures Failures(h + [a]) == Failures(h) + if (a.Ended? && a.outcome.Failed?) || (a.Hook? && a.failed) then 1 else 0
  {
    assert (h + [a])[..|h|] == h;
  }

  lemma WaitChosen(spec: Spec, outcome: Outcome, failures: nat, retry: Duration)
    requires Jittered(spec.backoff, Min(failures, U32_MAX), retry)
    ensures WaitFits(spec, outcome, failures, NextWait(spec, outcome, retry))
  {
    if spec.backoff.Exponential? { SaturationUnnoticed(spec.backoff, failures); }
    hide ClosedForm;
  }

  predicate Follows(h: seq<Act>, a: Act)
  {
    match a
    case Started(_) => h == [] || h[|h| - 1].Ended?
    case Ended(v, _) => h != [] && h[|h| - 1] == Started(v)
    case Hook(v, _) => h != [] && h[|h| - 1].Ended? && h[|h| - 1].version == v
  }

  lemma Appends(h: seq<Act>, seen: nat, a: Act)
    requires Alternates(h) && InOrder(h, seen) && seen <= a.version && Follows(h, a)
    ensures Alternates(h + [a]) && InOrder(h + [a], a.version)
  {
    var h' := h + [a];
    forall i | 0 <= i < |h'| ensures ActFits(h', i) {
      if i < |h| { assert ActFits(h, i); }
    }
  }

  /** One more act in the history, with the counters moved to match. */
  lemma Recorded(s: State, s': State, a: Act)
    requires Inv(s) && s'.history == s.history + [a] && Follows(s.history, a) && s.seen <= a.version
    requires s'.status.success == s.status.success + if a.Ended? && !a.outcome.Failed? then 1 else 0
    requires s'.status.failure == s.status.failure
               + if (a.Ended? && a.outcome.Failed?) || (a.Hook? && a.failed) then 1 else 0
    requires s'.status.consecutive == if !a.Ended? then s.status.consecutive
                                      else if a.outcome.Failed? then s.status.consecutive + 1 else 0
    requires s'.errors == if a.Ended? then NextErrors(s.errors, a.outcome) else s.errors
    ensures Alternates(s'.history) && InOrder(s'.history, a.version) && Counted(s')
  {
    Counts(s.history, a);
    Appends(s.history, s.seen, a);
    hide Alternates, InOrder, Trailing, Successes, Failures, PhaseFits;
  }

  lemma FinishKeeps(s: State, e: Event)
    requires Inv(s) && e.Finish? && RunnerStep(s, e).Some?
    ensures Inv(RunnerStep(s, e).value)
  {
    hide Alternates, InOrder, Trailing, Successes, Failures, ClosedForm, WaitFits;
    var s' := RunnerStep(s, e).value;
    Recorded(s, s', Ended(s.seen, e.outcome));
    if e.outcome.Failed? {
      assert s'.errors == Min(Trailing(s'.history), U32_MAX);
      WaitChosen(s.updates[s.seen], e.outcome, Trailing(s'.history), e.retry);
    } else {
      WaitAfterSuccess(s.updates[s.seen], e.outcome, Trailing(s'.history), e.retry);
    }
  }

  lemma WaitAfterSuccess(spec: Spec, outcome: Outcome, failures: nat, retry: Duration)
    requires !outcome.Failed?
    ensures WaitFits(spec, outcome, failures, NextWait(spec, outcome, retry))
  {
  }

  lemma StartKeeps(s: State, e: Event)
    requires Inv(s) && (e.Start? || e.WakeUpdate? || e.WakeTimer?) && RunnerStep(s, e).Some?
    ensures Inv(RunnerStep(s, e).value)
  {
    hide Alternates, InOrder, Trailing, Successes, Failures, WaitFits, Counted;
    var s' := RunnerStep(s, e).value;
    Recorded(s, s', Started(s'.seen));
  }

  lemma StopKeeps(s: State, e: Event)
    requires Inv(s) && (e.WakeStop? || e.WakeDropped? || e.StopHook?) && RunnerStep(s, e).Some?
    ensures Inv(RunnerStep(s, e).value)
  {
    hide Alternates, InOrder, Trailing, Successes, Failures, WaitFits;
    if e.StopHook? && s.updates[s.seen].hasStop {
      Recorded(s, RunnerStep(s, e).value, Hook(s.seen, e.failed));
    }
  }

  lemma PassKeeps(s: State, e: Event)
    requires Inv(s) && (e.PassToken? || e.PassWatch? || e.PassTimer?) && RunnerStep(s, e).Some?
    ensures Inv(RunnerStep(s, e).value)
  {
    hide Alternates, InOrder, Trailing, Successes, Failures, WaitFits;
  }

  lemma RunnerKeeps(s: State, e: Event)
    requires Inv(s) && RunnerStep(s, e).Some?
    ensures Inv(RunnerStep(s, e).value)
  {
    hide Alternates, InOrder, Counted, PhaseFits;
    match e {
      case Finish(_, _) => FinishKeeps(s, e);
      case WakeStop => StopKeeps(s, e);
      case WakeDropped => StopKeeps(s, e);
      case StopHook(_) => StopKeeps(s, e);
      case PassToken => PassKeeps(s, e);
      case PassWatch => PassKeeps(s, e);
      case PassTimer => PassKeeps(s, e);
      case _ => StartKeeps(s, e);
    }
  }

  lemma {:induction false} RunKeeps(s: State, events: seq<Event>)
    requires Inv(s) && Run(s, events).Some?
    ensures Inv(Run(s, events).value)
    decreases |events|
  {
    if events != [] {
      if events[0].OfManager() { ManagerKeeps(s, events[0]); } else { RunnerKeeps(s, events[0]); }
      hide Alternates, InOrder, Counted, PhaseFits, ManagerStep, RunnerStep;
      RunKeeps(Next(s, events[0]).value, events[1..]);
    }
  }

  // ------------------------------------------------------------------ main results

  /** In every interleaving: runs never overlap, specs are run in the order of the updates,
      the hook runs at most once and with the spec last run, and the counters agree with
      the history. */
  lemma ControllerRuns(spec: Spec, events: seq<Event>)
    requires Run(Initial(spec), events).Some?
    ensures var s := Run(Initial(spec), events).value;
            Alternates(s.history) && InOrder(s.history, s.seen) && Counted(s)
  {
    RunKeeps(Initial(spec), events);
  }

  /** A controller that has terminated has called the hook of the spec it ran last, if that
      spec has one: the last thing it did, right after that run. One that has not never did. */
  lemma HookCalledIff(spec: Spec, events: seq<Event>)
    requires Run(Initial(spec), events).Some?
    ensures var s := Run(Initial(spec), events).value;
            var h := s.history;
            && s.seen < |s.updates|
            && (s.phase.Stopped? ==>
                  && h != [] && h[|h| - 1].version == s.seen
                  && (h[|h| - 1].Hook? <==> s.updates[s.seen].hasStop)
                  && (h[|h| - 1].Ended? <==> !s.updates[s.seen].hasStop)
                  && (h[|h| - 1].Hook? ==> |h| > 1 && h[|h| - 2].Ended? && h[|h| - 2].version == s.seen))
            && (!s.phase.Stopped? ==> forall a :: a in h ==> !a.Hook?)
            && forall i :: 0 <= i < |h| - 1 ==> !h[i].Hook?
  {
    RunKeeps(Initial(spec), events);
    var s := Run(Initial(spec), events).value;
    var h := s.history;
    hide InOrder, Counted, Trailing, WaitFits;
    forall i | 0 <= i < |h| && h[i].Hook?
      ensures i == |h| - 1 && i > 0 && h[i - 1].Ended? && h[i - 1].version == h[i].version
    {
      assert ActFits(h, i);
    }
  }

  /** Whatever its phase, what the runner may do next, in this order of preference. */
  lemma NextSpelledOut(s: State, e: Event)
    requires s.seen < |s.updates| && !e.OfManager()
    ensures Next(s, e).Some? <==>
            match s.phase
            case Unstarted => e == Start
            case Running =>
              var errors := if e.Finish? && e.outcome.Failed? then Min(s.errors + 1, U32_MAX) else 0;
              e.Finish? && RetryFits(s.updates[s.seen].backoff, if errors == 0 then 1 else errors, e.retry)
            case Waiting(_, Token) => e == if s.cancelled then WakeStop else PassToken
            case Waiting(_, Watch) =>
              e == if s.seen < |s.updates| - 1 then WakeUpdate else if s.dropped then WakeDropped else PassWatch
            case Waiting(wait, Timer) => e == PassTimer || (wait.For? && e == WakeTimer)
            case Stopping => e.StopHook?
            case Stopped => false
  {
    hide ClosedForm;
    if e.Finish? { JitteredIff(s.updates[s.seen].backoff, NextErrors(s.errors, e.outcome), e.retry); }
    hide Jittered;
  }

  /** A delay the policy can give after this many errors, at least one. */
  predicate RetryFits(p: Policy, errors: nat, retry: Duration)
    requires errors > 0
  {
    match p
    case NoBackoff => true
    case Linear(base, max) => retry == if base * errors < max then base * errors else max
    case Exponential(base, max) => retry <= max && retry <= base * Pow2(errors - 1)
  }

  lemma JitteredIff(p: Policy, errors: nat, retry: Duration)
    ensures Jittered(p, errors, retry) <==> RetryFits(p, if errors == 0 then 1 else errors, retry)
  {
  }

  /** What the manager may do: update until it cancels, cancel, and then let go. */
  lemma ManagerSpelledOut(s: State, e: Event)
    requires s.seen < |s.updates| && e.OfManager()
    ensures Next(s, e).Some? <==> match e case Update(_) => !s.cancelled case DropSender => s.cancelled case _ => true
    ensures Next(s, e).Some? ==>
              match e
              case Update(spec) =>
                Next(s, e).value == s.(updates := s.updates + [spec],
                                       status := s.status.(interval := spec.interval, backoff := spec.backoff))
              case Cancel => Next(s, e).value == s.(cancelled := true)
              case DropSender => Next(s, e).value == s.(dropped := true)
              case _ => true
  {
  }

  /** And what comes of it: a run begins with the last spec, or with the same one when the
      delay is over; it is recorded with its outcome; a stop ends in the hook. */
  lemma StepSpelledOut(s: State, e: Event)
    requires s.seen < |s.updates| && !e.OfManager() && Next(s, e).Some?
    ensures var s1, last := Next(s, e).value, |s.updates| - 1;
            && s1.updates == s.updates && s1.cancelled == s.cancelled && s1.dropped == s.dropped
            && match e
               case Start => s1.phase.Running? && s1.seen == last && s1.history == s.history + [Started(last)]
               case WakeUpdate => s1.phase.Running? && s1.seen == last && s1.history == s.history + [Started(last)]
               case WakeTimer => s1.phase.Running? && s1.seen == s.seen && s1.history == s.history + [Started(s.seen)]
               case Finish(outcome, _) =>
                 && s1.phase.Waiting? && s1.phase.next.Token?
                 && s1.seen == s.seen && s1.history == s.history + [Ended(s.seen, outcome)]
               case StopHook(failed) =>
                 && s1.phase.Stopped? && s1.seen == s.seen
                 && s1.history == (if s.updates[s.seen].hasStop then s.history + [Hook(s.seen, failed)] else s.history)
                 && s1.status.failure == s.status.failure + (if s.updates[s.seen].hasStop && failed then 1 else 0)
               case WakeStop => s1 == s.(phase := Stopping)
               case WakeDropped => s1 == s.(phase := Stopping)
               case PassToken => s.phase.Waiting? && s1 == s.(phase := Waiting(s.phase.wait, Watch))
               case PassWatch => s.phase.Waiting? && s1 == s.(phase := Waiting(s.phase.wait, Timer))
               case PassTimer => s.phase.Waiting? && s1 == s.(phase := Waiting(s.phase.wait, Token))
               case _ => true
  {
    hide Jittered, NextErrors;
  }

  /** After a run the runner waits as its spec asks; after k failures in a row, by the
      backoff of k, which the saturation of its own count only changes for linear delays. */
  lemma WaitAfterRun(spec: Spec, events: seq<Event>)
    requires Run(Initial(spec), events).Some? && Run(Initial(spec), events).value.phase.Waiting?
    ensures var s := Run(Initial(spec), events).value;
            && s.seen < |s.updates| && s.history != [] && s.history[|s.history| - 1].Ended?
            && var given, failures, wait := s.updates[s.seen], Trailing(s.history), s.phase.wait;
               var asked := if given.interval.Some? then For(given.interval.value) else UntilUpdate;
               match s.history[|s.history| - 1].outcome
               case Continue => wait == asked
               case Done => wait == UntilUpdate
               case Failed =>
                 && failures > 0
                 && match given.backoff
                    case NoBackoff => wait == asked
                    case Linear(base, max) =>
                      var times := if failures > 0xFFFF_FFFF then 0xFFFF_FFFF else failures;
                      wait == For(if base * times < max then base * times else max)
                    case Exponential(base, max) =>
                      wait.For? && wait.delay <= max && wait.delay <= base * Pow2(failures - 1)
  {
    RunKeeps(Initial(spec), events);
    var s := Run(Initial(spec), events).value;
    var given, failures := s.updates[s.seen], Trailing(s.history);
    hide Alternates, InOrder, Counted;
  }

  /** Not started yet, or past the token in a poll that can still begin a run. */
  predicate MayStart(s: State)
  {
    || s.phase.Unstarted?
    || (s.Polls(Watch) && (s.Pending() || (!s.dropped && s.phase.wait.For?)))
    || (s.Polls(Timer) && s.phase.wait.For?)
  }

  /** Once stopped, a controller whose next look is at the token makes no further run, even
      with an update pending. One that has not started, or is in the middle of a poll, makes
      at most one. All it still does is end that run and call the hook. */
  lemma {:induction false} StopWins(s: State, events: seq<Event>)
    requires Inv(s) && s.cancelled && Run(s, events).Some?
    ensures var s' := Run(s, events).value;
            && s.history <= s'.history
            && forall i :: |s.history| <= i < |s'.history| && s'.history[i].Started? ==> MayStart(s) && i == |s.history|
    decreases |events|
  {
    if events != [] {
      hide Alternates, InOrder, Counted, PhaseFits, ClosedForm;
      var s1 := Next(s, events[0]).value;
      StoppedStep(s, events[0]);
      RunKeeps(s, [events[0]]);
      assert Run(s, [events[0]]) == Some(s1);
      hide Next;
      StopWins(s1, events[1..]);
      assert forall i :: 0 <= i < |s1.history| ==> Run(s, events).value.history[i] == s1.history[i];
    }
  }

  lemma StoppedStep(s: State, e: Event)
    requires s.seen < |s.updates| && s.cancelled && Next(s, e).Some?
    ensures var s1 := Next(s, e).value;
            && s1.cancelled && s.history <= s1.history
            && (MayStart(s1) ==> MayStart(s) && s1.history == s.history)
            && forall i :: |s.history| <= i < |s1.history| && s1.history[i].Started? ==> MayStart(s) && i == |s.history|
  {
    hide ClosedForm;
  }

  function Updates(specs: seq<Spec>): seq<Event>
  {
    if specs == [] then [] else [Update(specs[0])] + Updates(specs[1..])
  }

  function Updated(s: State, specs: seq<Spec>): State
  {
    if specs == [] then s
    else s.(updates := s.updates + specs, status := Configured(s.status, specs[|specs| - 1]))
  }

  lemma {:induction false} RunUpdates(s: State, specs: seq<Spec>)
    requires s.seen < |s.updates| && !s.cancelled
    ensures Run(s, Updates(specs)) == Some(Updated(s, specs))
    decreases |specs|
  {
    if specs != [] {
      hide RunnerStep;
      var s1 := Next(s, Update(specs[0])).value;
      RunUpdates(s1, specs[1..]);
      UpdatedStep(s, specs);
      assert Updates(specs)[0] == Update(specs[0]) && Updates(specs)[1..] == Updates(specs[1..]);
      hide Updated;
    }
  }

  lemma UpdatedStep(s: State, specs: seq<Spec>)
    requires specs != []
    ensures Updated(s.(updates := s.updates + [specs[0]], status := Configured(s.status, specs[0])), specs[1..])
            == Updated(s, specs)
  {
    assert s.updates + [specs[0]] + specs[1..] == s.updates + specs;
  }

  /** Any number of updates during one run, before or after its result is recorded, lead to
      exactly one more run, and that one is with the last of them. */
  lemma UpdatesCoalesce(s: State, before: seq<Spec>, outcome: Outcome, retry: Duration, after: seq<Spec>)
    requires Inv(s) && s.phase.Running? && !s.cancelled && |before + after| > 0
    requires Jittered(s.updates[s.seen].backoff, NextErrors(s.errors, outcome), retry)
    ensures Next(Updated(s, before), Finish(outcome, retry)).Some?
    ensures var s1 := Updated(Next(Updated(s, before), Finish(outcome, retry)).value, after);
            && (forall e: Event :: !e.OfManager() ==> (Next(s1, e).Some? <==> e == PassToken))
            && var s2 := Next(s1, PassToken).value;
               && (forall e: Event :: !e.OfManager() ==> (Next(s2, e).Some? <==> e == WakeUpdate))
               && var s3 := Next(s2, WakeUpdate).value;
                  && s3.phase.Running? && s3.updates[s3.seen] == (before + after)[|before + after| - 1]
                  && s3.history == s.history + [Ended(s.seen, outcome), Started(|s.updates| + |before + after| - 1)]
                  && !s3.Pending() && forall o, r :: Next(s3, Finish(o, r)).Some? ==>
                       !Next(s3, Finish(o, r)).value.Pending()
  {
    hide Inv, Jittered, NextErrors;
    assert s.seen < |s.updates| by { InvSeen(s); }
    var s1 := Updated(Next(Updated(s, before), Finish(outcome, retry)).value, after);
    assert s1.updates == s.updates + (before + after);
    OnlyMove(s1);
    OnlyMove(Next(s1, PassToken).value);
  }

  /** With an update pending and no stop, each look of the runner has one outcome. */
  lemma OnlyMove(s: State)
    requires s.seen < |s.updates| && s.Pending() && !s.cancelled && (s.Polls(Token) || s.Polls(Watch))
    ensures forall e: Event :: !e.OfManager() ==>
              (Next(s, e).Some? <==> e == if s.Polls(Token) then PassToken else WakeUpdate)
  {
    hide Jittered;
  }

  lemma InvSeen(s: State)
    requires Inv(s)
    ensures s.seen < |s.updates|
  {
  }
}
