/** One endpoint's worker, its bounded command queue, the loader's FIFO inbox and whoever
    deletes the endpoint, as interleaved steps. */
module DeleteProtocol {
  import opened Bytes

  const QUEUE_CAPACITY: nat := 32

  datatype Stage = Preparing | Awaiting | Finishing

  /** `Stopping` has seen the stop token but not closed the queue yet. A request is known
      by its ticket, the number of requests accepted before it. */
  datatype Worker = Idle | Stopping | Busy(ticket: nat, stage: Stage) | Exited

  /** `AddFrom` comes from this worker's regeneration of that ticket; `Other` from anyone. */
  datatype Command = AddFrom(ticket: nat) | Remove | Other | Shutdown

  /** `Dropped` is a manager that let go of the endpoint without deleting it. */
  datatype Deleter = Absent | Dropped | Cancelled | Waiting | Drained | Removing | Finished

  datatype State = State(
    senders: nat, permits: nat, queue: seq<nat>, accepted: nat, open: bool,
    stop: bool, worker: Worker, replies: seq<nat>,
    inbox: seq<Command>, capacity: nat, running: bool, processed: seq<Command>,
    deleter: Deleter)
  {
    /** The handle in the manager's table, later the deleter's. */
    function Held(): nat { if deleter.Absent? || deleter.Cancelled? then 1 else 0 }

    function Running(): nat { if worker.Busy? then 1 else 0 }
  }

  datatype Event =
    | CloneHandle | DropHandle | DropTable | StopElsewhere
    | Reserve | Push
    | SeeStop | Close | Receive | SendersGone | DrainExit
    | PrepareFails | SendAdd | AddAnswered | Reply
    | Call(shutdown: bool) | LoaderStep
    | Cancel | DropSender | SeeExit | SendRemove | LoaderGone | RemoveAnswered

  function Initial(capacity: nat): State
  {
    State(2, 0, [], 0, true, false, Idle, [], [], capacity, true, [], Absent)
  }

  function When(guard: bool, s: State): Option<State> { if guard then Some(s) else None }

  /** What clients and the manager do: handles, permits, and the pushes they lead to. */
  function ClientStep(s: State, e: Event): Option<State>
  {
    match e
    case CloneHandle => When(s.senders > 0, s.(senders := s.senders + 1))
    case DropHandle => if s.senders > s.permits + s.Held() then Some(s.(senders := s.senders - 1)) else None
    case DropTable =>
      if s.deleter.Absent? && s.senders > 0 then Some(s.(senders := s.senders - 1, deleter := Dropped)) else None
    case StopElsewhere => Some(s.(stop := true))
    case Reserve =>
      When(s.open && s.senders > s.permits + s.Held() && s.permits + |s.queue| < QUEUE_CAPACITY,
           s.(permits := s.permits + 1))
    case Push =>
      if s.permits == 0 then None
      else Some(s.(permits := s.permits - 1, queue := s.queue + [s.accepted], accepted := s.accepted + 1))
    case _ => None
  }

  /** The worker: a biased select on the stop token, then the drain, one command at a time.
      Each command sends the loader at most one add and waits for its answer. */
  function WorkerStep(s: State, e: Event): Option<State>
  {
    match e
    case SeeStop => When(s.worker.Idle? && s.open && s.stop, s.(worker := Stopping))
    case Close => When(s.worker.Stopping?, s.(worker := Idle, open := false))
    case Receive =>
      if s.worker.Idle? && s.queue != [] && (s.open ==> !s.stop)
      then Some(s.(worker := Busy(s.queue[0], Preparing), queue := s.queue[1..])) else None
    case SendersGone =>
      When(s.worker.Idle? && s.open && !s.stop && s.queue == [] && s.senders == 0, s.(worker := Exited, open := false))
    case DrainExit =>
      When(s.worker.Idle? && !s.open && s.queue == [] && s.permits == 0, s.(worker := Exited))
    case PrepareFails =>
      if s.worker.Busy? && s.worker.stage.Preparing?
      then Some(s.(worker := Busy(s.worker.ticket, Finishing))) else None
    case SendAdd =>
      if s.worker.Busy? && s.worker.stage.Preparing? && s.running && |s.inbox| < s.capacity
      then Some(s.(worker := Busy(s.worker.ticket, Awaiting), inbox := s.inbox + [AddFrom(s.worker.ticket)])) else None
    case AddAnswered =>
      if s.worker.Busy? && s.worker.stage.Awaiting? && AddFrom(s.worker.ticket) !in s.inbox
      then Some(s.(worker := Busy(s.worker.ticket, Finishing))) else None
    case Reply =>
      if s.worker.Busy? && s.worker.stage.Finishing?
      then Some(s.(worker := Idle, replies := s.replies + [s.worker.ticket])) else None
    case _ => None
  }

  /** The loader thread takes commands in order; a shutdown ends it and drops the rest. */
  function LoaderStepOf(s: State, e: Event): Option<State>
  {
    match e
    case Call(shutdown) =>
      When(s.running && |s.inbox| < s.capacity, s.(inbox := s.inbox + [if shutdown then Shutdown else Other]))
    case LoaderStep =>
      if !s.running || s.inbox == [] then None
      else if s.inbox[0].Shutdown? then Some(s.(running := false, inbox := [], processed := s.processed + [Shutdown]))
      else Some(s.(inbox := s.inbox[1..], processed := s.processed + [s.inbox[0]]))
    case _ => None
  }

  /** `delete_endpoint`: cancel, drop the sender, wait for the worker's exit, and only then
      ask the loader to remove the endpoint. */
  function DeleterStep(s: State, e: Event): Option<State>
  {
    match e
    case Cancel => When(s.deleter.Absent?, s.(deleter := Cancelled, stop := true))
    case DropSender =>
      if s.deleter.Cancelled? && s.senders > 0 then Some(s.(deleter := Waiting, senders := s.senders - 1)) else None
    case SeeExit => When(s.deleter.Waiting? && s.worker.Exited?, s.(deleter := Drained))
    case SendRemove =>
      When(s.deleter.Drained? && s.running && |s.inbox| < s.capacity,
          s.(deleter := Removing, inbox := s.inbox + [Remove]))
    case LoaderGone => When(s.deleter.Drained? && !s.running, s.(deleter := Finished))
    case RemoveAnswered => When(s.deleter.Removing? && Remove !in s.inbox, s.(deleter := Finished))
    case _ => None
  }

  function Next(s: State, e: Event): Option<State>
  {
    if ClientStep(s, e).Some? then ClientStep(s, e)
    else if WorkerStep(s, e).Some? then WorkerStep(s, e)
    else if LoaderStepOf(s, e).Some? then LoaderStepOf(s, e)
    else DeleterStep(s, e)
  }

  /** An interleaving: the state after these events, if each was possible in turn. */
  function Run(s: State, events: seq<Event>): Option<State>
    decreases |events|
  {
    if events == [] then Some(s)
    else if Next(s, events[0]).None? then None
    else Run(Next(s, events[0]).value, events[1..])
  }

  // ------------------------------------------------------------------ invariant

  ghost predicate ChannelInv(s: State)
  {
    && s.permits + s.Held() <= s.senders && s.permits + |s.queue| <= QUEUE_CAPACITY
    && (s.worker.Exited? ==> s.queue == [] && s.permits == 0 && !s.open)
    && (s.worker.Stopping? ==> s.open)
  }

  /** Tickets are answered, run and queued in the order they were accepted, none lost and
      none twice. */
  ghost predicate FifoInv(s: State)
  {
    && |s.replies| + s.Running() + |s.queue| == s.accepted
    && (forall i :: 0 <= i < |s.replies| ==> s.replies[i] == i)
    && (s.worker.Busy? ==> s.worker.ticket == |s.replies|)
    && (forall i :: 0 <= i < |s.queue| ==> s.queue[i] == |s.replies| + s.Running() + i)
  }

  function AddsBelow(s: State): nat
  {
    |s.replies| + if s.worker.Busy? && !s.worker.stage.Preparing? then 1 else 0
  }

  /** An add of this worker is in the inbox only while the worker waits for it. */
  ghost predicate InboxInv(s: State)
  {
    && (forall c :: c in s.inbox && c.AddFrom? ==> s.worker == Busy(c.ticket, Awaiting))
    && (!s.running ==> s.inbox == [])
  }

  /** Adds reach the loader in ticket order, at most one per ticket. */
  ghost predicate AddsInOrder(cs: seq<Command>, below: nat)
  {
    && (forall i :: 0 <= i < |cs| && cs[i].AddFrom? ==> cs[i].ticket < below)
    && (forall i, j :: 0 <= i < j < |cs| && cs[i].AddFrom? && cs[j].AddFrom? ==> cs[i].ticket < cs[j].ticket)
  }

  ghost predicate NoAddAfterRemove(cs: seq<Command>)
  {
    forall i, j :: 0 <= i < j < |cs| && cs[i].Remove? ==> !cs[j].AddFrom?
  }

  /** All loader commands so far, taken or still waiting. */
  function Sent(s: State): seq<Command> { s.processed + s.inbox }

  ghost predicate DeleterInv(s: State)
  {
    && (s.deleter.Drained? || s.deleter.Removing? || s.deleter.Finished? ==> s.worker.Exited?)
    && (s.deleter.Cancelled? || s.deleter.Waiting? ==> s.stop)
    && (Remove in Sent(s) ==> s.deleter.Removing? || s.deleter.Finished?)
    && (s.running && (s.deleter.Removing? || s.deleter.Finished?) ==> Remove in Sent(s))
    && (s.deleter.Finished? ==> Remove !in s.inbox)
  }

  ghost predicate Inv(s: State)
  {
    && s.capacity > 0 && ChannelInv(s) && FifoInv(s) && InboxInv(s) && DeleterInv(s)
    && AddsInOrder(Sent(s), AddsBelow(s)) && NoAddAfterRemove(Sent(s))
  }

  lemma ClientKeeps(s: State, e: Event)
    requires Inv(s) && ClientStep(s, e).Some?
    ensures Inv(ClientStep(s, e).value)
  {
    hide AddsInOrder, NoAddAfterRemove;
    assert Sent(ClientStep(s, e).value) == Sent(s);
  }

  lemma WorkerKeeps(s: State, e: Event)
    requires Inv(s) && WorkerStep(s, e).Some?
    ensures Inv(WorkerStep(s, e).value)
  {
    var s' := WorkerStep(s, e).value;
    if e.SendAdd? {
      assert Sent(s') == Sent(s) + [AddFrom(s.worker.ticket)];
    } else {
      assert Sent(s') == Sent(s);
      hide AddsInOrder, NoAddAfterRemove;
      AddsBelowGrows(Sent(s), AddsBelow(s), AddsBelow(s'));
    }
  }

  lemma AddsBelowGrows(cs: seq<Command>, below: nat, below': nat)
    requires AddsInOrder(cs, below) && below <= below'
    ensures AddsInOrder(cs, below')
  {
  }

  lemma AppendKeeps(cs: seq<Command>, below: nat, c: Command)
    requires AddsInOrder(cs, below) && NoAddAfterRemove(cs) && !c.AddFrom?
    ensures AddsInOrder(cs + [c], below) && NoAddAfterRemove(cs + [c])
  {
  }

  lemma PrefixKeeps(cs: seq<Command>, below: nat, n: nat)
    requires AddsInOrder(cs, below) && NoAddAfterRemove(cs) && n <= |cs|
    ensures AddsInOrder(cs[..n], below) && NoAddAfterRemove(cs[..n])
  {
  }

  lemma LoaderKeeps(s: State, e: Event)
    requires Inv(s) && LoaderStepOf(s, e).Some?
    ensures Inv(LoaderStepOf(s, e).value)
  {
    hide AddsInOrder, NoAddAfterRemove;
    var s' := LoaderStepOf(s, e).value;
    if e.Call? {
      var c := if e.shutdown then Shutdown else Other;
      AppendKeeps(Sent(s), AddsBelow(s), c);
      assert Sent(s') == Sent(s) + [c];
      assert Remove in Sent(s') ==> Remove in Sent(s);
    } else if s.inbox[0].Shutdown? {
      PrefixKeeps(Sent(s), AddsBelow(s), |s.processed| + 1);
      assert Sent(s') == Sent(s)[..|s.processed| + 1];
    } else {
      assert Sent(s') == Sent(s);
    }
  }

  lemma DeleterKeeps(s: State, e: Event)
    requires Inv(s) && DeleterStep(s, e).Some?
    ensures Inv(DeleterStep(s, e).value)
  {
    hide AddsInOrder, NoAddAfterRemove;
    var s' := DeleterStep(s, e).value;
    if e.SendRemove? {
      AppendKeeps(Sent(s), AddsBelow(s), Remove);
      assert Sent(s') == Sent(s) + [Remove];
    } else {
      assert Sent(s') == Sent(s);
    }
  }

  /** Every step of any party keeps the invariant. */
  lemma StepKeeps(s: State, e: Event)
    requires Inv(s) && Next(s, e).Some?
    ensures Inv(Next(s, e).value)
  {
    hide Inv;
    if ClientStep(s, e) == Next(s, e) { ClientKeeps(s, e); }
    else if LoaderStepOf(s, e) == Next(s, e) { LoaderKeeps(s, e); }
    else if DeleterStep(s, e) == Next(s, e) { DeleterKeeps(s, e); }
    else { WorkerKeeps(s, e); }
  }

  lemma {:induction false} RunKeeps(s: State, events: seq<Event>)
    requires Inv(s) && Run(s, events).Some?
    ensures Inv(Run(s, events).value)
    decreases |events|
  {
    hide Inv, Next;
    if events != [] {
      StepKeeps(s, events[0]);
      RunKeeps(Next(s, events[0]).value, events[1..]);
    }
  }

  // ------------------------------------------------------------------ main results

  /** In every interleaving the loader takes no add of this worker after the deleter's
      remove, and its adds come in the order of the requests, at most one for each. */
  lemma NothingReattached(capacity: nat, events: seq<Event>)
    requires capacity > 0 && Run(Initial(capacity), events).Some?
    ensures var s := Run(Initial(capacity), events).value;
            && NoAddAfterRemove(s.processed)
            && AddsInOrder(s.processed, s.accepted)
            && (s.deleter.Finished? && s.running ==> Remove in s.processed)
  {
    RunKeeps(Initial(capacity), events);
    var s := Run(Initial(capacity), events).value;
    assert forall i :: 0 <= i < |s.processed| ==> s.processed[i] == Sent(s)[i];
    assert Remove in Sent(s) ==> Remove in s.processed || Remove in s.inbox;
  }

  /** In every interleaving the accepted requests are answered in the order they were
      accepted, each once; once the worker has exited all of them have been. */
  lemma ExactlyOnceInOrder(capacity: nat, events: seq<Event>)
    requires capacity > 0 && Run(Initial(capacity), events).Some?
    ensures var s := Run(Initial(capacity), events).value;
            && |s.replies| <= s.accepted
            && (forall i :: 0 <= i < |s.replies| ==> s.replies[i] == i)
            && (s.worker.Exited? ==> |s.replies| == s.accepted)
  {
    RunKeeps(Initial(capacity), events);
  }

  /** Once the queue is closed, only requests that already hold a permit get in: what is
      left to handle is bounded by the queue's capacity, whatever the clients do. */
  lemma {:induction false} DrainIsBounded(s: State, events: seq<Event>)
    requires Inv(s) && !s.open && Run(s, events).Some?
    ensures var s' := Run(s, events).value;
            && !s'.open
            && s'.accepted + s'.permits <= s.accepted + s.permits <= |s.replies| + s.Running() + QUEUE_CAPACITY
            && (s.worker.Exited? ==> s'.worker.Exited? && s'.accepted == s.accepted)
    decreases |events|
  {
    InvParts(s);
    hide Inv, Run, Next, FifoInv;
    RunFirst(s, events);
    if events != [] {
      StepKeeps(s, events[0]);
      ClosedStep(s, events[0]);
      DrainIsBounded(Next(s, events[0]).value, events[1..]);
    }
  }

  lemma ClosedStep(s: State, e: Event)
    requires ChannelInv(s) && !s.open && Next(s, e).Some?
    ensures var s' := Next(s, e).value;
            && !s'.open && s'.accepted + s'.permits <= s.accepted + s.permits
            && (s.worker.Exited? ==> s'.worker.Exited? && s'.accepted == s.accepted)
  {
    if ClientStep(s, e).Some? { hide WorkerStep, LoaderStepOf, DeleterStep; }
    else if WorkerStep(s, e).Some? { hide ClientStep, LoaderStepOf, DeleterStep; }
    else { hide ClientStep, WorkerStep; }
  }

  lemma InvParts(s: State)
    requires Inv(s)
    ensures ChannelInv(s) && FifoInv(s) && InboxInv(s) && DeleterInv(s) && s.capacity > 0
    ensures s.accepted + s.permits <= |s.replies| + s.Running() + QUEUE_CAPACITY
  {
  }

  lemma RunFirst(s: State, events: seq<Event>)
    requires Run(s, events).Some?
    ensures if events == [] then Run(s, events) == Some(s)
            else Next(s, events[0]).Some? && Run(s, events) == Run(Next(s, events[0]).value, events[1..])
  {
    hide Next;
  }

  // ------------------------------------------------------------------ what can happen

  /** When each step is possible: a client needs a handle and, to reserve, an open queue with
      fewer than 32 requests in it; a stopped worker takes nothing more from an open one, and
      a closed one not before it is empty with no permit out. */
  lemma PossibleIff(s: State, e: Event)
    ensures Next(s, e).Some? <==>
            var held := if s.deleter == Absent || s.deleter == Cancelled then 1 else 0;
            var room := s.running && |s.inbox| < s.capacity;
            match e
            case CloneHandle => s.senders > 0
            case DropHandle => s.senders > s.permits + held
            case DropTable => s.deleter == Absent && s.senders > 0
            case StopElsewhere => true
            case Reserve => s.open && s.senders > s.permits + held && s.permits + |s.queue| < 32
            case Push => s.permits > 0
            case SeeStop => s.worker == Idle && s.open && s.stop
            case Close => s.worker == Stopping
            case Receive => s.worker == Idle && s.queue != [] && !(s.open && s.stop)
            case SendersGone => s.worker == Idle && s.open && !s.stop && s.queue == [] && s.senders == 0
            case DrainExit => s.worker == Idle && !s.open && s.queue == [] && s.permits == 0
            case PrepareFails => s.worker.Busy? && s.worker.stage == Preparing
            case SendAdd => s.worker.Busy? && s.worker.stage == Preparing && room
            case AddAnswered => s.worker.Busy? && s.worker.stage == Awaiting && AddFrom(s.worker.ticket) !in s.inbox
            case Reply => s.worker.Busy? && s.worker.stage == Finishing
            case Call(_) => room
            case LoaderStep => s.running && s.inbox != []
            case Cancel => s.deleter == Absent
            case DropSender => s.deleter == Cancelled && s.senders > 0
            case SeeExit => s.deleter == Waiting && s.worker == Exited
            case SendRemove => s.deleter == Drained && room
            case LoaderGone => s.deleter == Drained && !s.running
            case RemoveAnswered => s.deleter == Removing && Remove !in s.inbox
  {
  }

  /** What the steps of clients and manager do to handles and permits. */
  lemma HandlesSpelledOut(s: State, e: Event)
    requires Next(s, e).Some?
    ensures var s1 := Next(s, e).value;
            && s1.senders == (if e == CloneHandle then s.senders + 1
                              else if e != DropHandle && e != DropTable && e != DropSender then s.senders
                              else s.senders - 1)
            && s1.permits == (if e == Reserve then s.permits + 1 else if e == Push then s.permits - 1 else s.permits)
            && s1.accepted == (if e == Push then s.accepted + 1 else s.accepted)
            && s1.stop == (s.stop || e == StopElsewhere || e == Cancel)
            && s1.open == (s.open && e != Close && e != SendersGone)
            && s1.capacity == s.capacity
  {
    OtherActors(s, e);
  }

  /** The events of one request that goes all the way to the loader and back. */
  const ONE_REQUEST := [Reserve, Push, Receive, SendAdd, LoaderStep, AddAnswered, Reply]

  /** And of a delete with nothing left to do for the worker. */
  const ONE_DELETE := [Cancel, DropSender, SeeStop, Close, DrainExit, SeeExit, SendRemove, LoaderStep, RemoveAnswered]

  function Requests(n: nat): seq<Event>
  {
    if n == 0 then [] else Requests(n - 1) + ONE_REQUEST
  }

  function AddsOf(n: nat): seq<Command> { seq(n, i requires 0 <= i => AddFrom(i)) }

  /** The first `n` tickets. */
  function Tickets(n: nat): seq<nat> { seq(n, i requires 0 <= i => i) }

  /** The state after `n` such requests. */
  function Served(capacity: nat, n: nat): State
  {
    State(2, 0, [], n, true, false, Idle, Tickets(n), [], capacity, true, AddsOf(n), Absent)
  }

  /** Any number of requests can be served, one after another, and the endpoint deleted
      after that: each has its add taken and its answer, and the remove comes last. */
  lemma RequestsThenDelete(capacity: nat, n: nat)
    requires capacity > 0
    ensures Run(Initial(capacity), Requests(n)) == Some(Served(capacity, n))
    ensures var s := Run(Initial(capacity), Requests(n) + ONE_DELETE);
            && s.Some? && s.value.deleter == Finished && s.value.worker == Exited
            && s.value.processed == AddsOf(n) + [Remove] && s.value.replies == Tickets(n)
  {
    RequestsServed(capacity, n);
    RunConcat(Initial(capacity), Requests(n), ONE_DELETE);
    hide Run;
    DeleteServed(capacity, n);
  }

  lemma {:induction false} RequestsServed(capacity: nat, n: nat)
    requires capacity > 0
    ensures Run(Initial(capacity), Requests(n)) == Some(Served(capacity, n))
  {
    if n == 0 {
      assert Served(capacity, 0) == Initial(capacity);
    } else {
      RequestsServed(capacity, n - 1);
      RunConcat(Initial(capacity), Requests(n - 1), ONE_REQUEST);
      hide Run;
      RequestServed(capacity, n - 1);
    }
  }

  lemma {:induction false} RunConcat(s: State, a: seq<Event>, b: seq<Event>)
    ensures Run(s, a + b) == if Run(s, a).Some? then Run(Run(s, a).value, b) else None
    decreases |a|
  {
    hide Next;
    if a == [] {
      assert a + b == b;
    } else {
      assert (a + b)[0] == a[0] && (a + b)[1..] == a[1..] + b;
      if Next(s, a[0]).Some? { RunConcat(Next(s, a[0]).value, a[1..], b); }
    }
  }

  lemma RequestServed(capacity: nat, n: nat)
    requires capacity > 0
    ensures Run(Served(capacity, n), ONE_REQUEST) == Some(Served(capacity, n + 1))
  {
    var s0 := Served(capacity, n);
    var s2 := s0.(queue := [n], accepted := n + 1);
    var s4 := s2.(queue := [], worker := Busy(n, Awaiting), inbox := [AddFrom(n)]);
    var s5 := s4.(inbox := [], processed := s0.processed + [AddFrom(n)]);
    var s7 := s5.(worker := Idle, replies := s0.replies + [n]);
    assert s7 == Served(capacity, n + 1) by {
      assert AddsOf(n + 1) == AddsOf(n) + [AddFrom(n)] && Tickets(n + 1) == Tickets(n) + [n];
    }
    Accepts(s0);
    Starts(s2);
    Takes(s4, AddFrom(n));
    Answers(s5);
    hide Run, Next, ClientStep, WorkerStep, LoaderStepOf, DeleterStep, Served, AddsOf, Tickets;
    TwoSteps(s0, Reserve, s0.(permits := 1), Push, s2);
    TwoSteps(s2, Receive, s2.(queue := [], worker := Busy(n, Preparing)), SendAdd, s4);
    OneStep(s4, LoaderStep, s5);
    TwoSteps(s5, AddAnswered, s5.(worker := Busy(n, Finishing)), Reply, s7);
    RunConcat(s0, [Reserve, Push], [Receive, SendAdd]);
    RunConcat(s0, [Reserve, Push] + [Receive, SendAdd], [LoaderStep]);
    RunConcat(s0, [Reserve, Push] + [Receive, SendAdd] + [LoaderStep], [AddAnswered, Reply]);
    assert ONE_REQUEST == [Reserve, Push] + [Receive, SendAdd] + [LoaderStep] + [AddAnswered, Reply];
  }

  /** An open queue takes a request, ... */
  lemma Accepts(s: State)
    requires s.open && s.senders > s.permits + s.Held() && s.permits == 0 && s.queue == []
    ensures Next(s, Reserve) == Some(s.(permits := 1))
    ensures Next(s.(permits := 1), Push) == Some(s.(queue := [s.accepted], accepted := s.accepted + 1))
  {
    ClientNext(s, Reserve);
    ClientNext(s.(permits := 1), Push);
    hide Next;
    assert [] + [s.accepted] == [s.accepted];
  }

  /** ... an idle worker starts it and asks the loader, ... */
  lemma Starts(s: State)
    requires s.worker == Idle && !s.stop && |s.queue| == 1 && s.running && s.inbox == [] && s.capacity > 0
    ensures var busy := s.(queue := [], worker := Busy(s.queue[0], Preparing));
            && Next(s, Receive) == Some(busy)
            && Next(busy, SendAdd) == Some(busy.(worker := Busy(s.queue[0], Awaiting), inbox := [AddFrom(s.queue[0])]))
  {
    var busy := s.(queue := [], worker := Busy(s.queue[0], Preparing));
    WorkerNext(s, Receive);
    WorkerNext(busy, SendAdd);
    hide Next;
    assert s.queue[1..] == [] && [] + [AddFrom(s.queue[0])] == [AddFrom(s.queue[0])];
  }

  /** ... a loader takes what it is sent, ... */
  lemma Takes(s: State, c: Command)
    requires s.running && s.inbox == [c] && !c.Shutdown?
    ensures Next(s, LoaderStep) == Some(s.(inbox := [], processed := s.processed + [c]))
  {
    LoaderNext(s, LoaderStep);
    hide Next;
    assert s.inbox[1..] == [];
  }

  /** ... and the worker answers. */
  lemma Answers(s: State)
    requires s.worker.Busy? && s.worker.stage == Awaiting && s.inbox == []
    ensures var t := s.worker.ticket;
            && Next(s, AddAnswered) == Some(s.(worker := Busy(t, Finishing)))
            && Next(s.(worker := Busy(t, Finishing)), Reply) == Some(s.(worker := Idle, replies := s.replies + [t]))
  {
    WorkerNext(s, AddAnswered);
    WorkerNext(s.(worker := Busy(s.worker.ticket, Finishing)), Reply);
    hide Next;
  }

  lemma OneStep(s: State, e: Event, s': State)
    requires Next(s, e) == Some(s')
    ensures Run(s, [e]) == Some(s')
  {
    assert [e][1..] == [];
  }

  lemma TwoSteps(s: State, e: Event, s': State, e': Event, s'': State)
    requires Next(s, e) == Some(s') && Next(s', e') == Some(s'')
    ensures Run(s, [e, e']) == Some(s'')
  {
    hide Next;
    OneStep(s', e', s'');
    assert [e, e'][1..] == [e'];
  }

  lemma ClientNext(s: State, e: Event)
    ensures ClientStep(s, e).Some? ==> Next(s, e) == ClientStep(s, e)
  {
  }

  lemma WorkerNext(s: State, e: Event)
    ensures WorkerStep(s, e).Some? ==> Next(s, e) == WorkerStep(s, e)
  {
    OtherActors(s, e);
    hide ClientStep, WorkerStep, LoaderStepOf, DeleterStep;
  }

  lemma LoaderNext(s: State, e: Event)
    ensures LoaderStepOf(s, e).Some? ==> Next(s, e) == LoaderStepOf(s, e)
  {
    OtherActors(s, e);
    hide ClientStep, WorkerStep, LoaderStepOf, DeleterStep;
  }

  lemma DeleterNext(s: State, e: Event)
    ensures e.Cancel? || e.DropSender? || e.SeeExit? || e.SendRemove? || e.RemoveAnswered? ==>
            Next(s, e) == DeleterStep(s, e)
  {
  }

  lemma DeleteServed(capacity: nat, n: nat)
    requires capacity > 0
    ensures var s := Run(Served(capacity, n), ONE_DELETE);
            && s.Some? && s.value.deleter == Finished && s.value.worker == Exited
            && s.value.processed == AddsOf(n) + [Remove] && s.value.replies == Tickets(n)
  {
    hide AddsOf, Tickets;
    var s0 := Served(capacity, n);
    var s2 := s0.(deleter := Waiting, stop := true, senders := 1);
    var s5 := s2.(worker := Exited, open := false);
    var s9 := s5.(deleter := Finished, processed := AddsOf(n) + [Remove]);
    CancelServed(s0, s2);
    DrainServed(s2, s5);
    RemoveServed(s5, s9);
    hide Run, Next, Served;
    RunConcat(s0, [Cancel, DropSender], [SeeStop, Close, DrainExit]);
    var last := [SeeExit, SendRemove, LoaderStep, RemoveAnswered];
    RunConcat(s0, [Cancel, DropSender] + [SeeStop, Close, DrainExit], last);
    assert ONE_DELETE == [Cancel, DropSender] + [SeeStop, Close, DrainExit] + last;
  }

  lemma CancelServed(s0: State, s2: State)
    requires s0.deleter == Absent && s0.senders == 2 && s2 == s0.(deleter := Waiting, stop := true, senders := 1)
    ensures Run(s0, [Cancel, DropSender]) == Some(s2)
  {
    DeleterNext(s0, Cancel);
    DeleterNext(s0.(deleter := Cancelled, stop := true), DropSender);
    hide Next;
    TwoSteps(s0, Cancel, s0.(deleter := Cancelled, stop := true), DropSender, s2);
  }

  lemma DrainServed(s2: State, s5: State)
    requires s2.worker == Idle && s2.open && s2.stop && s2.queue == [] && s2.permits == 0
    requires s5 == s2.(worker := Exited, open := false)
    ensures Run(s2, [SeeStop, Close, DrainExit]) == Some(s5)
  {
    var s3, s4 := s2.(worker := Stopping), s2.(open := false);
    WorkerNext(s2, SeeStop);
    WorkerNext(s3, Close);
    WorkerNext(s4, DrainExit);
    hide Next, Run;
    TwoSteps(s2, SeeStop, s3, Close, s4);
    OneStep(s4, DrainExit, s5);
    RunConcat(s2, [SeeStop, Close], [DrainExit]);
    assert [SeeStop, Close, DrainExit] == [SeeStop, Close] + [DrainExit];
  }

  lemma RemoveServed(s5: State, s9: State)
    requires s5.deleter == Waiting && s5.worker == Exited && s5.running && s5.inbox == [] && s5.capacity > 0
    requires s9 == s5.(deleter := Finished, processed := s5.processed + [Remove])
    ensures Run(s5, [SeeExit, SendRemove, LoaderStep, RemoveAnswered]) == Some(s9)
  {
    var s6, s7 := s5.(deleter := Drained), s5.(deleter := Removing, inbox := [Remove]);
    var s8 := s9.(deleter := Removing);
    DeleterNext(s5, SeeExit);
    DeleterNext(s6, SendRemove);
    DeleterNext(s8, RemoveAnswered);
    Takes(s7, Remove);
    hide Next, Run;
    assert [] + [Remove] == [Remove];
    assert DeleterStep(s6, SendRemove) == Some(s7);
    hide DeleterStep;
    TwoSteps(s5, SeeExit, s6, SendRemove, s7);
    TwoSteps(s7, LoaderStep, s8, RemoveAnswered, s9);
    RunConcat(s5, [SeeExit, SendRemove], [LoaderStep, RemoveAnswered]);
    assert [SeeExit, SendRemove, LoaderStep, RemoveAnswered] == [SeeExit, SendRemove] + [LoaderStep, RemoveAnswered];
  }

  // ------------------------------------------------------------------ a delete comes to its end

  predicate Deleting(s: State) { !s.deleter.Absent? && !s.deleter.Dropped? }

  /** Steps the worker, the loader, the deleter and permit holders take on their own. */
  predicate OwnStep(e: Event)
  {
    e.Push? || e.LoaderStep? || e.SeeStop? || e.Close? || e.Receive? || e.DrainExit? || e.PrepareFails? || e.SendAdd?
    || e.AddAnswered? || e.Reply? || e.DropSender? || e.SeeExit? || e.SendRemove? || e.LoaderGone? || e.RemoveAnswered?
  }

  /** A step that brings a delete in progress nearer to its end. */
  function Forward(s: State): Event
  {
    match s.deleter
    case Cancelled => DropSender
    case Waiting => WorkerForward(s)
    case Drained => if !s.running then LoaderGone else if |s.inbox| < s.capacity then SendRemove else LoaderStep
    case _ => if Remove in s.inbox then LoaderStep else RemoveAnswered
  }

  function WorkerForward(s: State): Event
  {
    match s.worker
    case Exited => SeeExit
    case Stopping => Close
    case Idle =>
      if s.open then SeeStop
      else if s.queue != [] then Receive
      else if s.permits > 0 then Push
      else DrainExit
    case Busy(ticket, Preparing) =>
      if !s.running then PrepareFails else if |s.inbox| < s.capacity then SendAdd else LoaderStep
    case Busy(ticket, Awaiting) => if AddFrom(ticket) in s.inbox then LoaderStep else AddAnswered
    case Busy(ticket, Finishing) => Reply
  }

  function DeleterRank(s: State): nat
  {
    match s.deleter
    case Finished => 0 case Removing => 1 case Drained => 2 case Waiting => 3 case _ => 4
  }

  function OpenRank(s: State): nat { if !s.open then 0 else if s.worker.Stopping? then 1 else 2 }

  function Work(s: State): nat { |s.queue| + s.permits + s.Running() }

  function StageRank(s: State): nat
  {
    match s.worker
    case Exited => 0 case Busy(_, Finishing) => 1 case Busy(_, Awaiting) => 2 case Busy(_, Preparing) => 3 case _ => 4
  }

  /** How many more steps of its own a delete can take at most. */
  function Left(s: State): nat
  {
    2 * DeleterRank(s) + OpenRank(s) + 7 * Work(s) + 2 * StageRank(s) + s.permits + |s.inbox|
  }

  lemma ForwardStep(s: State)
    requires Inv(s) && Deleting(s) && !s.deleter.Finished?
    ensures OwnStep(Forward(s)) && Next(s, Forward(s)).Some?
  {
    InvParts(s);
    hide Inv, FifoInv;
    if s.deleter.Waiting? {
      WorkerForwardStep(s);
    } else {
      hide ClientStep, WorkerStep;
      OtherActors(s, Forward(s));
    }
  }

  /** Each event is a step of one party only. */
  lemma OtherActors(s: State, e: Event)
    ensures e.DropSender? || e.SendRemove? || e.LoaderGone? || e.RemoveAnswered? || e.SeeExit? || e.LoaderStep? ==>
              ClientStep(s, e).None? && WorkerStep(s, e).None?
    ensures ClientStep(s, e).Some? ==> LoaderStepOf(s, e).None? && WorkerStep(s, e).None? && DeleterStep(s, e).None?
    ensures WorkerStep(s, e).Some? ==> LoaderStepOf(s, e).None? && ClientStep(s, e).None? && DeleterStep(s, e).None?
  {
  }

  lemma WorkerForwardStep(s: State)
    requires ChannelInv(s) && InboxInv(s) && DeleterInv(s) && s.capacity > 0 && s.deleter.Waiting?
    ensures OwnStep(WorkerForward(s)) && Next(s, WorkerForward(s)).Some?
  {
    var e := WorkerForward(s);
    OtherActors(s, e);
    if e.Push? { hide WorkerStep, LoaderStepOf, DeleterStep; }
    else if e.LoaderStep? || e.SeeExit? { hide WorkerStep, ClientStep; }
    else { hide ClientStep, LoaderStepOf, DeleterStep; }
  }

  /** What others can add to that: a permit with its request, a command to the loader. */
  function Adds(e: Event): nat
  {
    match e case Reserve => 8 case Call(_) => 1 case _ => 0
  }

  /** Every step of its own brings a delete nearer to its end, and nobody else's takes it
      further away by more than the work it brings along. */
  lemma StepCounts(s: State, e: Event)
    requires Inv(s) && Deleting(s) && Next(s, e).Some?
    ensures Counts(s, e, Next(s, e).value)
  {
    InvParts(s);
    hide Inv, FifoInv, InboxInv, Left, OwnStep;
    if ClientStep(s, e).Some? { ClientCounts(s, e); }
    else if WorkerStep(s, e).Some? { WorkerCounts(s, e); }
    else if LoaderStepOf(s, e).Some? { LoaderCounts(s, e); }
    else { DeleterCounts(s, e); }
  }

  ghost predicate Counts(s: State, e: Event, s': State)
  {
    Deleting(s') && Left(s') + (if OwnStep(e) then 1 else 0) <= Left(s) + Adds(e)
  }

  lemma ClientCounts(s: State, e: Event)
    requires ChannelInv(s) && Deleting(s) && ClientStep(s, e).Some?
    ensures Counts(s, e, ClientStep(s, e).value)
  {
  }

  lemma WorkerCounts(s: State, e: Event)
    requires ChannelInv(s) && DeleterInv(s) && Deleting(s) && WorkerStep(s, e).Some?
    ensures Counts(s, e, WorkerStep(s, e).value)
  {
  }

  lemma LoaderCounts(s: State, e: Event)
    requires Deleting(s) && LoaderStepOf(s, e).Some?
    ensures Counts(s, e, LoaderStepOf(s, e).value)
  {
  }

  lemma DeleterCounts(s: State, e: Event)
    requires Deleting(s) && DeleterStep(s, e).Some?
    ensures Counts(s, e, DeleterStep(s, e).value)
  {
  }

  function OwnSteps(events: seq<Event>): nat
  {
    if events == [] then 0 else (if OwnStep(events[0]) then 1 else 0) + OwnSteps(events[1..])
  }

  function Added(events: seq<Event>): nat
  {
    if events == [] then 0 else Adds(events[0]) + Added(events[1..])
  }

  /** In every interleaving a delete takes no more steps of its own than it had left, plus
      what others have added: it cannot go round in circles. */
  lemma {:induction false} DeleteIsBounded(s: State, events: seq<Event>)
    requires Inv(s) && Deleting(s) && Run(s, events).Some?
    ensures var s' := Run(s, events).value;
            Inv(s') && Deleting(s') && OwnSteps(events) + Left(s') <= Left(s) + Added(events)
    decreases |events|
  {
    hide Inv, Next, OwnStep, Left, Deleting;
    if events != [] {
      StepCounts(s, events[0]);
      StepKeeps(s, events[0]);
      DeleteIsBounded(Next(s, events[0]).value, events[1..]);
    }
  }

  /** So in every interleaving, once no step of its own is left, it is finished: neither
      deadlock nor livelock keeps it from its end, only a step never scheduled. */
  lemma DeleteFinishes(s: State, events: seq<Event>)
    requires Inv(s) && Deleting(s) && Run(s, events).Some?
    ensures var s' := Run(s, events).value;
            || s'.deleter.Finished?
            || exists e :: OwnStep(e) && Next(s', e).Some?
    ensures OwnSteps(events) >= Left(s) + Added(events) ==> Run(s, events).value.deleter.Finished?
  {
    DeleteIsBounded(s, events);
    var s' := Run(s, events).value;
    hide Inv, Next, OwnStep, Left, Forward;
    if !s'.deleter.Finished? {
      ForwardStep(s');
      StepCounts(s', Forward(s'));
      OwnAddsNothing(Forward(s'));
    }
  }

  lemma OwnAddsNothing(e: Event)
    ensures OwnStep(e) ==> Adds(e) == 0
  {
  }

  /** In particular there is a way to its end, from every reachable state, that asks
      nothing of clients. */
  lemma {:induction false} DeleteCanFinish(s: State) returns (events: seq<Event>)
    requires Inv(s) && Deleting(s)
    ensures forall i :: 0 <= i < |events| ==> OwnStep(events[i])
    ensures Run(s, events).Some? && Run(s, events).value.deleter.Finished?
    decreases Left(s)
  {
    hide Inv, Next, Forward, OwnStep;
    if s.deleter.Finished? {
      events := [];
    } else {
      ForwardStep(s);
      StepCounts(s, Forward(s));
      OwnAddsNothing(Forward(s));
      StepKeeps(s, Forward(s));
      var rest := DeleteCanFinish(Next(s, Forward(s)).value);
      events := [Forward(s)] + rest;
      assert events[1..] == rest;
    }
  }
}
