/**
 The wake handshake between the worker thread and the front-end.

 Every lock-protected section of the C code is one step; so are each read of the wake pipe
 and each return of poll.  The front-end polls without a timeout, so a wake that got lost
 would hang it: the theorems say that it never waits in vain and that nothing published
 is dropped, repeated or reordered.
 */
module WakeProtocol {

  /** Where the front-end is in its loop. */
  datatype Ui =
    | Polling                  // about to block in poll
    | Woken(readable: bool)    // poll returned; was the pipe readable?
    | Drained                  // the pipe has been read, or was not readable
    | Consumed                 // output and status taken
    | Answering                // a queue-drain request was taken and must be answered

  datatype Worker = Running | Waiting

  datatype State = State(
    ui: Ui,
    worker: Worker,
    pipe: nat,                 // bytes in the wake pipe
    wakePending: bool,
    out: string,               // published and not yet consumed
    status: int,
    seen: int,                 // the status the front-end last took or set itself
    statusDirty: bool,         // changed by the worker since the last consume
    drainPending: bool,
    drainAnswered: bool,
    published: string,         // everything ever published
    delivered: string)         // everything ever consumed

  /** The labels of the steps; data chosen by the environment is in the label. */
  datatype Label =
    | Publish(text: string)            // agent_publish
    | PublishDropped                   // agent_publish without memory
    | SetStatus(status: int)           // agent_set_status and every other status change with a wake
    | RequestDrain                     // worker_request_queued_user_drain, up to its wait
    | Resume                           // the worker's wait is over
    | PollReturns                      // the pipe is readable, or input or a timeout ended poll
    | PollInterrupted                  // EINTR
    | DrainRead(n: nat)                // drain_wake_fd: a read that got bytes
    | DrainDone                        // drain_wake_fd: the read that found nothing, or no drain
    | Consume                          // worker_consume
    | TakeRequest                      // worker_take_queued_user_drain_request
    | Answer                           // worker_answer_queued_user_drain
    | UiStatus(status: int)            // worker_submit: the front-end changes the status itself

  /** Bytes a pipe holds at least; a write to a full pipe fails and is ignored. */
  const PIPE_CAPACITY: nat := 4096

  /** agent_wake_locked */
  function Wake(s: State): State {
    if s.wakePending then s
    else s.(wakePending := true, pipe := if s.pipe < PIPE_CAPACITY then s.pipe + 1 else s.pipe)
  }

  predicate Enabled(s: State, l: Label) {
    match l
    case Publish(_) => s.worker.Running?
    case PublishDropped => s.worker.Running?
    case SetStatus(_) => s.worker.Running?
    case RequestDrain => s.worker.Running?
    case Resume => s.worker.Waiting? && s.drainAnswered
    case PollReturns => s.ui.Polling?
    case PollInterrupted => s.ui.Polling?
    case DrainRead(n) => s.ui == Woken(true) && 1 <= n <= s.pipe
    case DrainDone => s.ui.Woken? && (s.ui.readable ==> s.pipe == 0)
    case Consume => s.ui.Drained?
    case TakeRequest => s.ui.Consumed?
    case Answer => s.ui.Answering?
    case UiStatus(_) => s.ui.Polling? || s.ui.Consumed?
  }

  function Next(s: State, l: Label): State
    requires Enabled(s, l)
  {
    match l
    case Publish(text) =>
      if text == "" then s
      else Wake(s.(out := s.out + text, published := s.published + text))
    case PublishDropped => s
    case SetStatus(v) => Wake(s.(status := v, statusDirty := true))
    case RequestDrain => Wake(s.(drainPending := true, drainAnswered := false, worker := Waiting))
    case Resume => s.(drainPending := false, drainAnswered := false, worker := Running)
    case PollReturns => s.(ui := Woken(s.pipe > 0))
    case PollInterrupted => s
    case DrainRead(n) => s.(pipe := s.pipe - n)
    case DrainDone => s.(ui := Drained)
    case Consume =>
      s.(ui := Consumed, delivered := s.delivered + s.out, out := "",
         seen := s.status, statusDirty := false, wakePending := false)
    case TakeRequest =>
      if s.drainPending then s.(drainPending := false, ui := Answering) else s.(ui := Polling)
    case Answer => Wake(s.(drainAnswered := true, ui := Polling))
    case UiStatus(v) => s.(status := v, seen := v)
  }

  function Init(status: int): State {
    State(Polling, Running, 0, false, "", status, status, false, false, false, "", "")
  }

  /** The state after the steps of a run, if each was enabled in its turn. */
  ghost predicate Run(s: State, labels: seq<Label>, t: State)
    decreases |labels|
  {
    if labels == [] then t == s
    else Enabled(s, labels[0]) && Run(Next(s, labels[0]), labels[1..], t)
  }

  /** The front-end would block: it is at poll and the pipe is empty. */
  predicate Blocked(s: State) {
    s.ui.Polling? && s.pipe == 0
  }

  /** Something waits for the front-end to come round. */
  predicate Work(s: State) {
    s.out != "" || s.statusDirty
  }

  /** Everything taken since the pipe was last read is behind the front-end. */
  predicate Settled(s: State) {
    s.ui.Polling? || s.ui.Consumed? || s.ui.Answering?
  }

  ghost predicate Inv(s: State) {
    // a pending wake is in the pipe until the front-end has read it
    && (Settled(s) || s.ui == Woken(false) ==> (s.wakePending ==> s.pipe > 0))
    // work arriving behind a consume has rung
    && (Settled(s) ==> (Work(s) ==> s.pipe > 0))
    // a request the front-end has not looked for has rung
    && (s.ui.Polling? ==> (s.drainPending ==> s.pipe > 0))
    // a request is answered, or on its way to be
    && (s.worker.Waiting? && !s.drainAnswered ==> s.drainPending || s.ui.Answering?)
    && (s.worker.Running? ==> !s.drainPending && !s.drainAnswered && !s.ui.Answering?)
    && (s.drainAnswered ==> !s.drainPending && !s.ui.Answering?)
    && (s.ui.Answering? ==> !s.drainPending)
    && (!s.statusDirty ==> s.seen == s.status)
    && s.pipe <= PIPE_CAPACITY
    // nothing is lost, repeated or reordered
    && s.delivered + s.out == s.published
  }

  lemma InitInv(status: int)
    ensures Inv(Init(status))
  {
  }

  lemma NextInv(s: State, l: Label)
    requires Inv(s) && Enabled(s, l)
    ensures Inv(Next(s, l))
  {
    match l
    case Publish(text) =>
      assert s.delivered + (s.out + text) == (s.delivered + s.out) + text;
    case Consume =>
      assert s.delivered + s.out + "" == s.published;
    case _ =>
  }

  lemma {:induction false} RunInv(s: State, labels: seq<Label>, t: State)
    requires Inv(s) && Run(s, labels, t)
    ensures Inv(t)
    decreases |labels|
  {
    if labels != [] {
      NextInv(s, labels[0]);
      RunInv(Next(s, labels[0]), labels[1..], t);
    }
  }

  /**
   No lost wake: in every run, whenever the front-end would block, everything published
   has been delivered in order, no status change is unseen and no request is unanswered.
   */
  lemma NoLostWake(status: int, labels: seq<Label>, t: State)
    requires Run(Init(status), labels, t) && Blocked(t)
    ensures t.delivered == t.published
    ensures t.seen == t.status
    ensures t.worker.Waiting? ==> t.drainAnswered
  {
    InitInv(status);
    RunInv(Init(status), labels, t);
    assert t.delivered + "" == t.delivered;
  }

  /** In every run, what was consumed is the beginning of what was published. */
  lemma DeliveredInOrder(status: int, labels: seq<Label>, t: State)
    requires Run(Init(status), labels, t)
    ensures t.delivered <= t.published && t.delivered + t.out == t.published
  {
    InitInv(status);
    RunInv(Init(status), labels, t);
  }

  // What a run published, and its status, said by its steps.

  /** The text a step publishes. */
  function Text(l: Label): string {
    if l.Publish? then l.text else ""
  }

  /** All texts published, in order. */
  function PublishedBy(labels: seq<Label>): string {
    if labels == [] then "" else Text(labels[0]) + PublishedBy(labels[1..])
  }

  /** The status a step sets, by the worker or the front-end. */
  function StatusBy(status: int, l: Label): int {
    match l
    case SetStatus(v) => v
    case UiStatus(v) => v
    case _ => status
  }

  /** The status last set. */
  function StatusAfter(status: int, labels: seq<Label>): int
    decreases |labels|
  {
    if labels == [] then status else StatusAfter(StatusBy(status, labels[0]), labels[1..])
  }

  lemma StepRecords(s: State, l: Label)
    requires Enabled(s, l)
    ensures Next(s, l).published == s.published + Text(l)
    ensures Next(s, l).status == StatusBy(s.status, l)
  {
  }

  lemma Joined(a: string, b: string, c: string)
    ensures (a + b) + c == a + (b + c) && a + "" == a
  {
  }

  lemma {:induction false} RunRecords(s: State, labels: seq<Label>, t: State)
    requires Run(s, labels, t)
    ensures t.published == s.published + PublishedBy(labels)
    ensures t.status == StatusAfter(s.status, labels)
    decreases |labels|
  {
    hide Next, Enabled, Text, StatusBy;
    if labels == [] {
      Joined(s.published, "", "");
    } else {
      StepRecords(s, labels[0]);
      RunRecords(Next(s, labels[0]), labels[1..], t);
      Joined(s.published, Text(labels[0]), PublishedBy(labels[1..]));
    }
  }

  /**
   Nothing is lost, said by the steps alone: when the front-end would block it has
   consumed exactly the texts published, in order, and seen the status last set.
   */
  lemma BlockedHasAll(status: int, labels: seq<Label>, t: State)
    requires Run(Init(status), labels, t) && Blocked(t)
    ensures t.delivered == PublishedBy(labels) && t.seen == StatusAfter(status, labels)
  {
    NoLostWake(status, labels, t);
    RunRecords(Init(status), labels, t);
    assert "" + PublishedBy(labels) == PublishedBy(labels);
  }

  /** An open request: asked for, and not answered since. */
  function Asked(labels: seq<Label>, open: bool): bool {
    if labels == [] then open
    else Asked(labels[1..], if labels[0].RequestDrain? then true else if labels[0].Answer? then false else open)
  }

  lemma {:induction false} RunAsks(s: State, labels: seq<Label>, t: State)
    requires Inv(s) && Run(s, labels, t)
    ensures Unanswered(t) <==> Asked(labels, Unanswered(s))
    decreases |labels|
  {
    if labels != [] {
      NextInv(s, labels[0]);
      RunAsks(Next(s, labels[0]), labels[1..], t);
    }
  }

  /** When the front-end would block, every request has been answered. */
  lemma BlockedHasAnswered(status: int, labels: seq<Label>, t: State)
    requires Run(Init(status), labels, t) && Blocked(t)
    ensures !Asked(labels, false)
  {
    InitInv(status);
    RunAsks(Init(status), labels, t);
    NoLostWake(status, labels, t);
  }

  // ------------------------------------------------------------------------------------
  // A request is answered within one round of the front-end
  // ------------------------------------------------------------------------------------

  /** A step of the front-end that is not an interrupted poll. */
  predicate UiStep(l: Label) {
    l.PollReturns? || l.DrainRead? || l.DrainDone? || l.Consume? || l.TakeRequest? || l.Answer?
  }

  predicate Unanswered(s: State) {
    s.worker.Waiting? && !s.drainAnswered
  }

  /** How far the front-end is from answering. */
  function Distance(s: State): nat {
    match s.ui
    case Polling => 4
    case Woken(_) => 3
    case Drained => 2
    case Consumed => 1
    case Answering => 0
  }

  /** While a request is open the front-end has a step to take and does not block. */
  lemma NeverStuck(s: State)
    requires Inv(s) && Unanswered(s)
    ensures !Blocked(s)
    ensures exists l :: UiStep(l) && Enabled(s, l)
  {
    var l := match s.ui
             case Polling => PollReturns
             case Woken(readable) => if readable && s.pipe > 0 then DrainRead(1) else DrainDone
             case Drained => Consume
             case Consumed => TakeRequest
             case Answering => Answer;
    assert UiStep(l) && Enabled(s, l);
  }

  /** Every such step answers the request or comes closer to answering it. */
  lemma ComesCloser(s: State, l: Label)
    requires Inv(s) && Unanswered(s) && UiStep(l) && Enabled(s, l)
    ensures var t := Next(s, l);
            || t.drainAnswered
            || (Unanswered(t) && Distance(t) < Distance(s))
            || (Unanswered(t) && Distance(t) == Distance(s) && t.pipe < s.pipe)
  {
  }

  /** The steps the front-end still needs at most. */
  function Budget(s: State): nat {
    Distance(s) * (PIPE_CAPACITY + 2) + s.pipe
  }

  /** How many steps of a run the front-end makes, interrupted polls not counted. */
  function UiSteps(labels: seq<Label>): nat {
    if labels == [] then 0 else (if UiStep(labels[0]) then 1 else 0) + UiSteps(labels[1..])
  }

  /** The other steps that can happen meanwhile change nothing that matters: the worker waits. */
  lemma OtherStep(s: State, l: Label)
    requires Unanswered(s) && !UiStep(l) && Enabled(s, l)
    ensures var t := Next(s, l);
            Unanswered(t) && Distance(t) == Distance(s) && t.pipe == s.pipe
  {
  }

  /**
   Every run in which the front-end makes as many steps as the budget answers the
   request, whatever happens in between: interrupted polls, input, submitted commands.
   */
  lemma {:induction false} RequestAnswered(s: State, labels: seq<Label>, t: State)
    requires Inv(s) && Unanswered(s) && Run(s, labels, t) && UiSteps(labels) > Budget(s)
    ensures exists k :: 0 < k <= |labels| && AnsweredAfter(s, labels, k)
    decreases |labels|
  {
    var l := labels[0];
    var u := Next(s, l);
    NextInv(s, l);
    if UiStep(l) {
      ComesCloser(s, l);
    } else {
      OtherStep(s, l);
    }
    if u.drainAnswered {
      assert labels[..1] == [l] && Run(s, labels[..1], u);
      assert AnsweredAfter(s, labels, 1);
    } else {
      RequestAnswered(u, labels[1..], t);
      var k :| 0 < k <= |labels[1..]| && AnsweredAfter(u, labels[1..], k);
      assert labels[..k + 1][1..] == labels[1..][..k];
      assert AnsweredAfter(s, labels, k + 1);
    }
  }

  /** The request is answered after the first `k` steps. */
  ghost predicate AnsweredAfter(s: State, labels: seq<Label>, k: nat)
    requires k <= |labels|
  {
    exists u :: Run(s, labels[..k], u) && u.drainAnswered
  }
}
