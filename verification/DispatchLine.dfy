/** The path of a job from Enqueue to a worker (internal/gitops/worker.go): an
    unbounded backlog, a one-token notify channel, a single dispatcher and the
    bounded worker channel.  Enqueue is two steps, the append under the backlog's
    lock and the non-blocking signal, and everything may interleave.
  */
module DispatchLine {
  /** A clone_jobs row's identity.  The storage path a job works on is fixed by its
      repository, so it is carried with the identity. */
  datatype Job = Job(id: nat, path: string)

  datatype Dispatcher =
    | Scanning            // about to lock the backlog
    | Waiting             // saw an empty backlog, parked on notify
    | Sending(job: Job)   // holds a job, parked on the worker channel
    | Gone

  datatype Line = Line(
    backlog: seq<Job>,
    signallers: nat,      // Enqueue calls between their append and their signal
    notify: bool,
    disp: Dispatcher,
    chan: seq<Job>,
    enqueued: seq<Job>,   // history, in append order
    received: seq<Job>)   // history, in the order workers took them

  const QUEUE_CAPACITY := 128
  const EMPTY_LINE := Line([], 0, false, Scanning, [], [], [])

  datatype LineStep = Append(j: Job) | Signal | Scan | Wake | Send | DispatchExit | Receive

  predicate CanStep(l: Line, step: LineStep) {
    match step
    case Append(_) => true
    case Signal => l.signallers > 0
    case Scan => l.disp.Scanning?
    case Wake => l.disp.Waiting? && l.notify
    case Send => l.disp.Sending? && |l.chan| < QUEUE_CAPACITY
    case DispatchExit => l.disp.Waiting? || l.disp.Sending?
    case Receive => l.chan != []
  }

  function Next(l: Line, step: LineStep): Line
    requires CanStep(l, step)
  {
    match step
    case Append(j) => l.(backlog := l.backlog + [j], enqueued := l.enqueued + [j], signallers := l.signallers + 1)
    case Signal => l.(signallers := l.signallers - 1, notify := true)
    case Scan =>
      if l.backlog == [] then l.(disp := Waiting)
      else l.(disp := Sending(l.backlog[0]), backlog := l.backlog[1..])
    case Wake => l.(notify := false, disp := Scanning)
    case Send => l.(chan := l.chan + [l.disp.job], disp := Scanning)
    case DispatchExit => l.(disp := Gone)
    case Receive => l.(chan := l.chan[1..], received := l.received + [l.chan[0]])
  }

  function Hand(d: Dispatcher): seq<Job> {
    if d.Sending? then [d.job] else []
  }

  // First in, first out: while the dispatcher lives nothing is lost or reordered;
  // afterwards what has been handed on is still an initial part of what came in.
  ghost predicate InOrder(l: Line) {
    if l.disp.Gone? then l.received + l.chan <= l.enqueued
    else l.received + l.chan + Hand(l.disp) + l.backlog == l.enqueued
  }

  // A parked dispatcher with work to do has a wake-up token, or one on its way.
  ghost predicate Awake(l: Line) {
    l.disp.Waiting? && l.backlog != [] ==> l.notify || l.signallers > 0
  }

  ghost predicate LineInv(l: Line) {
    InOrder(l) && Awake(l) && |l.chan| <= QUEUE_CAPACITY
  }

  lemma AppendKeepsOrder(l: Line, j: Job)
    requires InOrder(l)
    ensures InOrder(Next(l, Append(j)))
  {
    if !l.disp.Gone? {
      assert l.received + l.chan + Hand(l.disp) + (l.backlog + [j])
          == l.received + l.chan + Hand(l.disp) + l.backlog + [j];
    }
  }

  lemma ScanKeepsOrder(l: Line)
    requires InOrder(l) && l.disp.Scanning? && l.backlog != []
    ensures InOrder(Next(l, Scan))
  {
    assert l.backlog == [l.backlog[0]] + l.backlog[1..];
    assert l.received + l.chan + [] + l.backlog == l.received + l.chan + [l.backlog[0]] + l.backlog[1..];
  }

  lemma SendKeepsOrder(l: Line)
    requires InOrder(l) && CanStep(l, Send)
    ensures InOrder(Next(l, Send))
  {
    assert l.received + (l.chan + [l.disp.job]) + [] == l.received + l.chan + Hand(l.disp);
  }

  lemma ReceiveKeepsOrder(l: Line)
    requires InOrder(l) && l.chan != []
    ensures InOrder(Next(l, Receive))
  {
    assert l.chan == [l.chan[0]] + l.chan[1..];
    assert l.received + [l.chan[0]] + l.chan[1..] == l.received + l.chan;
  }

  lemma StepKeepsOrder(l: Line, step: LineStep)
    requires CanStep(l, step) && InOrder(l)
    ensures InOrder(Next(l, step))
  {
    match step
    case Append(j) => AppendKeepsOrder(l, j);
    case Scan =>
      if l.backlog != [] {
        ScanKeepsOrder(l);
      }
    case Send => SendKeepsOrder(l);
    case Receive => ReceiveKeepsOrder(l);
    case _ =>
  }

  lemma StepKeepsLineInv(l: Line, step: LineStep)
    requires CanStep(l, step) && LineInv(l)
    ensures LineInv(Next(l, step))
  {
    StepKeepsOrder(l, step);
  }

  ghost predicate LineRun(l: Line, steps: seq<LineStep>, m: Line)
    decreases |steps|
  {
    if steps == [] then l == m
    else CanStep(l, steps[0]) && LineRun(Next(l, steps[0]), steps[1..], m)
  }

  lemma {:induction false} RunKeepsLineInv(l: Line, steps: seq<LineStep>, m: Line)
    requires LineInv(l) && LineRun(l, steps, m)
    ensures LineInv(m)
    decreases |steps|
  {
    if steps != [] {
      StepKeepsLineInv(l, steps[0]);
      RunKeepsLineInv(Next(l, steps[0]), steps[1..], m);
    }
  }

  /** FIFO and no lost wake-up, in every state any interleaving can reach. */
  lemma DeliveryIsFifo(steps: seq<LineStep>, l: Line)
    requires LineRun(EMPTY_LINE, steps, l)
    ensures l.received <= l.enqueued
    ensures !l.disp.Gone? ==> l.received + l.chan + Hand(l.disp) + l.backlog == l.enqueued
    ensures l.disp.Waiting? && l.backlog != [] ==> l.notify || l.signallers > 0
    ensures |l.chan| <= 128
  {
    RunKeepsLineInv(EMPTY_LINE, steps, l);
  }

  /** No lost wake-up as progress: whenever the dispatcher is parked on a non-empty
      backlog, at most three steps (a pending signal, the wake-up, the next scan) put the
      oldest waiting job into its hand. */
  lemma ParkedDispatcherCanProceed(steps: seq<LineStep>, l: Line)
    requires LineRun(EMPTY_LINE, steps, l) && l.disp.Waiting? && l.backlog != []
    ensures exists more, m :: |more| <= 3 && LineRun(l, more, m) && m.disp == Sending(l.backlog[0])
              && m.backlog == l.backlog[1..]
  {
    DeliveryIsFifo(steps, l);
    var more := (if l.notify then [] else [Signal]) + [Wake, Scan];
    var l1 := if l.notify then l else Next(l, Signal);
    var l2 := Next(l1, Wake);
    var m := Next(l2, Scan);
    assert LineRun(m, [], m);
    assert LineRun(l2, [Scan], m) by { assert [Scan][1..] == []; }
    assert LineRun(l1, [Wake, Scan], m) by { assert [Wake, Scan][1..] == [Scan]; }
    if l.notify {
      assert more == [Wake, Scan];
    } else {
      assert more == [Signal, Wake, Scan] && more[1..] == [Wake, Scan];
    }
    assert LineRun(l, more, m);
  }

  function CountSteps(steps: seq<LineStep>, step: LineStep): nat {
    if steps == [] then 0 else (if steps[0] == step then 1 else 0) + CountSteps(steps[1..], step)
  }

  function Token(l: Line): nat {
    if l.notify then 1 else 0
  }

  lemma {:induction false} SignalsAdd(l: Line, steps: seq<LineStep>, m: Line)
    requires LineRun(l, steps, m)
    ensures m.signallers + CountSteps(steps, Signal) + |l.enqueued| == l.signallers + |m.enqueued|
    ensures CountSteps(steps, Wake) + Token(m) <= CountSteps(steps, Signal) + Token(l)
    decreases |steps|
  {
    if steps != [] {
      SignalsAdd(Next(l, steps[0]), steps[1..], m);
    }
  }

  /** Every Enqueue signals once, and the dispatcher wakes up no more often than it is
      signalled: it never spins. */
  lemma WakesAreSignalled(steps: seq<LineStep>, l: Line)
    requires LineRun(EMPTY_LINE, steps, l)
    ensures l.signallers + CountSteps(steps, Signal) == |l.enqueued|
    ensures CountSteps(steps, Wake) + Token(l) <= CountSteps(steps, Signal) <= |l.enqueued|
  {
    SignalsAdd(EMPTY_LINE, steps, l);
  }

  // Work is waiting and the dispatcher is not holding a job.
  predicate Hungry(l: Line) {
    (l.disp.Waiting? || l.disp.Scanning?) && l.backlog != []
  }

  // The step that is due, and how many are due before a job is in hand.
  function Owed(l: Line): LineStep {
    if l.disp.Scanning? then Scan else if l.notify then Wake else Signal
  }

  function StepsOwed(l: Line): nat {
    if !Hungry(l) then 0 else if l.disp.Scanning? then 1 else if l.notify then 2 else 3
  }

  function HandedOn(l: Line): nat {
    |l.received| + |l.chan| + |Hand(l.disp)|
  }

  // How often a run takes the step that is due, up to the moment a job is in hand.
  function OwedTaken(l: Line, steps: seq<LineStep>): nat
    decreases |steps|
  {
    if steps == [] || !Hungry(l) || !CanStep(l, steps[0]) then 0
    else (if steps[0] == Owed(l) then 1 else 0) + OwedTaken(Next(l, steps[0]), steps[1..])
  }

  lemma HandedOnGrows(l: Line, step: LineStep)
    requires CanStep(l, step) && !step.DispatchExit?
    ensures HandedOn(l) <= HandedOn(Next(l, step))
  {
  }

  lemma {:induction false} HandedOnStays(l: Line, steps: seq<LineStep>, m: Line)
    requires LineRun(l, steps, m) && forall i :: 0 <= i < |steps| ==> !steps[i].DispatchExit?
    ensures HandedOn(l) <= HandedOn(m)
    decreases |steps|
  {
    hide CanStep, Next, HandedOn;
    if steps != [] {
      HandedOnGrows(l, steps[0]);
      HandedOnStays(Next(l, steps[0]), steps[1..], m);
    }
  }

  lemma HungryStep(l: Line, step: LineStep)
    requires LineInv(l) && Hungry(l) && CanStep(l, step) && !step.DispatchExit?
    ensures CanStep(l, Owed(l))
    ensures var m := Next(l, step);
            if step == Owed(l) then
              if l.disp.Scanning? then HandedOn(m) > HandedOn(l) && m.disp == Sending(l.backlog[0])
              else Hungry(m) && m.backlog[0] == l.backlog[0] && StepsOwed(m) == StepsOwed(l) - 1
            else Hungry(m) && m.backlog[0] == l.backlog[0] && Owed(m) == Owed(l) && StepsOwed(m) == StepsOwed(l)
  {
  }

  /** And nobody can take these steps away: along every run in which the dispatcher is not
      told to exit, whatever the callers and workers do, a job has been handed on, or the
      same job is still first, the next due step is enabled, and as many fewer are due as
      have been taken. */
  lemma {:induction false} DueStepsStayDue(l: Line, steps: seq<LineStep>, m: Line)
    requires LineInv(l) && (l.disp.Waiting? || l.disp.Scanning?) && l.backlog != []
    requires LineRun(l, steps, m) && forall i :: 0 <= i < |steps| ==> !steps[i].DispatchExit?
    ensures StepsOwed(l) <= 3
    ensures || HandedOn(m) > HandedOn(l)
            || (Hungry(m) && m.backlog[0] == l.backlog[0] && CanStep(m, Owed(m))
                && StepsOwed(m) + OwedTaken(l, steps) == StepsOwed(l))
    decreases |steps|
  {
    if steps == [] {
      HungryStep(l, Append(Job(0, "")));
    } else {
      var n := Next(l, steps[0]);
      assert !steps[0].DispatchExit?;
      HungryStep(l, steps[0]);
      StepKeepsLineInv(l, steps[0]);
      HandedOnGrows(l, steps[0]);
      HandedOnStays(n, steps[1..], m);
      hide CanStep, Next, LineInv, HandedOn;
      if Hungry(n) {
        DueStepsStayDue(n, steps[1..], m);
      }
    }
  }

  // ------------------------------------------------------------------- counting

  function Is(b: bool): nat {
    if b then 1 else 0
  }

  function Count(q: seq<Job>, k: Job): nat {
    if q == [] then 0 else Is(q[0] == k) + Count(q[1..], k)
  }

  function InLine(l: Line, k: Job): nat {
    Count(l.backlog, k) + Is(l.disp.Sending? && l.disp.job == k) + Count(l.chan, k)
  }

  lemma {:induction false} CountAppend(q: seq<Job>, j: Job, k: Job)
    ensures Count(q + [j], k) == Count(q, k) + Is(j == k)
  {
    if q == [] {
      assert q + [j] == [j];
    } else {
      CountAppend(q[1..], j, k);
      assert (q + [j])[1..] == q[1..] + [j];
    }
  }

  lemma {:induction false} CountHas(q: seq<Job>, k: Job)
    ensures Count(q, k) > 0 <==> k in q
  {
    if q != [] {
      CountHas(q[1..], k);
      assert q == [q[0]] + q[1..];
    }
  }

  /** Only Append puts a job into the line, and only a worker's receive or the
      dispatcher's exit takes one out. */
  lemma StepCounts(l: Line, step: LineStep, k: Job)
    requires CanStep(l, step)
    ensures InLine(Next(l, step), k) ==
            match step
            case Append(j) => InLine(l, k) + Is(j == k)
            case Receive => InLine(l, k) - Is(l.chan[0] == k)
            case DispatchExit => InLine(l, k) - Is(l.disp.Sending? && l.disp.job == k)
            case _ => InLine(l, k)
  {
    match step
    case Append(j) => CountAppend(l.backlog, j, k);
    case Send => CountAppend(l.chan, l.disp.job, k);
    case _ =>
  }
}
