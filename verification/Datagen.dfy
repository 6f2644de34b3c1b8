/** The batch data-generation state machine: any number of executions that share one iterator. */
module Datagen {
  import opened Basics

  /** The states of the definition, in the order of its chain, and its error handler. */
  datatype Phase =
    | Configuring | Creating | Generating | Updating | Terminating | TerminatingOnError
    | Ended(reason: Reason)

  datatype Reason = Succeeded | StepFailure | NoClusterId | UpdateFailed | TerminateFailed | TimedOut

  /** A cluster runs from its launch until it is terminated or fails to start. */
  datatype Cluster = NotLaunched | Starting | Ready | Gone

  /** `generated` and `updated` record that the data step and the iterator update have succeeded, and
      `caught` the state whose failure was caught. */
  datatype Execution = Execution(phase: Phase, cluster: Cluster, generated: bool, updated: bool, caught: Option<Phase>)

  const STARTED := Execution(Configuring, NotLaunched, false, false, None)

  /** The DynamoDB item `batch_iterator` and all executions so far. */
  datatype System = System(counter: Option<nat>, executions: seq<Execution>)

  datatype Event =
    | Start                    // a schedule or the deployment starts an execution
    | Launch(i: nat)           // the cluster of execution i starts to run
    | Done(i: nat)             // the current state of execution i succeeds
    | Fail(i: nat)             // the current state of execution i fails
    | Timeout(i: nat)          // execution i exceeds its time limit

  predicate Running(c: Cluster) {
    c == Starting || c == Ready
  }

  /** The current state succeeds. Without a cluster id in its input the error handler cannot succeed. */
  predicate CanSucceed(x: Execution) {
    match x.phase
    case Creating => x.cluster == Starting
    case TerminatingOnError => x.cluster == Ready
    case Ended(_) => false
    case _ => true
  }

  function Succeed(x: Execution): Execution {
    match x.phase
    case Configuring => x.(phase := Creating)
    case Creating => x.(phase := Generating, cluster := Ready)
    case Generating => x.(phase := Updating, generated := true)
    case Updating => x.(phase := Terminating, updated := true)
    case Terminating => x.(phase := Ended(Succeeded), cluster := Gone)
    case TerminatingOnError => x.(phase := Ended(StepFailure), cluster := Gone)
    case Ended(_) => x
  }

  /** The first three states are caught; the update and the terminations are not. A failed creation leaves
      no running cluster. */
  function FailState(x: Execution): Execution {
    match x.phase
    case Configuring => x.(phase := TerminatingOnError, caught := Some(Configuring))
    case Creating =>
      x.(phase := TerminatingOnError, caught := Some(Creating), cluster := if x.cluster == Starting then Gone else x.cluster)
    case Generating => x.(phase := TerminatingOnError, caught := Some(Generating))
    case Updating => x.(phase := Ended(UpdateFailed))
    case Terminating => x.(phase := Ended(TerminateFailed))
    case TerminatingOnError => x.(phase := Ended(if x.cluster == Ready then TerminateFailed else NoClusterId))
    case Ended(_) => x
  }

  predicate Enabled(s: System, e: Event) {
    match e
    case Start => true
    case Launch(i) => i < |s.executions| && s.executions[i].phase == Creating && s.executions[i].cluster == NotLaunched
    case Done(i) => i < |s.executions| && CanSucceed(s.executions[i])
    case Fail(i) => i < |s.executions| && !s.executions[i].phase.Ended?
    case Timeout(i) => i < |s.executions| && !s.executions[i].phase.Ended?
  }

  function Set(s: System, i: nat, x: Execution): System
    requires i < |s.executions|
  {
    s.(executions := s.executions[i := x])
  }

  /** `SET iterator = if_not_exists(iterator, 0) + 1`, in one step. */
  function Increment(it: Option<nat>): Option<nat> {
    Some((if it.None? then 0 else it.value) + 1)
  }

  function Next(s: System, e: Event): System
    requires Enabled(s, e)
  {
    match e
    case Start => s.(executions := s.executions + [STARTED])
    case Launch(i) => Set(s, i, s.executions[i].(cluster := Starting))
    case Done(i) =>
      var s' := Set(s, i, Succeed(s.executions[i]));
      if s.executions[i].phase == Updating then s'.(counter := Increment(s.counter)) else s'
    case Fail(i) => Set(s, i, FailState(s.executions[i]))
    case Timeout(i) => Set(s, i, s.executions[i].(phase := Ended(TimedOut)))
  }

  const EMPTY := System(None, [])

  predicate Runs(s: System, es: seq<Event>)
    decreases es
  {
    es == [] || (Enabled(s, es[0]) && Runs(Next(s, es[0]), es[1..]))
  }

  function After(s: System, es: seq<Event>): System
    requires Runs(s, es)
    decreases es
  {
    if es == [] then s else After(Next(s, es[0]), es[1..])
  }

  function Updates(xs: seq<Execution>): nat {
    if xs == [] then 0 else (if xs[0].updated then 1 else 0) + Updates(xs[1..])
  }

  function Generations(xs: seq<Execution>): nat {
    if xs == [] then 0 else (if xs[0].generated then 1 else 0) + Generations(xs[1..])
  }

  /** What the phase of an execution says about its cluster and its records. */
  predicate Consistent(x: Execution) {
    && (x.updated ==> x.generated)
    && CaughtFits(x)
    && match x.phase
       case Configuring => x.cluster == NotLaunched && !x.generated
       case Creating => (x.cluster == NotLaunched || x.cluster == Starting) && !x.generated
       case Generating => x.cluster == Ready && !x.generated
       case Updating => x.cluster == Ready && x.generated && !x.updated
       case Terminating => x.cluster == Ready && x.updated
       case TerminatingOnError => x.cluster != Starting && !x.generated
       case Ended(r) =>
         match r
         case Succeeded => x.cluster == Gone && x.updated
         case StepFailure => x.cluster == Gone && !x.generated
         case NoClusterId => !Running(x.cluster) && !x.generated
         case UpdateFailed => x.cluster == Ready && x.generated && !x.updated
         case TerminateFailed => x.cluster == Ready && x.generated == x.updated
         case TimedOut => true
  }

  /** Before the error handler nothing was caught; in it, there is a cluster iff the data step failed. */
  predicate CaughtFits(x: Execution) {
    match x.phase
    case TerminatingOnError => if x.cluster == Ready then x.caught == Some(Generating) else CaughtEarly(x)
    case Ended(StepFailure) => x.caught == Some(Generating)
    case Ended(NoClusterId) => CaughtEarly(x)
    case Ended(TerminateFailed) => if x.updated then x.caught.None? else x.caught == Some(Generating)
    case Ended(TimedOut) => true
    case _ => x.caught.None?
  }

  /** The failure of the configuration or of the creation was caught: there is no cluster id yet. */
  predicate CaughtEarly(x: Execution) {
    x.caught == Some(Configuring) || x.caught == Some(Creating)
  }

  ghost predicate Inv(s: System) {
    && (forall i :: 0 <= i < |s.executions| ==> Consistent(s.executions[i]))
    && (if s.counter.None? then 0 else s.counter.value) == Updates(s.executions)
  }

  lemma {:induction false} UpdatesSet(xs: seq<Execution>, i: nat, x: Execution)
    requires i < |xs|
    ensures Updates(xs[i := x]) + (if xs[i].updated then 1 else 0) == Updates(xs) + if x.updated then 1 else 0
  {
    if i > 0 {
      assert xs[i := x][1..] == xs[1..][i - 1 := x];
      UpdatesSet(xs[1..], i - 1, x);
    } else {
      assert xs[i := x][1..] == xs[1..];
    }
  }

  lemma {:induction false} UpdatesAppend(xs: seq<Execution>, x: Execution)
    ensures Updates(xs + [x]) == Updates(xs) + if x.updated then 1 else 0
  {
    if xs == [] {
      assert [x][1..] == [] && xs + [x] == [x];
    } else {
      assert (xs + [x])[1..] == xs[1..] + [x];
      UpdatesAppend(xs[1..], x);
    }
  }

  /** What one event makes of the execution it is about. */
  lemma EventKeepsConsistent(s: System, e: Event)
    requires Enabled(s, e) && !e.Start? && Consistent(s.executions[e.i])
    ensures var x, x' := s.executions[e.i], Next(s, e).executions[e.i];
            && Consistent(x')
            && (if e.Done? && x.phase == Updating then !x.updated && x'.updated else x'.updated == x.updated)
  {
  }

  lemma NextKeepsInv(s: System, e: Event)
    requires Inv(s) && Enabled(s, e)
    ensures Inv(Next(s, e))
  {
    if e.Start? {
      UpdatesAppend(s.executions, STARTED);
    } else {
      EventKeepsConsistent(s, e);
      UpdatesSet(s.executions, e.i, Next(s, e).executions[e.i]);
    }
  }

  lemma {:induction false} RunKeepsInv(s: System, es: seq<Event>)
    requires Inv(s) && Runs(s, es)
    ensures Inv(After(s, es))
    decreases es
  {
    if es != [] {
      NextKeepsInv(s, es[0]);
      RunKeepsInv(Next(s, es[0]), es[1..]);
    }
  }

  lemma {:induction false} UpdatesWithinGenerations(xs: seq<Execution>)
    requires forall i :: 0 <= i < |xs| ==> Consistent(xs[i])
    ensures Updates(xs) <= Generations(xs)
  {
    if xs != [] {
      UpdatesWithinGenerations(xs[1..]);
    }
  }

  /** For any number of interleaved executions and any faults: the iterator counts the update steps that
      completed, and so never exceeds the data steps that succeeded. */
  lemma IteratorCountsUpdates(es: seq<Event>)
    requires Runs(EMPTY, es)
    ensures var s := After(EMPTY, es);
            && (if s.counter.None? then 0 else s.counter.value) == Updates(s.executions)
            && Updates(s.executions) <= Generations(s.executions) <= |s.executions|
  {
    RunKeepsInv(EMPTY, es);
    UpdatesWithinGenerations(After(EMPTY, es).executions);
    GenerationsBound(After(EMPTY, es).executions);
  }

  lemma {:induction false} GenerationsBound(xs: seq<Execution>)
    ensures Generations(xs) <= |xs|
  {
    if xs != [] {
      GenerationsBound(xs[1..]);
    }
  }

  /** An execution that has ended, not by its time limit, has left its cluster running iff the update or a
      termination failed; in particular a caught failure never does. */
  lemma LeftRunningIff(es: seq<Event>, i: nat)
    requires Runs(EMPTY, es) && i < |After(EMPTY, es).executions|
    requires After(EMPTY, es).executions[i].phase.Ended?
    ensures var x := After(EMPTY, es).executions[i];
            && (x.phase.reason != TimedOut ==>
                  (Running(x.cluster) <==> x.phase.reason == UpdateFailed || x.phase.reason == TerminateFailed))
            && (x.phase.reason == Succeeded ==> x.generated && x.updated)
            && (x.phase.reason == StepFailure || x.phase.reason == NoClusterId ==> !x.generated)
  {
    RunKeepsInv(EMPTY, es);
    assert Consistent(After(EMPTY, es).executions[i]);
  }

  /** How a caught failure ends, for any interleaved executions: the error handler itself fails, for want of a
      cluster id, iff the configuration or the creation had failed; after a failed data step it terminates the
      cluster or fails to. In the first case no cluster is running. */
  lemma CaughtFailureEnds(es: seq<Event>, i: nat)
    requires Runs(EMPTY, es) && i < |After(EMPTY, es).executions|
    requires var x := After(EMPTY, es).executions[i]; x.phase.Ended? && x.phase.reason != TimedOut
    ensures var x := After(EMPTY, es).executions[i];
            && (x.phase.reason == NoClusterId <==> CaughtEarly(x))
            && (x.caught == Some(Generating) <==>
                  x.phase.reason == StepFailure || (x.phase.reason == TerminateFailed && !x.updated))
            && (x.caught.None? <==>
                  || x.phase.reason == Succeeded || x.phase.reason == UpdateFailed
                  || (x.phase.reason == TerminateFailed && x.updated))
            && (CaughtEarly(x) ==> !Running(x.cluster))
  {
    RunKeepsInv(EMPTY, es);
    assert Consistent(After(EMPTY, es).executions[i]);
  }

  lemma RunStep(s: System, es: seq<Event>)
    requires es != [] && Enabled(s, es[0]) && Runs(Next(s, es[0]), es[1..])
    ensures Runs(s, es) && After(s, es) == After(Next(s, es[0]), es[1..])
  {
  }

  /** The error handler does fail so: a creation that fails with its cluster starting up ends the execution
      without the intended failure state. */
  lemma ErrorHandlerFails() returns (es: seq<Event>)
    ensures Runs(EMPTY, es) && |After(EMPTY, es).executions| == 1
    ensures var x := After(EMPTY, es).executions[0];
            x.phase == Ended(NoClusterId) && x.caught == Some(Creating) && x.cluster == Gone
  {
    es := [Start, Done(0), Launch(0), Fail(0), Fail(0)];
    var s1 := Next(EMPTY, Start);
    var s2 := Next(s1, Done(0));
    var s3 := Next(s2, Launch(0));
    var s4 := Next(s3, Fail(0));
    var s5 := Next(s4, Fail(0));
    assert Runs(s5, []) && After(s5, []) == s5;
    assert es[1..][1..][1..][1..][1..] == [];
    RunStep(s4, es[1..][1..][1..][1..]);
    RunStep(s3, es[1..][1..][1..]);
    RunStep(s2, es[1..][1..]);
    RunStep(s1, es[1..]);
    RunStep(EMPTY, es);
  }

  /** Without faults: an execution that is started in any state of the system can run to its end, with its
      cluster gone and the iterator one higher. */
  lemma SuccessfulExecution(s: System) returns (es: seq<Event>)
    ensures Runs(s, es)
    ensures var s' := After(s, es);
            && s'.executions == s.executions + [Execution(Ended(Succeeded), Gone, true, true, None)]
            && s'.counter == Some(if s.counter.None? then 1 else s.counter.value + 1)
  {
    var n := |s.executions|;
    var s1 := Next(s, Start);
    var s2 := Next(s1, Done(n));
    var s3 := Next(s2, Launch(n));
    var s4 := Next(s3, Done(n));
    var s5 := Next(s4, Done(n));
    var s6 := Next(s5, Done(n));
    var s7 := Next(s6, Done(n));
    es := [Start, Done(n), Launch(n), Done(n), Done(n), Done(n), Done(n)];
    assert Runs(s7, []) && After(s7, []) == s7;
    assert es[1..][1..][1..][1..][1..][1..][1..] == [];
    RunStep(s6, es[1..][1..][1..][1..][1..][1..]);
    RunStep(s5, es[1..][1..][1..][1..][1..]);
    RunStep(s4, es[1..][1..][1..][1..]);
    RunStep(s3, es[1..][1..][1..]);
    RunStep(s2, es[1..][1..]);
    RunStep(s1, es[1..]);
    RunStep(s, es);
  }

  /** A failure of one of the first three states is caught; the others end the execution. Nothing else of the
      system changes. */
  lemma FailureIsCaughtIff(s: System, i: nat)
    requires Enabled(s, Fail(i))
    ensures var (s', x) := (Next(s, Fail(i)), s.executions[i]);
            && s'.counter == s.counter && |s'.executions| == |s.executions|
            && (forall j :: 0 <= j < |s.executions| && j != i ==> s'.executions[j] == s.executions[j])
            && (x.phase in {Configuring, Creating, Generating} <==> s'.executions[i].phase == TerminatingOnError)
            && (x.phase in {Configuring, Creating, Generating} ==> s'.executions[i].caught == Some(x.phase))
            && (x.phase in {Updating, Terminating, TerminatingOnError} <==> s'.executions[i].phase.Ended?)
  {
  }

  /** The error handler, with a cluster id, can terminate the cluster. */
  lemma HandlerTerminates(s: System, i: nat)
    requires i < |s.executions| && s.executions[i].phase == TerminatingOnError && s.executions[i].cluster == Ready
    ensures Enabled(s, Done(i))
    ensures Next(s, Done(i)).executions[i].phase == Ended(StepFailure) && Next(s, Done(i)).executions[i].cluster == Gone
  {
  }
}
