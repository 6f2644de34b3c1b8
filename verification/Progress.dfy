/** The pipeline always drains: no schedule runs for ever and none gets stuck. */
module Progress {
  import opened Records
  import opened Pipeline
  import opened BatchJoin
  import opened Confluence

  /** A scheduler: which action comes n-th, in a given state. */
  type Scheduler = (nat, State) -> Action

  ghost predicate PicksEnabled(pick: Scheduler) {
    forall n, st | Shape(st) && !Drained(st) :: Enabled(st, pick(n, st))
  }

  /** acts is what the scheduler does from its n-th action on. */
  ghost predicate Follows(pick: Scheduler, n: nat, st: State, acts: seq<Action>)
    requires Shape(st) && Runs(st, acts)
    decreases acts
  {
    acts == [] ||
    (NextKeepsShape(st, acts[0]); acts[0] == pick(n, st) && Follows(pick, n + 1, Next(st, acts[0]), acts[1..]))
  }

  lemma NotStuck(st: State) returns (a: Action)
    requires Shape(st) && !Drained(st)
    ensures Enabled(st, a)
  {
    if st.customers != [] {
      a := CleanCustomer(0);
    } else if st.cleaned != [] {
      a := TakeCustomer(0);
    } else if st.addresses != [] {
      a := TakeAddress(0);
    } else {
      var k: Stage :| st.sales[k] != [] || st.refs[k] != [];
      a := if st.sales[k] != [] then TakeSale(k, 0) else TakeRef(k, 0);
    }
  }

  /** From any state, every scheduler that picks enabled actions drains the pipeline after finitely many.
      Each action takes from one channel and only adds to channels further down. */
  lemma {:induction false} EverySchedulerDrains(pick: Scheduler, n: nat, st: State) returns (acts: seq<Action>)
    requires Shape(st) && PicksEnabled(pick)
    ensures Runs(st, acts) && Drained(After(st, acts))
    ensures Follows(pick, n, st, acts)
    decreases |st.customers|, |st.cleaned|, |st.addresses|,
              |st.refs[0]|, |st.refs[1]|, |st.refs[2]|, |st.refs[3]|,
              |st.sales[0]|, |st.sales[1]|, |st.sales[2]|, |st.sales[3]|
  {
    if Drained(st) {
      acts := [];
    } else {
      var a := pick(n, st);
      NextKeepsShape(st, a);
      var rest := EverySchedulerDrains(pick, n + 1, Next(st, a));
      acts := [a] + rest;
      assert acts[1..] == rest;
    }
  }

  /** So the job refines the batch join under every scheduler, from the sources to the sink. */
  lemma EverySchedulerComputesTheJoin(pick: Scheduler, inp: Inputs) returns (acts: seq<Action>)
    requires UniqueIds(inp) && PicksEnabled(pick)
    ensures Runs(Init(inp), acts) && Follows(pick, 0, Init(inp), acts)
    ensures Drained(After(Init(inp), acts))
    ensures multiset(After(Init(inp), acts).sales[4]) == multiset(JoinFrom(inp, 0, inp.sales))
  {
    acts := EverySchedulerDrains(pick, 0, Init(inp));
    EveryRunComputesTheJoin(inp, acts);
  }
}
