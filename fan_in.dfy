/**
 * `comparison_stream`: one collection task per requested provider, then
 * polling rounds that report each task once it is done, then a final
 * `done`. Concurrency is replaced by a schedule: `finish(k)` is the
 * polling round (counted from 0) in which the task of provider `k` is
 * first seen done, so the set of tasks done at a round only grows.
 */
module FanIn {
  import opened Sets
  import opened Seqs

  /** What awaiting a collection task gives: its string, or the text of the exception it raised. */
  datatype TaskOutcome = Returned(result: string) | Raised(message: string)

  /** One server-sent event of a comparison request. */
  datatype SessionEvent =
    | ProviderList(providers: seq<string>)
    | ProviderResult(provider: string, result: string)
    | ProviderError(provider: string, error: string)
    | AllDone
    | RequestError(error: string)

  /** The event reporting a finished task: its result, or its error. */
  function OutcomeEvent(k: string, o: TaskOutcome): (e: SessionEvent)
    ensures (e.ProviderResult? || e.ProviderError?) && e.provider == k
    ensures e.ProviderResult? <==> o.Returned?
    ensures o.Returned? ==> e.result == o.result
    ensures o.Raised? ==> e.error == o.message
  {
    match o
    case Returned(r) => ProviderResult(k, r)
    case Raised(m) => ProviderError(k, m)
  }

  /** The events reporting the tasks of `keys`, in that order. */
  function EventsFor(keys: seq<string>, tasks: map<string, TaskOutcome>): (r: seq<SessionEvent>)
    requires forall i :: 0 <= i < |keys| ==> keys[i] in tasks
    ensures |r| == |keys|
    ensures forall i :: 0 <= i < |r| ==> r[i] == OutcomeEvent(keys[i], tasks[keys[i]])
  {
    seq(|keys|, i requires 0 <= i < |keys| => OutcomeEvent(keys[i], tasks[keys[i]]))
  }

  lemma EventsForConcat(a: seq<string>, b: seq<string>, tasks: map<string, TaskOutcome>)
    requires forall i :: 0 <= i < |a| ==> a[i] in tasks
    requires forall i :: 0 <= i < |b| ==> b[i] in tasks
    ensures EventsFor(a + b, tasks) == EventsFor(a, tasks) + EventsFor(b, tasks)
  {
    assert forall i :: 0 <= i < |a + b| ==> (a + b)[i] in tasks;
  }

  /** The tasks dictionary: one task per distinct requested provider. */
  function TaskMap(requested: seq<string>, outcome: string -> TaskOutcome): (r: map<string, TaskOutcome>)
    ensures r.Keys == Elements(requested)
  {
    map k | k in requested :: outcome(k)
  }

  /** The providers a polling round reports: in dispatch order, those done now and not yet completed. */
  function RoundKeys(order: seq<string>, completed: set<string>, doneNow: set<string>): seq<string> {
    Filter(order, k => k !in completed && k in doneNow)
  }

  /** The tasks of `keys` that are done now. */
  function SeenDone(keys: seq<string>, doneNow: set<string>): set<string> {
    set k | k in keys && k in doneNow
  }

  /** The loop as corrected: it runs while some task has not been reported. */
  predicate Guard(completed: set<string>, tasks: map<string, TaskOutcome>) {
    |completed| < |tasks|
  }

  /** The loop guard as written: it compares with the number of requested entries, duplicates included. */
  predicate GuardAsWritten(completed: set<string>, requested: seq<string>) {
    |completed| < |requested|
  }

  /**
   * The fan-in state: the tasks in insertion order with their outcomes,
   * the providers already reported, and the events emitted so far.
   */
  class Session {
    var order: seq<string>
    var tasks: map<string, TaskOutcome>
    var completed: set<string>
    var emitted: seq<SessionEvent>

    ghost predicate Valid()
      reads this
    {
      && NoDup(order)
      && tasks.Keys == Elements(order)
      && completed <= tasks.Keys
    }

    /** Start the tasks, then emit the provider list. */
    constructor (requested: seq<string>, outcome: string -> TaskOutcome)
      ensures Valid()
      ensures order == Dedup(requested) && tasks == TaskMap(requested, outcome)
      ensures completed == {}
      ensures emitted == [ProviderList(requested)]
    {
      var o, t := Dispatch(requested, outcome);
      order := o;
      tasks := t;
      completed := {};
      emitted := [ProviderList(requested)];
    }

    /**
     * One polling round: walk the tasks in order and report each one that
     * is done now and not yet completed, adding it to `completed`.
     */
    method PollRound(doneNow: set<string>)
      requires Valid()
      modifies this
      ensures Valid()
      ensures order == old(order) && tasks == old(tasks)
      ensures completed == old(completed) + SeenDone(order, doneNow)
      ensures emitted == old(emitted) + EventsFor(RoundKeys(order, old(completed), doneNow), tasks)
    {
      var done, reports := Poll(order, tasks, completed, doneNow);
      completed := done;
      emitted := emitted + reports;
    }

    /** After the loop: signal completion. */
    method Finish()
      modifies this
      ensures order == old(order) && tasks == old(tasks) && completed == old(completed)
      ensures emitted == old(emitted) + [AllDone]
    {
      emitted := emitted + [AllDone];
    }
  }

  /**
   * The loop of one polling round over the dispatch order: the tasks done
   * now and not completed before are reported in order and added, once
   * each, to the completed set.
   */
  method Poll(order: seq<string>, tasks: map<string, TaskOutcome>, c0: set<string>, doneNow: set<string>)
    returns (done: set<string>, reports: seq<SessionEvent>)
    requires NoDup(order) && Elements(order) <= tasks.Keys
    ensures done == c0 + SeenDone(order, doneNow)
    ensures reports == EventsFor(RoundKeys(order, c0, doneNow), tasks)
  {
    done := c0;
    reports := [];
    for i := 0 to |order|
      invariant done == c0 + SeenDone(order[..i], doneNow)
      invariant reports == EventsFor(RoundKeys(order[..i], c0, doneNow), tasks)
    {
      var k := order[i];
      PollStep(order, i, c0, doneNow, tasks);
      if k !in done && k in doneNow {
        reports := reports + [OutcomeEvent(k, tasks[k])];
        done := done + {k};
      }
    }
    WholeRound(order, c0, doneNow);
  }

  /**
   * What one step of a polling round sees at the `i`-th task: it was not
   * reported earlier in the round, and the round's reports and completed
   * set grow by it exactly when it is done now and was not completed before.
   */
  lemma PollStep(order: seq<string>, i: nat, c0: set<string>, doneNow: set<string>, tasks: map<string, TaskOutcome>)
    requires NoDup(order) && i < |order| && Elements(order) <= tasks.Keys
    ensures order[i] !in SeenDone(order[..i], doneNow)
    ensures SeenDone(order[..i + 1], doneNow) ==
      SeenDone(order[..i], doneNow) + (if order[i] in doneNow then {order[i]} else {})
    ensures EventsFor(RoundKeys(order[..i + 1], c0, doneNow), tasks) ==
      EventsFor(RoundKeys(order[..i], c0, doneNow), tasks) +
      (if order[i] !in c0 && order[i] in doneNow then [OutcomeEvent(order[i], tasks[order[i]])] else [])
  {
    var k := order[i];
    assert order[..i + 1] == order[..i] + [k];
    assert order[..i + 1][..i] == order[..i];
    forall j | 0 <= j < i
      ensures order[..i][j] != k
    {
    }
    var before := RoundKeys(order[..i], c0, doneNow);
    assert RoundKeys(order[..i + 1], c0, doneNow) == before + (if k !in c0 && k in doneNow then [k] else []);
    if k !in c0 && k in doneNow {
      EventsForConcat(before, [k], tasks);
    } else {
      assert before + [] == before;
    }
  }

  /** A round over the whole order is a round over its full prefix. */
  lemma WholeRound(order: seq<string>, c0: set<string>, doneNow: set<string>)
    ensures SeenDone(order[..|order|], doneNow) == SeenDone(order, doneNow)
    ensures RoundKeys(order[..|order|], c0, doneNow) == RoundKeys(order, c0, doneNow)
  {
    assert order[..|order|] == order;
  }

  /**
   * Build the tasks dictionary: assign a task to each requested provider
   * in turn. A repeated key replaces the task but keeps its place.
   */
  method Dispatch(requested: seq<string>, outcome: string -> TaskOutcome)
    returns (order: seq<string>, tasks: map<string, TaskOutcome>)
    ensures order == Dedup(requested)
    ensures tasks == TaskMap(requested, outcome)
    ensures NoDup(order) && tasks.Keys == Elements(order)
  {
    order := [];
    tasks := map[];
    for i := 0 to |requested|
      invariant order == Dedup(requested[..i])
      invariant tasks == TaskMap(requested[..i], outcome)
    {
      var k := requested[i];
      DispatchStep(requested, i, outcome);
      if k !in tasks {
        order := order + [k];
      }
      tasks := tasks[k := outcome(k)];
    }
    WholeRequest(requested, outcome);
  }

  /** Assigning one more requested key: a new key is appended to the order, and its task is (re)placed. */
  lemma DispatchStep(requested: seq<string>, i: nat, outcome: string -> TaskOutcome)
    requires i < |requested|
    ensures var k := requested[i];
      Dedup(requested[..i + 1]) == if k in Elements(requested[..i]) then Dedup(requested[..i]) else Dedup(requested[..i]) + [k]
    ensures TaskMap(requested[..i + 1], outcome) == TaskMap(requested[..i], outcome)[requested[i] := outcome(requested[i])]
  {
    var k := requested[i];
    assert requested[..i + 1][..i] == requested[..i];
    assert requested[..i + 1] == requested[..i] + [k];
    assert Elements(requested[..i + 1]) == Elements(requested[..i]) + {k};
  }

  /** The tasks of the whole request are those of its full prefix. */
  lemma WholeRequest(requested: seq<string>, outcome: string -> TaskOutcome)
    ensures Dedup(requested[..|requested|]) == Dedup(requested)
    ensures TaskMap(requested[..|requested|], outcome) == TaskMap(requested, outcome)
  {
    assert requested[..|requested|] == requested;
  }

  /** The providers whose task is seen done at round `r`. */
  function DoneAt(order: seq<string>, finish: string -> nat, r: nat): set<string> {
    set k | k in order && finish(k) <= r
  }

  /** The providers reported before round `r`. */
  function CompletedBefore(order: seq<string>, finish: string -> nat, r: nat): set<string> {
    set k | k in order && finish(k) < r
  }

  /** The providers reported at round `r`, in dispatch order. */
  function FinishingAt(order: seq<string>, finish: string -> nat, r: nat): (keys: seq<string>)
    ensures forall i :: 0 <= i < |keys| ==> keys[i] in order && finish(keys[i]) == r
    ensures forall i :: 0 <= i < |order| && finish(order[i]) == r ==> order[i] in keys
  {
    Filter(order, k => finish(k) == r)
  }

  /** The providers reported in rounds `0` to `rounds - 1`, in the order of their events. */
  function EmittedKeys(order: seq<string>, finish: string -> nat, rounds: nat): (keys: seq<string>)
    ensures forall i :: 0 <= i < |keys| ==> keys[i] in order && finish(keys[i]) < rounds
  {
    if rounds == 0 then [] else EmittedKeys(order, finish, rounds - 1) + FinishingAt(order, finish, rounds - 1)
  }

  /** The number of rounds the loop runs: one past the latest finishing round, or none for no tasks. */
  function Horizon(order: seq<string>, finish: string -> nat): (h: nat)
    ensures forall i :: 0 <= i < |order| ==> finish(order[i]) < h
    ensures h > 0 ==> exists i :: 0 <= i < |order| && finish(order[i]) == h - 1
    decreases |order|
  {
    if |order| == 0 then 0
    else
      var rest := Horizon(order[1..], finish);
      assert forall i :: 1 <= i < |order| ==> order[i] == order[1..][i - 1];
      if finish(order[0]) < rest then
        assert exists i :: 1 <= i < |order| && finish(order[i]) == rest - 1 by {
          var j :| 0 <= j < |order[1..]| && finish(order[1..][j]) == rest - 1;
          assert order[j + 1] == order[1..][j];
        }
        rest
      else finish(order[0]) + 1
  }

  /** The events emitted before round `rounds`: the provider list, then the reports of the earlier rounds. */
  function Reported(requested: seq<string>, outcome: string -> TaskOutcome, finish: string -> nat, rounds: nat): seq<SessionEvent> {
    [ProviderList(requested)] + EventsFor(EmittedKeys(Dedup(requested), finish, rounds), TaskMap(requested, outcome))
  }

  /** The events of a comparison request whose providers all passed the filter. */
  function SessionEvents(requested: seq<string>, outcome: string -> TaskOutcome, finish: string -> nat): seq<SessionEvent> {
    Reported(requested, outcome, finish, Horizon(Dedup(requested), finish)) + [AllDone]
  }

  /** Every task finished before `rounds` has been reported. */
  lemma {:induction false} EmittedKeysComplete(order: seq<string>, finish: string -> nat, rounds: nat)
    ensures forall i :: 0 <= i < |order| && finish(order[i]) < rounds ==> order[i] in EmittedKeys(order, finish, rounds)
    decreases rounds
  {
    if rounds > 0 {
      var r := rounds - 1;
      EmittedKeysComplete(order, finish, r);
      var before := EmittedKeys(order, finish, r);
      var now := FinishingAt(order, finish, r);
      assert EmittedKeys(order, finish, rounds) == before + now;
    }
  }

  /** Reports come round by round, so their finishing rounds never decrease. */
  lemma {:induction false} EmittedKeysSorted(order: seq<string>, finish: string -> nat, rounds: nat)
    ensures forall i, j :: 0 <= i < j < |EmittedKeys(order, finish, rounds)| ==>
      finish(EmittedKeys(order, finish, rounds)[i]) <= finish(EmittedKeys(order, finish, rounds)[j])
    decreases rounds
  {
    if rounds > 0 {
      var r := rounds - 1;
      EmittedKeysSorted(order, finish, r);
      var before := EmittedKeys(order, finish, r);
      var now := FinishingAt(order, finish, r);
      var all := before + now;
      assert EmittedKeys(order, finish, rounds) == all;
      forall i, j | 0 <= i < j < |all|
        ensures finish(all[i]) <= finish(all[j])
      {
        if j < |before| {
          assert all[i] == before[i] && all[j] == before[j];
        } else if i < |before| {
          assert all[i] == before[i] && all[j] == now[j - |before|];
          assert finish(before[i]) < r && finish(now[j - |before|]) == r;
        } else {
          assert all[i] == now[i - |before|] && all[j] == now[j - |before|];
        }
      }
    }
  }

  /** With distinct tasks, no provider is reported twice. */
  lemma {:induction false} EmittedKeysNoDup(order: seq<string>, finish: string -> nat, rounds: nat)
    requires NoDup(order)
    ensures NoDup(EmittedKeys(order, finish, rounds))
    decreases rounds
  {
    if rounds > 0 {
      var r := rounds - 1;
      EmittedKeysNoDup(order, finish, r);
      var before := EmittedKeys(order, finish, r);
      var now := FinishingAt(order, finish, r);
      var all := before + now;
      assert EmittedKeys(order, finish, rounds) == all;
      FilterNoDup(order, k => finish(k) == r);
      forall i, j | 0 <= i < j < |all|
        ensures all[i] != all[j]
      {
        if j < |before| {
          assert all[i] == before[i] && all[j] == before[j];
        } else if i < |before| {
          assert all[i] == before[i] && all[j] == now[j - |before|];
          assert finish(all[i]) < r;
        } else {
          assert all[i] == now[i - |before|] && all[j] == now[j - |before|];
        }
      }
    }
  }

  /** From its own round on, a task is reported by the round's filter. */
  lemma RoundIsFinishing(order: seq<string>, finish: string -> nat, r: nat)
    ensures RoundKeys(order, CompletedBefore(order, finish, r), DoneAt(order, finish, r)) == FinishingAt(order, finish, r)
  {
    var c := CompletedBefore(order, finish, r);
    var d := DoneAt(order, finish, r);
    FilterAgree(order, k => k !in c && k in d, k => finish(k) == r);
  }

  /**
   * `comparison_stream` with the corrected guard: dispatch, emit the
   * provider list, poll round after round until every task is reported,
   * then emit `done`.
   */
  method ComparisonStream(requested: seq<string>, outcome: string -> TaskOutcome, finish: string -> nat)
    returns (events: seq<SessionEvent>)
    ensures events == SessionEvents(requested, outcome, finish)
  {
    var s := new Session(requested, outcome);
    ghost var order := s.order;
    ghost var h := Horizon(order, finish);
    var round: nat := 0;
    while Guard(s.completed, s.tasks)
      invariant s.Valid()
      invariant s.order == order == Dedup(requested) && s.tasks == TaskMap(requested, outcome)
      invariant s.completed == CompletedBefore(order, finish, round)
      invariant round <= h
      invariant s.emitted == Reported(requested, outcome, finish, round)
      decreases h - round
    {
      if round == h {
        AllDoneBefore(order, finish, round, s.tasks);
        assert false;
      }
      ReportedStep(requested, outcome, finish, round);
      s.PollRound(DoneAt(s.order, finish, round));
      round := round + 1;
    }
    RemainingBefore(order, finish, round, s.tasks);
    assert round == h;
    s.Finish();
    events := s.emitted;
  }

  /**
   * Round `r` of the schedule reports the providers finishing at `r`, and
   * appends their events in dispatch order.
   */
  lemma ReportedStep(requested: seq<string>, outcome: string -> TaskOutcome, finish: string -> nat, r: nat)
    ensures var order := Dedup(requested);
      Reported(requested, outcome, finish, r + 1) ==
      Reported(requested, outcome, finish, r)
      + EventsFor(RoundKeys(order, CompletedBefore(order, finish, r), DoneAt(order, finish, r)), TaskMap(requested, outcome))
  {
    var order := Dedup(requested);
    var tasks := TaskMap(requested, outcome);
    RoundIsFinishing(order, finish, r);
    EventsForConcat(EmittedKeys(order, finish, r), FinishingAt(order, finish, r), tasks);
  }

  /** At the horizon every task has been reported, so the corrected guard is false. */
  lemma AllDoneBefore(order: seq<string>, finish: string -> nat, r: nat, tasks: map<string, TaskOutcome>)
    requires tasks.Keys == Elements(order) && r >= Horizon(order, finish)
    ensures !Guard(CompletedBefore(order, finish, r), tasks)
  {
    assert CompletedBefore(order, finish, r) == tasks.Keys;
  }

  /** While a task is left, the horizon is still ahead; once none is, it has been reached. */
  lemma RemainingBefore(order: seq<string>, finish: string -> nat, r: nat, tasks: map<string, TaskOutcome>)
    requires tasks.Keys == Elements(order) && r <= Horizon(order, finish)
    requires !Guard(CompletedBefore(order, finish, r), tasks)
    ensures r == Horizon(order, finish)
  {
    var c := CompletedBefore(order, finish, r);
    var h := Horizon(order, finish);
    SubsetCardinality(c, tasks.Keys);
    assert c == tasks.Keys;
    if h > 0 {
      var i :| 0 <= i < |order| && finish(order[i]) == h - 1;
      assert order[i] in c;
    }
  }

  /** Up to the horizon every task is reported exactly once. */
  lemma {:induction false} AllReportedOnce(order: seq<string>, finish: string -> nat)
    requires NoDup(order)
    ensures var keys := EmittedKeys(order, finish, Horizon(order, finish));
      NoDup(keys) && Elements(keys) == Elements(order) && |keys| == |order|
  {
    var h := Horizon(order, finish);
    var keys := EmittedKeys(order, finish, h);
    EmittedKeysNoDup(order, finish, h);
    EmittedKeysComplete(order, finish, h);
    forall k | k in Elements(order)
      ensures k in Elements(keys)
    {
      var i :| 0 <= i < |order| && order[i] == k;
    }
    ElementsCount(keys);
    ElementsCount(order);
  }

  /**
   * The shape of a comparison stream: the provider list first and `done`
   * last, and between them one report per distinct requested provider
   * (`AllReportedOnce`), carrying its task's outcome, in the order the
   * tasks were seen done (`EmittedKeysSorted`).
   */
  lemma SessionShape(requested: seq<string>, outcome: string -> TaskOutcome, finish: string -> nat)
    ensures var keys := EmittedKeys(Dedup(requested), finish, Horizon(Dedup(requested), finish));
      var e := SessionEvents(requested, outcome, finish);
      && |e| == |Elements(requested)| + 2
      && e[0] == ProviderList(requested) && e[|e| - 1] == AllDone
      && (forall i :: 0 <= i < |keys| ==> e[i + 1] == OutcomeEvent(keys[i], outcome(keys[i])))
  {
    var order := Dedup(requested);
    var keys := EmittedKeys(order, finish, Horizon(order, finish));
    AllReportedOnce(order, finish);
    ElementsCount(order);
    var middle := EventsFor(keys, TaskMap(requested, outcome));
    var e := SessionEvents(requested, outcome, finish);
    assert e == [ProviderList(requested)] + middle + [AllDone];
    Framed(ProviderList(requested), middle, AllDone);
    ReportsCarryOutcomes(requested, outcome, keys);
  }

  /** A sequence made of a first element, a middle and a last element. */
  lemma Framed(first: SessionEvent, middle: seq<SessionEvent>, last: SessionEvent)
    ensures var e := [first] + middle + [last];
      && |e| == |middle| + 2 && e[0] == first && e[|e| - 1] == last
      && forall i :: 0 <= i < |middle| ==> e[i + 1] == middle[i]
  {
  }

  /** The report of a requested provider carries the outcome of its task. */
  lemma ReportsCarryOutcomes(requested: seq<string>, outcome: string -> TaskOutcome, keys: seq<string>)
    requires forall i :: 0 <= i < |keys| ==> keys[i] in requested
    ensures var tasks := TaskMap(requested, outcome);
      forall i :: 0 <= i < |keys| ==> EventsFor(keys, tasks)[i] == OutcomeEvent(keys[i], outcome(keys[i]))
  {
  }

  /**
   * With a repeated provider the guard as written never becomes false:
   * `completed` only ever holds task keys, and there are fewer of those
   * than requested entries.
   */
  lemma DuplicateRequestNeverEnds(requested: seq<string>, outcome: string -> TaskOutcome, completed: set<string>)
    requires !NoDup(requested)
    requires completed <= TaskMap(requested, outcome).Keys
    ensures GuardAsWritten(completed, requested)
    ensures !Guard(completed, TaskMap(requested, outcome)) <==> completed == Elements(requested)
  {
    ElementsCount(requested);
    SubsetCardinality(completed, Elements(requested));
  }

  /** Selecting the same provider twice: one task, two requested entries. */
  lemma RepeatedOpenAINeverEnds(outcome: string -> TaskOutcome)
    ensures TaskMap(["openai", "openai"], outcome).Keys == {"openai"}
    ensures GuardAsWritten({"openai"}, ["openai", "openai"])
    ensures !Guard({"openai"}, TaskMap(["openai", "openai"], outcome))
  {
    assert Elements(["openai", "openai"]) == {"openai"};
  }

  /** Without repeated providers the two guards agree in every state. */
  lemma GuardsAgreeWithoutDuplicates(requested: seq<string>, outcome: string -> TaskOutcome, completed: set<string>)
    requires NoDup(requested)
    ensures GuardAsWritten(completed, requested) <==> Guard(completed, TaskMap(requested, outcome))
  {
    ElementsCount(requested);
  }
}
