/**
 The io_uring proactor over whole runs: batches are submitted, the kernel appends completion entries,
 and passes read the entries from the head, which never moves.
 */
module UringRuns {
  import opened Uring

  // ---------- two passes over the same entries ----------

  lemma {:induction false} EntriesConcat(a: seq<Cqe>, b: seq<Cqe>, id: nat)
    ensures EntriesFor(a + b, id) == EntriesFor(a, id) + EntriesFor(b, id)
  {
    if b == [] {
      assert a + b == a;
    } else {
      var front, last := b[..|b| - 1], b[|b| - 1];
      EntriesConcat(a, front, id);
      assert (a + b)[..|a + b| - 1] == a + front && (a + b)[|a + b| - 1] == last;
    }
  }

  lemma {:induction false} NamedIff(entries: seq<Cqe>, id: nat)
    ensures EntriesFor(entries, id) > 0 <==> exists e <- entries :: e.userData == id
  {
    if entries != [] {
      var front, last := entries[..|entries| - 1], entries[|entries| - 1];
      NamedIff(front, id);
      assert entries == front + [last];
    }
  }

  /** No operation is called back more often than there are entries naming it. */
  ghost predicate AtMostOncePerEntry(completed: seq<Completion>, entries: seq<Cqe>) {
    forall id: nat :: CallsOf(completed, id) <= EntriesFor(entries, id)
  }

  /**
   A pass reads `entries`; after it more entries arrive and more operations are submitted; then a second
   pass reads everything from the same head. Each entry is still completed at most once exactly when the
   first pass found nothing to complete.
   */
  lemma SecondPassRepeatsIff(entries: seq<Cqe>, arrived: seq<Cqe>,
                            flying: map<nat, UringTask>, flying': map<nat, UringTask>)
    requires flying.Keys <= flying'.Keys
    ensures AtMostOncePerEntry(Completions(entries, flying) + Completions(entries + arrived, flying'),
                               entries + arrived)
            <==> forall e <- entries :: e.userData !in flying
  {
    var first, second := Completions(entries, flying), Completions(entries + arrived, flying');
    forall id: nat
      ensures CallsOf(first + second, id) <= EntriesFor(entries + arrived, id) <==>
              (id in flying ==> EntriesFor(entries, id) == 0)
    {
      CallsConcat(first, second, id);
      CalledOncePerEntry(entries, flying, id);
      CalledOncePerEntry(entries + arrived, flying', id);
      EntriesConcat(entries, arrived, id);
    }
    forall id: nat
      ensures EntriesFor(entries, id) > 0 <==> exists e <- entries :: e.userData == id
    {
      NamedIff(entries, id);
    }
  }

  // ---------- runs ----------

  datatype Step = Submit(tasks: seq<UringTask>) | Arrive(cqe: Cqe) | Pass

  /** `submitted` and `owed` are history: every operation submitted, and what calling all of them back gives. */
  datatype State = State(
    flying: map<nat, UringTask>,
    entries: seq<Cqe>,              // between the head and the tail
    completed: seq<Completion>,
    submitted: map<nat, UringTask>,
    owed: seq<Completion>,
    batches: seq<seq<UringTask>>)

  const BOOT := State(map[], [], [], map[], [], [])

  function With(m: map<nat, UringTask>, tasks: seq<UringTask>): (r: map<nat, UringTask>)
    ensures r.Keys == m.Keys + set t <- tasks :: t.id
  {
    if tasks == [] then m
    else
      var front, last := tasks[..|tasks| - 1], tasks[|tasks| - 1];
      assert tasks == front + [last];
      With(m, front)[last.id := last]
  }

  /** Operations are numbered by an atomic counter, so no number comes twice. */
  ghost predicate Enabled(s: State, step: Step) {
    step.Submit? ==> step.tasks != [] && Ascending(step.tasks) && forall t <- step.tasks :: t.id !in s.submitted
  }

  ghost function Apply(s: State, step: Step): State
    requires Enabled(s, step)
  {
    match step
    case Submit(tasks) =>
      s.(flying := Insert(s.flying, tasks[0]), submitted := With(s.submitted, tasks), batches := s.batches + [tasks])
    case Arrive(cqe) => s.(entries := s.entries + [cqe])
    case Pass =>
      s.(completed := s.completed + Completions(s.entries, s.flying),
         owed := s.owed + Completions(s.entries, s.submitted))
  }

  ghost function Run(steps: seq<Step>): State {
    if steps == [] then BOOT
    else
      var s := Run(steps[..|steps| - 1]);
      if Enabled(s, steps[|steps| - 1]) then Apply(s, steps[|steps| - 1]) else s
  }

  lemma RunSnoc(steps: seq<Step>, step: Step)
    ensures Run(steps + [step]) == if Enabled(Run(steps), step) then Apply(Run(steps), step) else Run(steps)
  {
    assert (steps + [step])[..|steps|] == steps;
  }

  ghost predicate CallsRight(s: State, id: nat) {
    && CallsOf(s.completed, id) == (if id in s.flying then CallsOf(s.owed, id) else 0)
    && (id !in s.submitted ==> CallsOf(s.owed, id) == 0)
  }

  ghost predicate FirstsOnlyFly(s: State) {
    forall b <- s.batches, t <- b :: t.id in s.submitted && (t.id in s.flying <==> t.id == b[0].id)
  }

  ghost predicate AllFromBatches(s: State) {
    forall id :: id in s.submitted ==> exists b <- s.batches, t <- b :: t.id == id
  }

  ghost predicate WellBatched(s: State) {
    s.flying.Keys <= s.submitted.Keys && forall b <- s.batches :: b != [] && Ascending(b)
  }

  /** The operations in flight are the first ones of the batches. */
  ghost predicate FirstsFly(s: State) {
    WellBatched(s) && FirstsOnlyFly(s) && AllFromBatches(s)
  }

  lemma PassCallsRight(s: State, id: nat)
    requires FirstsFly(s) && CallsRight(s, id)
    ensures CallsRight(Apply(s, Pass), id)
  {
    CallsConcat(s.completed, Completions(s.entries, s.flying), id);
    CallsConcat(s.owed, Completions(s.entries, s.submitted), id);
    CalledOncePerEntry(s.entries, s.flying, id);
    CalledOncePerEntry(s.entries, s.submitted, id);
  }

  lemma BatchFlies(s: State, tasks: seq<UringTask>, b: seq<UringTask>, t: UringTask)
    requires FirstsFly(s) && Enabled(s, Submit(tasks)) && t in b && (b in s.batches || b == tasks)
    ensures var s' := Apply(s, Submit(tasks)); t.id in s'.submitted && (t.id in s'.flying <==> t.id == b[0].id)
  {
    hide Ascending;
    assert tasks[0] in tasks;
    if b in s.batches {
      assert t.id in s.submitted && t.id != tasks[0].id;
    }
  }

  lemma SubmittedFrom(s: State, tasks: seq<UringTask>)
    requires AllFromBatches(s) && Enabled(s, Submit(tasks))
    ensures AllFromBatches(Apply(s, Submit(tasks)))
  {
    var s' := Apply(s, Submit(tasks));
    assert tasks in s'.batches;
    forall id | id in s'.submitted
      ensures exists b <- s'.batches, t <- b :: t.id == id
    {
      if id in s.submitted {
        var b, t :| b in s.batches && t in b && t.id == id;
        assert b in s'.batches;
      }
    }
  }

  lemma SubmitKeepsWell(s: State, tasks: seq<UringTask>)
    requires WellBatched(s) && Enabled(s, Submit(tasks))
    ensures WellBatched(Apply(s, Submit(tasks)))
  {
    hide Ascending;
    assert tasks[0] in tasks;
  }

  lemma SubmitKeepsFlying(s: State, tasks: seq<UringTask>)
    requires FirstsFly(s) && Enabled(s, Submit(tasks))
    ensures FirstsOnlyFly(Apply(s, Submit(tasks)))
  {
    forall b, t | b in s.batches + [tasks] && t in b
      ensures var s' := Apply(s, Submit(tasks)); t.id in s'.submitted && (t.id in s'.flying <==> t.id == b[0].id)
    {
      BatchFlies(s, tasks, b, t);
    }
    hide FirstsFly, Enabled;
  }

  lemma SubmitKeepsFirsts(s: State, tasks: seq<UringTask>)
    requires FirstsFly(s) && Enabled(s, Submit(tasks))
    ensures FirstsFly(Apply(s, Submit(tasks)))
  {
    SubmittedFrom(s, tasks);
    SubmitKeepsWell(s, tasks);
    SubmitKeepsFlying(s, tasks);
    hide WellBatched, FirstsOnlyFly, AllFromBatches;
  }

  lemma {:induction false} AlwaysFirstsFly(steps: seq<Step>)
    ensures FirstsFly(Run(steps))
  {
    if steps != [] {
      var s, step := Run(steps[..|steps| - 1]), steps[|steps| - 1];
      AlwaysFirstsFly(steps[..|steps| - 1]);
      if step.Submit? && Enabled(s, step) {
        SubmitKeepsFirsts(s, step.tasks);
      }
    }
  }

  /**
   Over any run, an operation is called back once for each time a pass reads an entry naming it when it
   was the first of its batch, and never otherwise.
   */
  lemma {:induction false} OnlyFirstsAreCalledBack(steps: seq<Step>, id: nat)
    ensures CallsRight(Run(steps), id)
  {
    if steps != [] {
      var s, step := Run(steps[..|steps| - 1]), steps[|steps| - 1];
      OnlyFirstsAreCalledBack(steps[..|steps| - 1], id);
      AlwaysFirstsFly(steps[..|steps| - 1]);
      if step.Pass? {
        PassCallsRight(s, id);
      }
    }
  }

  ghost predicate AllCalledBack(s: State) {
    forall id: nat :: CallsOf(s.completed, id) == CallsOf(s.owed, id)
  }

  ghost predicate NoSubmission(steps: seq<Step>) {
    forall step <- steps :: !step.Submit?
  }

  lemma {:induction false} FlyingStays(steps: seq<Step>, more: seq<Step>)
    requires NoSubmission(more)
    ensures Run(steps + more).flying == Run(steps).flying && Run(steps + more).submitted == Run(steps).submitted
  {
    if more == [] {
      assert steps + more == steps;
    } else {
      var front, last := more[..|more| - 1], more[|more| - 1];
      assert steps + more == steps + front + [last];
      assert last in more && forall step <- front :: step in more;
      FlyingStays(steps, front);
      RunSnoc(steps + front, last);
    }
  }

  lemma ReadingOwes(s: State, id: nat)
    requires id in s.submitted
    ensures CallsOf(Apply(Apply(s, Arrive(Cqe(id, 0))), Pass).owed, id) > 0
  {
    var entries := s.entries + [Cqe(id, 0)];
    CalledOncePerEntry(entries, s.submitted, id);
    CallsConcat(s.owed, Completions(entries, s.submitted), id);
    NamedIff(entries, id);
    assert entries[|s.entries|] in entries;
  }

  /** An entry for an operation that is not in flight, read by a pass. */
  lemma LostCallback(steps: seq<Step>, id: nat)
    requires id in Run(steps).submitted && id !in Run(steps).flying
    ensures !AllCalledBack(Run(steps + [Arrive(Cqe(id, 0)), Pass]))
  {
    hide CallsOf, Completions, FirstsFly, Run;
    var s, arrive := Run(steps), Arrive(Cqe(id, 0));
    var after := Run(steps + [arrive] + [Pass]);
    RunSnoc(steps, arrive);
    RunSnoc(steps + [arrive], Pass);
    assert steps + [arrive, Pass] == steps + [arrive] + [Pass];
    ReadingOwes(s, id);
    OnlyFirstsAreCalledBack(steps + [arrive] + [Pass], id);
    assert CallsOf(after.completed, id) == 0 < CallsOf(after.owed, id);
  }

  ghost predicate AllSingle(s: State) {
    forall b <- s.batches :: |b| == 1
  }

  lemma SinglesFly(s: State, id: nat)
    requires FirstsFly(s) && AllSingle(s) && id in s.submitted
    ensures id in s.flying
  {
    var b, t :| b in s.batches && t in b && t.id == id;
    assert t == b[0];
  }

  lemma SinglesAreCalledBack(steps: seq<Step>, more: seq<Step>)
    requires AllSingle(Run(steps)) && NoSubmission(more)
    ensures AllCalledBack(Run(steps + more))
  {
    hide Run, FirstsFly, CallsOf, AllSingle;
    AlwaysFirstsFly(steps);
    FlyingStays(steps, more);
    forall id: nat
      ensures CallsOf(Run(steps + more).completed, id) == CallsOf(Run(steps + more).owed, id)
    {
      OnlyFirstsAreCalledBack(steps + more, id);
      if id in Run(steps).submitted {
        SinglesFly(Run(steps), id);
      }
    }
  }

  /**
   After any run of submissions, arrivals and passes: whatever entries arrive and are read from then on,
   every operation gets every callback it is owed, if and only if each batch so far was a single one.
   */
  lemma AllCalledBackIff(steps: seq<Step>)
    ensures (forall more :: NoSubmission(more) ==> AllCalledBack(Run(steps + more))) <==> AllSingle(Run(steps))
  {
    hide Run, AllCalledBack;
    if AllSingle(Run(steps)) {
      forall more | NoSubmission(more)
        ensures AllCalledBack(Run(steps + more))
      {
        SinglesAreCalledBack(steps, more);
      }
    } else {
      AlwaysFirstsFly(steps);
      var b: seq<UringTask> :| b in Run(steps).batches && |b| != 1;
      assert b[1] in b && b[0].id < b[1].id;
      var more := [Arrive(Cqe(b[1].id, 0)), Pass];
      LostCallback(steps, b[1].id);
      assert NoSubmission(more) && !AllCalledBack(Run(steps + more));
    }
  }

  const FIRST := UringTask(7, 3, Recv, 0, 0, 0)
  const SECOND := UringTask(8, 4, Recv, 0, 0, 0)

  /** Two receives in one batch, both answered, and a pass. */
  const TWO_ANSWERED := [Submit([FIRST, SECOND])] + [Arrive(Cqe(7, 100))] + [Arrive(Cqe(8, 200))]

  lemma TwoAnswered()
    ensures var s := Run(TWO_ANSWERED);
            && s.entries == [Cqe(7, 100), Cqe(8, 200)] && s.completed == s.owed == []
            && s.flying == map[7 := FIRST] && s.submitted == map[7 := FIRST][8 := SECOND]
  {
    hide Run;
    var submit := Submit([FIRST, SECOND]);
    BootRun();
    RunSnoc([], submit);
    assert [] + [submit] == [submit];
    RunSnoc([submit], Arrive(Cqe(7, 100)));
    RunSnoc([submit] + [Arrive(Cqe(7, 100))], Arrive(Cqe(8, 200)));
    WithBoth(FIRST, SECOND);
    assert [] + [Cqe(7, 100)] + [Cqe(8, 200)] == [Cqe(7, 100), Cqe(8, 200)];
  }

  lemma TwoEntries(flying: map<nat, UringTask>)
    ensures Completions([Cqe(7, 100), Cqe(8, 200)], flying) ==
            CompletionOf(Cqe(7, 100), flying) + CompletionOf(Cqe(8, 200), flying)
  {
    hide Completions, CompletionOf;
    NoCompletions(flying);
    CompletionsSnoc([], Cqe(7, 100), flying);
    CompletionsSnoc([Cqe(7, 100)], Cqe(8, 200), flying);
    assert [] + [Cqe(7, 100)] == [Cqe(7, 100)] && [Cqe(7, 100)] + [Cqe(8, 200)] == [Cqe(7, 100), Cqe(8, 200)];
    assert [] + CompletionOf(Cqe(7, 100), flying) == CompletionOf(Cqe(7, 100), flying);
  }

  /** Both are owed their callbacks, and only the first gets one. */
  lemma SecondIsLost()
    ensures var s := Run(TWO_ANSWERED + [Pass]);
            s.completed == [Result(7, 100)] && s.owed == [Result(7, 100), Result(8, 200)]
  {
    TwoAnswered();
    RunSnoc(TWO_ANSWERED, Pass);
    var s := Run(TWO_ANSWERED);
    hide Run, Completions;
    TwoEntries(s.flying);
    TwoEntries(s.submitted);
  }

  lemma BootRun()
    ensures Run([]) == BOOT
  {}

  lemma WithBoth(first: UringTask, second: UringTask)
    ensures With(map[], [first, second]) == map[first.id := first][second.id := second]
  {
    assert [first, second][..1] == [first] && [first][..0] == [];
    assert With(map[], []) == map[];
    assert With(map[], [first]) == map[first.id := first];
  }

  // ---------- passes that find something ----------

  /** How many passes of a run had something to complete. */
  ghost function FindingPasses(steps: seq<Step>): nat {
    if steps == [] then 0
    else
      var s := Run(steps[..|steps| - 1]);
      FindingPasses(steps[..|steps| - 1])
      + if steps[|steps| - 1].Pass? && Completions(s.entries, s.flying) != [] then 1 else 0
  }

  lemma MoreEntries(entries: seq<Cqe>, cqe: Cqe, id: nat)
    ensures EntriesFor(entries, id) <= EntriesFor(entries + [cqe], id)
  {
    EntriesConcat(entries, [cqe], id);
  }

  /** A step that is no finding pass completes nothing and loses no entry. */
  lemma QuietStep(s: State, step: Step)
    requires Enabled(s, step) && (step.Pass? ==> Completions(s.entries, s.flying) == [])
    ensures Apply(s, step).completed == s.completed
    ensures AtMostOncePerEntry(s.completed, s.entries) ==>
            AtMostOncePerEntry(Apply(s, step).completed, Apply(s, step).entries)
  {
    if step.Arrive? {
      forall id: nat
        ensures EntriesFor(s.entries, id) <= EntriesFor(s.entries + [step.cqe], id)
      {
        MoreEntries(s.entries, step.cqe, id);
      }
    } else if step.Pass? {
      assert s.completed + [] == s.completed;
    }
  }

  lemma FirstFindingPass(s: State)
    requires s.completed == []
    ensures AtMostOncePerEntry(Apply(s, Pass).completed, Apply(s, Pass).entries)
  {
    assert [] + Completions(s.entries, s.flying) == Completions(s.entries, s.flying);
    forall id: nat
      ensures CallsOf(Completions(s.entries, s.flying), id) <= EntriesFor(s.entries, id)
    {
      CalledOncePerEntry(s.entries, s.flying, id);
    }
  }

  lemma {:induction false} OneFindingPass(steps: seq<Step>)
    requires FindingPasses(steps) <= 1
    ensures AtMostOncePerEntry(Run(steps).completed, Run(steps).entries)
    ensures FindingPasses(steps) == 0 ==> Run(steps).completed == []
  {
    hide AtMostOncePerEntry, Apply, Enabled;
    if steps == [] {
      NothingCompleted();
    } else {
      var s, step := Run(steps[..|steps| - 1]), steps[|steps| - 1];
      OneFindingPass(steps[..|steps| - 1]);
      PassIsEnabled(s);
      if step.Pass? && Completions(s.entries, s.flying) != [] {
        FirstFindingPass(s);
      } else if Enabled(s, step) {
        QuietStep(s, step);
      }
    }
  }

  lemma NothingCompleted()
    ensures AtMostOncePerEntry([], [])
  {}

  /** Some operation in flight has been called back. */
  ghost predicate Called(s: State) {
    exists id: nat :: id in s.flying && CallsOf(s.completed, id) > 0
  }

  lemma FindingCalls(s: State)
    requires Completions(s.entries, s.flying) != []
    ensures Called(Apply(s, Pass))
  {
    var c := Completions(s.entries, s.flying);
    var id := c[|c| - 1].id;
    CallsSnoc(c[..|c| - 1], c[|c| - 1], id);
    assert c == c[..|c| - 1] + [c[|c| - 1]];
    CalledOncePerEntry(s.entries, s.flying, id);
    CallsConcat(s.completed, c, id);
  }

  lemma CalledStays(s: State, step: Step)
    requires Called(s) && Enabled(s, step)
    ensures Called(Apply(s, step))
  {
    var id: nat :| id in s.flying && CallsOf(s.completed, id) > 0;
    if step.Pass? {
      CallsConcat(s.completed, Completions(s.entries, s.flying), id);
    }
    assert id in Apply(s, step).flying && CallsOf(Apply(s, step).completed, id) > 0;
  }

  lemma {:induction false} FindingRunsCall(steps: seq<Step>)
    requires FindingPasses(steps) >= 1
    ensures Called(Run(steps))
  {
    hide Called, Enabled, Apply;
    var before, step := steps[..|steps| - 1], steps[|steps| - 1];
    var s := Run(before);
    if FindingPasses(before) >= 1 {
      FindingRunsCall(before);
      if Enabled(s, step) {
        CalledStays(s, step);
      }
    } else {
      PassIsEnabled(s);
      FindingCalls(s);
    }
  }

  lemma PassIsEnabled(s: State)
    ensures Enabled(s, Pass)
  {}

  /** A pass completes what it has called back already once more. */
  lemma CalledAgain(s: State)
    requires Called(s)
    ensures !AtMostOncePerEntry(Apply(s, Pass).completed, Apply(s, Pass).entries)
  {
    var id: nat :| id in s.flying && CallsOf(s.completed, id) > 0;
    CallsConcat(s.completed, Completions(s.entries, s.flying), id);
    CalledOncePerEntry(s.entries, s.flying, id);
  }

  lemma {:induction false} TwoFindingPasses(steps: seq<Step>) returns (i: nat)
    requires FindingPasses(steps) >= 2
    ensures i <= |steps| && !AtMostOncePerEntry(Run(steps[..i]).completed, Run(steps[..i]).entries)
  {
    hide AtMostOncePerEntry, Called, Apply, Enabled;
    var n := |steps| - 1;
    var before := steps[..n];
    if FindingPasses(before) >= 2 {
      i := TwoFindingPasses(before);
      assert before[..i] == steps[..i];
    } else {
      i := |steps|;
      assert steps[..i] == steps;
      FindingRunsCall(before);
      PassIsEnabled(Run(before));
      CalledAgain(Run(before));
    }
  }

  lemma {:induction false} FewerBefore(steps: seq<Step>, i: nat)
    requires i <= |steps|
    ensures FindingPasses(steps[..i]) <= FindingPasses(steps)
  {
    if i == |steps| {
      assert steps[..i] == steps;
    } else {
      FewerBefore(steps[..|steps| - 1], i);
      assert steps[..|steps| - 1][..i] == steps[..i];
    }
  }

  /** Along a whole run each entry is completed at most once, if and only if at most one pass found any. */
  lemma OncePerEntryIff(steps: seq<Step>)
    ensures (forall i :: 0 <= i <= |steps| ==> AtMostOncePerEntry(Run(steps[..i]).completed, Run(steps[..i]).entries))
            <==> FindingPasses(steps) <= 1
  {
    hide AtMostOncePerEntry, Run, FindingPasses;
    if FindingPasses(steps) <= 1 {
      forall i | 0 <= i <= |steps|
        ensures AtMostOncePerEntry(Run(steps[..i]).completed, Run(steps[..i]).entries)
      {
        FewerBefore(steps, i);
        OneFindingPass(steps[..i]);
      }
    } else {
      var i := TwoFindingPasses(steps);
    }
  }
}
