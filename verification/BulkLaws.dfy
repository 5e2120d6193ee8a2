/**
 What a bulk save guarantees, read off its trace, its error and its marks.
 */
module BulkLaws {
  import opened Wrappers
  import opened Schema
  import opened AccountRow
  import opened CreateBuilder
  import opened BulkCreate
  import RowHistory

  // ---------------------------------------------------------------- which error, and whose

  /** The chain stops exactly when some builder has a fault, and then with the fault of the
      least such builder. */
  lemma {:induction false} LeastFailingBuilder(job: Job, i: nat) returns (k: nat)
    requires i <= |job.steps|
    ensures i <= k <= |job.steps|
    ensures forall j :: i <= j < k ==> Fault(job.steps[j], 0, job.env.valid).None?
    ensures k == |job.steps| <==> FirstFault(job, i).None?
    ensures k < |job.steps| ==>
              Fault(job.steps[k], 0, job.env.valid).Some? && FirstFault(job, i) == Fault(job.steps[k], 0, job.env.valid)
    decreases |job.steps| - i
  {
    if i == |job.steps| || Fault(job.steps[i], 0, job.env.valid).Some? {
      k := i;
    } else {
      k := LeastFailingBuilder(job, i + 1);
    }
  }

  /** A builder has no fault iff none of its hooks refuses and its draft, as its hooks left
      it, passes check. */
  lemma {:induction false} FaultExact(s: Step, h: nat, valid: (Column, Cell) -> bool)
    requires h <= |s.hooks|
    ensures Fault(s, h, valid).None?
       <==> (forall j :: h <= j < |s.hooks| ==> s.hooks[j].before.None?)
            && Check(Edited(s.draft, s.hooks).fields, valid).None?
    decreases |s.hooks| - h
  {
    if h < |s.hooks| { FaultExact(s, h + 1, valid); }
  }

  // ------------------------------------------------------------------------------ trace

  // The event of a hook of builder i, in the context that only i's own hooks have made.
  ghost predicate EntersHook(job: Job, e: Event) {
    && e.Enter? && e.builder < |job.steps| && e.hook < |job.steps[e.builder].hooks|
    && e.ctx == Wrapped(Root, job.steps[e.builder].hooks[..e.hook])
  }

  predicate Earlier(e: Event, f: Event)
    requires e.Enter? && f.Enter?
  {
    e.builder < f.builder || (e.builder == f.builder && e.hook < f.hook)
  }

  // From builder `from` on, nothing before hook h of builder i keeps the chain from it.
  predicate Reached(job: Job, from: nat, i: nat, h: nat) {
    && from <= i < |job.steps| && h < |job.steps[i].hooks|
    && (forall k :: from <= k < i ==> Fault(job.steps[k], 0, job.env.valid).None?)
    && (forall k :: 0 <= k < h ==> job.steps[i].hooks[k].before.None?)
  }

  ghost predicate InOrder(es: seq<Event>) {
    && (forall x :: 0 <= x < |es| ==> es[x].Enter?)
    && (forall x, y :: 0 <= x < y < |es| ==> Earlier(es[x], es[y]))
  }

  lemma {:induction false} EntersOfInOrder(job: Job, i: nat, h: nat)
    requires i < |job.steps| && h <= |job.steps[i].hooks|
    ensures var es := EntersOf(job.steps[i], i, h);
            && InOrder(es)
            && (forall x :: 0 <= x < |es| ==> EntersHook(job, es[x]) && es[x].builder == i && h <= es[x].hook)
    decreases |job.steps[i].hooks| - h
  {
    var hooks := job.steps[i].hooks;
    if h < |hooks| && hooks[h].before.None? {
      EntersOfInOrder(job, i, h + 1);
      var first, rest := Enter(i, h, Wrapped(Root, hooks[..h])), EntersOf(job.steps[i], i, h + 1);
      assert EntersOf(job.steps[i], i, h) == [first] + rest;
    }
  }

  lemma InOrderConcat(own: seq<Event>, rest: seq<Event>, i: nat)
    requires InOrder(own) && InOrder(rest)
    requires (forall x :: 0 <= x < |own| ==> own[x].builder == i)
             && (forall x :: 0 <= x < |rest| ==> i < rest[x].builder)
    ensures InOrder(own + rest)
  {
    var es := own + rest;
    forall x, y | 0 <= x < y < |es| ensures Earlier(es[x], es[y]) {
      if x < |own| <= y {
        assert es[x] == own[x] && es[y] == rest[y - |own|];
      } else if |own| <= x {
        assert es[x] == rest[x - |own|] && es[y] == rest[y - |own|];
      }
    }
  }

  /** The way in: builder after builder, in each of them the outermost hook first, and
      every hook of builder i sees the context of Save itself plus what the hooks of i
      around it added.  Nothing that another builder's hooks put there is seen. */
  lemma {:induction false} EntersInOrder(job: Job, i: nat)
    requires i <= |job.steps|
    ensures var es := EntersFrom(job, i);
            && InOrder(es)
            && (forall x :: 0 <= x < |es| ==> EntersHook(job, es[x]) && i <= es[x].builder)
    decreases |job.steps| - i
  {
    if i < |job.steps| {
      EntersOfInOrder(job, i, 0);
      EntersInOrder(job, i + 1);
      var own, rest := EntersOf(job.steps[i], i, 0), EntersFrom(job, i + 1);
      InOrderConcat(own, rest, i);
      assert own + [] == own;
    }
  }

  ghost predicate HasHook(es: seq<Event>, i: nat, h: nat) {
    exists x :: 0 <= x < |es| && es[x].Enter? && es[x].builder == i && es[x].hook == h
  }

  lemma HasHookConcat(es: seq<Event>, fs: seq<Event>, i: nat, h: nat)
    ensures HasHook(es + fs, i, h) <==> HasHook(es, i, h) || HasHook(fs, i, h)
  {
    var all := es + fs;
    assert forall x :: 0 <= x < |es| ==> all[x] == es[x];
    assert forall x :: 0 <= x < |fs| ==> all[|es| + x] == fs[x];
  }

  lemma HasHookOne(e: Event, i: nat, h: nat)
    requires e.Enter?
    ensures HasHook([e], i, h) <==> e.builder == i && e.hook == h
  {
    assert [e][0] == e;
  }

  lemma {:induction false} EntersOfExactly(s: Step, i: nat, from: nat, h: nat)
    requires from <= |s.hooks|
    ensures HasHook(EntersOf(s, i, from), i, h)
       <==> from <= h < |s.hooks| && forall k :: from <= k < h ==> s.hooks[k].before.None?
    decreases |s.hooks| - from
  {
    if from < |s.hooks| {
      var first := Enter(i, from, Wrapped(Root, s.hooks[..from]));
      var rest := EntersOf(s, i, from + 1);
      EntersOfExactly(s, i, from + 1, h);
      HasHookOne(first, i, h);
      HasHookConcat([first], rest, i, h);
      HasHookConcat([first], [], i, h);
    }
  }

  lemma ReachedStep(job: Job, from: nat, i: nat, h: nat)
    requires from < |job.steps|
    ensures i != from ==>
              (Reached(job, from, i, h)
               <==> Fault(job.steps[from], 0, job.env.valid).None? && Reached(job, from + 1, i, h))
  {
  }

  /** A hook is entered exactly when no earlier builder has a fault and no hook around it
      refused. */
  lemma {:induction false} EntersExactly(job: Job, from: nat, i: nat, h: nat)
    requires from <= |job.steps|
    ensures HasHook(EntersFrom(job, from), i, h) <==> Reached(job, from, i, h)
    decreases |job.steps| - from
  {
    if from < |job.steps| {
      var own, rest := EntersOf(job.steps[from], from, 0), EntersFrom(job, from + 1);
      EntersOfExactly(job.steps[from], from, 0, h);
      OnlyOwn(job, from, i, h);
      EntersExactly(job, from + 1, i, h);
      HasHookConcat(own, rest, i, h);
      assert own + [] == own;
      ReachedStep(job, from, i, h);
    }
  }

  lemma OnlyOwn(job: Job, from: nat, i: nat, h: nat)
    requires from < |job.steps|
    ensures HasHook(EntersOf(job.steps[from], from, 0), i, h) ==> i == from
  {
    EntersOfInOrder(job, from, 0);
  }

  // ---------------------------------------------------------------- what a hook leaves behind

  // The keys of a context, the outermost first.
  function KeysOf(ctx: Context): seq<string> {
    match ctx
    case Root => []
    case WithValue(parent, key) => KeysOf(parent) + [key]
  }

  // The keys the hooks set, in order.
  function HookKeys(hooks: seq<Hook>): seq<string> {
    if hooks == [] then []
    else (if hooks[0].key.Some? then [hooks[0].key.value] else []) + HookKeys(hooks[1..])
  }

  lemma {:induction false} HookKeysSnoc(hooks: seq<Hook>, h: Hook)
    ensures HookKeys(hooks + [h]) == HookKeys(hooks) + (if h.key.Some? then [h.key.value] else [])
  {
    if hooks == [] {
      assert [] + [h] == [h] && [h][1..] == [];
    } else {
      assert (hooks + [h])[0] == hooks[0] && (hooks + [h])[1..] == hooks[1..] + [h];
      HookKeysSnoc(hooks[1..], h);
    }
  }

  /** A hook further in sees the keys of the hooks around it, and no others. */
  lemma {:induction false} ContextKeys(hooks: seq<Hook>)
    ensures KeysOf(Wrapped(Root, hooks)) == HookKeys(hooks)
  {
    if hooks != [] {
      var n := |hooks| - 1;
      ContextKeys(hooks[..n]);
      assert hooks == hooks[..n] + [hooks[n]];
      HookKeysSnoc(hooks[..n], hooks[n]);
    }
  }

  // The innermost hook that sets the column is the one at h.
  predicate SetsLast(hooks: seq<Hook>, c: Column, h: nat) {
    h < |hooks| && c in hooks[h].sets && forall j :: h < j < |hooks| ==> c !in hooks[j].sets
  }

  /** The draft that is checked and inserted: of each column the innermost hook that sets it
      decides. */
  lemma {:induction false} LastSetterWins(d: Draft, hooks: seq<Hook>, c: Column, h: nat)
    requires SetsLast(hooks, c, h)
    ensures c in Edited(d, hooks).fields && Edited(d, hooks).fields[c] == hooks[h].sets[c]
  {
    var n := |hooks| - 1;
    if h < n {
      LastSetterWins(d, hooks[..n], c, h);
    }
  }

  /** A column that no hook sets stays, and hooks do not touch the edges. */
  lemma {:induction false} UnsetColumnStays(d: Draft, hooks: seq<Hook>, c: Column)
    requires forall h :: 0 <= h < |hooks| ==> c !in hooks[h].sets
    ensures c in Edited(d, hooks).fields <==> c in d.fields
    ensures c in d.fields ==> Edited(d, hooks).fields[c] == d.fields[c]
    ensures Edited(d, hooks) == d.(fields := Edited(d, hooks).fields)
  {
    if hooks != [] {
      UnsetColumnStays(d, hooks[..|hooks| - 1], c);
    }
  }

  // ------------------------------------------------------------------- nesting, inserting

  predicate IsLeave(e: Event, f: Event) {
    e.Enter? && f == Leave(e.builder, e.hook)
  }

  lemma {:induction false} UnwindMirrors(es: seq<Event>)
    requires forall x :: 0 <= x < |es| ==> es[x].Enter?
    ensures |Unwind(es)| == |es|
    ensures forall x :: 0 <= x < |es| ==> IsLeave(es[x], Unwind(es)[|es| - 1 - x])
  {
    if es != [] {
      UnwindMirrors(es[1..]);
      forall x | 0 <= x < |es| ensures IsLeave(es[x], Unwind(es)[|es| - 1 - x]) {
        if x > 0 { assert es[x] == es[1..][x - 1]; }
      }
    }
  }

  predicate IsInsert(e: Event) {
    e.Insert?
  }

  lemma MirroredLog(es: seq<Event>, mid: seq<Event>)
    requires (forall x :: 0 <= x < |es| ==> es[x].Enter?) && |mid| <= 1 && (forall e :: e in mid ==> e.Insert?)
    ensures var log := es + mid + Unwind(es);
            && |log| == 2 * |es| + |mid| && log[..|es|] == es
            && (forall x :: 0 <= x < |es| ==> IsLeave(log[x], log[|log| - 1 - x]))
            && (forall x :: 0 <= x < |log| ==> (IsInsert(log[x]) <==> mid != [] && x == |es|))
  {
    UnwindMirrors(es);
    var log := es + mid + Unwind(es);
    forall x | 0 <= x < |es| ensures IsLeave(log[x], log[|log| - 1 - x]) {
      assert log[|log| - 1 - x] == Unwind(es)[|es| - 1 - x];
    }
    forall x | |es| + |mid| <= x < |log| ensures !IsInsert(log[x]) {
      var y := |log| - 1 - x;
      assert log[x] == Unwind(es)[|es| - 1 - y] && IsLeave(es[y], log[x]);
    }
  }

  /** The whole trace of a save: it is well nested, the x-th event and the x-th from the end
      belong to the same hook, and there is an insert, exactly in the middle and carrying
      every specification in builder order, iff no builder has a fault. */
  lemma TraceOfSave(job: Job)
    requires job.steps != []
    ensures var es, fine := Enters(job, 0, 0), FirstFault(job, 0).None?;
            var log := Nested(job, es, fine);
            && es == EntersFrom(job, 0)
            && |log| == 2 * |es| + (if fine then 1 else 0)
            && log[..|es|] == es
            && (forall x :: 0 <= x < |es| ==> IsLeave(log[x], log[|log| - 1 - x]))
            && (fine ==> log[|es|] == Insert(InsertContext(job), AllSpecs(job))
                         && Answer(job) == job.env.driver(log[|es|].ctx, log[|es|].specs))
            && (forall x :: 0 <= x < |log| ==> (IsInsert(log[x]) <==> fine && x == |es|))
  {
    var es := Enters(job, 0, 0);
    EntersInOrder(job, 0);
    MirroredLog(es, if FirstFault(job, 0).None? then [Insert(InsertContext(job), AllSpecs(job))] else []);
  }

  predicate NoRefusals(job: Job) {
    forall k, h :: 0 <= k < |job.steps| && 0 <= h < |job.steps[k].hooks| ==> job.steps[k].hooks[h].before.None?
  }

  lemma NoFaultExact(job: Job)
    ensures FirstFault(job, 0).None?
       <==> NoRefusals(job) && forall k :: 0 <= k < |job.steps| ==>
              Check(FinalDraft(job, k).fields, job.env.valid).None?
  {
    var least := LeastFailingBuilder(job, 0);
    forall k | 0 <= k < |job.steps|
      ensures Fault(job.steps[k], 0, job.env.valid).None?
         <==> (forall h :: 0 <= h < |job.steps[k].hooks| ==> job.steps[k].hooks[h].before.None?)
              && Check(FinalDraft(job, k).fields, job.env.valid).None?
    {
      FaultExact(job.steps[k], 0, job.env.valid);
    }
  }

  // The rows of the insert statement: the drafts as the hooks left them.
  predicate ItemsOf(job: Job, items: seq<RowHistory.Item>) {
    |items| == |job.steps| && forall k :: 0 <= k < |items| ==> items[k].draft == FinalDraft(job, k)
  }

  /** What reaches the database: a save sends its insert iff no hook refuses and every draft
      passes check as its hooks left it, and the insert carries their specifications.  So an
      insert in the trace of a save is one that the history of the table applies, up to
      collisions. */
  lemma InsertsAreChecked(job: Job, items: seq<RowHistory.Item>)
    requires job.steps != [] && ItemsOf(job, items)
    ensures var log := Nested(job, Enters(job, 0, 0), FirstFault(job, 0).None?);
            && ((exists x :: 0 <= x < |log| && IsInsert(log[x]))
                <==> NoRefusals(job) && RowHistory.AllChecked(items, job.env.valid))
            && (forall x :: 0 <= x < |log| && IsInsert(log[x]) ==>
                  |log[x].specs| == |items| && forall k :: 0 <= k < |items| ==>
                    log[x].specs[k] == SpecOf(items[k].draft))
  {
    TraceOfSave(job);
    NoFaultExact(job);
    var es, fine := Enters(job, 0, 0), FirstFault(job, 0).None?;
    var log := Nested(job, es, fine);
    if fine { assert IsInsert(log[|es|]); }
  }

  // ---------------------------------------------------------------------- all or nothing

  predicate NoLateFailures(job: Job) {
    forall i, h :: 0 <= i < |job.steps| && 0 <= h < |job.steps[i].hooks| ==> job.steps[i].hooks[h].after.None?
  }

  lemma {:induction false} LateFailureExact(hooks: seq<Hook>)
    ensures LateFailure(hooks).None? <==> forall h :: 0 <= h < |hooks| ==> hooks[h].after.None?
  {
    if hooks != [] {
      LateFailureExact(hooks[1..]);
      assert forall h :: 0 < h < |hooks| ==> hooks[h] == hooks[1..][h - 1];
    }
  }

  lemma {:induction false} LateExact(job: Job, i: nat)
    requires i <= |job.steps|
    ensures LateFrom(job, i).None?
       <==> forall k, h :: i <= k < |job.steps| && 0 <= h < |job.steps[k].hooks| ==> job.steps[k].hooks[h].after.None?
    decreases |job.steps| - i
  {
    if i < |job.steps| {
      LateExact(job, i + 1);
      LateFailureExact(job.steps[i].hooks);
    }
  }

  lemma LateAtStart(job: Job)
    requires job.steps != []
    ensures Late(job, 0, 0) == LateFrom(job, 0) && Stop(job, 0, 0) == FirstFault(job, 0)
  {
    assert job.steps[0].hooks[0..] == job.steps[0].hooks;
  }

  /** All or nothing, when hooks pass on what they got: a save that fails marks no mutation
      done, one that succeeds marks them all, and it succeeds iff no builder has a fault
      and the database accepts. */
  lemma AllOrNothing(job: Job)
    requires job.steps != [] && NoLateFailures(job)
    ensures ErrorFrom(job, 0, 0).None? <==> FirstFault(job, 0).None? && Answer(job).Inserted?
    ensures forall k :: 0 <= k < |job.steps| ==> (Finished(job, k) <==> ErrorFrom(job, 0, 0).None?)
  {
    LateAtStart(job);
    LateExact(job, 0);
    LateIsMonotone(job, 0);
  }

  /** In general: builder k is done iff the insert happened and no hook of a later builder
      failed after it.  So a save can fail with the rows inserted and some, but never the
      first of the failing, mutations done; which happens iff some hook fails late. */
  lemma HowFarDone(job: Job, k: nat)
    requires k < |job.steps|
    ensures Finished(job, k)
       <==> && FirstFault(job, 0).None? && Answer(job).Inserted?
            && forall i, h :: k < i < |job.steps| && 0 <= h < |job.steps[i].hooks| ==> job.steps[i].hooks[h].after.None?
  {
    LateExact(job, k + 1);
  }

  lemma FailedAfterInsert(job: Job)
    requires job.steps != [] && FirstFault(job, 0).None? && Answer(job).Inserted?
    ensures ErrorFrom(job, 0, 0).Some? <==> !NoLateFailures(job)
    ensures Finished(job, |job.steps| - 1)
  {
    LateAtStart(job);
    LateExact(job, 0);
    LateExact(job, |job.steps|);
  }

  /** What the database refuses comes back as a constraint error or as the driver's own. */
  lemma RefusedIsReported(job: Job)
    requires job.steps != [] && FirstFault(job, 0).None? && Answer(job).Refused?
    ensures ErrorFrom(job, 0, 0)
         == Some(if Answer(job).constraint then ConstraintError(Answer(job).msg) else DriverError(Answer(job).msg))
  {
    LateAtStart(job);
  }

  // The innermost hook that fails late: the last builder's last one.
  predicate LatestFailure(job: Job, i: nat, h: nat) {
    && i < |job.steps| && h < |job.steps[i].hooks| && job.steps[i].hooks[h].after.Some?
    && (forall j :: h < j < |job.steps[i].hooks| ==> job.steps[i].hooks[j].after.None?)
    && (forall k, j :: i < k < |job.steps| && 0 <= j < |job.steps[k].hooks| ==> job.steps[k].hooks[j].after.None?)
  }

  lemma {:induction false} LateFailureIs(hooks: seq<Hook>, h: nat)
    requires h < |hooks| && hooks[h].after.Some? && forall j :: h < j < |hooks| ==> hooks[j].after.None?
    ensures LateFailure(hooks) == Some(HookError(hooks[h].after.value))
  {
    if h == 0 {
      LateFailureExact(hooks[1..]);
    } else {
      assert forall j :: 0 < j < |hooks| ==> hooks[j] == hooks[1..][j - 1];
      LateFailureIs(hooks[1..], h - 1);
    }
  }

  lemma {:induction false} LateFromIs(job: Job, from: nat, i: nat, h: nat)
    requires from <= i && LatestFailure(job, i, h)
    ensures LateFrom(job, from) == Some(HookError(job.steps[i].hooks[h].after.value))
    decreases i - from
  {
    if from == i {
      LateExact(job, i + 1);
      LateFailureIs(job.steps[i].hooks, h);
    } else {
      LateFromIs(job, from + 1, i, h);
    }
  }

  /** Of several hooks that fail after the insert, the innermost one of the last builder is
      reported: the others only pass its error on. */
  lemma InnermostLateFailure(job: Job, i: nat, h: nat)
    requires job.steps != [] && FirstFault(job, 0).None? && Answer(job).Inserted? && LatestFailure(job, i, h)
    ensures ErrorFrom(job, 0, 0) == Some(HookError(job.steps[i].hooks[h].after.value))
  {
    LateAtStart(job);
    LateFromIs(job, 0, i, h);
  }

  // --------------------------------------------------------------------- dropped defaults

  /** A defaults() error, which Save drops, stops the save before the insert all the same,
      provided no hook of that builder sets the column. */
  lemma DroppedDefaultStopsSave(job: Job, k: nat, d: Draft, given: Fields, c: Column)
    requires k < |job.steps| && job.steps[k].draft == AfterDefaults(d, given)
    requires WithDefaults(d.fields, DEFAULTED, given).1 == Some(c)
    requires forall h :: 0 <= h < |job.steps[k].hooks| ==> c !in job.steps[k].hooks[h].sets
    ensures FirstFault(job, 0).Some?
    ensures Check(FinalDraft(job, k).fields, job.env.valid).Some?
  {
    DefaultsFill(d.fields, DEFAULTED, given);
    UnsetColumnStays(job.steps[k].draft, job.steps[k].hooks, c);
    MissingFailsCheck(FinalDraft(job, k).fields, c, job.env.valid);
    FaultExact(job.steps[k], 0, job.env.valid);
    var least := LeastFailingBuilder(job, 0);
  }

  // -------------------------------------------------------------------------- upsert bulk

  predicate ConflictFree(bs: seq<AccountCreate>) {
    forall k {:trigger bs[k]} :: 0 <= k < |bs| ==> !bs[k].conflict
  }

  // None of the guards stops the save.
  predicate Saves(bulk: AccountCreateBulk)
    reads bulk
  {
    bulk.err.None? && ConflictFree(bulk.builders) && bulk.conflict > 0
  }

  /** AccountUpsertBulk.Exec: the bulk error first, then the least builder with conflict
      options of its own, then missing options; only then the save. */
  method UpsertExec(bulk: AccountCreateBulk, env: Env) returns (err: Option<SaveError>, log: seq<Event>)
    requires Separate(bulk.builders)
    modifies Mutations(bulk.builders, 0)
    ensures bulk.err.Some? ==> err == Some(BulkError(bulk.err.value)) && log == []
    ensures bulk.err.None? && !ConflictFree(bulk.builders) ==>
              && log == [] && err.Some? && err.value.ConflictOnBuilder? && err.value.i < |bulk.builders|
              && bulk.builders[err.value.i].conflict && ConflictFree(bulk.builders[..err.value.i])
    ensures bulk.err.None? && ConflictFree(bulk.builders) && bulk.conflict == 0 ==>
              err == Some(NoConflictOptions) && log == []
    ensures bulk.err.None? && ConflictFree(bulk.builders) && bulk.conflict > 0 && bulk.builders == [] ==>
              err.None? && log == []
    ensures bulk.err.None? && ConflictFree(bulk.builders) && bulk.conflict > 0 && bulk.builders != [] ==>
              var job := Job(Prepared(bulk.builders, old(Drafts(bulk.builders))), env);
              err == ErrorFrom(job, 0, 0) && log == Nested(job, Enters(job, 0, 0), FirstFault(job, 0).None?)
    ensures forall k {:trigger bulk.builders[k]} :: 0 <= k < |bulk.builders| ==>
              if Saves(bulk) && Finished(Job(Prepared(bulk.builders, old(Drafts(bulk.builders))), env), k)
              then Done(bulk.builders[k], Job(Prepared(bulk.builders, old(Drafts(bulk.builders))), env), k)
              else
                && bulk.builders[k].mutation.done == old(bulk.builders[k].mutation.done)
                && bulk.builders[k].mutation.id == old(bulk.builders[k].mutation.id)
  {
    log := [];
    if bulk.err.Some? {
      return Some(BulkError(bulk.err.value)), [];
    }
    for i := 0 to |bulk.builders|
      invariant ConflictFree(bulk.builders[..i])
    {
      if bulk.builders[i].conflict {
        return Some(ConflictOnBuilder(i)), [];
      }
    }
    assert bulk.builders[..|bulk.builders|] == bulk.builders;
    if bulk.conflict == 0 {
      return Some(NoConflictOptions), [];
    }
    var r;
    r, log := bulk.Save(env);
    err := if r.Failure? then Some(r.error) else None;
  }
}
