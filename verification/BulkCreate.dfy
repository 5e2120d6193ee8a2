/**
 AccountCreateBulk.Save: a chain of mutators in which each builder's mutator, wrapped in
 its hooks, calls the next builder's, and only the last one inserts.
 */
module BulkCreate {
  import opened Wrappers
  import opened Schema
  import opened AccountRow
  import opened CreateBuilder

  // context.WithValue over a parent, or the context Save was called with
  datatype Context = Root | WithValue(parent: Context, key: string)

  // A hook: it may derive a new context, set fields of the mutation, refuse before it
  // calls next, call next exactly once, pass its error on, or fail after a success.
  datatype Hook = Hook(key: Option<string>, sets: Fields, before: Option<string>, after: Option<string>)

  datatype SaveError =
    | BulkError(msg: string)
    | Validation(why: CheckError)
    | HookError(msg: string)
    | ConstraintError(msg: string)
    | DriverError(msg: string)
    | ConflictOnBuilder(i: nat)
    | NoConflictOptions

  // What sqlgraph.BatchCreate answers: an ID for some of the specifications, or an error.
  datatype Reply = Inserted(ids: seq<Option<int>>) | Refused(constraint: bool, msg: string)

  datatype Event =
    | Enter(builder: nat, hook: nat, ctx: Context)
    | Insert(ctx: Context, specs: seq<CreateSpec>)
    | Leave(builder: nat, hook: nat)

  // A builder when the chain starts: its mutation after defaults(), and its hooks.
  datatype Step = Step(draft: Draft, hooks: seq<Hook>)

  // The validators of the schema package, and the database.
  datatype Env = Env(valid: (Column, Cell) -> bool, driver: (Context, seq<CreateSpec>) -> Reply)

  // One call of Save.
  datatype Job = Job(steps: seq<Step>, env: Env)

  function Wrap(ctx: Context, h: Hook): Context {
    if h.key.Some? then WithValue(ctx, h.key.value) else ctx
  }

  function Wrapped(ctx: Context, hooks: seq<Hook>): Context {
    if hooks == [] then ctx else Wrap(Wrapped(ctx, hooks[..|hooks| - 1]), hooks[|hooks| - 1])
  }

  function Edit(d: Draft, h: Hook): Draft {
    d.(fields := d.fields + h.sets)
  }

  function Edited(d: Draft, hooks: seq<Hook>): Draft {
    if hooks == [] then d else Edit(Edited(d, hooks[..|hooks| - 1]), hooks[|hooks| - 1])
  }

  lemma WrappedStep(ctx: Context, hooks: seq<Hook>, h: nat)
    requires h < |hooks|
    ensures Wrapped(ctx, hooks[..h + 1]) == Wrap(Wrapped(ctx, hooks[..h]), hooks[h])
  {
    assert hooks[..h + 1][..h] == hooks[..h];
  }

  lemma EditedStep(d: Draft, hooks: seq<Hook>, h: nat)
    requires h < |hooks|
    ensures Edited(d, hooks[..h + 1]) == Edit(Edited(d, hooks[..h]), hooks[h])
  {
    assert hooks[..h + 1][..h] == hooks[..h];
  }

  // --------------------------------------------------------------- what goes wrong where

  // The first thing in a builder's own part that stops it, from hook h on.
  function Fault(s: Step, h: nat, valid: (Column, Cell) -> bool): Option<SaveError>
    requires h <= |s.hooks|
    decreases |s.hooks| - h
  {
    if h == |s.hooks| then
      match Check(Edited(s.draft, s.hooks).fields, valid)
      case Some(why) => Some(Validation(why))
      case None => None
    else if s.hooks[h].before.Some? then Some(HookError(s.hooks[h].before.value))
    else Fault(s, h + 1, valid)
  }

  // The fault of the least builder that has one.
  function FirstFault(job: Job, i: nat): Option<SaveError>
    requires i <= |job.steps|
    decreases |job.steps| - i
  {
    if i == |job.steps| then None
    else if Fault(job.steps[i], 0, job.env.valid).Some? then Fault(job.steps[i], 0, job.env.valid)
    else FirstFault(job, i + 1)
  }

  function Stop(job: Job, i: nat, h: nat): Option<SaveError>
    requires i < |job.steps| && h <= |job.steps[i].hooks|
  {
    if Fault(job.steps[i], h, job.env.valid).Some? then Fault(job.steps[i], h, job.env.valid)
    else FirstFault(job, i + 1)
  }

  // The last hook of the list that fails after a success.
  function LateFailure(hooks: seq<Hook>): Option<SaveError> {
    if hooks == [] then None
    else if LateFailure(hooks[1..]).Some? then LateFailure(hooks[1..])
    else if hooks[0].after.Some? then Some(HookError(hooks[0].after.value))
    else None
  }

  // The innermost late failure among builders i and up: the first one to be reported.
  function LateFrom(job: Job, i: nat): Option<SaveError>
    requires i <= |job.steps|
    decreases |job.steps| - i
  {
    if i == |job.steps| then None
    else if LateFrom(job, i + 1).Some? then LateFrom(job, i + 1)
    else LateFailure(job.steps[i].hooks)
  }

  function Late(job: Job, i: nat, h: nat): Option<SaveError>
    requires i < |job.steps| && h <= |job.steps[i].hooks|
  {
    if LateFrom(job, i + 1).Some? then LateFrom(job, i + 1) else LateFailure(job.steps[i].hooks[h..])
  }

  function FinalDraft(job: Job, i: nat): Draft
    requires i < |job.steps|
  {
    Edited(job.steps[i].draft, job.steps[i].hooks)
  }

  function AllSpecs(job: Job): seq<CreateSpec> {
    seq(|job.steps|, i requires 0 <= i < |job.steps| => SpecOf(FinalDraft(job, i)))
  }

  // The insert sees the context as the last builder's hooks left it.
  function InsertContext(job: Job): Context
    requires job.steps != []
  {
    Wrapped(Root, job.steps[|job.steps| - 1].hooks)
  }

  function Answer(job: Job): Reply
    requires job.steps != []
  {
    job.env.driver(InsertContext(job), AllSpecs(job))
  }

  function Refusal(r: Reply): Option<SaveError> {
    match r
    case Inserted(_) => None
    case Refused(constraint, msg) => Some(if constraint then ConstraintError(msg) else DriverError(msg))
  }

  function AssignedID(r: Reply, i: nat): Option<int> {
    if r.Inserted? && i < |r.ids| then r.ids[i] else None
  }

  // What the mutator of builder i, entered at hook h, returns.
  function ErrorFrom(job: Job, i: nat, h: nat): Option<SaveError>
    requires i < |job.steps| && h <= |job.steps[i].hooks|
  {
    if Stop(job, i, h).Some? then Stop(job, i, h)
    else if Refusal(Answer(job)).Some? then Refusal(Answer(job))
    else Late(job, i, h)
  }

  // ---------------------------------------------------------------------- the trace

  // The hooks of builder i entered from h on, each in the context the ones before made.
  function EntersOf(s: Step, i: nat, h: nat): seq<Event>
    requires h <= |s.hooks|
    decreases |s.hooks| - h
  {
    if h == |s.hooks| then []
    else [Enter(i, h, Wrapped(Root, s.hooks[..h]))] + (if s.hooks[h].before.Some? then [] else EntersOf(s, i, h + 1))
  }

  function EntersFrom(job: Job, i: nat): seq<Event>
    requires i <= |job.steps|
    decreases |job.steps| - i
  {
    if i == |job.steps| then []
    else
      EntersOf(job.steps[i], i, 0)
      + (if Fault(job.steps[i], 0, job.env.valid).Some? then [] else EntersFrom(job, i + 1))
  }

  function Enters(job: Job, i: nat, h: nat): seq<Event>
    requires i < |job.steps| && h <= |job.steps[i].hooks|
  {
    EntersOf(job.steps[i], i, h) + (if Fault(job.steps[i], h, job.env.valid).Some? then [] else EntersFrom(job, i + 1))
  }

  // Leaving what was entered, in reverse.
  function Unwind(enters: seq<Event>): seq<Event> {
    if enters == [] then []
    else Unwind(enters[1..]) + (if enters[0].Enter? then [Leave(enters[0].builder, enters[0].hook)] else [])
  }

  // One pass in, at most one insert at the turning point, and the same way out.
  function Nested(job: Job, enters: seq<Event>, inserted: bool): seq<Event>
    requires job.steps != []
  {
    enters + (if inserted then [Insert(InsertContext(job), AllSpecs(job))] else []) + Unwind(enters)
  }

  lemma NestedStep(job: Job, e: Event, enters: seq<Event>, inserted: bool)
    requires job.steps != [] && e.Enter?
    ensures Nested(job, [e] + enters, inserted) == [e] + Nested(job, enters, inserted) + [Leave(e.builder, e.hook)]
  {
    assert ([e] + enters)[1..] == enters;
  }

  // A hook that calls next adds its own enter event and its own late failure.
  lemma HookStep(job: Job, i: nat, h: nat)
    requires i < |job.steps| && h < |job.steps[i].hooks|
    ensures var hook := job.steps[i].hooks[h];
            var e := Enter(i, h, Wrapped(Root, job.steps[i].hooks[..h]));
            if hook.before.Some? then
              Stop(job, i, h) == Some(HookError(hook.before.value)) && Enters(job, i, h) == [e]
            else
              && Stop(job, i, h) == Stop(job, i, h + 1)
              && Enters(job, i, h) == [e] + Enters(job, i, h + 1)
              && Late(job, i, h) == if Late(job, i, h + 1).Some? then Late(job, i, h + 1)
                                    else if hook.after.Some? then Some(HookError(hook.after.value)) else None
  {
    var hooks := job.steps[i].hooks;
    assert hooks[h..][0] == hooks[h] && hooks[h..][1..] == hooks[h + 1..];
    var e := Enter(i, h, Wrapped(Root, hooks[..h]));
    if hooks[h].before.Some? {
      assert [e] + [] == [e];
    } else {
      assert Fault(job.steps[i], h, job.env.valid) == Fault(job.steps[i], h + 1, job.env.valid);
      var own := EntersOf(job.steps[i], i, h + 1);
      var rest := if Fault(job.steps[i], h + 1, job.env.valid).Some? then [] else EntersFrom(job, i + 1);
      assert ([e] + own) + rest == [e] + (own + rest);
    }
  }

  // After its last hook a builder checks its draft and hands over.
  lemma CoreStep(job: Job, i: nat)
    requires i < |job.steps|
    ensures var n := |job.steps[i].hooks|;
            match Check(FinalDraft(job, i).fields, job.env.valid)
            case Some(why) => Stop(job, i, n) == Some(Validation(why)) && Enters(job, i, n) == []
            case None =>
              && Stop(job, i, n) == FirstFault(job, i + 1) && Enters(job, i, n) == EntersFrom(job, i + 1)
              && Late(job, i, n) == LateFrom(job, i + 1)
  {
    var hooks := job.steps[i].hooks;
    assert hooks[|hooks|..] == [];
    assert [] + EntersFrom(job, i + 1) == EntersFrom(job, i + 1);
  }

  // ------------------------------------------------------------------------- objects

  class AccountMutation {
    var draft: Draft
    var id: AccountEntity?   // the entity whose ID field the pointer aims at
    var done: bool

    constructor (draft: Draft)
      ensures this.draft == draft && id == null && !done
    {
      this.draft, id, done := draft, null, false;
    }
  }

  class AccountCreate {
    const mutation: AccountMutation
    const hooks: seq<Hook>
    const given: Fields   // what the default functions yield for this builder
    const conflict: bool  // whether conflict options were set on the builder itself

    constructor (mutation: AccountMutation, hooks: seq<Hook>, given: Fields, conflict: bool)
      ensures this.mutation == mutation && this.hooks == hooks && this.given == given && this.conflict == conflict
    {
      this.mutation, this.hooks, this.given, this.conflict := mutation, hooks, given, conflict;
    }

    // Runs the defaults on the builder's own mutation.
    method Defaults() returns (err: Option<Column>)
      modifies mutation`draft
      ensures var (f, e) := WithDefaults(old(mutation.draft).fields, DEFAULTED, given);
              mutation.draft == old(mutation.draft).(fields := f) && err == e
    {
      var f;
      f, err := CreateBuilder.Defaults(mutation.draft.fields, given);
      mutation.draft := mutation.draft.(fields := f);
    }
  }

  // The builders hold different mutations.
  ghost predicate Separate(bs: seq<AccountCreate>) {
    forall i, j :: 0 <= i < j < |bs| ==> bs[i].mutation != bs[j].mutation
  }

  ghost function Mutations(bs: seq<AccountCreate>, i: nat): set<AccountMutation> {
    set k | i <= k < |bs| :: bs[k].mutation
  }

  // A builder's draft after its defaults(), however that ended.
  function AfterDefaults(d: Draft, given: Fields): Draft {
    d.(fields := WithDefaults(d.fields, DEFAULTED, given).0)
  }

  ghost function Drafts(bs: seq<AccountCreate>): (res: seq<Draft>)
    reads Mutations(bs, 0)
    ensures |res| == |bs| && forall i {:trigger res[i]} :: 0 <= i < |bs| ==> res[i] == bs[i].mutation.draft
  {
    seq(|bs|, i requires 0 <= i < |bs| reads Mutations(bs, 0) => bs[i].mutation.draft)
  }

  // The steps of the chain, from the drafts the builders had when Save was called.
  ghost function Prepared(bs: seq<AccountCreate>, ds: seq<Draft>): (res: seq<Step>)
    requires |ds| == |bs|
    ensures |res| == |bs| && forall i {:trigger res[i]} :: 0 <= i < |bs| ==>
              res[i] == Step(AfterDefaults(ds[i], bs[i].given), bs[i].hooks)
  {
    seq(|bs|, i requires 0 <= i < |bs| => Step(AfterDefaults(ds[i], bs[i].given), bs[i].hooks))
  }

  // ------------------------------------------------------------------------ the chain

  // Builder k's entity and mutation after a save that went through for it.
  ghost predicate Saved(b: AccountCreate, node: AccountEntity?, job: Job, k: nat)
    requires k < |job.steps|
    reads b.mutation, node
  {
    && node != null
    && b.mutation.done && b.mutation.id == node
    && node.fields == SavedFields(job, k)
  }

  function SavedFields(job: Job, k: nat): Fields
    requires k < |job.steps|
  {
    WithID(NodeFields(FinalDraft(job, k)), AssignedID(Answer(job), k))
  }

  // The i-th builder's entity after a save that the database answered with these IDs.
  ghost predicate MadeBy(f: Fields, d: Draft, ids: seq<Option<int>>, k: nat) {
    MadeFrom(f, d, if k < |ids| then ids[k] else None)
  }

  lemma SavedIsMade(job: Job, k: nat)
    requires k < |job.steps| && Answer(job).Inserted?
    ensures MadeBy(SavedFields(job, k), FinalDraft(job, k), Answer(job).ids, k)
  {
    var ids := Answer(job).ids;
    NodeIsMade(FinalDraft(job, k), if k < |ids| then ids[k] else None);
  }

  ghost predicate Ready(bs: seq<AccountCreate>, job: Job, i: nat, h: nat)
    requires i < |job.steps| == |bs| && h <= |job.steps[i].hooks|
    reads Mutations(bs, i)
  {
    && Separate(bs)
    && (forall k {:trigger bs[k]} :: 0 <= k < |bs| ==> bs[k].hooks == job.steps[k].hooks)
    && bs[i].mutation.draft == Edited(job.steps[i].draft, job.steps[i].hooks[..h])
    && (forall k {:trigger bs[k]} :: i < k < |bs| ==> bs[k].mutation.draft == job.steps[k].draft)
  }

  ghost predicate SpecsReady(specs: seq<Option<CreateSpec>>, job: Job, i: nat) {
    |specs| == |job.steps| && forall k :: 0 <= k < i && k < |specs| ==> specs[k] == Some(SpecOf(FinalDraft(job, k)))
  }

  function Stamp(spec: Option<CreateSpec>, id: Option<int>): Option<CreateSpec> {
    if spec.Some? then Some(spec.value.(id := id)) else None
  }

  function Values(specs: seq<Option<CreateSpec>>): (res: seq<CreateSpec>)
    requires forall k :: 0 <= k < |specs| ==> specs[k].Some?
    ensures |res| == |specs| && forall k :: 0 <= k < |res| ==> res[k] == specs[k].value
  {
    seq(|specs|, k requires 0 <= k < |specs| => specs[k].value)
  }

  // sqlgraph.BatchCreate: on success it writes the IDs it was given into the specs.
  method BatchCreate(
      ctx: Context, specs: array<Option<CreateSpec>>, env: Env)
      returns (err: Option<SaveError>, log: seq<Event>)
    requires forall k :: 0 <= k < specs.Length ==> specs[k].Some?
    modifies specs
    ensures var sent := Values(old(specs[..]));
            && log == [Insert(ctx, sent)]
            && err == Refusal(env.driver(ctx, sent))
            && (err.None? ==> forall k :: 0 <= k < specs.Length ==>
                  specs[k] == Stamp(old(specs[k]), AssignedID(env.driver(ctx, sent), k)))
            && (match env.driver(ctx, sent)
                case Refused(constraint, msg) =>
                  err == Some(if constraint then ConstraintError(msg) else DriverError(msg))
                case Inserted(ids) =>
                  err.None? && forall k :: 0 <= k < specs.Length ==>
                    specs[k] == Some(old(specs[k]).value.(id := if k < |ids| then ids[k] else None)))
  {
    ghost var was := specs[..];
    var sent := Values(specs[..]);
    log := [Insert(ctx, sent)];
    var reply := env.driver(ctx, sent);
    err := Refusal(reply);
    if err.None? {
      for i := 0 to specs.Length
        invariant forall k :: 0 <= k < i ==> specs[k] == Stamp(was[k], AssignedID(reply, k))
        invariant forall k :: i <= k < specs.Length ==> specs[k] == was[k]
      {
        specs[i] := Some(specs[i].value.(id := AssignedID(reply, i)));
      }
    }
  }

  // The two slices of Save: earlier entries stay, and a successful insert stamps every spec.
  ghost predicate Slices(
      nodes: seq<AccountEntity?>, before: seq<AccountEntity?>, specs: seq<Option<CreateSpec>>, job: Job, i: nat,
      passed: bool)
    requires i <= |job.steps| && job.steps != []
  {
    && |nodes| == |before| == |specs| == |job.steps|
    && nodes[..i] == before[..i]
    && (passed && Answer(job).Inserted? ==>
          forall k :: 0 <= k < |specs| ==>
            specs[k] == Some(SpecOf(FinalDraft(job, k)).(id := AssignedID(Answer(job), k))))
  }

  // A builder whose own part and everything after it went through is saved; the
  // mutation of any other is not marked.
  twostate predicate Marked(b: AccountCreate, new node: AccountEntity?, job: Job, k: nat, passed: bool)
    requires k < |job.steps|
    reads b.mutation, node
  {
    if passed && Answer(job).Inserted? && LateFrom(job, k + 1).None? then Saved(b, node, job, k) && fresh(node)
    else b.mutation.done == old(b.mutation.done) && b.mutation.id == old(b.mutation.id)
  }

  /** The mutator of builder i seen from hook h inwards. */
  method Mutate(
      bs: seq<AccountCreate>, nodes: array<AccountEntity?>, specs: array<Option<CreateSpec>>, env: Env, ghost job: Job,
      i: nat, h: nat, ctx: Context)
      returns (err: Option<SaveError>, log: seq<Event>)
    requires i < |job.steps| == |bs| == nodes.Length == specs.Length && h <= |job.steps[i].hooks| && env == job.env
    requires Ready(bs, job, i, h) && SpecsReady(specs[..], job, i)
    requires ctx == Wrapped(Root, job.steps[i].hooks[..h])
    modifies nodes, specs, Mutations(bs, i)
    ensures err == ErrorFrom(job, i, h)
    ensures log == Nested(job, Enters(job, i, h), Stop(job, i, h).None?)
    ensures Slices(nodes[..], old(nodes[..]), specs[..], job, i, Stop(job, i, h).None?)
    ensures forall k {:trigger bs[k]} :: i <= k < |bs| ==> Marked(bs[k], nodes[k], job, k, Stop(job, i, h).None?)
    decreases |bs| - i, |job.steps[i].hooks| - h + 4
  {
    if h == |bs[i].hooks| {
      assert job.steps[i].hooks[..h] == job.steps[i].hooks;
      err, log := MutateCore(bs, nodes, specs, env, job, i, ctx);
    } else {
      var hook := bs[i].hooks[h];
      log := [Enter(i, h, ctx)];
      HookStep(job, i, h);
      if hook.before.Some? {
        NestedStep(job, Enter(i, h, ctx), [], false);
        return Some(HookError(hook.before.value)), log + [Leave(i, h)];
      }
      EditedStep(job.steps[i].draft, job.steps[i].hooks, h);
      WrappedStep(Root, job.steps[i].hooks, h);
      bs[i].mutation.draft := Edit(bs[i].mutation.draft, hook);
      var inner;
      err, inner := Mutate(bs, nodes, specs, env, job, i, h + 1, Wrap(ctx, hook));
      log := log + inner + [Leave(i, h)];
      NestedStep(job, Enter(i, h, ctx), Enters(job, i, h + 1), Stop(job, i, h + 1).None?);
      if err.None? && hook.after.Some? {
        err := Some(HookError(hook.after.value));
      }
    }
  }

  // The call of the next mutator, or the insert after the last one.
  method Next(
      bs: seq<AccountCreate>, nodes: array<AccountEntity?>, specs: array<Option<CreateSpec>>, env: Env, ghost job: Job,
      i: nat, ctx: Context)
      returns (err: Option<SaveError>, log: seq<Event>)
    requires i < |job.steps| == |bs| == nodes.Length == specs.Length && env == job.env
    requires Ready(bs, job, i, |job.steps[i].hooks|) && SpecsReady(specs[..], job, i + 1)
    requires ctx == Wrapped(Root, job.steps[i].hooks)
    modifies nodes, specs, Mutations(bs, i + 1)
    ensures err == if FirstFault(job, i + 1).Some? then FirstFault(job, i + 1)
                   else if Refusal(Answer(job)).Some? then Refusal(Answer(job))
                   else LateFrom(job, i + 1)
    ensures log == Nested(job, EntersFrom(job, i + 1), FirstFault(job, i + 1).None?)
    ensures Slices(nodes[..], old(nodes[..]), specs[..], job, i + 1, FirstFault(job, i + 1).None?)
    ensures forall k {:trigger bs[k]} :: i + 1 <= k < |bs| ==>
              Marked(bs[k], nodes[k], job, k, FirstFault(job, i + 1).None?)
    decreases |bs| - i, 0
  {
    if i < |bs| - 1 {
      assert job.steps[i + 1].hooks[..0] == [] && job.steps[i + 1].hooks[0..] == job.steps[i + 1].hooks;
      err, log := Mutate(bs, nodes, specs, env, job, i + 1, 0, Root);
    } else {
      err, log := BatchCreate(ctx, specs, env);
      assert Values(old(specs[..])) == AllSpecs(job);
    }
  }

  // What the innermost function does once the rest went through.
  method Finish(b: AccountCreate, node: AccountEntity, spec: CreateSpec, ghost job: Job, ghost k: nat)
    requires k < |job.steps| && node.fields == NodeFields(FinalDraft(job, k)) && spec.id == AssignedID(Answer(job), k)
    modifies b.mutation, node
    ensures Saved(b, node, job, k)
  {
    b.mutation.id := node;
    if spec.id.Some? {
      node.fields := node.fields[ID := I(spec.id.value)];
    }
    b.mutation.done := true;
  }

  // From the specification of builder i on: the rest of the chain, then builder i itself.
  method Complete(
      bs: seq<AccountCreate>, nodes: array<AccountEntity?>, specs: array<Option<CreateSpec>>, env: Env, ghost job: Job,
      i: nat, ctx: Context,
      node: AccountEntity)
      returns (err: Option<SaveError>, log: seq<Event>)
    requires i < |job.steps| == |bs| == nodes.Length == specs.Length && env == job.env
    requires Ready(bs, job, i, |job.steps[i].hooks|) && SpecsReady(specs[..], job, i + 1)
    requires ctx == Wrapped(Root, job.steps[i].hooks) && node.fields == NodeFields(FinalDraft(job, i))
    modifies nodes, specs, Mutations(bs, i), node
    ensures err == if FirstFault(job, i + 1).Some? then FirstFault(job, i + 1)
                   else if Refusal(Answer(job)).Some? then Refusal(Answer(job))
                   else LateFrom(job, i + 1)
    ensures log == Nested(job, EntersFrom(job, i + 1), FirstFault(job, i + 1).None?)
    ensures Slices(nodes[..], old(nodes[..]), specs[..], job, i + 1, FirstFault(job, i + 1).None?)
    ensures forall k {:trigger bs[k]} :: i + 1 <= k < |bs| ==>
              Marked(bs[k], nodes[k], job, k, FirstFault(job, i + 1).None?)
    ensures if err.None? then Saved(bs[i], node, job, i)
            else bs[i].mutation.done == old(bs[i].mutation.done) && bs[i].mutation.id == old(bs[i].mutation.id)
    decreases |bs| - i, 1
  {
    err, log := Next(bs, nodes, specs, env, job, i, ctx);
    if err.None? {
      Finish(bs[i], node, specs[i].value, job, i);
    }
  }

  // Builder i's entity and specification, each in its slot.
  method FillSlots(
      nodes: array<AccountEntity?>, specs: array<Option<CreateSpec>>, ghost job: Job, i: nat, draft: Draft)
      returns (node: AccountEntity)
    requires i < |job.steps| == nodes.Length == specs.Length && draft == FinalDraft(job, i)
             && SpecsReady(specs[..], job, i)
    modifies nodes, specs
    ensures fresh(node) && node.fields == NodeFields(FinalDraft(job, i))
    ensures nodes[..] == old(nodes[..])[i := node] && SpecsReady(specs[..], job, i + 1)
  {
    var spec;
    node, spec := CreateSpecFrom(draft);
    nodes[i], specs[i] := node, Some(spec);
  }

  // The innermost function of builder i's mutator once its check has passed.
  method AfterCheck(
      bs: seq<AccountCreate>, nodes: array<AccountEntity?>, specs: array<Option<CreateSpec>>, env: Env, ghost job: Job,
      i: nat, ctx: Context)
      returns (err: Option<SaveError>, log: seq<Event>)
    requires i < |job.steps| == |bs| == nodes.Length == specs.Length && env == job.env
    requires Ready(bs, job, i, |job.steps[i].hooks|) && SpecsReady(specs[..], job, i)
    requires ctx == Wrapped(Root, job.steps[i].hooks)
    modifies nodes, specs, Mutations(bs, i)
    ensures err == if FirstFault(job, i + 1).Some? then FirstFault(job, i + 1)
                   else if Refusal(Answer(job)).Some? then Refusal(Answer(job))
                   else LateFrom(job, i + 1)
    ensures log == Nested(job, EntersFrom(job, i + 1), FirstFault(job, i + 1).None?)
    ensures Slices(nodes[..], old(nodes[..]), specs[..], job, i, FirstFault(job, i + 1).None?)
    ensures forall k {:trigger bs[k]} :: i <= k < |bs| ==> Marked(bs[k], nodes[k], job, k, FirstFault(job, i + 1).None?)
    decreases |bs| - i, 2
  {
    assert job.steps[i].hooks[..|job.steps[i].hooks|] == job.steps[i].hooks;
    var node := FillSlots(nodes, specs, job, i, bs[i].mutation.draft);
    ghost var mid := nodes[..];
    err, log := Complete(bs, nodes, specs, env, job, i, ctx, node);
    assert nodes[..i] == mid[..i + 1][..i] == mid[..i] == old(nodes[..])[..i];
    assert nodes[i] == mid[..i + 1][i] == node;
  }

  // The innermost function of builder i's mutator.
  method MutateCore(
      bs: seq<AccountCreate>, nodes: array<AccountEntity?>, specs: array<Option<CreateSpec>>, env: Env, ghost job: Job,
      i: nat, ctx: Context)
      returns (err: Option<SaveError>, log: seq<Event>)
    requires i < |job.steps| == |bs| == nodes.Length == specs.Length && env == job.env
    requires Ready(bs, job, i, |job.steps[i].hooks|) && SpecsReady(specs[..], job, i)
    requires ctx == Wrapped(Root, job.steps[i].hooks)
    modifies nodes, specs, Mutations(bs, i)
    ensures err == ErrorFrom(job, i, |job.steps[i].hooks|)
    ensures log == Nested(job, Enters(job, i, |job.steps[i].hooks|), Stop(job, i, |job.steps[i].hooks|).None?)
    ensures Slices(nodes[..], old(nodes[..]), specs[..], job, i, Stop(job, i, |job.steps[i].hooks|).None?)
    ensures forall k {:trigger bs[k]} :: i <= k < |bs| ==>
              Marked(bs[k], nodes[k], job, k, Stop(job, i, |job.steps[i].hooks|).None?)
    decreases |bs| - i, 3
  {
    assert job.steps[i].hooks[..|job.steps[i].hooks|] == job.steps[i].hooks;
    CoreStep(job, i);
    var why := Check(bs[i].mutation.draft.fields, env.valid);
    if why.Some? {
      return Some(Validation(why.value)), [];
    }
    err, log := AfterCheck(bs, nodes, specs, env, job, i, ctx);
  }

  // ----------------------------------------------------------------------------- Save

  // The chain got through builder k and everything after it, the insert included.
  predicate Finished(job: Job, k: nat)
    requires k < |job.steps|
  {
    FirstFault(job, 0).None? && Answer(job).Inserted? && LateFrom(job, k + 1).None?
  }

  ghost predicate Done(b: AccountCreate, job: Job, k: nat)
    requires k < |job.steps|
    reads b.mutation, if b.mutation.id == null then {} else {b.mutation.id}
  {
    b.mutation.done && b.mutation.id != null && b.mutation.id.fields == SavedFields(job, k)
  }

  // The chain is entered at the first mutator, over two new slices.
  method RunChain(
      bs: seq<AccountCreate>, env: Env, ghost job: Job)
      returns (r: Result<seq<AccountEntity?>, SaveError>, log: seq<Event>)
    requires bs != [] && Separate(bs) && |job.steps| == |bs| && job.env == env
    requires forall k {:trigger bs[k]} :: 0 <= k < |bs| ==> job.steps[k] == Step(bs[k].mutation.draft, bs[k].hooks)
    modifies Mutations(bs, 0)
    ensures log == Nested(job, Enters(job, 0, 0), FirstFault(job, 0).None?)
    ensures match ErrorFrom(job, 0, 0)
            case Some(e) => r == Failure(e)
            case None =>
              r.Success? && |r.value| == |bs| && forall k {:trigger bs[k]} :: 0 <= k < |bs| ==>
                Saved(bs[k], r.value[k], job, k)
    ensures forall k {:trigger bs[k]} :: 0 <= k < |bs| ==>
              if Finished(job, k) then Done(bs[k], job, k)
              else bs[k].mutation.done == old(bs[k].mutation.done) && bs[k].mutation.id == old(bs[k].mutation.id)
  {
    var specs := new Option<CreateSpec>[|bs|](_ => None);
    var nodes := new AccountEntity?[|bs|](_ => null);
    assert job.steps[0].hooks[..0] == [];
    var failed;
    failed, log := Mutate(bs, nodes, specs, env, job, 0, 0, Root);
    if failed.None? { LateFollows(job); }
    r := if failed.Some? then Failure(failed.value) else Success(nodes[..]);
  }

  lemma LateFollows(job: Job)
    requires job.steps != [] && Late(job, 0, 0).None?
    ensures forall k :: 0 <= k <= |job.steps| ==> LateFrom(job, k).None?
  {
    assert job.steps[0].hooks[0..] == job.steps[0].hooks;
    LateIsMonotone(job, 0);
  }

  lemma {:induction false} LateIsMonotone(job: Job, i: nat)
    requires i <= |job.steps| && LateFrom(job, i).None?
    ensures forall k :: i <= k <= |job.steps| ==> LateFrom(job, k).None?
    decreases |job.steps| - i
  {
    if i < |job.steps| { LateIsMonotone(job, i + 1); }
  }

  class AccountCreateBulk {
    const err: Option<string>
    const builders: seq<AccountCreate>
    var conflict: nat   // how many conflict options are set

    constructor (err: Option<string>, builders: seq<AccountCreate>, conflict: nat)
      ensures this.err == err && this.builders == builders && this.conflict == conflict
    {
      this.err, this.builders, this.conflict := err, builders, conflict;
    }

    // Every builder's defaults; the errors are dropped.
    method AllDefaults()
      requires Separate(builders)
      modifies Mutations(builders, 0)`draft
      ensures forall k {:trigger builders[k]} :: 0 <= k < |builders| ==>
                builders[k].mutation.draft == AfterDefaults(old(Drafts(builders))[k], builders[k].given)
    {
      ghost var was := Drafts(builders);
      for i := 0 to |builders|
        invariant forall k {:trigger builders[k]} :: 0 <= k < i ==>
                  builders[k].mutation.draft == AfterDefaults(was[k], builders[k].given)
        invariant forall k {:trigger builders[k]} :: i <= k < |builders| ==> builders[k].mutation.draft == was[k]
      {
        var dropped := builders[i].Defaults();
      }
    }

    // The entities of the chain, with the IDs they got.
    method SaveChain(env: Env, ghost job: Job) returns (r: Result<seq<AccountEntity?>, SaveError>, log: seq<Event>)
      requires builders != [] && Separate(builders) && |job.steps| == |builders| && job.env == env
      requires forall k {:trigger builders[k]} :: 0 <= k < |builders| ==>
                 job.steps[k] == Step(builders[k].mutation.draft, builders[k].hooks)
      modifies Mutations(builders, 0)
      ensures log == Nested(job, Enters(job, 0, 0), FirstFault(job, 0).None?)
      ensures match ErrorFrom(job, 0, 0)
              case Some(e) => r == Failure(e)
              case None =>
                r.Success? && |r.value| == |builders| && forall k {:trigger builders[k]} :: 0 <= k < |builders| ==>
                  Saved(builders[k], r.value[k], job, k)
      ensures r.Success? ==>
                Answer(job).Inserted? && forall k {:trigger r.value[k]} :: 0 <= k < |r.value| < |job.steps| + 1 ==>
                  r.value[k] != null && MadeBy(r.value[k].fields, FinalDraft(job, k), Answer(job).ids, k)
      ensures forall k {:trigger builders[k]} :: 0 <= k < |builders| ==>
                if Finished(job, k) then Done(builders[k], job, k)
                else
                  && builders[k].mutation.done == old(builders[k].mutation.done)
                  && builders[k].mutation.id == old(builders[k].mutation.id)
    {
      r, log := RunChain(builders, env, job);
      if r.Success? {
        forall k {:trigger r.value[k]} | 0 <= k < |r.value|
          ensures r.value[k] != null && MadeBy(r.value[k].fields, FinalDraft(job, k), Answer(job).ids, k)
        {
          SavedIsMade(job, k);
          assert Saved(builders[k], r.value[k], job, k);
        }
      }
    }

    /** Save, for any number of builders: the trace, the error and which mutations end up
        done are those of the specification above; and the k-th entity is the k-th builder's
        final draft with the k-th ID of the database's reply. */
    method Save(env: Env) returns (r: Result<seq<AccountEntity?>, SaveError>, log: seq<Event>)
      requires Separate(builders)
      modifies Mutations(builders, 0)
      ensures err.Some? ==> r == Failure(BulkError(err.value)) && log == []
      ensures err.None? && builders == [] ==> r == Success([]) && log == []
      ensures err.None? && builders != [] ==>
                var job := Job(Prepared(builders, old(Drafts(builders))), env);
                && log == Nested(job, Enters(job, 0, 0), FirstFault(job, 0).None?)
                && (match ErrorFrom(job, 0, 0)
                    case Some(e) => r == Failure(e)
                    case None =>
                      && r.Success? && |r.value| == |builders|
                      && forall k {:trigger builders[k]} :: 0 <= k < |builders| ==>
                         Saved(builders[k], r.value[k], job, k))
                && (forall k {:trigger builders[k]} :: 0 <= k < |builders| ==>
                      if Finished(job, k) then Done(builders[k], job, k)
                      else
                        && builders[k].mutation.done == old(builders[k].mutation.done)
                        && builders[k].mutation.id == old(builders[k].mutation.id))
                && (r.Success? ==>
                      Answer(job).Inserted? && forall k {:trigger r.value[k]} :: 0 <= k < |builders| ==>
                        r.value[k] != null && MadeBy(r.value[k].fields, FinalDraft(job, k), Answer(job).ids, k))
    {
      if err.Some? {
        return Failure(BulkError(err.value)), [];
      }
      AllDefaults();
      if |builders| == 0 {
        return Success([]), [];
      }
      ghost var job := Job(Prepared(builders, old(Drafts(builders))), env);
      r, log := SaveChain(env, job);
    }
  }
}
