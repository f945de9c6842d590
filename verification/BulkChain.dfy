/**
 The mutator chain that BotStateCreateBulk.Save builds, on values.

 Closure i checks builder i, builds its node and spec, calls mutator i+1 (the last one calls the
 database) and, when that succeeds, links and marks its mutation.  Each closure is wrapped in its
 builder's hooks, the first hook outermost.  `Invoke` is one call of that chain.  BulkLaws relates it to
 the batch program it stands for, and BulkCreate proves that the in-place chain computes it.
 */
module BulkChain {
  import opened Wrappers

  // The settable columns of a BotState; None is "never set".
  datatype Fields = Fields(
    userID: Option<int>,
    dealID: Option<nat>,
    state: Option<int>,
    data: Option<nat>,
    updatedAt: Option<int>)

  datatype Error =
    | BuilderError(code: nat)
    | MissingField(name: string)
    | UnexpectedMutation
    | HookError(code: nat)
    | DriverError(code: nat)
    | ConstraintError(code: nat)

  // What a hook hands to its successor: the mutation it was given, another one, or one of another type.
  datatype Pass = Same | Other(fields: Fields) | Foreign

  // A hook refuses before its successor, answers without it, or edits the mutation, calls the successor
  // once, and makes what it likes of the outcome: it may fail after a success and succeed after an error.
  datatype Hook =
    | Veto(code: nat)
    | Skip
    | Forward(edit: Fields -> Fields, pass: Pass, after: Option<Error> -> Option<Error>)

  // The mutation a mutator receives, seen from its builder.
  datatype Arg = Own | Swapped(fields: Fields) | Alien

  datatype Node = Node(id: int, fields: Fields)
  datatype Spec = Spec(fields: Fields, conflict: seq<nat>, id: Option<int>)

  // A builder during a save: its mutation's columns, done flag and id pointer, and its node and spec, if built.
  datatype Slot = Slot(fields: Fields, done: bool, linked: bool, node: Option<Node>, spec: Option<Spec>)

  datatype Event = Enter(builder: nat, hook: nat) | Exit(builder: nat, hook: nat) | Batch

  datatype World = World(slots: seq<Slot>, batches: seq<seq<Option<Spec>>>, trace: seq<Event>)

  // The database's answer to a batch; an insert may return no id for a row (a conflict that was ignored).
  datatype Reply = Inserted(ids: seq<Option<int>>) | Rejected(code: nat, constraint: bool)

  // What stays fixed during a save: hooks and conflict options per builder, those of the batch, the database.
  datatype Job = Job(
    hooks: seq<seq<Hook>>,
    conflicts: seq<seq<nat>>,
    conflict: seq<nat>,
    reply: (seq<Option<Spec>>, seq<nat>) -> Reply)

  datatype Outcome = Outcome(world: World, err: Option<Error>)

  ghost predicate Fits(job: Job, w: World) {
    |job.hooks| == |job.conflicts| == |w.slots|
  }

  function Check(f: Fields): (r: Option<Error>)
    ensures r.None? <==> f.userID.Some? && f.dealID.Some? && f.state.Some? && f.updatedAt.Some?
    ensures r == Some(MissingField("user_id")) <==> f.userID.None?
    ensures r == Some(MissingField("deal_id")) <==> f.userID.Some? && f.dealID.None?
    ensures r == Some(MissingField("state")) <==> f.userID.Some? && f.dealID.Some? && f.state.None?
    ensures r.Some? && f.userID.Some? && f.dealID.Some? && f.state.Some? ==> r == Some(MissingField("updated_at"))
  {
    if f.userID.None? then Some(MissingField("user_id"))
    else if f.dealID.None? then Some(MissingField("deal_id"))
    else if f.state.None? then Some(MissingField("state"))
    else if f.updatedAt.None? then Some(MissingField("updated_at"))
    else None
  }

  function Specs(slots: seq<Slot>): (ss: seq<Option<Spec>>)
    ensures |ss| == |slots|
  {
    seq(|slots|, j requires 0 <= j < |slots| => slots[j].spec)
  }

  function IdAt(ids: seq<Option<int>>, j: nat): Option<int> {
    if j < |ids| then ids[j] else None
  }

  function WithId(slot: Slot, id: Option<int>): Slot {
    if slot.spec.Some? then slot.(spec := Some(slot.spec.value.(id := id))) else slot
  }

  function StoreIds(slots: seq<Slot>, ids: seq<Option<int>>): (ss: seq<Slot>)
    ensures |ss| == |slots|
  {
    seq(|slots|, j requires 0 <= j < |slots| => WithId(slots[j], IdAt(ids, j)))
  }

  function RunBatch(job: Job, w: World): Outcome {
    var specs := Specs(w.slots);
    var w1 := w.(batches := w.batches + [specs], trace := w.trace + [Batch]);
    match job.reply(specs, job.conflict)
    case Rejected(code, constraint) =>
      Outcome(w1, Some(if constraint then ConstraintError(code) else DriverError(code)))
    case Inserted(ids) =>
      Outcome(w1.(slots := StoreIds(w1.slots, ids)), None)
  }

  // The builder takes the mutation over and gets a new node and spec of it.
  function Built(slot: Slot, arg: Arg, conflict: seq<nat>): Slot
    requires !arg.Alien?
  {
    var f := if arg.Own? then slot.fields else arg.fields;
    Slot(f, arg.Own? && slot.done, false, Some(Node(0, f)), Some(Spec(f, conflict, None)))
  }

  // The mutation is linked to the node and done, and the node gets the id of the spec, if there is one.
  function Finished(slot: Slot): Slot {
    var node := if slot.node.Some? && slot.spec.Some? && slot.spec.value.id.Some?
                then Some(slot.node.value.(id := slot.spec.value.id.value)) else slot.node;
    slot.(node := node, linked := true, done := true)
  }

  function Edited(w: World, i: nat, arg: Arg, edit: Fields -> Fields): World
    requires i < |w.slots|
  {
    if arg.Own? then w.(slots := w.slots[i := w.slots[i].(fields := edit(w.slots[i].fields))]) else w
  }

  function Passed(arg: Arg, edit: Fields -> Fields, pass: Pass): Arg {
    match pass
    case Same => if arg.Swapped? then Swapped(edit(arg.fields)) else arg
    case Other(f) => Swapped(f)
    case Foreign => Alien
  }

  // Mutator i from its hook h on, called with the mutation `arg`.
  function Invoke(job: Job, w: World, i: nat, h: nat, arg: Arg): (r: Outcome)
    requires Fits(job, w) && i < |job.hooks| && h <= |job.hooks[i]|
    ensures Fits(job, r.world)
    decreases |job.hooks| - i, |job.hooks[i]| - h, 1
  {
    if h == |job.hooks[i]| then
      Innermost(job, w, i, arg)
    else
      var r := RunHook(job, w.(trace := w.trace + [Enter(i, h)]), i, h, arg);
      r.(world := r.world.(trace := r.world.trace + [Exit(i, h)]))
  }

  function RunHook(job: Job, w: World, i: nat, h: nat, arg: Arg): (r: Outcome)
    requires Fits(job, w) && i < |job.hooks| && h < |job.hooks[i]|
    ensures Fits(job, r.world)
    decreases |job.hooks| - i, |job.hooks[i]| - h, 0
  {
    match job.hooks[i][h]
    case Veto(code) => Outcome(w, Some(HookError(code)))
    case Skip => Outcome(w, None)
    case Forward(edit, pass, after) =>
      var r := Invoke(job, Edited(w, i, arg, edit), i, h + 1, Passed(arg, edit, pass));
      r.(err := after(r.err))
  }

  function Innermost(job: Job, w: World, i: nat, arg: Arg): (r: Outcome)
    requires Fits(job, w) && i < |job.hooks|
    ensures Fits(job, r.world)
    decreases |job.hooks| - i, 0, 0
  {
    if arg.Alien? then
      Outcome(w, Some(UnexpectedMutation))
    else if Check(w.slots[i].fields).Some? then
      Outcome(w, Check(w.slots[i].fields))
    else
      var w1 := w.(slots := w.slots[i := Built(w.slots[i], arg, job.conflicts[i])]);
      var r := if i + 1 < |job.hooks| then Invoke(job, w1, i + 1, 0, Own) else RunBatch(job, w1);
      if r.err.Some? then r
      else r.(world := r.world.(slots := r.world.slots[i := Finished(r.world.slots[i])]))
  }

  // Save after the defaults were set: the chain from builder 0, or nothing at all without builders.
  function Save(job: Job, w: World): (r: Outcome)
    requires Fits(job, w)
    ensures Fits(job, r.world)
  {
    if |job.hooks| == 0 then Outcome(w, None) else Invoke(job, w, 0, 0, Own)
  }
}
