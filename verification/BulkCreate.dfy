/**
 BotStateCreateBulk.Save on the heap: builders, their mutations, and the node and spec slots that the
 closures share and fill in place.  Every method is proved against BulkChain.
 */
module BulkCreate {
  import opened Wrappers
  import opened BulkChain
  import opened BulkLaws

  const DEFAULT_STATE := 0

  // The created entity.
  class BotState {
    var id: int
    const fields: Fields

    constructor (fields: Fields)
      ensures this.fields == fields && id == 0
    {
      this.fields := fields;
      id := 0;
    }
  }

  // sqlgraph.CreateSpec: the columns to insert, and the id the database fills in.
  class SpecCell {
    const fields: Fields
    const conflict: seq<nat>
    var id: Option<int>

    constructor (fields: Fields, conflict: seq<nat>)
      ensures this.fields == fields && this.conflict == conflict && id == None
    {
      this.fields := fields;
      this.conflict := conflict;
      id := None;
    }
  }

  // `node` is the node whose ID field the mutation's id pointer points to.
  class BotStateMutation {
    var fields: Fields
    var node: BotState?
    var done: bool

    constructor (fields: Fields)
      ensures this.fields == fields && node == null && !done
    {
      this.fields := fields;
      node := null;
      done := false;
    }
  }

  function WithDefaults(f: Fields, now: int): (r: Fields)
    ensures Check(r) == if f.userID.None? then Some(MissingField("user_id"))
                        else if f.dealID.None? then Some(MissingField("deal_id")) else None
    ensures r.userID == f.userID && r.dealID == f.dealID && r.data == f.data
    ensures r.state == if f.state.Some? then f.state else Some(0)
    ensures r.updatedAt == if f.updatedAt.Some? then f.updatedAt else Some(now)
  {
    var f1 := if f.state.None? then f.(state := Some(DEFAULT_STATE)) else f;
    if f1.updatedAt.None? then f1.(updatedAt := Some(now)) else f1
  }

  class BotStateCreate {
    var mutation: BotStateMutation
    const hooks: seq<Hook>
    const conflict: seq<nat>

    constructor (mutation: BotStateMutation, hooks: seq<Hook>, conflict: seq<nat>)
      ensures this.mutation == mutation && this.hooks == hooks && this.conflict == conflict
    {
      this.mutation := mutation;
      this.hooks := hooks;
      this.conflict := conflict;
    }

    method Defaults(now: int)
      modifies mutation
      ensures mutation.fields == WithDefaults(old(mutation.fields), now)
      ensures mutation.node == old(mutation.node) && mutation.done == old(mutation.done)
    {
      if mutation.fields.state.None? {
        mutation.fields := mutation.fields.(state := Some(DEFAULT_STATE));
      }
      if mutation.fields.updatedAt.None? {
        mutation.fields := mutation.fields.(updatedAt := Some(now));
      }
    }

    method CreateSpec() returns (node: BotState, spec: SpecCell)
      ensures fresh(node) && fresh(spec)
      ensures node.id == 0 && node.fields == mutation.fields
      ensures spec.fields == mutation.fields && spec.conflict == conflict && spec.id == None
    {
      node := new BotState(mutation.fields);
      spec := new SpecCell(mutation.fields, conflict);
    }
  }

  // The run so far: the batches the database was sent, and the order of events.
  class Journal {
    var batches: seq<seq<Option<Spec>>>
    var trace: seq<Event>

    constructor ()
      ensures batches == [] && trace == []
    {
      batches, trace := [], [];
    }
  }

  // The variables of one Save that its closures share.
  class SaveScope {
    const builders: seq<BotStateCreate>
    const conflict: seq<nat>
    const reply: (seq<Option<Spec>>, seq<nat>) -> Reply
    var nodes: seq<BotState?>
    var specs: seq<SpecCell?>
    const journal: Journal

    ghost var Repr: set<object>  // every object the closures may change

    ghost predicate Valid()
      reads this, Repr
    {
      && this !in Repr && journal !in Repr
      && |nodes| == |specs| == |builders|
      && (forall j | 0 <= j < |builders| ::
            && builders[j] in Repr && builders[j].mutation in Repr
            && (nodes[j] != null ==> nodes[j] in Repr)
            && (specs[j] != null ==> specs[j] in Repr))
      && (forall j, k | 0 <= j < k < |builders| ::
            && builders[j] != builders[k]
            && builders[j].mutation != builders[k].mutation
            && (nodes[j] != null ==> nodes[j] != nodes[k])
            && (specs[j] != null ==> specs[j] != specs[k]))
    }

    ghost function SpecAt(j: nat): Option<Spec>
      requires Valid() && j < |builders|
      reads this, Repr
    {
      var s := specs[j];
      if s == null then None else Some(Spec(s.fields, s.conflict, s.id))
    }

    ghost function SlotAt(j: nat): Slot
      requires Valid() && j < |builders|
      reads this, Repr
    {
      var m, n := builders[j].mutation, nodes[j];
      Slot(m.fields, m.done, n != null && m.node == n,
           if n == null then None else Some(Node(n.id, n.fields)),
           SpecAt(j))
    }

    ghost function Slots(): (ss: seq<Slot>)
      requires Valid()
      reads this, Repr
      ensures |ss| == |builders| && forall j | 0 <= j < |ss| :: ss[j] == SlotAt(j)
    {
      seq(|builders|, j requires 0 <= j < |builders| reads this, Repr requires Valid() => SlotAt(j))
    }

    ghost function View(): World
      requires Valid()
      reads this, Repr, journal
    {
      World(Slots(), journal.batches, journal.trace)
    }

    ghost function TheJob(): (job: Job)
      ensures |job.hooks| == |job.conflicts| == |builders|
      ensures forall j | 0 <= j < |builders| :: job.hooks[j] == builders[j].hooks && job.conflicts[j] == builders[j].conflict
    {
      Job(seq(|builders|, j requires 0 <= j < |builders| => builders[j].hooks),
          seq(|builders|, j requires 0 <= j < |builders| => builders[j].conflict),
          conflict, reply)
    }

    ghost function ArgOf(i: nat, m: BotStateMutation?): Arg
      requires i < |builders|
      reads builders[i], m
    {
      if m == null then Alien else if m == builders[i].mutation then Own else Swapped(m.fields)
    }

    // A mutation handed to builder i belongs to it, or to no builder and is not done.
    ghost predicate ArgOk(i: nat, m: BotStateMutation?)
      requires i < |builders|
      reads builders, m
    {
      && (m == null || forall j | 0 <= j < |builders| && j != i :: m != builders[j].mutation)
      && (m == null || m == builders[i].mutation || !m.done)
    }

    constructor (builders: seq<BotStateCreate>, conflict: seq<nat>, journal: Journal,
                 reply: (seq<Option<Spec>>, seq<nat>) -> Reply)
      requires Separate(builders)
      ensures Valid() && this.builders == builders && this.conflict == conflict && this.reply == reply
      ensures this.journal == journal
      ensures Repr == (set j | 0 <= j < |builders| :: builders[j]) + (set j | 0 <= j < |builders| :: builders[j].mutation)
      ensures nodes == seq(|builders|, _ => null) && specs == seq(|builders|, _ => null)
    {
      this.builders := builders;
      this.conflict := conflict;
      this.reply := reply;
      nodes := seq(|builders|, _ => null);
      specs := seq(|builders|, _ => null);
      this.journal := journal;
      Repr := (set j | 0 <= j < |builders| :: builders[j]) + (set j | 0 <= j < |builders| :: builders[j].mutation);
    }

    // sqlgraph.BatchCreate on the shared specs: refused, or the assigned ids written into them.
    method BatchCreate() returns (err: Option<Error>)
      requires Valid()
      modifies journal, (set s: object | s in specs)
      ensures Valid() && Repr == old(Repr)
      ensures Outcome(View(), err) == RunBatch(TheJob(), old(View()))
      ensures |journal.batches| == old(|journal.batches|) + 1
      ensures match reply(journal.batches[old(|journal.batches|)], conflict)
              case Rejected(code, constraint) =>
                err == Some(if constraint then ConstraintError(code) else DriverError(code))
              case Inserted(ids) =>
                err == None && forall j | 0 <= j < |specs| && specs[j] != null ::
                  specs[j].id == if j < |ids| then ids[j] else None
    {
      var sent := seq(|specs|, j requires 0 <= j < |specs| reads this, (set s: object | s in specs) =>
        if specs[j] == null then None else Some(Spec(specs[j].fields, specs[j].conflict, specs[j].id)));
      assert sent == Specs(View().slots);
      journal.batches := journal.batches + [sent];
      journal.trace := journal.trace + [Batch];
      match reply(sent, conflict) {
        case Rejected(code, constraint) =>
          err := Some(if constraint then ConstraintError(code) else DriverError(code));
        case Inserted(ids) =>
          WriteIds(ids);
          err := None;
      }
    }

    // The database writes the assigned ids into the specs.
    method WriteIds(ids: seq<Option<int>>)
      requires Valid()
      modifies set s: object | s in specs
      ensures Valid()
      ensures Slots() == BulkChain.StoreIds(old(Slots()), ids)
      ensures forall j | 0 <= j < |specs| && specs[j] != null :: specs[j].id == if j < |ids| then ids[j] else None
    {
      forall j | 0 <= j < |specs| && specs[j] != null {
        specs[j].id := IdAt(ids, j);
      }
      assert forall j | 0 <= j < |builders| :: SlotAt(j) == WithId(old(SlotAt(j)), IdAt(ids, j));
    }

    // A hook edits the mutation it received.
    method Edit(i: nat, m: BotStateMutation, edit: Fields -> Fields)
      requires Valid() && i < |builders| && ArgOk(i, m)
      modifies m
      ensures Valid() && ArgOk(i, m) && m.fields == edit(old(m.fields))
      ensures View() == Edited(old(View()), i, old(ArgOf(i, m)), edit)
    {
      m.fields := edit(m.fields);
      assert forall j | 0 <= j < |builders| && j != i :: SlotAt(j) == old(SlotAt(j));
      assert m != builders[i].mutation ==> SlotAt(i) == old(SlotAt(i));
    }

    // A hook picks the mutation to hand on.
    method HandOn(m: BotStateMutation?, pass: Pass) returns (next: BotStateMutation?)
      ensures pass.Same? ==> next == m
      ensures pass.Foreign? ==> next == null
      ensures pass.Other? ==> next != null && fresh(next) && next.fields == pass.fields && !next.done
    {
      match pass {
        case Same => next := m;
        case Other(f) => next := new BotStateMutation(f);
        case Foreign => next := null;
      }
    }

    // The slots of builder i get a new node and spec of its mutation.
    method FillSlots(i: nat)
      requires Valid() && i < |builders|
      modifies this`nodes, this`specs, this`Repr
      ensures Valid() && old(Repr) <= Repr && fresh(Repr - old(Repr))
      ensures nodes[i] != null && specs[i] != null
      ensures forall j | 0 <= j < |builders| && j != i :: nodes[j] == old(nodes[j]) && specs[j] == old(specs[j])
      ensures forall j | 0 <= j < |builders| && j != i :: SlotAt(j) == old(SlotAt(j))
      ensures var m := builders[i].mutation;
        SlotAt(i) == Slot(m.fields, m.done, false, Some(Node(0, m.fields)), Some(Spec(m.fields, builders[i].conflict, None)))
    {
      var node, spec := builders[i].CreateSpec();
      nodes, specs := nodes[i := node], specs[i := spec];
      Repr := Repr + {node, spec};
    }

    // The builder takes the mutation over; its slots get a new node and spec.
    method Build(i: nat, m: BotStateMutation)
      requires Valid() && i < |builders| && ArgOk(i, m)
      modifies this`nodes, this`specs, this`Repr, builders[i]
      ensures Valid() && old(Repr) <= Repr && fresh(Repr - old(Repr) - {m})
      ensures builders[i].mutation == m && nodes[i] != null && specs[i] != null
      ensures forall j | 0 <= j < |builders| && j != i :: nodes[j] == old(nodes[j]) && specs[j] == old(specs[j])
      ensures forall j | 0 <= j < |builders| && j != i :: builders[j].mutation == old(builders[j].mutation)
      ensures View() == old(View()).(
        slots := old(View()).slots[i := Built(old(SlotAt(i)), old(ArgOf(i, m)), builders[i].conflict)])
    {
      builders[i].mutation := m;
      Repr := Repr + {m};
      assert forall j | 0 <= j < |builders| && j != i :: SlotAt(j) == old(SlotAt(j));
      FillSlots(i);
    }

    // Link the mutation to its node, give the node the id the database wrote into the spec, and mark it done.
    method Finish(i: nat)
      requires Valid() && i < |builders| && nodes[i] != null && specs[i] != null
      modifies builders[i].mutation, nodes[i]
      ensures Valid() && Repr == old(Repr)
      ensures View() == old(View()).(slots := old(View()).slots[i := Finished(old(SlotAt(i)))])
    {
      var m := builders[i].mutation;
      m.node := nodes[i];
      if specs[i].id.Some? {
        nodes[i].id := specs[i].id.value;
      }
      m.done := true;
      assert forall j | 0 <= j < |builders| && j != i :: SlotAt(j) == old(SlotAt(j));
    }

    // One call of mutator i from its hook h on, with the mutation m (null: a mutation of another type).
    method Mutate(i: nat, h: nat, m: BotStateMutation?) returns (err: Option<Error>)
      requires Valid() && i < |builders| && h <= |builders[i].hooks| && ArgOk(i, m)
      modifies this, journal, Repr, m
      ensures Valid()
      ensures Outcome(View(), err) == Invoke(TheJob(), old(View()), i, h, old(ArgOf(i, m)))
      ensures fresh(Repr - old(Repr) - {m})
      ensures forall j | 0 <= j < i ::
        builders[j].mutation == old(builders[j].mutation) && nodes[j] == old(nodes[j]) && specs[j] == old(specs[j])
      decreases |builders| - i, |builders[i].hooks| - h, 2
    {
      if h == |builders[i].hooks| {
        err := MutateInnermost(i, m);
      } else {
        journal.trace := journal.trace + [Enter(i, h)];
        err := MutateHook(i, h, m);
        journal.trace := journal.trace + [Exit(i, h)];
      }
    }

    // Hook h of builder i.
    method MutateHook(i: nat, h: nat, m: BotStateMutation?) returns (err: Option<Error>)
      requires Valid() && i < |builders| && h < |builders[i].hooks| && ArgOk(i, m)
      modifies this, journal, Repr, m
      ensures Valid()
      ensures Outcome(View(), err) == RunHook(TheJob(), old(View()), i, h, old(ArgOf(i, m)))
      ensures fresh(Repr - old(Repr) - {m})
      ensures forall j | 0 <= j < i ::
        builders[j].mutation == old(builders[j].mutation) && nodes[j] == old(nodes[j]) && specs[j] == old(specs[j])
      decreases |builders| - i, |builders[i].hooks| - h, 0
    {
      match builders[i].hooks[h] {
        case Veto(code) => err := Some(HookError(code));
        case Skip => err := None;
        case Forward(edit, pass, after) =>
          if m != null {
            Edit(i, m, edit);
          }
          ghost var w := View();
          assert w == Edited(old(View()), i, old(ArgOf(i, m)), edit);
          var next := HandOn(m, pass);
          assert ArgOf(i, next) == Passed(old(ArgOf(i, m)), edit, pass);
          err := Mutate(i, h + 1, next);
          assert Outcome(View(), err) == Invoke(TheJob(), w, i, h + 1, Passed(old(ArgOf(i, m)), edit, pass));
          err := after(err);
      }
    }

    // The call inside closure i: the next mutator with its builder's mutation, or the database.
    method CallNext(i: nat) returns (err: Option<Error>)
      requires Valid() && i < |builders|
      modifies this, journal, Repr
      ensures Valid()
      ensures Outcome(View(), err) ==
        if i + 1 < |builders| then Invoke(TheJob(), old(View()), i + 1, 0, Own) else RunBatch(TheJob(), old(View()))
      ensures fresh(Repr - old(Repr))
      ensures forall j | 0 <= j <= i ::
        builders[j].mutation == old(builders[j].mutation) && nodes[j] == old(nodes[j]) && specs[j] == old(specs[j])
      decreases |builders| - i, 0, 0
    {
      if i + 1 < |builders| {
        err := Mutate(i + 1, 0, builders[i + 1].mutation);
      } else {
        err := BatchCreate();
      }
    }

    // Closure i itself.
    method MutateInnermost(i: nat, m: BotStateMutation?) returns (err: Option<Error>)
      requires Valid() && i < |builders| && ArgOk(i, m)
      modifies this, journal, Repr, m
      ensures Valid()
      ensures Outcome(View(), err) == Innermost(TheJob(), old(View()), i, old(ArgOf(i, m)))
      ensures fresh(Repr - old(Repr) - {m})
      ensures forall j | 0 <= j < i ::
        builders[j].mutation == old(builders[j].mutation) && nodes[j] == old(nodes[j]) && specs[j] == old(specs[j])
      decreases |builders| - i, 0, 1
    {
      if m == null {
        return Some(UnexpectedMutation);
      }
      err := Check(builders[i].mutation.fields);
      if err.Some? {
        return;
      }
      Build(i, m);
      err := CallNext(i);
      if err.None? {
        Finish(i);
      }
    }
  }

  // Builders as Create makes them: each with a mutation of its own.
  ghost predicate Separate(builders: seq<BotStateCreate>)
    reads builders
  {
    forall j, k | 0 <= j < k < |builders| ::
      builders[j] != builders[k] && builders[j].mutation != builders[k].mutation
  }

  class BotStateCreateBulk {
    const err: Option<Error>
    const builders: seq<BotStateCreate>
    const conflict: seq<nat>

    constructor (builders: seq<BotStateCreate>, conflict: seq<nat>, err: Option<Error>)
      ensures this.builders == builders && this.conflict == conflict && this.err == err
    {
      this.builders := builders;
      this.conflict := conflict;
      this.err := err;
    }

    ghost function TheJob(reply: (seq<Option<Spec>>, seq<nat>) -> Reply): (job: Job) {
      Job(seq(|builders|, j requires 0 <= j < |builders| => builders[j].hooks),
          seq(|builders|, j requires 0 <= j < |builders| => builders[j].conflict),
          conflict, reply)
    }

    // The slots a save starts from: every mutation with its defaults set.
    ghost function Start(now: int): (ss: seq<Slot>)
      reads builders, set j | 0 <= j < |builders| :: builders[j].mutation
      ensures |ss| == |builders|
    {
      seq(|builders|, j requires 0 <= j < |builders|
                      reads builders, set k | 0 <= k < |builders| :: builders[k].mutation =>
        Slot(WithDefaults(builders[j].mutation.fields, now), builders[j].mutation.done, false, None, None))
    }

    // Builder j, its mutation and its node are as the slot says.
    ghost predicate Shows(j: nat, slot: Slot, node: BotState?)
      requires j < |builders|
      reads builders, builders[j].mutation, node
    {
      var m := builders[j].mutation;
      && m.fields == slot.fields && m.done == slot.done
      && (slot.node.Some? <==> node != null)
      && (node != null ==> Node(node.id, node.fields) == slot.node.value && (m.node == node <==> slot.linked))
    }

    // Every builder gets its defaults, also one that is named twice.
    method SetDefaults(now: int)
      modifies set j | 0 <= j < |builders| :: builders[j].mutation
      ensures forall j | 0 <= j < |builders| ::
        && builders[j].mutation.fields == WithDefaults(old(builders[j].mutation.fields), now)
        && builders[j].mutation.done == old(builders[j].mutation.done)
    {
      ghost var seen: set<BotStateMutation> := {};
      for i := 0 to |builders|
        invariant seen == set j | 0 <= j < i :: builders[j].mutation
        invariant forall j | 0 <= j < |builders| ::
          && builders[j].mutation.done == old(builders[j].mutation.done)
          && builders[j].mutation.fields ==
               if builders[j].mutation in seen then WithDefaults(old(builders[j].mutation.fields), now)
               else old(builders[j].mutation.fields)
      {
        builders[i].Defaults(now);
        seen := seen + {builders[i].mutation};
      }
    }

    // The slots of builders for which nothing was built yet.
    ghost function Unbuilt(): (ss: seq<Slot>)
      reads builders, set j | 0 <= j < |builders| :: builders[j].mutation
      ensures |ss| == |builders|
      ensures forall j | 0 <= j < |ss| ::
        ss[j] == Slot(builders[j].mutation.fields, builders[j].mutation.done, false, None, None)
    {
      seq(|builders|, j requires 0 <= j < |builders|
                      reads builders, set k | 0 <= k < |builders| :: builders[k].mutation =>
        Slot(builders[j].mutation.fields, builders[j].mutation.done, false, None, None))
    }

    // The builders, their mutations and the nodes are as the outcome of the value chain says.
    ghost predicate Matches(r: Outcome, journal: Journal, nodes: seq<BotState?>, error: Option<Error>)
      reads journal, builders, nodes, set j | 0 <= j < |builders| :: builders[j].mutation
    {
      && error == r.err && r.world.batches == journal.batches && r.world.trace == journal.trace
      && |r.world.slots| == |builders|
      && (error.Some? ==> nodes == [])
      && (error.None? ==> |nodes| == |builders|)
      && (error.None? ==> forall j | 0 <= j < |builders| :: Shows(j, r.world.slots[j], nodes[j]))
      && (forall j | 0 <= j < |builders| ::
            builders[j].mutation.fields == r.world.slots[j].fields && builders[j].mutation.done == r.world.slots[j].done)
    }

    lemma ScopeMatches(scope: SaveScope, journal: Journal, error: Option<Error>)
      requires scope.Valid() && scope.builders == builders && scope.journal == journal
      ensures Matches(Outcome(scope.View(), error), journal, if error.Some? then [] else scope.nodes, error)
    {
      assert forall j | 0 <= j < |builders| :: scope.Slots()[j] == scope.SlotAt(j);
    }

    // The chain of closures, once the defaults are set.
    method RunChain(journal: Journal, reply: (seq<Option<Spec>>, seq<nat>) -> Reply)
      returns (nodes: seq<BotState?>, error: Option<Error>)
      requires Separate(builders)
      modifies journal, builders, set j | 0 <= j < |builders| :: builders[j].mutation
      ensures Matches(BulkChain.Save(TheJob(reply), World(old(Unbuilt()), old(journal.batches), old(journal.trace))),
                      journal, nodes, error)
    {
      var scope := new SaveScope(builders, conflict, journal, reply);
      assert scope.View().slots == Unbuilt();
      assert scope.TheJob() == TheJob(reply);
      error := None;
      if |builders| > 0 {
        error := scope.Mutate(0, 0, builders[0].mutation);
      }
      nodes := if error.Some? then [] else scope.nodes;
      ScopeMatches(scope, journal, error);
    }

    method Save(journal: Journal, reply: (seq<Option<Spec>>, seq<nat>) -> Reply, now: int)
      returns (nodes: seq<BotState?>, error: Option<Error>)
      requires Separate(builders)
      modifies journal, builders, set j | 0 <= j < |builders| :: builders[j].mutation
      ensures err.Some? ==> error == err && nodes == [] && unchanged(journal)
      ensures err.None? ==>
        Matches(BulkChain.Save(TheJob(reply), World(old(Start(now)), old(journal.batches), old(journal.trace))),
                journal, nodes, error)
      ensures err.None? && error.None? && (forall j | 0 <= j < |builders| :: !old(builders[j].mutation.done)) ==>
        IdsAreOwn(reply, old(|journal.batches|), journal, nodes)
    {
      if err.Some? {
        return [], err;
      }
      ghost var start := Start(now);
      SetDefaults(now);
      assert Unbuilt() == start;
      ghost var w := World(start, journal.batches, journal.trace);
      nodes, error := RunChain(journal, reply);
      if error.None? && Fresh(start, 0) { ShownIdsAreOwn(reply, w, journal, nodes); }
    }

    // Every builder that is done has a node with the id that the database gave to its own row, or 0 if it gave none.
    ghost predicate IdsAreOwn(reply: (seq<Option<Spec>>, seq<nat>) -> Reply, before: nat, journal: Journal,
        nodes: seq<BotState?>)
      reads journal, builders, nodes, set j | 0 <= j < |builders| :: builders[j].mutation
    {
      |nodes| == |builders| && forall j | 0 <= j < |builders| && builders[j].mutation.done ::
        && nodes[j] != null && builders[j].mutation.node == nodes[j]
        && nodes[j].id == GivenId(reply, conflict, before, journal.batches, j)
    }

    lemma ShownIdsAreOwn(reply: (seq<Option<Spec>>, seq<nat>) -> Reply, w: World, journal: Journal,
        nodes: seq<BotState?>)
      requires |w.slots| == |builders| && Fresh(w.slots, 0)
      requires Matches(BulkChain.Save(TheJob(reply), w), journal, nodes, None)
      ensures IdsAreOwn(reply, |w.batches|, journal, nodes)
    {
      IdsReachTheirBuilders(TheJob(reply), w);
      var r := BulkChain.Save(TheJob(reply), w);
      forall j | 0 <= j < |builders| && builders[j].mutation.done
        ensures nodes[j] != null && builders[j].mutation.node == nodes[j]
        ensures nodes[j].id == GivenId(reply, conflict, |w.batches|, journal.batches, j)
      {
        assert Shows(j, r.world.slots[j], nodes[j]);
      }
    }
  }
}
